/**
 * The share page (client/src/pages/EmergencyShare.tsx): the message built
 * from the URL's query parameters, the `sms:` and `mailto:` links that carry
 * it, and the choice between the maps link and the page's own URL. The
 * browser calls that open these links are not modelled; the time text that
 * `toLocaleString` produces is an input.
 */
module Share {
  import opened Common
  import opened Schema
  import opened UriComponent
  import EmergencyLib

  /** `Object.fromEntries(url.searchParams.entries())`: the last value of each name. */
  type Params = map<string, string>

  /** A parameter as `emergencyInfo.x` is tested: present and not empty. */
  function Param(params: Params, name: string): (r: Option<string>)
    ensures r.Some? <==> name in params && params[name] != ""
    ensures r.Some? ==> r.value == params[name]
  {
    if name in params && params[name] != "" then Some(params[name]) else None
  }

  /** `emergencyInfo.x || fallback`. */
  function ParamOr(params: Params, name: string, fallback: string): string {
    match Param(params, name)
    case Some(v) => v
    case None => fallback
  }

  /**
   * Lines 30-33: a non-empty `message` parameter verbatim, otherwise the
   * alert text with `UNKNOWN` and `0` standing in for missing values and a
   * time line.
   */
  function ShareMessage(params: Params, timeText: string): (m: string)
    ensures Param(params, "message").Some? ==> m == params["message"]
  {
    match Param(params, "message")
    case Some(m) => m
    case None =>
      "EMERGENCY: Helmet user detected a crash!\nSeverity: " + ParamOr(params, "severity", "UNKNOWN") +
      "\nLocation: https://www.google.com/maps?q=" + ParamOr(params, "lat", "0") + "," + ParamOr(params, "lng", "0") +
      "\nTime: " + timeText
  }

  /**
   * Without a message parameter, the page shows the same alert text the
   * client sends, for the parameters' severity and coordinates, plus a time line.
   */
  lemma DefaultMessageIsAlertPlusTime(params: Params, timeText: string, location: Location)
    requires Param(params, "message").None?
    requires location.lat.text == ParamOr(params, "lat", "0") && location.lng.text == ParamOr(params, "lng", "0")
    ensures ShareMessage(params, timeText) ==
      EmergencyLib.CreateEmergencyMessage(ParamOr(params, "severity", "UNKNOWN"), location) + "\nTime: " + timeText
  {
    EmergencyLib.ServerLiterals();
    var sev := ParamOr(params, "severity", "UNKNOWN");
    var lat, lng := location.lat.text, location.lng.text;
    calc {
      EmergencyLib.CreateEmergencyMessage(sev, location) + "\nTime: " + timeText;
      (EmergencyLib.Header + "\n" + EmergencyLib.SeverityLabel) + sev + ("\n" + EmergencyLib.MapsPrefix) + lat + "," + lng
        + "\nTime: " + timeText;
    }
  }

  const SmsPrefix := "sms:?body="
  const MailSubject := "EMERGENCY: Crash Detected"

  /**
   * Lines 81-84: the SMS link of RFC 5724 with the message as its `body`.
   * Whatever the message, nothing after the prefix can end the body field
   * or start a fragment.
   */
  function SmsLink(message: string): (link: string)
    ensures StartsWith(link, SmsPrefix)
    ensures '&' !in link[|SmsPrefix|..] && '#' !in link[|SmsPrefix|..]
  {
    EncodedHasNoDelimiters(message);
    SmsPrefix + EncodeURIComponent(message)
  }

  /**
   * Lines 86-90: the mail link of RFC 6068 with the fixed subject and the
   * message as its body; its only `&` is the one between the two fields.
   */
  function MailtoLink(message: string): (link: string)
    ensures Occurrences(link, '&') == 1
  {
    MailtoHasOneAmpersand(MailSubject, message);
    MailtoWith(MailSubject, message)
  }

  /** The mail link for a given subject; the lemmas below hold for every subject, the fixed one included. */
  function MailtoWith(subject: string, message: string): string {
    "mailto:?subject=" + EncodeURIComponent(subject) + "&body=" + EncodeURIComponent(message)
  }

  /** The SMS link's body decodes to the UTF-8 bytes of the message. */
  lemma SmsBodyDecodes(message: string)
    ensures var link := SmsLink(message);
      && link[..|SmsPrefix|] == SmsPrefix
      && PercentDecode(link[|SmsPrefix|..]) == Some(Utf8String(message))
  {
    DecodeEncode(message);
    assert SmsLink(message)[|SmsPrefix|..] == EncodeURIComponent(message);
  }

  /**
   * The query of the mail link splits at `&` into exactly its two fields, and
   * the body field decodes back to the message's UTF-8 bytes.
   */
  lemma MailtoQueryFields(subject: string, message: string)
    ensures var q := MailtoWith(subject, message)[|"mailto:?"|..];
      && Split(q, '&') == ["subject=" + EncodeURIComponent(subject), "body=" + EncodeURIComponent(message)]
      && PercentDecode(Split(q, '&')[1][|"body="|..]) == Some(Utf8String(message))
  {
    var s, b := EncodeURIComponent(subject), EncodeURIComponent(message);
    var subjectField, bodyField := "subject=" + s, "body=" + b;
    MailtoShape(s, b);
    assert MailtoWith(subject, message) == "mailto:?" + (subjectField + ['&'] + bodyField);
    EncodedHasNoDelimiters(subject);
    EncodedHasNoDelimiters(message);
    FieldNamesHaveNoAmpersand();
    TwoFields(subjectField, bodyField, '&');
    assert bodyField[|"body="|..] == b;
    DecodeEncode(message);
  }

  /** Whatever the message, the mail link holds exactly one `&`, the one between its two fields. */
  lemma MailtoHasOneAmpersand(subject: string, message: string)
    ensures Occurrences(MailtoWith(subject, message), '&') == 1
  {
    var link := MailtoWith(subject, message);
    MailtoQueryFields(subject, message);
    MailtoShape(EncodeURIComponent(subject), EncodeURIComponent(message));
    var q := link[|"mailto:?"|..];
    assert |Split(q, '&')| == 2;
    assert link == "mailto:?" + q;
    FieldNamesHaveNoAmpersand();
    OccurrencesAbsent("mailto:?", '&');
    OccurrencesAppend("mailto:?", q, '&');
  }

  /** The mail link is `mailto:?`, the subject field, `&`, the body field. */
  lemma MailtoShape(s: string, b: string)
    ensures "mailto:?subject=" + s + "&body=" + b == "mailto:?" + (("subject=" + s) + ['&'] + ("body=" + b))
  {
    assert "mailto:?subject=" == "mailto:?" + "subject=";
    assert "&body=" == ['&'] + "body=";
  }

  lemma FieldNamesHaveNoAmpersand()
    ensures '&' !in "mailto:?" && '&' !in "subject=" && '&' !in "body="
  {
  }

  /** Two pieces without the separator, joined by it, split back into themselves. */
  lemma TwoFields(x: string, y: string, sep: char)
    requires sep !in x && sep !in y
    ensures Split(x + [sep] + y, sep) == [x, y]
  {
    assert Join([x, y], sep) == x + [sep] + y by {
      assert [x, y][1..] == [y];
    }
    SplitJoin([x, y], sep);
  }

  /** `emergencyInfo.lat && emergencyInfo.lng`: both coordinates present and not empty. */
  predicate HasCoordinates(params: Params) {
    Param(params, "lat").Some? && Param(params, "lng").Some?
  }

  function MapsLink(lat: string, lng: string): string {
    "https://www.google.com/maps?q=" + lat + "," + lng
  }

  /** Lines 50-52: the URL handed to the share sheet. */
  function ShareUrl(params: Params, pageUrl: string): string {
    if HasCoordinates(params) then MapsLink(params["lat"], params["lng"]) else pageUrl
  }

  /** Lines 75-79: the page `openMaps` opens, if any. */
  function OpenMaps(params: Params): Option<string> {
    if Param(params, "lat").Some? && Param(params, "lng").Some? then
      Some(MapsLink(params["lat"], params["lng"]))
    else None
  }

  /** Line 194: the maps button is disabled when either coordinate is missing or empty. */
  predicate MapsDisabled(params: Params) {
    Param(params, "lat").None? || Param(params, "lng").None?
  }

  /**
   * The three places agree: the maps button is enabled exactly when
   * `openMaps` opens something, and then it opens the URL the share sheet
   * receives; otherwise the share sheet gets the page's own URL.
   */
  lemma MapsRuleConsistent(params: Params, pageUrl: string)
    ensures !MapsDisabled(params) <==> OpenMaps(params).Some?
    ensures OpenMaps(params).Some? ==> ShareUrl(params, pageUrl) == OpenMaps(params).value
    ensures OpenMaps(params).None? ==> ShareUrl(params, pageUrl) == pageUrl
  {
  }
}

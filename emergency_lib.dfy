/**
 * The client's emergency helpers (client/src/lib/emergency.ts): the
 * three-line alert text and the payload of `sendEmergencyNotifications`.
 * The POST itself is not modelled; a location's numbers are taken with
 * the text their template rendering produces.
 */
module EmergencyLib {
  import opened Common
  import opened Schema
  import Routes

  const Header := "EMERGENCY: Helmet user detected a crash!"
  const SeverityLabel := "Severity: "
  const MapsPrefix := "Location: https://www.google.com/maps?q="

  /** Lines 38-42: header, severity line and maps line, separated by line feeds. */
  function CreateEmergencyMessage(severity: string, location: Location): string {
    Header + "\n" + SeverityLabel + severity + "\n" + MapsPrefix + location.lat.text + "," + location.lng.text
  }

  /** The three lines of the message. */
  function MessageLines(severity: string, location: Location): seq<string> {
    [Header, SeverityLabel + severity, MapsPrefix + location.lat.text + "," + location.lng.text]
  }

  /**
   * The message is exactly its three lines joined by line feeds, and so it
   * splits back into them whenever the inserted values hold no line feed.
   */
  lemma MessageHasThreeLines(severity: string, location: Location)
    requires '\n' !in severity && '\n' !in location.lat.text && '\n' !in location.lng.text
    ensures Split(CreateEmergencyMessage(severity, location), '\n') == MessageLines(severity, location)
  {
    var a, b, c := Header, SeverityLabel + severity, MapsPrefix + location.lat.text + "," + location.lng.text;
    NoLineFeedInLabels();
    assert '\n' !in b;
    assert '\n' !in c;
    SplitThree(a, b, c);
    assert CreateEmergencyMessage(severity, location) == a + "\n" + b + "\n" + c;
  }

  /** Three pieces without line feeds, joined by line feeds, split back into themselves. */
  lemma SplitThree(a: string, b: string, c: string)
    requires '\n' !in a && '\n' !in b && '\n' !in c
    ensures Split(a + "\n" + b + "\n" + c, '\n') == [a, b, c]
  {
    var parts := [a, b, c];
    assert Join(parts[2..], '\n') == c;
    assert Join(parts[1..], '\n') == b + "\n" + c;
    assert Join(parts, '\n') == a + "\n" + (b + "\n" + c);
    assert a + "\n" + (b + "\n" + c) == a + "\n" + b + "\n" + c;
    SplitJoin(parts, '\n');
  }

  /** For the same severity and location the client's text is the server's SMS text. */
  lemma SameAsServerMessage(severity: string, location: Location)
    ensures CreateEmergencyMessage(severity, location) ==
      Routes.EmergencySmsMessage(severity, location.lat.text, location.lng.text)
  {
    ServerLiterals();
    var lat, lng := location.lat.text, location.lng.text;
    calc {
      CreateEmergencyMessage(severity, location);
      (Header + "\n" + SeverityLabel) + severity + ("\n" + MapsPrefix) + lat + "," + lng;
      Routes.EmergencySmsMessage(severity, lat, lng);
    }
  }

  /** The fixed parts of the message hold no line feed. */
  lemma NoLineFeedInLabels()
    ensures '\n' !in Header && '\n' !in SeverityLabel && '\n' !in MapsPrefix && '\n' !in ","
  {
    NoLineFeedInHeader();
    NoLineFeedInMapsPrefix();
  }

  lemma NoLineFeedInHeader()
    ensures '\n' !in Header
  {
  }

  lemma NoLineFeedInMapsPrefix()
    ensures '\n' !in MapsPrefix
  {
  }

  /** The server writes the same fixed text in one piece before the severity and one before the coordinates. */
  lemma ServerLiterals()
    ensures Header + "\n" + SeverityLabel == ServerHead
    ensures "\n" + MapsPrefix == ServerMiddle
  {
    var h := |Header|;
    assert ServerHead[..h] == Header;
    assert ServerHead[h] == '\n';
    assert ServerHead[h + 1..] == SeverityLabel;
    assert ServerHead == ServerHead[..h] + [ServerHead[h]] + ServerHead[h + 1..];
    assert ServerMiddle[1..] == MapsPrefix;
    assert ServerMiddle == [ServerMiddle[0]] + ServerMiddle[1..];
  }

  /** The literal text the server puts before the severity, and between it and the coordinates. */
  const ServerHead := "EMERGENCY: Helmet user detected a crash!\nSeverity: "
  const ServerMiddle := "\nLocation: https://www.google.com/maps?q="

  /** The severity appears verbatim, unescaped, right after `Severity: ` on the second line. */
  lemma SeverityVerbatim(severity: string, location: Location)
    ensures var m, k := CreateEmergencyMessage(severity, location), |Header| + 1 + |SeverityLabel|;
      && k + |severity| < |m|
      && m[k - |SeverityLabel|..k] == SeverityLabel
      && m[k..k + |severity|] == severity
      && m[k + |severity|] == '\n'
  {
    var m := CreateEmergencyMessage(severity, location);
    var k := |Header| + 1 + |SeverityLabel|;
    var rest := "\n" + MapsPrefix + location.lat.text + "," + location.lng.text;
    assert m == Header + "\n" + SeverityLabel + severity + rest;
  }

  /** The JSON body of `sendEmergencyNotifications`; `contactIds` is `None` when left undefined. */
  datatype Payload = Payload(severity: string, location: Location, contactIds: Option<seq<int>>)

  /** Lines 20-25: `contacts?.map(c => c.id)`. */
  function BuildPayload(severity: string, location: Location, contacts: Option<seq<Contact>>): (p: Payload)
    ensures p.severity == severity && p.location == location
    ensures p.contactIds.Some? <==> contacts.Some?
    ensures contacts.Some? ==>
      && |p.contactIds.value| == |contacts.value|
      && forall i :: 0 <= i < |contacts.value| ==> p.contactIds.value[i] == contacts.value[i].id
  {
    if contacts.None? then Payload(severity, location, None)
    else Payload(severity, location, Some(seq(|contacts.value|, i requires 0 <= i < |contacts.value| => contacts.value[i].id)))
  }

  /**
   * What the server makes of the payload: with no contacts given every
   * stored contact is a target, otherwise exactly the stored contacts whose
   * id one of the given contacts has.
   */
  lemma PayloadTargets(stored: seq<Contact>, severity: string, location: Location, contacts: Option<seq<Contact>>)
    ensures var ids := BuildPayload(severity, location, contacts).contactIds;
      && (contacts.None? ==> Routes.TargetContacts(stored, ids) == stored)
      && (contacts.Some? ==>
            forall c :: c in Routes.TargetContacts(stored, ids) <==>
              c in stored && exists d :: d in contacts.value && d.id == c.id)
  {
    var ids := BuildPayload(severity, location, contacts).contactIds;
    if contacts.Some? {
      forall c: Contact
        ensures c.id in ids.value <==> exists d :: d in contacts.value && d.id == c.id
      {
        if c.id in ids.value {
          var i :| 0 <= i < |ids.value| && ids.value[i] == c.id;
          assert contacts.value[i] in contacts.value;
        }
        if exists d :: d in contacts.value && d.id == c.id {
          var d :| d in contacts.value && d.id == c.id;
          var i :| 0 <= i < |contacts.value| && contacts.value[i] == d;
          assert ids.value[i] == c.id;
        }
      }
    }
  }
}

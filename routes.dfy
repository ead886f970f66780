/**
 * The HTTP handlers of server/routes.ts that carry logic: the contact routes
 * (id checks, create-versus-update), the settings validation, and the
 * `/api/emergency/sms` handler. Request parsing is reduced to its outcome:
 * a route id is the result of `parseInt` (`None` for NaN), and a body that
 * zod rejects is `None`. The SMS client's reply to each send is an input.
 */
module Routes {
  import opened Common
  import opened Schema
  import opened Storage

  datatype Body =
    | ContactList(contacts: seq<Contact>)
    | ContactBody(contact: Contact)
    | ErrorMessage(message: string)
    | SuccessFlag(success: bool)
    | SettingsBody(settings: AppSettings)
    | NoContactsAvailable(message: string, sentCount: nat)
    | EmergencySummary(success: bool, sentCount: nat, skippedCount: nat, failedCount: nat)

  datatype Response = Response(status: int, body: Body)

  const InvalidId := Response(400, ErrorMessage("Invalid contact ID"))
  const ContactNotFound := Response(404, ErrorMessage("Contact not found"))
  const InvalidContactData := Response(400, ErrorMessage("Invalid contact data"))

  // ---------------------------------------------------------------- contacts

  /** Lines 24-32. */
  method GetContactsRoute(store: MemStorage) returns (res: Response)
    ensures res == Response(200, ContactList(store.contacts))
  {
    var cs := store.GetContacts();
    res := Response(200, ContactList(cs));
  }

  /** Lines 35-51: a non-numeric id is 400, an unknown one 404. */
  method GetContactRoute(store: MemStorage, id: Option<int>) returns (res: Response)
    requires store.Valid()
    ensures id.None? ==> res == InvalidId
    ensures id.Some? && !HasContact(store.contacts, id.value) ==> res == ContactNotFound
    ensures id.Some? && HasContact(store.contacts, id.value) ==>
      res.status == 200 && res.body.ContactBody? &&
      res.body.contact in store.contacts && res.body.contact.id == id.value
  {
    if id.None? {
      return InvalidId;
    }
    var c := store.GetContact(id.value);
    if c.None? {
      return ContactNotFound;
    }
    res := Response(200, ContactBody(c.value));
  }

  /** The fields a full contact body supplies to an update: those not left out. */
  function AsPatch(c: NewContact): (p: ContactPatch)
    ensures p.name == Some(c.name) && p.phone == Some(c.phone)
    ensures p.email.None? <==> c.email.Undefined?
    ensures p.sendSms.None? <==> c.sendSms.Undefined?
    ensures p.sendEmail.None? <==> c.sendEmail.Undefined?
    ensures p.userId.None? <==> c.userId.Undefined?
  {
    ContactPatch(Some(c.name), Some(c.phone), Supplied(c.email), Supplied(c.sendSms),
                 Supplied(c.sendEmail), Supplied(c.userId))
  }

  function Supplied<T>(x: Input<T>): Option<Option<T>> {
    match x
    case Undefined => None
    case Null => Some(None)
    case Given(v) => Some(Some(v))
  }

  /** `req.body.id`: falsy (left out, 0, empty), or truthy with what `parseInt` made of it. */
  datatype BodyId = NoBodyId | BodyIdGiven(parsed: Option<int>)

  /**
   * Lines 54-81: a truthy body id updates that contact (404 if unknown or not
   * a number), otherwise a new contact is created with 201.
   */
  method PostContactRoute(store: MemStorage, data: Option<NewContact>, bodyId: BodyId) returns (res: Response)
    requires store.Valid()
    modifies store
    ensures store.Valid()
    ensures data.None? ==> res == InvalidContactData && store.contacts == old(store.contacts)
    ensures data.Some? && bodyId.NoBodyId? ==>
      && res == Response(201, ContactBody(WithDefaults(data.value, old(store.currentContactId))))
      && store.contacts == old(store.contacts) + [res.body.contact]
    ensures data.Some? && bodyId.BodyIdGiven? ==>
      var id := bodyId.parsed;
      if id.None? || !HasContact(old(store.contacts), id.value) then
        res == ContactNotFound && store.contacts == old(store.contacts)
      else
        var k := IndexOfId(old(store.contacts), id.value).value;
        && res == Response(200, ContactBody(Merge(old(store.contacts)[k], AsPatch(data.value))))
        && store.contacts == old(store.contacts)[k := res.body.contact]
    ensures store.currentContactId == old(store.currentContactId) + (if data.Some? && bodyId.NoBodyId? then 1 else 0)
    ensures store.users == old(store.users) && store.currentId == old(store.currentId)
    ensures store.notifications == old(store.notifications) && store.settings == old(store.settings)
  {
    if data.None? {
      return InvalidContactData;
    }
    match bodyId {
      case BodyIdGiven(id) =>
        if id.None? {
          return ContactNotFound;
        }
        var updated := store.UpdateContact(id.value, AsPatch(data.value));
        if updated.None? {
          return ContactNotFound;
        }
        res := Response(200, ContactBody(updated.value));
      case NoBodyId =>
        var created := store.CreateContact(data.value);
        res := Response(201, ContactBody(created));
    }
  }

  /** Lines 84-107: id check first, then the partial body, then 404 or the merged contact. */
  method PutContactRoute(store: MemStorage, id: Option<int>, patch: Option<ContactPatch>) returns (res: Response)
    requires store.Valid()
    modifies store
    ensures store.Valid()
    ensures id.None? ==> res == InvalidId && store.contacts == old(store.contacts)
    ensures id.Some? && patch.None? ==> res == InvalidContactData && store.contacts == old(store.contacts)
    ensures id.Some? && patch.Some? && !HasContact(old(store.contacts), id.value) ==>
      res == ContactNotFound && store.contacts == old(store.contacts)
    ensures id.Some? && patch.Some? && HasContact(old(store.contacts), id.value) ==>
      var k := IndexOfId(old(store.contacts), id.value).value;
      && res == Response(200, ContactBody(Merge(old(store.contacts)[k], patch.value)))
      && store.contacts == old(store.contacts)[k := res.body.contact]
    ensures store.users == old(store.users) && store.currentId == old(store.currentId)
    ensures store.currentContactId == old(store.currentContactId)
    ensures store.notifications == old(store.notifications) && store.settings == old(store.settings)
  {
    if id.None? {
      return InvalidId;
    }
    if patch.None? {
      return InvalidContactData;
    }
    var updated := store.UpdateContact(id.value, patch.value);
    if updated.None? {
      return ContactNotFound;
    }
    res := Response(200, ContactBody(updated.value));
  }

  /** Lines 110-126. */
  method DeleteContactRoute(store: MemStorage, id: Option<int>) returns (res: Response)
    requires store.Valid()
    modifies store
    ensures store.Valid()
    ensures id.None? ==> res == InvalidId && store.contacts == old(store.contacts)
    ensures id.Some? && !HasContact(old(store.contacts), id.value) ==>
      res == ContactNotFound && store.contacts == old(store.contacts)
    ensures id.Some? && HasContact(old(store.contacts), id.value) ==>
      res == Response(200, SuccessFlag(true)) && !HasContact(store.contacts, id.value)
    ensures forall c :: c in store.contacts <==> c in old(store.contacts) && (id.None? || c.id != id.value)
    ensures store.users == old(store.users) && store.currentId == old(store.currentId)
    ensures store.currentContactId == old(store.currentContactId)
    ensures store.notifications == old(store.notifications) && store.settings == old(store.settings)
  {
    if id.None? {
      return InvalidId;
    }
    var deleted := store.DeleteContact(id.value);
    if !deleted {
      return ContactNotFound;
    }
    res := Response(200, SuccessFlag(true));
  }

  // ---------------------------------------------------------------- settings

  /** A settings body: each number `None` when missing or not a number. */
  datatype SettingsRequest = SettingsRequest(
    countdownDuration: Option<real>,
    mild: Option<real>,
    moderate: Option<real>,
    severe: Option<real>)

  /** Lines 142-149: countdown within [5, 60], each threshold at least 1; their order is not checked. */
  function ValidateSettings(b: SettingsRequest): (r: Option<AppSettings>)
    ensures r.Some? <==>
      && b.countdownDuration.Some? && 5.0 <= b.countdownDuration.value <= 60.0
      && b.mild.Some? && b.mild.value >= 1.0
      && b.moderate.Some? && b.moderate.value >= 1.0
      && b.severe.Some? && b.severe.value >= 1.0
    ensures r.Some? ==>
      r.value == AppSettings(b.countdownDuration.value, b.mild.value, b.moderate.value, b.severe.value)
  {
    match (b.countdownDuration, b.mild, b.moderate, b.severe)
    case (Some(d), Some(mild), Some(moderate), Some(severe)) =>
      if 5.0 <= d <= 60.0 && mild >= 1.0 && moderate >= 1.0 && severe >= 1.0
      then Some(AppSettings(d, mild, moderate, severe))
      else None
    case _ => None
  }

  /** Thresholds out of order pass validation: mild 30 above severe 10 is stored as given. */
  lemma UnorderedThresholdsAccepted()
    ensures ValidateSettings(SettingsRequest(Some(15.0), Some(30.0), Some(20.0), Some(10.0))).Some?
  {
  }

  /** Lines 129-137. */
  method GetSettingsRoute(store: MemStorage) returns (res: Response)
    ensures res == Response(200, SettingsBody(store.settings))
  {
    var s := store.GetSettings();
    res := Response(200, SettingsBody(s));
  }

  /** Lines 140-162: valid settings replace the stored ones; invalid ones are 400 and change nothing. */
  method PostSettingsRoute(store: MemStorage, b: SettingsRequest) returns (res: Response)
    modifies store`settings
    ensures ValidateSettings(b).None? ==>
      res == Response(400, ErrorMessage("Invalid settings data")) && store.settings == old(store.settings)
    ensures ValidateSettings(b).Some? ==>
      res == Response(200, SuccessFlag(true)) && store.settings == ValidateSettings(b).value
  {
    var validated := ValidateSettings(b);
    if validated.None? {
      return Response(400, ErrorMessage("Invalid settings data"));
    }
    var ok := store.UpdateSettings(validated.value);
    res := Response(200, SuccessFlag(ok));
  }

  // ---------------------------------------------------------------- emergency

  /** `location` of the body; each coordinate `None` when missing. */
  datatype RequestLocation = RequestLocation(lat: Option<Coordinate>, lng: Option<Coordinate>)

  /** `{ severity, location, contactIds }`; `severity` is `None` when missing or null. */
  datatype EmergencyRequest = EmergencyRequest(
    severity: Option<string>,
    location: Option<RequestLocation>,
    contactIds: Option<seq<int>>)

  /** JavaScript truthiness of a coordinate: present and not 0. */
  predicate IsTruthy(c: Option<Coordinate>) {
    c.Some? && c.value.value != 0.0
  }

  /** Line 172: the check `!severity || !location || !location.lat || !location.lng` fails. */
  predicate HasEmergencyData(req: EmergencyRequest) {
    && req.severity.Some? && req.severity.value != ""
    && req.location.Some?
    && IsTruthy(req.location.value.lat)
    && IsTruthy(req.location.value.lng)
  }

  /** A coordinate of exactly 0 counts as missing: the equator and the prime meridian are refused. */
  lemma ZeroCoordinateRejected(severity: string, lng: Coordinate, text: string)
    ensures !HasEmergencyData(EmergencyRequest(Some(severity),
                                               Some(RequestLocation(Some(Coordinate(0.0, text)), Some(lng))),
                                               None))
  {
  }

  /** `contacts.filter(contact => contactIds.includes(contact.id))`. */
  function SelectByIds(all: seq<Contact>, ids: seq<int>): (r: seq<Contact>)
    ensures |r| <= |all|
    ensures forall c :: c in r <==> c in all && c.id in ids
  {
    if all == [] then []
    else
      var rest := SelectByIds(all[1..], ids);
      assert forall c :: c in all <==> c == all[0] || c in all[1..];
      (if all[0].id in ids then [all[0]] else []) + rest
  }

  /** Lines 177-180: every contact, or only those named by `contactIds` when it is given. */
  function TargetContacts(all: seq<Contact>, contactIds: Option<seq<int>>): (r: seq<Contact>)
    ensures contactIds.None? ==> r == all
    ensures |r| <= |all|
    ensures forall c :: c in r <==> c in all && (contactIds.None? || c.id in contactIds.value)
  {
    if contactIds.None? then all else SelectByIds(all, contactIds.value)
  }

  /** Filtering keeps storage order: the selection of an ascending table is ascending. */
  lemma {:induction false} SelectByIdsKeepsOrder(all: seq<Contact>, ids: seq<int>)
    requires IdsAscending(all)
    ensures IdsAscending(SelectByIds(all, ids))
  {
    if all != [] {
      var tail := all[1..];
      assert IdsAscending(tail) by {
        forall i, j | 0 <= i < j < |tail|
          ensures tail[i].id < tail[j].id
        {
          assert tail[i] == all[i + 1] && tail[j] == all[j + 1];
        }
      }
      SelectByIdsKeepsOrder(tail, ids);
      var rest := SelectByIds(tail, ids);
      if all[0].id in ids {
        forall c | c in rest
          ensures all[0].id < c.id
        {
          var i :| 0 <= i < |tail| && tail[i] == c;
          assert all[i + 1] == c;
        }
        AscendingCons(all[0], rest);
      }
    }
  }

  /** Putting a contact with a smaller id than all others in front of an ascending table keeps it ascending. */
  lemma AscendingCons(c: Contact, rest: seq<Contact>)
    requires IdsAscending(rest)
    requires forall d :: d in rest ==> c.id < d.id
    ensures IdsAscending([c] + rest)
  {
    var r := [c] + rest;
    forall i, j | 0 <= i < j < |r|
      ensures r[i].id < r[j].id
    {
      assert r[j] == rest[j - 1];
      if i > 0 {
        assert r[i] == rest[i - 1];
      }
    }
  }

  /** Line 190. */
  function EmergencySmsMessage(severity: string, lat: string, lng: string): string {
    "EMERGENCY: Helmet user detected a crash!\nSeverity: " + severity +
    "\nLocation: https://www.google.com/maps?q=" + lat + "," + lng
  }

  /** What the SMS client did for one contact: `None` error text when what it threw was no Error. */
  datatype Delivery = Delivered | DeliveryFailed(errorMessage: Option<string>)

  /** The value each per-contact task resolves to. */
  datatype Handling = Skipped | Sent | Failed(error: string)

  /** Lines 195-218: skip unless `sendSms` is true; with no client, pretend success. */
  function Handle(c: Contact, clientPresent: bool, deliver: Contact -> Delivery): (h: Handling)
    ensures h.Skipped? <==> c.sendSms != Some(true)
    ensures !h.Skipped? && !clientPresent ==> h.Sent?
  {
    if c.sendSms != Some(true) then Skipped
    else if !clientPresent then Sent
    else match deliver(c)
      case Delivered => Sent
      case DeliveryFailed(e) => Failed(if e.Some? then e.value else "Unknown error")
  }

  function HandleAll(targets: seq<Contact>, clientPresent: bool, deliver: Contact -> Delivery): (hs: seq<Handling>)
    ensures |hs| == |targets|
    ensures forall i :: 0 <= i < |targets| ==> hs[i] == Handle(targets[i], clientPresent, deliver)
  {
    seq(|targets|, i requires 0 <= i < |targets| => Handle(targets[i], clientPresent, deliver))
  }

  function CountSent(hs: seq<Handling>): nat {
    if hs == [] then 0 else CountSent(hs[..|hs| - 1]) + (if hs[|hs| - 1].Sent? then 1 else 0)
  }

  function CountSkipped(hs: seq<Handling>): nat {
    if hs == [] then 0 else CountSkipped(hs[..|hs| - 1]) + (if hs[|hs| - 1].Skipped? then 1 else 0)
  }

  function CountFailed(hs: seq<Handling>): nat {
    if hs == [] then 0 else CountFailed(hs[..|hs| - 1]) + (if hs[|hs| - 1].Failed? then 1 else 0)
  }

  /** Every target lands in exactly one count, so `results.length - successes - skipped` counts the failures. */
  lemma {:induction false} CountsPartition(hs: seq<Handling>)
    ensures CountSent(hs) + CountSkipped(hs) + CountFailed(hs) == |hs|
  {
    if hs != [] {
      CountsPartition(hs[..|hs| - 1]);
    }
  }

  /** One log entry as the handler writes it: which contact, and how the send went. */
  datatype LogLine = LogLine(contactId: int, success: bool, errorMessage: Option<string>)

  /** Reference: the entries the handler logs, one per target that was not skipped, in target order. */
  function ExpectedLog(targets: seq<Contact>, hs: seq<Handling>): seq<LogLine>
    requires |hs| == |targets|
  {
    if targets == [] then []
    else
      var n := |targets| - 1;
      ExpectedLog(targets[..n], hs[..n]) + LogLineFor(targets[n], hs[n])
  }

  function LogLineFor(c: Contact, h: Handling): seq<LogLine> {
    match h
    case Skipped => []
    case Sent => [LogLine(c.id, true, None)]
    case Failed(e) => [LogLine(c.id, false, Some(e))]
  }

  /** Skipped targets get no entry and every other target exactly one, for its own id. */
  lemma {:induction false} ExpectedLogCoversHandled(targets: seq<Contact>, hs: seq<Handling>)
    requires |hs| == |targets|
    ensures |ExpectedLog(targets, hs)| == |targets| - CountSkipped(hs)
    ensures forall l :: l in ExpectedLog(targets, hs) ==>
      exists i :: (0 <= i < |targets| && targets[i].id == l.contactId && !hs[i].Skipped? &&
        l.success == hs[i].Sent?)
  {
    if targets != [] {
      var n := |targets| - 1;
      ExpectedLogCoversHandled(targets[..n], hs[..n]);
      CountsPartition(hs[..n]);
      forall l | l in ExpectedLog(targets, hs)
        ensures exists i :: (0 <= i < |targets| && targets[i].id == l.contactId && !hs[i].Skipped? &&
          l.success == hs[i].Sent?)
      {
        if l in ExpectedLog(targets[..n], hs[..n]) {
          var i :| 0 <= i < n && targets[..n][i].id == l.contactId && !hs[..n][i].Skipped? &&
            l.success == hs[..n][i].Sent?;
          assert targets[i] == targets[..n][i] && hs[i] == hs[..n][i];
        } else {
          assert l in LogLineFor(targets[n], hs[n]);
        }
      }
    }
  }

  /** One more target extends the handled list by that target's handling alone. */
  lemma HandleAllStep(targets: seq<Contact>, i: nat, clientPresent: bool, deliver: Contact -> Delivery)
    requires i < |targets|
    ensures targets[..i + 1] == targets[..i] + [targets[i]]
    ensures HandleAll(targets[..i + 1], clientPresent, deliver) ==
      HandleAll(targets[..i], clientPresent, deliver) + [Handle(targets[i], clientPresent, deliver)]
  {
    assert targets[..i + 1] == targets[..i] + [targets[i]];
  }

  /** One more target extends the reference log by that target's line alone. */
  lemma ExpectedLogStep(targets: seq<Contact>, hs: seq<Handling>, c: Contact, h: Handling)
    requires |hs| == |targets|
    ensures ExpectedLog(targets + [c], hs + [h]) == ExpectedLog(targets, hs) + LogLineFor(c, h)
  {
    assert (targets + [c])[..|targets|] == targets;
    assert (hs + [h])[..|hs|] == hs;
  }

  /**
   * The notifications that logging `lines` in order appends to a log of
   * length `first`. `clock(n)` is the time read when the entry with id `n` is
   * written, so each entry carries its own reading.
   */
  function LogEntries(first: nat, lines: seq<LogLine>, message: string, clock: int -> string): (r: seq<Notification>)
    ensures |r| == |lines|
  {
    if lines == [] then []
    else
      var n := |lines| - 1;
      LogEntries(first, lines[..n], message, clock) +
        [Notification(first + n + 1, lines[n].contactId, message, clock(first + n + 1), lines[n].success,
                      lines[n].errorMessage)]
  }

  /** Each logged line becomes one entry, numbered one past the entries before it. */
  lemma {:induction false} LogEntriesNumbered(first: nat, lines: seq<LogLine>, message: string, clock: int -> string)
    ensures forall k :: 0 <= k < |lines| ==>
      LogEntries(first, lines, message, clock)[k] ==
        Notification(first + k + 1, lines[k].contactId, message, clock(first + k + 1), lines[k].success,
                     lines[k].errorMessage)
  {
    if lines != [] {
      var n := |lines| - 1;
      LogEntriesNumbered(first, lines[..n], message, clock);
    }
  }

  /**
   * Lines 167-241: refuse incomplete data with 400; refuse an empty target
   * set with 400 and no log entry; otherwise handle each target in storage
   * order, log each one that is not skipped, and report the three counts.
   * `clock(n)` is the time read when log entry `n` is written.
   */
  method EmergencySmsRoute(store: MemStorage, req: EmergencyRequest, clientPresent: bool,
                           deliver: Contact -> Delivery, clock: int -> string)
    returns (res: Response)
    requires store.Valid()
    modifies store`notifications
    ensures store.Valid()
    ensures !HasEmergencyData(req) ==>
      res == Response(400, ErrorMessage("Missing required emergency data")) &&
      store.notifications == old(store.notifications)
    ensures HasEmergencyData(req) && TargetContacts(store.contacts, req.contactIds) == [] ==>
      res == Response(400, NoContactsAvailable("No emergency contacts available", 0)) &&
      store.notifications == old(store.notifications)
    ensures HasEmergencyData(req) && TargetContacts(store.contacts, req.contactIds) != [] ==>
      var targets := TargetContacts(store.contacts, req.contactIds);
      var hs := HandleAll(targets, clientPresent, deliver);
      var location := req.location.value;
      var message := EmergencySmsMessage(req.severity.value, location.lat.value.text, location.lng.value.text);
      && res == Response(200, EmergencySummary(CountSent(hs) > 0, CountSent(hs), CountSkipped(hs), CountFailed(hs)))
      && store.notifications ==
           old(store.notifications) + LogEntries(|old(store.notifications)|, ExpectedLog(targets, hs), message, clock)
  {
    if !HasEmergencyData(req) {
      return Response(400, ErrorMessage("Missing required emergency data"));
    }
    var all := store.GetContacts();
    var targets := TargetContacts(all, req.contactIds);
    if |targets| == 0 {
      return Response(400, NoContactsAvailable("No emergency contacts available", 0));
    }
    var location := req.location.value;
    var message := EmergencySmsMessage(req.severity.value, location.lat.value.text, location.lng.value.text);
    var results := NotifyEach(store, targets, clientPresent, deliver, message, clock);
    assert targets == TargetContacts(store.contacts, req.contactIds);
    var successes, skipped := CountSent(results), CountSkipped(results);
    CountsPartition(results);
    var failures := |results| - successes - skipped;
    assert failures == CountFailed(results);
    res := Response(200, EmergencySummary(successes > 0, successes, skipped, failures));
  }

  /** The per-contact tasks of the handler, run one after the other: what each resolved to. */
  method NotifyEach(store: MemStorage, targets: seq<Contact>, clientPresent: bool, deliver: Contact -> Delivery,
                    message: string, clock: int -> string)
    returns (results: seq<Handling>)
    requires store.Valid()
    modifies store`notifications
    ensures store.Valid()
    ensures results == HandleAll(targets, clientPresent, deliver)
    ensures store.notifications ==
      old(store.notifications) + LogEntries(|old(store.notifications)|, ExpectedLog(targets, results), message, clock)
  {
    ghost var before := store.notifications;
    results := [];
    var i := 0;
    while i < |targets|
      invariant 0 <= i <= |targets|
      invariant store.Valid()
      invariant results == HandleAll(targets[..i], clientPresent, deliver)
      invariant store.notifications == before + LogEntries(|before|, ExpectedLog(targets[..i], results), message, clock)
    {
      ghost var logged := store.notifications;
      var h := NotifyOne(store, targets[i], clientPresent, deliver, message, clock);
      ExpectedLogStep(targets[..i], results, targets[i], h);
      HandleAllStep(targets, i, clientPresent, deliver);
      LogExtended(before, logged, store.notifications, ExpectedLog(targets[..i], results), LogLineFor(targets[i], h),
                  message, clock);
      results := results + [h];
      i := i + 1;
    }
    assert targets[..i] == targets;
  }

  /** One per-contact task: send unless skipped, and log the outcome unless skipped. */
  method NotifyOne(store: MemStorage, contact: Contact, clientPresent: bool, deliver: Contact -> Delivery,
                   message: string, clock: int -> string)
    returns (h: Handling)
    requires store.Valid()
    modifies store`notifications
    ensures store.Valid()
    ensures h == Handle(contact, clientPresent, deliver)
    ensures store.notifications ==
      old(store.notifications) + LogEntries(|old(store.notifications)|, LogLineFor(contact, h), message, clock)
  {
    h := Handle(contact, clientPresent, deliver);
    match h {
      case Skipped =>
      case Sent =>
        store.LogNotification(contact.id, message, true, None, clock(|store.notifications| + 1));
      case Failed(e) =>
        store.LogNotification(contact.id, message, false, Some(e), clock(|store.notifications| + 1));
    }
  }

  /** A log holding `lines` past `before`, extended by `more`, holds `lines + more` past `before`. */
  lemma LogExtended(before: seq<Notification>, logged: seq<Notification>, after: seq<Notification>,
                    lines: seq<LogLine>, more: seq<LogLine>, message: string, clock: int -> string)
    requires logged == before + LogEntries(|before|, lines, message, clock)
    requires after == logged + LogEntries(|logged|, more, message, clock)
    ensures after == before + LogEntries(|before|, lines + more, message, clock)
  {
    var x, y := LogEntries(|before|, lines, message, clock), LogEntries(|logged|, more, message, clock);
    assert |logged| == |before| + |lines|;
    LogEntriesAppend(|before|, lines, more, message, clock);
    assert after == before + (x + y);
  }

  /** Logging two batches one after the other is logging their concatenation. */
  lemma {:induction false} LogEntriesAppend(first: nat, a: seq<LogLine>, b: seq<LogLine>, message: string, clock: int -> string)
    ensures LogEntries(first, a + b, message, clock) ==
      LogEntries(first, a, message, clock) + LogEntries(first + |a|, b, message, clock)
  {
    if b == [] {
      assert a + b == a;
    } else {
      var n := |b| - 1;
      assert (a + b)[..|a| + n] == a + b[..n];
      LogEntriesAppend(first, a, b[..n], message, clock);
    }
  }
}

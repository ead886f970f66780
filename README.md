# Emergency Alert System — a Dafny model of its core

The Emergency Alert System is a crash-detecting smart helmet's companion app.
When the helmet reports a crash, the client shows a countdown screen. When the
countdown runs out, or the user presses "CALL 911 NOW", the client asks the
server to text every emergency contact that has SMS switched on. The server
keeps contacts, settings and a notification log in memory, and it has two
SMS-provider adapters. A share page rebuilds the alert from its URL and hands
it on as `sms:` and `mailto:` links.

This project models that core in Dafny:

- **`Common`**: JavaScript string helpers the code relies on:
  - `replace(/\D/g, '')`, `startsWith`, `split` and `join`;
  - the proof that splitting a join gives the parts back.
- **`Schema`**: the records of `shared/schema.ts`:
  - contacts, users and notifications;
  - the optional and nullable fields of request bodies.
- **`Storage`**: class `MemStorage` of `server/storage.ts`, with its tables
  and counters updated in place:
  - auto-increment ids and the contact defaults;
  - update by spread and delete;
  - settings replaced as a whole;
  - the append-only notification log.
- **`Routes`**: the handlers of `server/routes.ts`:
  - the contact routes: parse and validate, then 400, 404, 200 or 201;
  - settings validation;
  - `/api/emergency/sms`:
    - missing-data and no-target refusals;
    - target selection by id;
    - per-contact skip, send or fail;
    - one log entry per contact that was not skipped;
    - the three counts of the summary.
- **`Fast2Sms`** and **`Twilio`**: the two provider adapters of
  `server/services/`:
  - number processing and formatting;
  - the 10-digit filter;
  - message trimming;
  - reply classification;
  - the per-number accounting of a batch.
- **`App`**: the severity chain and the emergency flag of `client/src/App.tsx`.
- **`EmergencyScreen`**: the countdown of
  `client/src/components/EmergencyScreen.tsx`. It comes in two forms:
  - a pure step function over explicit events: tick, call-now, settle and
    cancel;
  - a class whose handlers are proved to follow that function.
- **`EmergencyLib`**: the alert text and the request payload of
  `client/src/lib/emergency.ts`.
- **`UriComponent`** and **`Share`**: the share page
  `client/src/pages/EmergencyShare.tsx`:
  - its message defaults;
  - `encodeURIComponent`, as UTF-8 percent-escapes with a decoder as its
    inverse;
  - the `sms:` and `mailto:` links;
  - the rule that picks the maps link.
- **`ContactForm`**: the contact form of
  `client/src/components/AddContactModal.tsx`:
  - its validation rules;
  - the contact it submits;
  - the values it resets to.

Among the proved properties:

- **SMS handling.**
  - Every target of an emergency lands in exactly one of the sent, skipped
    and failed counts.
  - The log gains one entry per contact that was not skipped, numbered on
    from the log's length.
  - Fast2SMS sends a number exactly when its processed form has ten digits.
    The separate validity predicate agrees with that; its `+91` branch is
    subsumed.
  - The share page's percent-encoded message decodes back to the message's
    UTF-8 bytes.
- **The countdown.**
  - The countdown alone dispatches exactly once, on its last tick.
  - A cancelled screen never dispatches.
  - Without the call button there is at most one dispatch.
  - With it there can be two: the button is pressed and then the last tick
    comes while the first request is still in flight.
- **Storage.** Every store operation keeps the contact table's ids
  ascending and leaves the other tables untouched.

## Model

| member | source | states |
|---|---|---|
| `Common.DigitsOnly` | server/services/fast2sms.ts:20 | the result holds only digits and is no longer than the input |
| `Common.DigitsOnlyMembers` | server/services/fast2sms.ts:20 | a character survives iff it occurs in the input and is a digit |
| `Common.DigitsOnlySingle` | server/services/fast2sms.ts:20 | one digit is kept and any other single character removed; with `DigitsOnlyAppend` this fixes the result as the input's digits in order |
| `Common.SplitJoin` | server/services/fast2sms.ts:62 | joining comma-free parts with a comma and splitting again gives the parts back |
| `Schema.IndexOfId` | server/storage.ts:112-114 | the position found holds a contact with that id; none is found exactly when no contact has it |
| `Fast2Sms.ProcessNumber` | server/services/fast2sms.ts:18-30 | a processed number holds only digits |
| `Fast2Sms.ProcessNumberDropsOnlyCountryCode` | server/services/fast2sms.ts:23-29 | processing keeps a suffix of the digits; it shortens them exactly for 12 digits starting `91` or 13 starting `091`, and then leaves 10 |
| `Fast2Sms.ProcessNumberIdempotent` | server/services/fast2sms.ts:18-30 | processing a processed number changes nothing |
| `Fast2Sms.ValidNumbers` | server/services/fast2sms.ts:33 | every kept number has exactly 10 digits; no more numbers than inputs |
| `Fast2Sms.ValidNumbersExactly` | server/services/fast2sms.ts:33 | a number is kept iff it has 10 characters and is the processed form of some input |
| `Fast2Sms.ValidNumbersAppend` | server/services/fast2sms.ts:33 | the filter keeps input order (distributes over concatenation) |
| `Fast2Sms.NumbersFieldSplitsBack` | server/services/fast2sms.ts:62 | the comma-joined `numbers` field splits back into exactly the valid numbers |
| `Fast2Sms.TrimMessage` | server/services/fast2sms.ts:45-47 | at most 160 characters; short messages unchanged; long ones keep their first 157 characters and end in `...` |
| `Fast2Sms.TrimMessageIdempotent` | server/services/fast2sms.ts:45-47 | trimming twice is trimming once |
| `Fast2Sms.PlusNinetyOneBranchSubsumed` | server/services/fast2sms.ts:134-136 | a `+91` number with 12 digits already passes the `91` branch |
| `Fast2Sms.IsValidIndianPhoneNumber` | server/services/fast2sms.ts:122-139 | every number with 10 digits is accepted, and none is accepted unless it has 10, 12 or 13 digits |
| `Fast2Sms.ValidIffProcessesToTenDigits` | server/services/fast2sms.ts:122-139 | the validity predicate holds iff processing yields 10 digits |
| `Fast2Sms.ClassifyReply` | server/services/fast2sms.ts:78-114 | success iff the reply is JSON with `return === true`, then counting every valid number; every other reply is a failure value |
| `Fast2Sms.SendSms` | server/services/fast2sms.ts:9-115 | a missing key fails first; no valid number returns every input as invalid without a request; otherwise one request with the trimmed message and the valid numbers, and success iff the provider says so |
| `Twilio.FormatNumber` | server/services/twilio.ts:38-40 | the result starts with `+`; a number that had one is kept, any other gets one prepended |
| `Twilio.FormatNumberIdempotent` | server/services/twilio.ts:38-40 | formatting twice is formatting once |
| `Twilio.FormatAll` | server/services/twilio.ts:35-46 | each number is dialled in its formatted form, in input order |
| `Twilio.SentRecord` | server/services/twilio.ts:49-61 | the record holds the number as given; with both `sid` and `status` it carries them, without either it says `unknown` and `sent` |
| `Twilio.RecordsPartitionInput` | server/services/twilio.ts:35-75 | each number gives exactly one record, sent or failed, naming an input number |
| `Twilio.SendEach` | server/services/twilio.ts:35-78 | after the loop the counters equal the record counts and add up to the input count; the records are those of the reference lists |
| `Twilio.SendSms` | server/services/twilio.ts:9-83 | without credentials nothing is dialled and every input fails; otherwise every number is dialled, the counts partition the input, the records match the replies, and success iff something was sent |
| `Storage.EmailOrNull` | server/storage.ts:122 | null exactly for a left-out, null or empty email; otherwise the email itself |
| `Storage.DefaultIfUndefined` | server/storage.ts:123-125 | only a left-out field takes the default; an explicit null stays null |
| `Storage.WithDefaults` | server/storage.ts:119-126 | the stored contact has the given id, name and phone, the email or null, SMS on and email off unless given, and the user id or null |
| `Storage.Merge` | server/storage.ts:135 | supplied fields overwrite, the rest and the id stay |
| `Storage.MergeEmptyPatch` | server/storage.ts:135 | an empty patch changes nothing |
| `Storage.UserWithId` | server/storage.ts:90-92 | a user is found iff one has that id, and it is that one |
| `Storage.RemoveAtKeepsOthers` | server/storage.ts:140-142 | removing one contact from an ascending table keeps it ascending, removes exactly that id and keeps every other contact |
| `Storage.MemStorage.constructor` | server/storage.ts:54-87 | empty users and log, the initial settings, two sample contacts with ids 1 and 2, the contact counter at 3 |
| `Storage.MemStorage.GetUser` | server/storage.ts:90-92 | the user stored under that id, if any |
| `Storage.MemStorage.GetUserByUsername` | server/storage.ts:94-98 | the first user in insertion order with that name, or none when no user has it |
| `Storage.MemStorage.CreateUser` | server/storage.ts:100-105 | the user gets the current user counter as id, is appended, and the counter moves on; contacts untouched |
| `Storage.MemStorage.GetContacts` | server/storage.ts:108-110 | every contact in insertion order |
| `Storage.MemStorage.GetContact` | server/storage.ts:112-114 | found iff a contact has that id, and it is that contact |
| `Storage.MemStorage.CreateContact` | server/storage.ts:116-129 | the contact is stored with defaults under the counter's id, larger than every existing id, appended; nothing else changes |
| `Storage.MemStorage.UpdateContact` | server/storage.ts:131-138 | an unknown id changes nothing; a known one is merged in place, the order and all other contacts kept |
| `Storage.MemStorage.DeleteContact` | server/storage.ts:140-142 | true iff the id was present; afterwards it is absent and exactly the other contacts remain, in order |
| `Storage.MemStorage.GetSettings` | server/storage.ts:145-154 | the stored settings |
| `Storage.MemStorage.UpdateSettings` | server/storage.ts:156-166 | settings replaced as a whole; always reports success |
| `Storage.MemStorage.LogNotification` | server/storage.ts:169-178 | exactly one entry appended, numbered one past the log's previous length |
| `Routes.GetContactsRoute` | server/routes.ts:24-31 | 200 with every contact |
| `Routes.GetContactRoute` | server/routes.ts:34-50 | a non-numeric id is 400, an unknown one 404, a known one 200 with that contact |
| `Routes.AsPatch` | server/routes.ts:59-61 | a full body supplies name and phone, and each optional field exactly when it was not left out |
| `Routes.PostContactRoute` | server/routes.ts:53-80 | an invalid body is 400 and changes nothing; without a body id a new contact is created with 201 and the contact counter moves up by one; with one, an unknown or non-numeric id is 404, a known one is merged and returned; users, the user counter, notifications and settings never change |
| `Routes.PutContactRoute` | server/routes.ts:83-106 | the id is checked before the body; 400, 400, 404 change nothing; otherwise the contact is merged in place and returned; users, both counters, notifications and settings never change |
| `Routes.DeleteContactRoute` | server/routes.ts:109-125 | 400 for a non-numeric id, 404 for an unknown one, otherwise success and the contact is gone; every other contact stays; users, both counters, notifications and settings never change |
| `Routes.ValidateSettings` | server/routes.ts:142-151 | accepted iff the countdown lies in [5, 60] and each threshold is at least 1; the accepted values are stored as given |
| `Routes.UnorderedThresholdsAccepted` | server/routes.ts:142-149 | thresholds out of order pass validation |
| `Routes.GetSettingsRoute` | server/routes.ts:130-137 | 200 with the stored settings |
| `Routes.PostSettingsRoute` | server/routes.ts:140-162 | invalid settings are 400 and leave the stored ones; valid ones replace them and report success |
| `Routes.HasEmergencyData` | server/routes.ts:172-174 | the request is accepted only with a non-empty severity and both coordinates present and non-zero (a definition; `ZeroCoordinateRejected` is a consequence) |
| `Routes.ZeroCoordinateRejected` | server/routes.ts:172-174 | a latitude of exactly 0 counts as missing emergency data |
| `Routes.SelectByIds` | server/routes.ts:178-180 | a contact is selected iff it is stored and its id is among the requested ones |
| `Routes.TargetContacts` | server/routes.ts:177-180 | without `contactIds` every contact is targeted; with them, a contact is targeted iff it is stored and its id is listed; never more targets than contacts |
| `Routes.SelectByIdsKeepsOrder` | server/routes.ts:177-180 | the selection from an ascending table is ascending |
| `Routes.EmergencySmsMessage` | server/routes.ts:190 | the SMS text: header line, severity line, maps line (a definition; `EmergencyLib.SameAsServerMessage` ties it to the client's text) |
| `Routes.Handle` | server/routes.ts:195-218 | a contact is skipped iff its `sendSms` is not true; without a client every other contact counts as sent |
| `Routes.HandleAll` | server/routes.ts:193-220 | one handling per target, in target order |
| `Routes.CountsPartition` | server/routes.ts:223-225 | sent, skipped and failed add up to the number of targets, so the subtraction counts exactly the failures |
| `Routes.ExpectedLogCoversHandled` | server/routes.ts:195-218 | one log line per target not skipped, each naming such a target and its success |
| `Routes.LogEntriesNumbered` | server/routes.ts:201-216 | the k-th logged line becomes an entry numbered one past the entries before it, with the message and the clock reading taken for that entry |
| `Routes.NotifyOne` | server/routes.ts:195-218 | the contact's handling, with one log entry unless it was skipped |
| `Routes.NotifyEach` | server/routes.ts:193-220 | each target handled in turn, and the log extended by exactly the reference entries |
| `Routes.EmergencySmsRoute` | server/routes.ts:167-241 | missing data is 400 and no target is 400 with a zero count, both logging nothing; otherwise 200 with the three counts and success iff something was sent, and the log grows by one entry per target not skipped, each with its own clock reading |
| `App.Classify` | client/src/App.tsx:63-70 | the severity's rank is the number of thresholds 7, 15, 35 the force strictly exceeds |
| `App.ClassifyBoundaries` | client/src/App.tsx:64-70 | a force exactly at a threshold falls into the lower class |
| `App.ClassifyMonotone` | client/src/App.tsx:63-70 | a larger force never gives a lower severity |
| `App.SimulatedForceIsMildOrModerate` | client/src/App.tsx:60-70 | a force in [15, 35) gives MILD exactly at 15 and MODERATE above it |
| `App.AppState.constructor` | client/src/App.tsx:14-16 | no emergency, severity NONE, a 15-second countdown |
| `App.AppState.SimulateAccident` | client/src/App.tsx:56-74 | ignored while an emergency is active; otherwise the force is classified and the emergency raised |
| `App.AppState.OnCancel` | client/src/App.tsx:143 | the emergency is closed |
| `App.AppState.OnCall` | client/src/App.tsx:144-147 | the emergency is closed |
| `App.AppState.SetCountdown` | client/src/App.tsx:134 | the countdown becomes the one the settings page hands over |
| `EmergencyScreen.Fire` | client/src/components/EmergencyScreen.tsx:31-38 | one more dispatch with the screen's severity and location, one more request in flight |
| `EmergencyScreen.Mount` | client/src/components/EmergencyScreen.tsx:22-70 | the counter starts at the given countdown; at or below zero the screen dispatches at once, otherwise it arms a tick |
| `EmergencyScreen.Step` | client/src/components/EmergencyScreen.tsx:39-75 | every event keeps severity and location, only appends to the dispatches, at most one and only from an open screen and carrying the props, never reopens a closed screen, and a closed screen with no tick pending dispatches nothing |
| `EmergencyScreen.TickCountsDown` | client/src/components/EmergencyScreen.tsx:65-67 | above 1, a tick only lowers the counter |
| `EmergencyScreen.LastTickDispatches` | client/src/components/EmergencyScreen.tsx:59-67 | the tick that reaches zero dispatches once and arms no further tick |
| `EmergencyScreen.CountdownAlone` | client/src/components/EmergencyScreen.tsx:58-70 | after k ticks from a countdown n the counter is n - k, and the single dispatch happens exactly at k = n |
| `EmergencyScreen.ClosedStaysQuiet` | client/src/components/EmergencyScreen.tsx:69 | a closed screen with no tick pending never dispatches again |
| `EmergencyScreen.CancelStopsTimer` | client/src/components/EmergencyScreen.tsx:101 | after "I'M OK" no event dispatches |
| `EmergencyScreen.AtMostOneDispatchWithoutCallNow` | client/src/components/EmergencyScreen.tsx:58-70 | without the call button a screen dispatches at most once |
| `EmergencyScreen.AtMostOnceKept` | client/src/components/EmergencyScreen.tsx:58-70 | the at-most-once invariant survives every event except the call button |
| `EmergencyScreen.CallNowThenTimerDispatchesTwice` | client/src/components/EmergencyScreen.tsx:58-75 | mounted at 1, pressing the button and then the tick dispatch twice |
| `EmergencyScreen.SettleOutcomeIrrelevant` | client/src/components/EmergencyScreen.tsx:39-55 | success and failure both close the screen and stop its timer |
| `EmergencyScreen.DispatchesCarryProps` | client/src/components/EmergencyScreen.tsx:32-36 | every dispatch carries the screen's own severity and location |
| `EmergencyScreen.CountdownScreen.constructor` | client/src/components/EmergencyScreen.tsx:22 | the mounted component is in the state `Mount` gives |
| `EmergencyScreen.CountdownScreen.Mutate` | client/src/components/EmergencyScreen.tsx:31-38 | the fields change as `Fire` says |
| `EmergencyScreen.CountdownScreen.CountdownEffect` | client/src/components/EmergencyScreen.tsx:59-70 | the effect dispatches at or below zero and otherwise arms the timer |
| `EmergencyScreen.CountdownScreen.Tick` | client/src/components/EmergencyScreen.tsx:65-67 | the new state is the tick step of the old |
| `EmergencyScreen.CountdownScreen.CallNow` | client/src/components/EmergencyScreen.tsx:73-75 | the new state is the call-now step of the old: a dispatch only while nothing is in flight |
| `EmergencyScreen.CountdownScreen.Settle` | client/src/components/EmergencyScreen.tsx:39-55 | the new state is the settle step of the old |
| `EmergencyScreen.CountdownScreen.Cancel` | client/src/components/EmergencyScreen.tsx:101 | the new state is the cancel step of the old |
| `EmergencyLib.CreateEmergencyMessage` | client/src/lib/emergency.ts:38-42 | the alert text (a definition; the two lemmas below state its line structure and its agreement with the server) |
| `EmergencyLib.MessageHasThreeLines` | client/src/lib/emergency.ts:38-42 | the alert splits at line feeds into header, severity line and maps line |
| `EmergencyLib.SameAsServerMessage` | client/src/lib/emergency.ts:38-42 | the client's alert text equals the server's SMS text for the same data |
| `EmergencyLib.SeverityVerbatim` | client/src/lib/emergency.ts:40 | the severity appears unescaped right after `Severity: ` and before a line feed |
| `EmergencyLib.BuildPayload` | client/src/lib/emergency.ts:20-25 | the ids are present iff contacts were given, then one per contact in order |
| `EmergencyLib.PayloadTargets` | client/src/lib/emergency.ts:20-25 | the server targets every contact when none are given, otherwise exactly the stored ones whose id a given contact has |
| `UriComponent.Utf8` | client/src/pages/EmergencyShare.tsx:82 | one to four bytes, one exactly below 0x80 |
| `UriComponent.Utf8RoundTrip` | client/src/pages/EmergencyShare.tsx:82 | the bytes give the character's scalar value back |
| `UriComponent.PercentBytes` | client/src/pages/EmergencyShare.tsx:82 | three characters per byte, each `%` or an upper-case hex digit |
| `UriComponent.EncodeURIComponent` | client/src/pages/EmergencyShare.tsx:82 | the result holds only unreserved characters, `%` and upper-case hex digits |
| `UriComponent.EncodedHasNoDelimiters` | client/src/pages/EmergencyShare.tsx:86-89 | an encoded component holds no `&`, `=`, `?` or `#` |
| `UriComponent.EncodeAppend` | client/src/pages/EmergencyShare.tsx:82 | encoding distributes over concatenation |
| `UriComponent.EncodeUnreservedIdentity` | client/src/pages/EmergencyShare.tsx:82 | unreserved text is left as it is |
| `UriComponent.DecodeEncode` | client/src/pages/EmergencyShare.tsx:82 | percent-decoding the encoding gives the text's UTF-8 bytes |
| `Share.Param` | client/src/pages/EmergencyShare.tsx:29-32 | a parameter counts iff present and non-empty, and then is its value |
| `Share.ShareMessage` | client/src/pages/EmergencyShare.tsx:30-33 | a non-empty `message` parameter is used verbatim |
| `Share.DefaultMessageIsAlertPlusTime` | client/src/pages/EmergencyShare.tsx:30-33 | without one, the page shows the client's alert text for its parameters followed by a time line |
| `Share.SmsLink` | client/src/pages/EmergencyShare.tsx:81-84 | the link starts `sms:?body=`, and no message can put a `&` or `#` into its body |
| `Share.MailtoLink` | client/src/pages/EmergencyShare.tsx:86-90 | the link holds exactly one `&`, whatever the message |
| `Share.SmsBodyDecodes` | client/src/pages/EmergencyShare.tsx:81-84 | the link starts `sms:?body=` and its body decodes to the message's UTF-8 bytes |
| `Share.MailtoQueryFields` | client/src/pages/EmergencyShare.tsx:86-90 | the mail query splits at `&` into exactly the subject and body fields, and the body decodes to the message |
| `Share.MailtoHasOneAmpersand` | client/src/pages/EmergencyShare.tsx:86-90 | whatever the message, the mail link holds exactly one `&` |
| `Share.ShareUrl` | client/src/pages/EmergencyShare.tsx:50-52 | the maps link when both coordinates are given, else the page URL (a definition; related to the maps button by `MapsRuleConsistent`) |
| `Share.OpenMaps` | client/src/pages/EmergencyShare.tsx:75-79 | the maps link when both coordinates are given, else nothing (a definition; related by `MapsRuleConsistent`) |
| `Share.MapsRuleConsistent` | client/src/pages/EmergencyShare.tsx:75-79 | the maps button is enabled iff `openMaps` opens something, and that is the URL the share sheet gets; otherwise it gets the page URL |
| `ContactForm.NameValid` | client/src/components/AddContactModal.tsx:17 | a name of two or more characters (a definition; see `EmptyFormRejected`) |
| `ContactForm.PhoneValid` | client/src/components/AddContactModal.tsx:18-20 | an accepted phone is 2 to 16 characters long and ends in a digit |
| `ContactForm.PhoneValidIff` | client/src/components/AddContactModal.tsx:18-20 | a phone is valid iff it is 2 to 15 digits, optionally after one leading `+`, not starting with 0 |
| `ContactForm.PlaceholderRejected` | client/src/components/AddContactModal.tsx:114 | the field's own placeholder fails the phone rule |
| `ContactForm.FormValid` | client/src/components/AddContactModal.tsx:16-24 | a valid form has a name of at least two characters and a phone of 2 to 16 |
| `ContactForm.EmptyFormRejected` | client/src/components/AddContactModal.tsx:16-24 | the empty form fails the name and the phone rule and so the schema, while its empty email passes; one character is too short a name, two suffice |
| `ContactForm.TrimStart` | client/src/components/AddContactModal.tsx:74 | a suffix of the input, removing only white space, starting with a visible character |
| `ContactForm.TrimEnd` | client/src/components/AddContactModal.tsx:74 | a prefix of the input, removing only white space, ending with a visible character |
| `ContactForm.TrimEmptyIff` | client/src/components/AddContactModal.tsx:74 | trimming leaves nothing iff every character is white space |
| `ContactForm.SubmittedEmail` | client/src/components/AddContactModal.tsx:74 | the email is kept untrimmed iff it has a visible character, otherwise null |
| `ContactForm.Submit` | client/src/components/AddContactModal.tsx:68-79 | the submitted contact has the form's name, phone and flags, the email rule above, and a null user |
| `ContactForm.SubmittedContactStored` | client/src/components/AddContactModal.tsx:68-79 | once stored, the contact keeps the form's choices and an email only when it has a visible character |
| `ContactForm.ResetValues` | client/src/components/AddContactModal.tsx:47-64 | the empty form with SMS on and email off, or the contact's values with null flags defaulted |
| `ContactForm.ResubmitKeepsContact` | client/src/components/AddContactModal.tsx:47-79 | editing and submitting without change gives back the contact's fields with null flags defaulted |

## Left out

- **Network and provider calls.** The Fast2SMS reply, the Twilio replies and
  the per-contact delivery in the emergency route are inputs. The HTTP
  servers and clients, `fetch`, the request's form encoding and the logging
  to the console are not modelled.
- Routes.EmergencySmsRoute: runs the per-contact tasks in target order, while the program runs them concurrently under `Promise.allSettled`. The model therefore fixes the order of the log entries, which in the program follows completion order. The twilio client's presence is a boolean.
- Neither provider adapter is called by the routes, and the model does not wire them in either.
- Twilio.SendSms: states its records only up to order, as multisets, because the concurrent sends push them in completion order. `Twilio.SendEach` states the order of sequential handling. The `message` text of the two result objects is not modelled.
- **Catch branches.** The 500 branches of the routes are not modelled; the
  in-memory store never throws. `sendEmergencyNotifications` rethrowing its
  error is not modelled either.
- **Request parsing.** `parseInt` and the zod schemas appear only through
  their outcome:
  - `None` for a NaN id or a rejected body;
  - a `BodyId` for the truthiness of `req.body.id`;
  - an `EmergencyRequest` with `Option` fields for a body's shape.
  A string coordinate, which the route's truthiness test would also accept,
  is not modelled: coordinates are numbers with their rendered text.
- **Email syntax.** The email syntax check of the validation library is a
  parameter (`isEmail`).
- **Clocks and number rendering.**
  - `new Date().toISOString()` for the log is a function `clock` from an
    entry's id to the reading taken when that entry is written, so each
    entry gets its own reading. `toLocaleString`, for the share page's time
    line, is a string input.
  - The rendering of a number in a template literal is `Coordinate.text`.
- **String lengths.** JavaScript counts UTF-16 code units, and the model
  counts characters (scalar values). `Fast2Sms.TrimMessage`'s 160 and 157
  therefore differ from the program's for text outside the Basic
  Multilingual Plane.
- **Unicode surrogates.** `encodeURIComponent` throws on lone surrogates.
  A Dafny `char` cannot hold one, so that error is not modelled.
- **Random force.** `Math.random()` in `simulateAccident` becomes the force
  parameter. `SimulatedForceIsMildOrModerate` states what the drawn range
  implies.
- **React and browser behaviour.**
  - React's rendering, effect scheduling and unmounting become the explicit
    events of `EmergencyScreen.Step`.
  - A request that settles after the screen has gone still counts as
    settling.
  - The toasts, the contact list shown on the screen, Bluetooth, the
    sensor, the clipboard, the `tel:` links, `window.open` and
    `navigator.share` are not modelled.
- **Query parameters.** `Object.fromEntries` of the query is taken as the
  map it produces: the last value of each name wins.
- **The user table.** It is kept as a sequence in insertion order, with
  ids ascending. Its routes do not exist in the program.
- **Unmodelled pages.** The dashboard, contacts and settings pages, the
  delete dialog and the toast component are not part of this model. Their
  only effect on the core modelled here is `SetCountdown`, the countdown
  that the settings page hands over.

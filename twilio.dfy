/**
 * The international SMS adapter (server/services/twilio.ts): the
 * credentials check, the `+` formatter, and the per-number accounting of a
 * batch. Each call to the provider is replaced by its reply, one per input
 * number; the concurrent sends are taken one after the other.
 */
module Twilio {
  import opened Common

  /** `to` is the number as given, before formatting. */
  datatype MessageRecord = MessageRecord(to: string, messageId: string, status: string)

  /** `to` is absent only in the single error of the missing-credentials result. */
  datatype ErrorRecord = ErrorRecord(to: Option<string>, error: string)

  datatype BatchResult = BatchResult(
    success: bool,
    sentCount: nat,
    failedCount: nat,
    messages: seq<MessageRecord>,
    errors: seq<ErrorRecord>)

  /** What `client.messages.create` did for one number. */
  datatype Reply =
    | Created(sid: Option<string>, status: Option<string>)   // resolved; `None` when the field is missing
    | Threw(errorMessage: Option<string>)                    // rejected; `None` if what was thrown was no Error

  const CredentialsMissing := "Twilio credentials missing. Only Indian numbers are supported via Fast2SMS."

  /** Lines 38-40: prepend `+` unless it is already there. */
  function FormatNumber(phone: string): (r: string)
    ensures StartsWith(r, "+")
    ensures StartsWith(phone, "+") ==> r == phone
    ensures !StartsWith(phone, "+") ==> r[1..] == phone
  {
    if StartsWith(phone, "+") then phone else "+" + phone
  }

  /** Formatting a formatted number changes nothing. */
  lemma FormatNumberIdempotent(phone: string)
    ensures FormatNumber(FormatNumber(phone)) == FormatNumber(phone)
  {
  }

  /** The `to` of every provider call, in input order. */
  function FormatAll(phones: seq<string>): (r: seq<string>)
    ensures |r| == |phones|
    ensures forall i :: 0 <= i < |phones| ==> r[i] == FormatNumber(phones[i])
  {
    if phones == [] then [] else FormatAll(phones[..|phones| - 1]) + [FormatNumber(phones[|phones| - 1])]
  }

  /** The record pushed onto `messages` for a created message. */
  function SentRecord(phone: string, sid: Option<string>, status: Option<string>): (m: MessageRecord)
    ensures m.to == phone
    ensures sid.Some? && status.Some? ==> m.messageId == sid.value && m.status == status.value
    ensures sid.None? || status.None? ==> m.messageId == "unknown" && m.status == "sent"
  {
    if sid.Some? && status.Some? then MessageRecord(phone, sid.value, status.value)
    else MessageRecord(phone, "unknown", "sent")
  }

  function ErrorText(errorMessage: Option<string>): string {
    if errorMessage.Some? then errorMessage.value else "Unknown error"
  }

  /** Reference: the records of the numbers whose send succeeded, in input order. */
  function SentRecords(phones: seq<string>, replies: seq<Reply>): seq<MessageRecord>
    requires |replies| == |phones|
  {
    if phones == [] then []
    else
      var n := |phones| - 1;
      SentRecords(phones[..n], replies[..n]) + SentPart(phones[n], replies[n])
  }

  function SentPart(phone: string, reply: Reply): seq<MessageRecord> {
    if reply.Created? then [SentRecord(phone, reply.sid, reply.status)] else []
  }

  function FailedPart(phone: string, reply: Reply): seq<ErrorRecord> {
    if reply.Threw? then [ErrorRecord(Some(phone), ErrorText(reply.errorMessage))] else []
  }

  /** Reference: the records of the numbers whose send failed, in input order. */
  function FailedRecords(phones: seq<string>, replies: seq<Reply>): seq<ErrorRecord>
    requires |replies| == |phones|
  {
    if phones == [] then []
    else
      var n := |phones| - 1;
      FailedRecords(phones[..n], replies[..n]) + FailedPart(phones[n], replies[n])
  }

  /** Every number lands in exactly one of the two lists. */
  lemma {:induction false} RecordsPartitionInput(phones: seq<string>, replies: seq<Reply>)
    requires |replies| == |phones|
    ensures |SentRecords(phones, replies)| + |FailedRecords(phones, replies)| == |phones|
    ensures forall m :: m in SentRecords(phones, replies) ==> m.to in phones
    ensures forall e :: e in FailedRecords(phones, replies) ==> e.to.Some? && e.to.value in phones
  {
    if phones != [] {
      var n := |phones| - 1;
      RecordsPartitionInput(phones[..n], replies[..n]);
      assert forall p :: p in phones[..n] ==> p in phones;
    }
  }

  /**
   * `sendSMS`: without all three credentials nothing is sent and every input
   * counts as failed; otherwise every number is formatted and sent, and each
   * reply increments exactly one counter and adds one record holding the
   * number as given. No per-number error escapes; `success` is decided at the end.
   */
  method SendSms(credentialsSet: bool, phones: seq<string>, replies: seq<Reply>)
    returns (r: BatchResult, dialled: seq<string>)
    requires |replies| == |phones|
    ensures r.success <==> r.sentCount > 0
    ensures !credentialsSet ==>
      r == BatchResult(false, 0, |phones|, [], [ErrorRecord(None, CredentialsMissing)]) && dialled == []
    ensures credentialsSet ==>
      && |dialled| == |phones|
      && dialled == FormatAll(phones)
      && r.sentCount + r.failedCount == |phones|
      && r.sentCount == |r.messages| && r.failedCount == |r.errors|
      && multiset(r.messages) == multiset(SentRecords(phones, replies))
      && multiset(r.errors) == multiset(FailedRecords(phones, replies))
  {
    if !credentialsSet {
      return BatchResult(false, 0, |phones|, [], [ErrorRecord(None, CredentialsMissing)]), [];
    }
    var sentCount, failedCount, messages, errors;
    sentCount, failedCount, messages, errors, dialled := SendEach(phones, replies);
    r := BatchResult(sentCount > 0, sentCount, failedCount, messages, errors);
  }

  /**
   * The per-number callback of `sendSMS`, run for each number in turn: the
   * `results` counters and lists after every number has been handled.
   */
  method SendEach(phones: seq<string>, replies: seq<Reply>)
    returns (sentCount: nat, failedCount: nat, messages: seq<MessageRecord>, errors: seq<ErrorRecord>,
             dialled: seq<string>)
    requires |replies| == |phones|
    ensures |dialled| == |phones|
    ensures dialled == FormatAll(phones)
    ensures sentCount + failedCount == |phones|
    ensures sentCount == |messages| && failedCount == |errors|
    ensures messages == SentRecords(phones, replies)
    ensures errors == FailedRecords(phones, replies)
  {
    sentCount, failedCount := 0, 0;
    messages, errors := [], [];
    dialled := [];
    var i := 0;
    while i < |phones|
      invariant 0 <= i <= |phones|
      invariant |dialled| == i
      invariant dialled == FormatAll(phones[..i])
      invariant messages == SentRecords(phones[..i], replies[..i])
      invariant errors == FailedRecords(phones[..i], replies[..i])
      invariant sentCount == |messages| && failedCount == |errors|
      invariant sentCount + failedCount == i
    {
      RecordsStep(phones, replies, i);
      var phone := phones[i];
      dialled := dialled + [FormatNumber(phone)];
      match replies[i] {
        case Created(sid, status) =>
          sentCount := sentCount + 1;
          messages := messages + [SentRecord(phone, sid, status)];
        case Threw(e) =>
          failedCount := failedCount + 1;
          errors := errors + [ErrorRecord(Some(phone), ErrorText(e))];
      }
      i := i + 1;
    }
    assert phones[..i] == phones && replies[..i] == replies;
  }

  /** One more number extends the reference lists by that number's record alone. */
  lemma RecordsStep(phones: seq<string>, replies: seq<Reply>, i: nat)
    requires |replies| == |phones| && i < |phones|
    ensures SentRecords(phones[..i + 1], replies[..i + 1]) ==
      SentRecords(phones[..i], replies[..i]) + SentPart(phones[i], replies[i])
    ensures FailedRecords(phones[..i + 1], replies[..i + 1]) ==
      FailedRecords(phones[..i], replies[..i]) + FailedPart(phones[i], replies[i])
    ensures FormatAll(phones[..i + 1]) == FormatAll(phones[..i]) + [FormatNumber(phones[i])]
  {
    assert phones[..i + 1][..i] == phones[..i];
    assert replies[..i + 1][..i] == replies[..i];
  }
}

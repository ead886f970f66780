/**
 * The domestic bulk-SMS adapter (server/services/fast2sms.ts): number
 * processing, the 10-digit filter, message trimming, the classification of
 * the provider's reply, and the separate validity predicate.
 * The HTTP request itself is not modelled: its reply is an input.
 */
module Fast2Sms {
  import opened Common

  /** Longest message the provider takes in one SMS. */
  const MaxMessageLength := 160

  /**
   * The number as the provider expects it: digits only, with a `91` country
   * code dropped from 12 digits and a `091` dropped from 13.
   */
  function ProcessNumber(phone: string): (r: string)
    ensures AllDigits(r)
  {
    var digits := DigitsOnly(phone);
    if StartsWith(digits, "91") && |digits| == 12 then digits[2..]
    else if StartsWith(digits, "091") && |digits| == 13 then digits[3..]
    else digits
  }

  /**
   * Processing only ever removes a leading country code from the digits, it
   * does so exactly in the 12-digit `91` and 13-digit `091` cases, and then
   * leaves 10 digits.
   */
  lemma ProcessNumberDropsOnlyCountryCode(phone: string)
    ensures var digits, r := DigitsOnly(phone), ProcessNumber(phone);
      && |r| <= |digits|
      && r == digits[|digits| - |r|..]
      && (|r| < |digits| <==>
            (|digits| == 12 && StartsWith(digits, "91")) || (|digits| == 13 && StartsWith(digits, "091")))
      && (|r| < |digits| ==> |r| == 10)
  {
    var digits := DigitsOnly(phone);
    if StartsWith(digits, "91") && |digits| == 12 {
      assert ProcessNumber(phone) == digits[2..];
    } else if StartsWith(digits, "091") && |digits| == 13 {
      assert ProcessNumber(phone) == digits[3..];
    } else {
      assert ProcessNumber(phone) == digits;
    }
  }

  /** Processing an already-processed number returns it unchanged. */
  lemma ProcessNumberIdempotent(phone: string)
    ensures ProcessNumber(ProcessNumber(phone)) == ProcessNumber(phone)
  {
    var r := ProcessNumber(phone);
    DigitsOnlyOfDigits(r);
    var digits := DigitsOnly(phone);
    if StartsWith(digits, "91") && |digits| == 12 {
      assert |r| == 10;
    } else if StartsWith(digits, "091") && |digits| == 13 {
      assert |r| == 10;
    } else {
      assert r == digits;
    }
  }

  /** `processedNumbers.filter(phone => phone.length === 10)`, in input order. */
  function ValidNumbers(phones: seq<string>): (r: seq<string>)
    ensures |r| <= |phones|
    ensures forall i :: 0 <= i < |r| ==> |r[i]| == 10 && AllDigits(r[i])
  {
    if phones == [] then []
    else
      var p := ProcessNumber(phones[0]);
      (if |p| == 10 then [p] else []) + ValidNumbers(phones[1..])
  }

  /** A number is sent iff it is the processed form of some input and has 10 digits. */
  lemma {:induction false} ValidNumbersExactly(phones: seq<string>, n: string)
    ensures n in ValidNumbers(phones) <==>
      |n| == 10 && exists i :: 0 <= i < |phones| && ProcessNumber(phones[i]) == n
  {
    if phones != [] {
      ValidNumbersExactly(phones[1..], n);
      if |n| == 10 && (exists i :: 0 <= i < |phones| && ProcessNumber(phones[i]) == n) {
        var i :| 0 <= i < |phones| && ProcessNumber(phones[i]) == n;
        if i > 0 {
          assert ProcessNumber(phones[1..][i - 1]) == n;
        }
      }
      if n in ValidNumbers(phones[1..]) {
        var i :| 0 <= i < |phones[1..]| && ProcessNumber(phones[1..][i]) == n;
        assert ProcessNumber(phones[i + 1]) == n;
      }
    }
  }

  /** The filter keeps input order: it distributes over concatenation. */
  lemma {:induction false} ValidNumbersAppend(a: seq<string>, b: seq<string>)
    ensures ValidNumbers(a + b) == ValidNumbers(a) + ValidNumbers(b)
  {
    if a == [] {
      assert a + b == b;
    } else {
      assert (a + b)[0] == a[0];
      assert (a + b)[1..] == a[1..] + b;
      ValidNumbersAppend(a[1..], b);
    }
  }

  /** The `numbers` form field carries the valid numbers back as they were: none holds a comma. */
  lemma NumbersFieldSplitsBack(phones: seq<string>)
    requires ValidNumbers(phones) != []
    ensures Split(Join(ValidNumbers(phones), ','), ',') == ValidNumbers(phones)
  {
    var v := ValidNumbers(phones);
    assert forall i :: 0 <= i < |v| ==> ',' !in v[i];
    SplitJoin(v, ',');
  }

  /** Lines 45-47: cut a message longer than 160 characters to 157 plus `...`. */
  function TrimMessage(message: string): (r: string)
    ensures |r| <= MaxMessageLength
    ensures |message| <= MaxMessageLength ==> r == message
    ensures |message| > MaxMessageLength ==>
      |r| == MaxMessageLength && r[..157] == message[..157] && r[157..] == "..."
  {
    if |message| > MaxMessageLength then message[..157] + "..." else message
  }

  /** Trimming a trimmed message changes nothing. */
  lemma TrimMessageIdempotent(message: string)
    ensures TrimMessage(TrimMessage(message)) == TrimMessage(message)
  {
  }

  /**
   * Lines 122-139, as written, with its four branches: every 10-digit number
   * is accepted, and nothing outside 10, 12 or 13 digits is.
   */
  predicate IsValidIndianPhoneNumber(phone: string): (valid: bool)
    ensures |DigitsOnly(phone)| == 10 ==> valid
    ensures valid ==> |DigitsOnly(phone)| == 10 || |DigitsOnly(phone)| == 12 || |DigitsOnly(phone)| == 13
  {
    var digits := DigitsOnly(phone);
    if |digits| == 10 then true
    else if |digits| == 12 && StartsWith(digits, "91") then true
    else if |digits| == 13 && StartsWith(digits, "091") then true
    else if StartsWith(phone, "+91") && |digits| == 12 then true
    else false
  }

  /** The `+91` branch adds nothing: a `+91` number with 12 digits already starts with `91`. */
  lemma PlusNinetyOneBranchSubsumed(phone: string)
    requires StartsWith(phone, "+91") && |DigitsOnly(phone)| == 12
    ensures StartsWith(DigitsOnly(phone), "91")
  {
    assert phone == "+91" + phone[3..];
    DigitsOnlyAppend("+91", phone[3..]);
    assert DigitsOnly("+91") == "91";
  }

  /** The validity predicate agrees with processing: valid iff processing yields 10 digits. */
  lemma ValidIffProcessesToTenDigits(phone: string)
    ensures IsValidIndianPhoneNumber(phone) <==> |ProcessNumber(phone)| == 10
  {
    var digits := DigitsOnly(phone);
    if StartsWith(phone, "+91") && |digits| == 12 {
      PlusNinetyOneBranchSubsumed(phone);
    }
  }

  /** The provider's reply to the POST, or the failure of the request itself. */
  datatype Reply =
    | TransportError(errorMessage: Option<string>)   // fetch rejected; `None` if what was thrown was no Error
    | NotJson(text: string)                           // body that JSON.parse rejects
    | Json(returnIsTrue: bool,                        // `data.return === true`
           message: Option<string>,                   // `data.message`, `None` when absent
           serialized: string,                        // `JSON.stringify(data)`
           requestId: string)                         // `data.request_id`

  /** The form fields of the request that depend on the inputs. */
  datatype Request = Request(message: string, numbers: string)

  datatype Outcome =
    | MissingApiKey                                // the thrown configuration error
    | NoValidNumbers(invalidNumbers: seq<string>)
    | Sent(sentCount: nat, requestId: string)
    | Failed(message: string, error: string)

  /** What `sendSMS` returns, and the request it made, if any. */
  datatype Attempt = Attempt(outcome: Outcome, request: Option<Request>)

  /**
   * `sendSMS` with the key's presence and the provider's reply as inputs: a
   * missing key throws before anything else, no valid number returns at once
   * with every input listed, and otherwise one request is made whose reply
   * decides the outcome without throwing.
   */
  function SendSms(apiKeySet: bool, phones: seq<string>, message: string, reply: Reply): (a: Attempt)
    ensures a.outcome.MissingApiKey? <==> !apiKeySet
    ensures a.outcome.NoValidNumbers? <==> apiKeySet && ValidNumbers(phones) == []
    ensures a.outcome.NoValidNumbers? ==> a.outcome.invalidNumbers == phones
    ensures a.request.Some? <==> apiKeySet && ValidNumbers(phones) != []
    ensures a.request.Some? ==>
      && a.request.value.message == TrimMessage(message)
      && Split(a.request.value.numbers, ',') == ValidNumbers(phones)
    ensures a.outcome.Sent? <==> a.request.Some? && reply.Json? && reply.returnIsTrue
    ensures a.outcome.Sent? ==> a.outcome.sentCount == |ValidNumbers(phones)| > 0
  {
    if !apiKeySet then Attempt(MissingApiKey, None)
    else
      var valid := ValidNumbers(phones);
      if valid == [] then Attempt(NoValidNumbers(phones), None)
      else
        NumbersFieldSplitsBack(phones);
        var request := Request(TrimMessage(message), Join(valid, ','));
        Attempt(ClassifyReply(reply, |valid|), Some(request))
  }

  /** Lines 78-114: only `return === true` is success; every other reply is a failure value. */
  function ClassifyReply(reply: Reply, validCount: nat): (o: Outcome)
    ensures o.Sent? <==> reply.Json? && reply.returnIsTrue
    ensures o.Sent? ==> o.sentCount == validCount
    ensures !o.Sent? ==> o.Failed?
  {
    match reply
    case TransportError(m) =>
      Failed("Error connecting to Fast2SMS API", if m.Some? then m.value else "Unknown error")
    case NotJson(text) =>
      Failed("Invalid response from Fast2SMS API", "Response was not valid JSON: " + text)
    case Json(ok, m, serialized, requestId) =>
      if ok then Sent(validCount, requestId)
      else Failed(if m.Some? && m.value != "" then m.value else "Failed to send SMS", serialized)
  }
}

/** The SMS service: putting a North American number into E.164 form before it is handed
    to the SMS provider, and sending one message to many recipients in turn. The provider
    itself is a parameter: its reply to the n-th request of a run. */
module Sms {
  import opened Wrappers
  import Text

  predicate NonDigit(c: char) { !Text.IsDigit(c) }

  /** `phone.replace(/\D/g, '')` */
  function Digits(phone: string): (r: string)
    ensures Text.AllDigits(r) && |r| <= |phone|
  {
    Text.Without(phone, NonDigit)
  }

  /** normalizePhoneNumber. A missing or empty number is handed back as it is; ten digits
      get "+1", eleven digits starting with 1 get "+"; anything else is kept, with a "+" put
      in front when it has none. */
  function SmsNumber(phone: Option<string>): (r: Option<string>)
    ensures phone.None? || phone == Some("") ==> r == phone
    ensures phone.Some? && phone.value != "" ==> r.Some? && |r.value| > 0 && r.value[0] == '+'
  {
    if phone.None? || phone.value == "" then phone
    else
      var digits := Digits(phone.value);
      if |digits| == 10 then Some("+1" + digits)
      else if |digits| == 11 && digits[0] == '1' then Some("+" + digits)
      else if phone.value[0] == '+' then phone
      else Some("+" + phone.value)
  }

  /** Digits that read as a North American number, with or without the leading 1, always
      come out as "+1" and the ten-digit national number. */
  lemma NationalNumber(phone: string)
    requires var d := Digits(phone); |d| == 10 || (|d| == 11 && d[0] == '1')
    ensures var d := Digits(phone); SmsNumber(Some(phone)) == Some("+1" + d[|d| - 10..])
  {
    var d := Digits(phone);
    if |d| == 11 {
      assert "+" + d == "+1" + d[1..];
    }
  }

  /** Any other number is kept: unchanged when it already starts with "+", otherwise with
      a "+" in front. */
  lemma OtherNumberKept(phone: string)
    requires phone != ""
    requires var d := Digits(phone); |d| != 10 && !(|d| == 11 && d[0] == '1')
    ensures var r := SmsNumber(Some(phone)).value;
      && (r == phone <==> phone[0] == '+')
      && (phone[0] != '+' ==> r == "+" + phone)
  {
  }

  /** The number dialled is the number given: its digits are the input's digits, with the
      country code 1 put in front of a bare ten-digit number. */
  lemma SameDigits(phone: string)
    requires phone != ""
    ensures var d := Digits(phone);
      Digits(SmsNumber(Some(phone)).value) == if |d| == 10 then "1" + d else d
  {
    var d := Digits(phone);
    var r := SmsNumber(Some(phone)).value;
    Text.WithoutNothing(d, NonDigit);
    if |d| == 10 {
      Text.WithoutAppend("+1", d, NonDigit);
      assert Text.Without("+1", NonDigit) == "1";
    } else if |d| == 11 && d[0] == '1' {
      Text.WithoutAppend("+", d, NonDigit);
      assert Text.Without("+", NonDigit) == "";
    } else if phone[0] != '+' {
      Text.WithoutAppend("+", phone, NonDigit);
      assert Text.Without("+", NonDigit) == "";
    }
  }

  /** Normalising a normalised number changes nothing, so a number stored in E.164 form is
      sent as stored. */
  lemma {:induction false} SmsNumberIdempotent(phone: Option<string>)
    ensures SmsNumber(SmsNumber(phone)) == SmsNumber(phone)
  {
    if phone.Some? && phone.value != "" {
      var d := Digits(phone.value);
      var r := SmsNumber(phone).value;
      SameDigits(phone.value);
      if |d| == 10 {
        assert Digits(r) == "1" + d && ("1" + d)[0] == '1';
        assert "+" + ("1" + d) == r;
      }
    }
  }

  // ---------------------------------------------------------------------------------
  // Sending
  // ---------------------------------------------------------------------------------

  /** The provider's answer to one request. */
  datatype Reply = Sent(sid: string) | Failed(error: string, code: Option<int>)

  /** The outcome recorded for one recipient: no provider client, or the provider's reply
      (`success` is true exactly for a Sent reply). */
  datatype Outcome = NotInitialized | Answered(reply: Reply)

  predicate Success(o: Outcome) { o.Answered? && o.reply.Sent? }

  datatype SmsResult = SmsResult(to: string, outcome: Outcome)

  /** The n-th request of a run: to the normalised number, when there is a client. */
  function Send(ready: bool, n: nat, to: string, provider: (nat, string) -> Reply): (o: Outcome)
    ensures o.NotInitialized? <==> !ready
  {
    if !ready then NotInitialized else Answered(provider(n, SmsNumber(Some(to)).value))
  }

  /** sendSMS: a single request. */
  function SendSms(ready: bool, to: string, provider: (nat, string) -> Reply): (o: Outcome)
    ensures o.NotInitialized? <==> !ready
    ensures ready ==> o.reply == provider(0, SmsNumber(Some(to)).value)
  {
    Send(ready, 0, to, provider)
  }

  /** sendBulkSMS: one result per recipient, in the order given, each carrying the
      recipient as given (not the normalised number); a failed send does not stop the run.
      The one-second pause between sends is left out. */
  method SendBulkSms(recipients: seq<string>, ready: bool, provider: (nat, string) -> Reply) returns (results: seq<SmsResult>)
    ensures |results| == |recipients|
    ensures forall i :: 0 <= i < |results| ==>
      results[i].to == recipients[i] && results[i].outcome == Send(ready, i, recipients[i], provider)
    ensures !ready ==> forall i :: 0 <= i < |results| ==> !Success(results[i].outcome)
  {
    if !ready {
      return seq(|recipients|, i requires 0 <= i < |recipients| => SmsResult(recipients[i], NotInitialized));
    }
    results := [];
    var i := 0;
    while i < |recipients|
      invariant 0 <= i <= |recipients| && |results| == i
      invariant forall j :: 0 <= j < i ==>
        results[j].to == recipients[j] && results[j].outcome == Send(ready, j, recipients[j], provider)
    {
      var originalTo := recipients[i];
      var formattedTo := SmsNumber(Some(originalTo)).value;
      results := results + [SmsResult(originalTo, Answered(provider(i, formattedTo)))];
      i := i + 1;
    }
  }
}

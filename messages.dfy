/** The diagnostic text of createErrorMsg and logErrorBy (src/frontend/Parser.cpp). */
module Messages {
  import opened Tokens
  import opened ParseInfo

  predicate IsDigit(c: char) {
    '0' <= c <= '9'
  }

  function DigitChar(d: nat): (c: char)
    requires d < 10
    ensures IsDigit(c)
  {
    "0123456789"[d]
  }

  /** Decimal text of n, as an ostringstream prints a size_t (overflow of size_t is not modelled). */
  function NatToString(n: nat): (s: string)
    ensures |s| > 0
    ensures forall i :: 0 <= i < |s| ==> IsDigit(s[i])
    ensures s[0] == '0' ==> n == 0
  {
    if n < 10 then [DigitChar(n)] else NatToString(n / 10) + [DigitChar(n % 10)]
  }

  /** The number a string of decimal digits denotes. */
  function DecimalValue(s: string): nat
    requires forall i :: 0 <= i < |s| ==> IsDigit(s[i])
  {
    if |s| == 0 then 0
    else
      var last := s[|s| - 1];
      assert IsDigit(last);
      10 * DecimalValue(s[..|s| - 1]) + (last as int - '0' as int)
  }

  /** Reading the printed position back gives the position. */
  lemma {:induction false} DecimalOfNatToString(n: nat)
    ensures DecimalValue(NatToString(n)) == n
  {
    var s := NatToString(n);
    if n >= 10 {
      DecimalOfNatToString(n / 10);
      assert s[..|s| - 1] == NatToString(n / 10);
    }
  }

  /** Different positions print differently. */
  lemma NatToStringInjective(a: nat, b: nat)
    ensures NatToString(a) == NatToString(b) ==> a == b
  {
    DecimalOfNatToString(a);
    DecimalOfNatToString(b);
  }

  /** createErrorMsg: status name, " at position ", the culprit's begin, ": ", the message. */
  function ErrorMessage(culprit: Token, status: ParseStatus, msg: string): string {
    ToErrorName(status) + " at position " + NatToString(culprit.begin) + ": " + msg
  }

  /** The position in a message is recoverable: two messages with the same status and text
      are equal only when their culprits begin at the same offset. */
  lemma ErrorMessageIdentifiesPosition(t: Token, u: Token, status: ParseStatus, msg: string)
    ensures ErrorMessage(t, status, msg) == ErrorMessage(u, status, msg) ==> t.begin == u.begin
  {
    var a, b := NatToString(t.begin), NatToString(u.begin);
    var head := ToErrorName(status) + " at position ";
    if ErrorMessage(t, status, msg) == ErrorMessage(u, status, msg) {
      var m := ErrorMessage(t, status, msg);
      assert m == head + a + ": " + msg;
      assert m == head + b + ": " + msg;
      assert a == m[|head| .. |head| + |a|] == b;
      NatToStringInjective(t.begin, u.begin);
    }
  }

  /** The message starts with the status name. */
  lemma ErrorMessageStartsWithName(t: Token, status: ParseStatus, msg: string)
    ensures ToErrorName(status) <= ErrorMessage(t, status, msg)
  {
  }
}

/**
  Payment-type labels: app.py's `PAYMENT_TYPE_LABELS` table and the
  `f"{code} - {PAYMENT_TYPE_LABELS.get(code, 'Other')}"` format used by the
  payment multiselect and the payment breakdown chart.
 */
module Labels {

  const PaymentTypeLabels: map<int, string> := map[
    1 := "Credit card",
    2 := "Cash",
    3 := "No charge",
    4 := "Dispute",
    5 := "Unknown"]

  /** `PAYMENT_TYPE_LABELS.get(code, 'Other')`. */
  function PaymentName(code: int): string
  {
    if code in PaymentTypeLabels then PaymentTypeLabels[code] else "Other"
  }

  predicate IsDigit(c: char)
  {
    '0' as int <= c as int <= '9' as int
  }

  function DigitChar(d: nat): (c: char)
    requires d < 10
    ensures IsDigit(c) && c as int - '0' as int == d
  {
    ('0' as int + d) as char
  }

  /** Decimal digits of `n`, without leading zeros (Python's `str` on a non-negative int). */
  function NatToString(n: nat): (s: string)
    ensures |s| >= 1 && forall i :: 0 <= i < |s| ==> IsDigit(s[i])
    ensures s[0] == '0' ==> s == "0"
  {
    if n < 10 then [DigitChar(n)] else NatToString(n / 10) + [DigitChar(n % 10)]
  }

  /** Python's `str` on an int. */
  function IntToString(x: int): (s: string)
    ensures |s| >= 1
    ensures forall i :: 0 <= i < |s| ==> IsDigit(s[i]) || (i == 0 && s[i] == '-')
    ensures s[0] == '-' <==> x < 0
  {
    if x < 0 then "-" + NatToString(-x) else NatToString(x)
  }

  /** Reads back a string of decimal digits. */
  function StringToNat(s: string): nat
    requires forall i :: 0 <= i < |s| ==> IsDigit(s[i])
  {
    if s == [] then 0
    else
      assert IsDigit(s[|s| - 1]);
      10 * StringToNat(s[..|s| - 1]) + (s[|s| - 1] as int - '0' as int)
  }

  /** Reads back an optionally signed decimal numeral. */
  function StringToInt(s: string): int
    requires forall i :: 0 <= i < |s| ==> IsDigit(s[i]) || (i == 0 && s[i] == '-')
  {
    if |s| > 0 && s[0] == '-' then -(StringToNat(s[1..]) as int) else StringToNat(s)
  }

  lemma {:induction false} NatToStringRoundTrip(n: nat)
    ensures StringToNat(NatToString(n)) == n
  {
    if n >= 10 {
      var s := NatToString(n);
      assert s[..|s| - 1] == NatToString(n / 10);
      NatToStringRoundTrip(n / 10);
    }
  }

  lemma {:induction false} IntToStringRoundTrip(x: int)
    ensures StringToInt(IntToString(x)) == x
  {
    if x < 0 {
      assert IntToString(x)[1..] == NatToString(-x);
      NatToStringRoundTrip(-x);
    } else {
      NatToStringRoundTrip(x);
    }
  }

  /** The label shown for a payment code. */
  function PaymentLabel(code: int): (r: string)
    ensures 1 <= code <= 5 ==> r == [DigitChar(code)] + " - " + PaymentTypeLabels[code]
    ensures !(1 <= code <= 5) ==> r == IntToString(code) + " - Other"
  {
    assert 1 <= code <= 5 ==> IntToString(code) == [DigitChar(code)];
    IntToString(code) + " - " + PaymentName(code)
  }

  /** The five known codes get their names. */
  lemma PaymentLabelKnown(code: int)
    requires 1 <= code <= 5
    ensures code == 1 ==> PaymentLabel(code) == "1 - Credit card"
    ensures code == 2 ==> PaymentLabel(code) == "2 - Cash"
    ensures code == 3 ==> PaymentLabel(code) == "3 - No charge"
    ensures code == 4 ==> PaymentLabel(code) == "4 - Dispute"
    ensures code == 5 ==> PaymentLabel(code) == "5 - Unknown"
  {
    assert IntToString(code) == [DigitChar(code)];
    assert PaymentName(code) == PaymentTypeLabels[code];
  }

  /** Every other code is labelled "Other". */
  lemma PaymentLabelOther(code: int)
    requires !(1 <= code <= 5)
    ensures PaymentLabel(code) == IntToString(code) + " - Other"
  {
    assert code !in PaymentTypeLabels;
  }

  /** Distinct codes get distinct labels, so no two chart bars share a label. */
  lemma {:induction false} PaymentLabelInjective(a: int, b: int)
    requires PaymentLabel(a) == PaymentLabel(b)
    ensures a == b
  {
    var sa, sb, l := IntToString(a), IntToString(b), PaymentLabel(a);
    assert l[|sa|] == ' ' && forall i :: 0 <= i < |sa| ==> l[i] == sa[i] != ' ';
    assert l[|sb|] == ' ' && forall i :: 0 <= i < |sb| ==> l[i] == sb[i] != ' ';
    assert |sa| == |sb|;
    assert sa == l[..|sa|] == sb;
    IntToStringRoundTrip(a);
    IntToStringRoundTrip(b);
  }
}

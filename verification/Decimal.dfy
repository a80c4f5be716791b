/** Decimal numerals as they appear in cursors and stream entries. */
module Decimal {
  import opened Bytes

  function Digit(d: nat): byte
    requires d < 10
  {
    (48 + d) as byte
  }

  predicate IsDigit(b: byte) {
    48 <= b as int < 58
  }

  function Print(n: nat): (s: Text)
    ensures s != [] && forall i :: 0 <= i < |s| ==> IsDigit(s[i])
  {
    if n < 10 then [Digit(n)] else Print(n / 10) + [Digit(n % 10)]
  }

  /** The value of a nonempty string of digits. */
  function Parse(s: Text): Option<nat> {
    if s == [] || !IsDigit(s[|s| - 1]) then None
    else
      var d := s[|s| - 1] as int - 48;
      if |s| == 1 then Some(d)
      else
        match Parse(s[..|s| - 1])
        case None => None
        case Some(n) => Some(10 * n + d)
  }

  /** A text parses exactly when it is a nonempty string of digits. */
  lemma {:induction false} ParseAccepts(s: Text)
    ensures Parse(s).Some? <==> s != [] && forall i :: 0 <= i < |s| ==> s[i] in Ascii("0123456789")
    decreases |s|
  {
    DigitsAre();
    if |s| > 1 {
      ParseAccepts(s[..|s| - 1]);
    }
  }

  lemma DigitsAre()
    ensures forall b: byte :: b in Ascii("0123456789") <==> IsDigit(b)
    ensures forall d :: 0 <= d < 10 ==> Ascii("0123456789")[d] == Digit(d)
  {
    var digits := Ascii("0123456789");
    assert forall d :: 0 <= d < 10 ==> "0123456789"[d] as int == 48 + d;
    forall b: byte ensures b in digits <==> IsDigit(b) {
      if IsDigit(b) {
        assert digits[b as int - 48] == b;
      }
    }
  }

  /** The last digit printed is the number modulo ten, and what is printed before it is the rest. */
  lemma PrintIs(n: nat)
    ensures Print(n) == (if n < 10 then [] else Print(n / 10)) + [Ascii("0123456789")[n % 10]]
  {
    DigitsAre();
  }

  lemma {:induction false} ParseInvertsPrint(n: nat)
    ensures Parse(Print(n)) == Some(n)
  {
    if n >= 10 {
      ParseInvertsPrint(n / 10);
      var s := Print(n);
      assert s[..|s| - 1] == Print(n / 10);
    }
  }
}

/** Decimal fields as snprintf writes them, and a reader for them. */
module Decimal {
  import opened Options

  function Digit(d: int): char
    requires 0 <= d < 10
  {
    ('0' as int + d) as char
  }

  function Digits(n: nat): string {
    if n < 10 then [Digit(n)] else Digits(n / 10) + [Digit(n % 10)]
  }

  /** Zeros in front, up to the given width. */
  function Pad(s: string, width: int): string
    decreases width - |s|
  {
    if |s| >= width then s else Pad("0" + s, width)
  }

  /** "%0<width>d". */
  function Format(n: int, width: int): string {
    if n < 0 then "-" + Pad(Digits(-n), width - 1) else Pad(Digits(n), width)
  }

  predicate IsDigit(c: char) {
    '0' <= c <= '9'
  }

  function ParseNat(s: string): Option<nat> {
    if s == [] || !IsDigit(s[|s| - 1]) then None
    else
      var d := s[|s| - 1] as int - '0' as int;
      if |s| == 1 then Some(d)
      else
        var rest := ParseNat(s[..|s| - 1]);
        if rest.None? then None else Some(10 * rest.value + d)
  }

  function Parse(s: string): Option<int> {
    if s != [] && s[0] == '-' then
      var n := ParseNat(s[1..]);
      if n.None? then None else (var v: int := n.value; Some(-v))
    else ParseNat(s)
  }

  lemma {:induction false} ParseDigits(n: nat)
    ensures ParseNat(Digits(n)) == Some(n) && IsDigit(Digits(n)[0])
    ensures forall c :: c in Digits(n) ==> IsDigit(c)
  {
    if n >= 10 {
      ParseDigits(n / 10);
      assert Digits(n)[..|Digits(n)| - 1] == Digits(n / 10);
    }
  }

  lemma {:induction false} ParseZero(s: string)
    requires ParseNat(s).Some?
    ensures ParseNat("0" + s) == ParseNat(s)
  {
    var t := "0" + s;
    if |s| == 1 {
      assert t[..1] == "0";
      assert ParseNat("0") == Some(0);
    } else {
      ParseZero(s[..|s| - 1]);
      assert t[..|s|] == "0" + s[..|s| - 1];
    }
  }

  lemma {:induction false} ParsePad(s: string, width: int)
    requires ParseNat(s).Some? && forall c :: c in s ==> IsDigit(c)
    ensures ParseNat(Pad(s, width)) == ParseNat(s) && Pad(s, width) != []
    ensures forall c :: c in Pad(s, width) ==> IsDigit(c)
    ensures |Pad(s, width)| == if |s| >= width then |s| else width
    decreases width - |s|
  {
    if |s| < width {
      ParseZero(s);
      ParsePad("0" + s, width);
    }
  }

  /** Every formatted number reads back, and consists of digits and perhaps a sign. */
  lemma FormatRoundTrip(n: int, width: int)
    ensures Parse(Format(n, width)) == Some(n)
    ensures Format(n, width) != [] && forall c :: c in Format(n, width) ==> IsDigit(c) || c == '-'
  {
    var d := if n < 0 then -n else n;
    ParseDigits(d);
    ParsePad(Digits(d), if n < 0 then width - 1 else width);
    if n < 0 {
      assert Format(n, width)[1..] == Pad(Digits(d), width - 1);
    } else {
      assert Format(n, width)[0] in Format(n, width);
    }
  }

  function Pow10(k: nat): nat {
    if k == 0 then 1 else 10 * Pow10(k - 1)
  }

  lemma {:induction false} DigitsLength(n: nat, k: nat)
    requires 1 <= k && n < Pow10(k)
    ensures |Digits(n)| <= k
  {
    if n >= 10 {
      assert k > 1 by {
        assert Pow10(1) == 10;
      }
      DigitsLength(n / 10, k - 1);
    }
  }

  lemma FormatLength(n: int, width: int, k: nat)
    requires 1 <= k && width <= k && n < Pow10(k) && -n < Pow10(k)
    ensures |Format(n, width)| <= if n < 0 then k + 1 else k
  {
    var d := if n < 0 then -n else n;
    DigitsLength(d, k);
    ParseDigits(d);
    ParsePad(Digits(d), if n < 0 then width - 1 else width);
  }
}

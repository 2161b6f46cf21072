/** The user-agent escaping of LocEngAdapter.cpp: encodeInPlace and what it promises. */
module Encoding {
  import opened Options
  import opened CStrings

  const CODE_LENGTH := 3

  const ENCODINGS: seq<(char, string)> := [('/', "%2F"), ('+', "%2B"), ('|', "%7C"), ('%', "%25")]

  function Code(c: char): (code: string)
    ensures |code| == 1 || |code| == CODE_LENGTH
  {
    if c == '/' then "%2F" else if c == '+' then "%2B"
    else if c == '|' then "%7C" else if c == '%' then "%25" else [c]
  }

  function Encode(s: string): string {
    if s == [] then [] else Code(s[0]) + Encode(s[1..])
  }

  /** How many leading characters of s have an encoding of at most `room` characters. */
  function Fit(s: string, room: int): (n: nat)
    ensures n <= |s|
  {
    if s == [] || |Code(s[0])| > room then 0 else 1 + Fit(s[1..], room - |Code(s[0])|)
  }

  function HexValue(c: char): Option<int> {
    if '0' <= c <= '9' then Some(c as int - '0' as int)
    else if 'A' <= c <= 'F' then Some(c as int - 'A' as int + 10)
    else None
  }

  /** A percent decoder, written from the meaning of the escapes; None for a malformed one. */
  function Decode(t: string): Option<string> {
    if t == [] then Some([])
    else if t[0] == '%' then
      if |t| < 3 || HexValue(t[1]).None? || HexValue(t[2]).None? then None
      else
        var v := 16 * HexValue(t[1]).value + HexValue(t[2]).value;
        var rest := Decode(t[3..]);
        if rest.None? then None else Some([v as char] + rest.value)
    else
      var rest := Decode(t[1..]);
      if rest.None? then None else Some([t[0]] + rest.value)
  }

  // ---------- the encoding ----------

  lemma {:induction false} EncodeSnoc(a: string, c: char)
    ensures Encode(a + [c]) == Encode(a) + Code(c)
  {
    if a == [] {
      assert [c][1..] == [];
      assert a + [c] == [c];
    } else {
      EncodeSnoc(a[1..], c);
      var b := a + [c];
      assert b[0] == a[0] && b[1..] == a[1..] + [c];
      assert Code(a[0]) + (Encode(a[1..]) + Code(c)) == (Code(a[0]) + Encode(a[1..])) + Code(c);
    }
  }

  /** A character's code is the character, unless it is a separator or the percent sign. */
  lemma CodeIs(c: char)
    ensures c !in "/+|%" <==> Code(c) == [c]
    ensures Code('/') == "%2F" && Code('+') == "%2B" && Code('|') == "%7C" && Code('%') == "%25"
  {
    assert c in "/+|%" <==> c == '/' || c == '+' || c == '|' || c == '%';
  }

  lemma {:induction false} EncodeConcat(a: string, b: string)
    ensures Encode(a + b) == Encode(a) + Encode(b)
  {
    if a == [] {
      assert a + b == b;
    } else {
      EncodeConcat(a[1..], b);
      assert (a + b)[1..] == a[1..] + b;
      assert Code(a[0]) + (Encode(a[1..]) + Encode(b)) == (Code(a[0]) + Encode(a[1..])) + Encode(b);
    }
  }

  /** A text is left as it is if and only if it has no separator and no percent sign. */
  lemma {:induction false} LeavesOthers(s: string)
    ensures |Encode(s)| >= |s|
    ensures Encode(s) == s <==> forall i :: 0 <= i < |s| ==> s[i] !in "/+|%"
  {
    if s != [] {
      LeavesOthers(s[1..]);
      CodeIs(s[0]);
      assert s == [s[0]] + s[1..];
      assert forall i :: 0 <= i < |s[1..]| ==> s[1..][i] == s[i + 1];
      assert Encode(s)[|Code(s[0])|..] == Encode(s[1..]);
    }
  }

  /** Decoding undoes encoding: in particular no encoding ends in a partial escape. */
  lemma {:induction false} RoundTrip(s: string)
    ensures Decode(Encode(s)) == Some(s)
  {
    if s != [] {
      RoundTrip(s[1..]);
      var c := s[0];
      assert Encode(s)[|Code(c)|..] == Encode(s[1..]);
      assert s == [c] + s[1..];
    }
  }

  /** No separator survives. */
  lemma {:induction false} NoSeparators(s: string)
    ensures '/' !in Encode(s) && '+' !in Encode(s) && '|' !in Encode(s)
  {
    if s != [] {
      NoSeparators(s[1..]);
    }
  }

  /** Fit is the longest prefix whose encoding fits. */
  lemma {:induction false} FitIsLongest(s: string, room: nat, n: nat)
    requires n <= |s|
    ensures |Encode(s[..n])| <= room <==> n <= Fit(s, room)
  {
    if n > 0 {
      assert s[..n][0] == s[0] && s[..n][1..] == s[1..][..n - 1];
      if |Code(s[0])| <= room {
        FitIsLongest(s[1..], room - |Code(s[0])|, n - 1);
      }
    }
  }

  // ---------- in place ----------

  /** What encodeInPlace makes of the string s in a buffer of the given size. */
  function Encoded(s: string, size: nat): string
    requires size >= 1
  {
    Encode(s[..Fit(s, size - 1)])
  }

  /** The buffer's text after inpos characters of s, while nothing has been cut off. */
  ghost predicate Filled(s: string, size: nat, inpos: nat, text: string) {
    && inpos <= |s| && |text| < size && text == Encode(s[..inpos])
    && Fit(s, size - 1) == inpos + Fit(s[inpos..], size - 1 - |text|)
  }

  lemma FilledStart(s: string, size: nat)
    requires size >= 1
    ensures Filled(s, size, 0, [])
  {
    assert s[..0] == [] && s[0..] == s;
  }

  lemma FilledStep(s: string, size: nat, inpos: nat, text: string, next: string)
    requires Filled(s, size, inpos, text) && inpos < |s|
    requires next == text + Code(s[inpos]) && |next| < size
    ensures Filled(s, size, inpos + 1, next)
  {
    assert s[inpos..][0] == s[inpos] && s[inpos..][1..] == s[inpos + 1..];
    EncodeSnoc(s[..inpos], s[inpos]);
    assert s[..inpos + 1] == s[..inpos] + [s[inpos]];
  }

  lemma FilledEnd(s: string, size: nat, inpos: nat, text: string)
    requires Filled(s, size, inpos, text)
    requires inpos == |s| || |text| + |Code(s[inpos])| >= size
    ensures text == Encoded(s, size)
  {
    assert inpos < |s| ==> s[inpos..][0] == s[inpos];
  }

  /** The position of c in the table, or its length. */
  method FindEncoding(c: char) returns (escchar: nat)
    ensures escchar <= |ENCODINGS|
    ensures escchar < |ENCODINGS| ==> Code(c) == ENCODINGS[escchar].1
    ensures escchar == |ENCODINGS| ==> Code(c) == [c]
  {
    escchar := 0;
    while escchar < |ENCODINGS| && ENCODINGS[escchar].0 != c
      invariant escchar <= |ENCODINGS|
      invariant forall k :: 0 <= k < escchar ==> ENCODINGS[k].0 != c
    {
      escchar := escchar + 1;
    }
    assert escchar == 4 ==> c != ENCODINGS[0].0 && c != ENCODINGS[1].0 && c != ENCODINGS[2].0 && c != ENCODINGS[3].0;
  }

  /** Copies a code to the buffer, from position start on. */
  method CopyCode(buffer: array<char>, start: nat, size: nat, code: string) returns (outpos: nat)
    requires |code| == CODE_LENGTH && start + CODE_LENGTH < size == buffer.Length
    modifies buffer
    ensures outpos == start + CODE_LENGTH
    ensures buffer[..outpos] == old(buffer[..start]) + code
  {
    outpos := start;
    var codepos := 0;
    while outpos < size - 1 && codepos < CODE_LENGTH
      invariant outpos == start + codepos && codepos <= CODE_LENGTH
      invariant buffer[..start] == old(buffer[..start])
      invariant buffer[start..outpos] == code[..codepos]
    {
      buffer[outpos] := code[codepos];
      outpos, codepos := outpos + 1, codepos + 1;
    }
    assert buffer[..outpos] == buffer[..start] + buffer[start..outpos];
  }

  /** Copies a character that needs no code. */
  method CopyChar(buffer: array<char>, start: nat, c: char) returns (outpos: nat)
    requires start < buffer.Length
    modifies buffer
    ensures outpos == start + 1
    ensures buffer[..outpos] == old(buffer[..start]) + [c]
  {
    buffer[start] := c;
    outpos := start + 1;
  }

  /** The main loop: fills the buffer from the string in value. */
  method FillBuffer(value: array<char>, size: nat, buffer: array<char>) returns (outpos: nat)
    requires 1 <= size <= value.Length && buffer.Length == size && buffer != value
    modifies buffer
    ensures outpos < size && buffer[..outpos] == Encoded(CString(value[..size]), size)
  {
    ghost var s := CString(value[..size]);
    var inpos := 0;
    outpos := 0;
    FilledStart(s, size);
    while value[inpos] != NUL && outpos < size - 1
      invariant inpos <= outpos < size
      invariant Filled(s, size, inpos, buffer[..outpos])
      decreases |s| - inpos
    {
      assert value[..size][inpos] == value[inpos];
      var escchar := FindEncoding(value[inpos]);
      ghost var text := buffer[..outpos];
      if escchar == |ENCODINGS| {
        outpos := CopyChar(buffer, outpos, value[inpos]);
      } else {
        if outpos + CODE_LENGTH >= size {
          break;
        }
        outpos := CopyCode(buffer, outpos, size, ENCODINGS[escchar].1);
      }
      FilledStep(s, size, inpos, text, buffer[..outpos]);
      inpos := inpos + 1;
    }
    assert value[inpos] == value[..size][inpos];
    FilledEnd(s, size, inpos, buffer[..outpos]);
  }

  /**
   The string in value is replaced by the encoding of its longest prefix that fits; the rest of
   the array is not touched.
   */
  method EncodeInPlace(value: array<char>, size: nat)
    requires 1 <= size <= value.Length
    modifies value
    ensures CString(value[..]) == Encoded(CString(old(value[..size])), size)
    ensures forall k :: |CString(value[..])| < k < value.Length ==> value[k] == old(value[k])
  {
    ghost var result := Encoded(CString(value[..size]), size);
    var buffer := new char[size];
    var outpos := FillBuffer(value, size, buffer);
    ghost var end := outpos;
    value[outpos] := NUL;
    while outpos > 0
      invariant outpos <= end
      invariant value[outpos..end] == buffer[outpos..end] && value[end] == NUL
      invariant buffer[..end] == result
      invariant forall k :: end < k < value.Length ==> value[k] == old(value[k])
    {
      outpos := outpos - 1;
      value[outpos] := buffer[outpos];
    }
    assert value[..end] == result;
    EncodeHasNoNul(CString(old(value[..size]))[..Fit(CString(old(value[..size])), size - 1)]);
    CStringIs(value[..], result);
  }

  lemma {:induction false} EncodeHasNoNul(s: string)
    requires NUL !in s
    ensures NUL !in Encode(s)
  {
    if s != [] {
      EncodeHasNoNul(s[1..]);
    }
  }

  /**
   In short: decoding the result gives back a prefix of the input, the longest whose encoding
   fits into the buffer, and all of it exactly if the whole encoding fits.
   */
  lemma EncodeInPlaceRoundTrip(s: string, size: nat)
    requires size >= 1
    ensures var n := Fit(s, size - 1);
      && Decode(Encoded(s, size)) == Some(s[..n])
      && |Encoded(s, size)| < size
      && (forall m :: n < m <= |s| ==> |Encode(s[..m])| >= size)
      && (n == |s| <==> |Encode(s)| < size)
  {
    var n := Fit(s, size - 1);
    RoundTrip(s[..n]);
    FitIsLongest(s, size - 1, n);
    FitIsLongest(s, size - 1, |s|);
    assert s[..|s|] == s;
    forall m | n < m <= |s| ensures |Encode(s[..m])| >= size {
      FitIsLongest(s, size - 1, m);
    }
  }
}

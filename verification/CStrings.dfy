/** NUL-terminated text in a buffer of characters. */
module CStrings {
  const NUL := '\0'

  /** The characters before the first NUL. */
  function CString(buffer: seq<char>): (s: string)
    ensures |s| <= |buffer| && s == buffer[..|s|] && NUL !in s
    ensures |s| < |buffer| ==> buffer[|s|] == NUL
  {
    if buffer == [] || buffer[0] == NUL then [] else [buffer[0]] + CString(buffer[1..])
  }

  lemma {:induction false} CStringIs(buffer: seq<char>, s: string)
    requires |s| < |buffer| && buffer[..|s|] == s && buffer[|s|] == NUL && NUL !in s
    ensures CString(buffer) == s
  {
    if s != [] {
      assert buffer[0] == s[0] && NUL !in s[1..];
      assert buffer[1..][..|s| - 1] == s[1..];
      CStringIs(buffer[1..], s[1..]);
    }
  }
}

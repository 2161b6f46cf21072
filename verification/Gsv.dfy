/**
 GSV sentences ("satellites in view") of NMEA 0183, as loc_eng_nmea_generate_sv writes them, and a
 reader that accepts a sentence only with the right checksum, numbering and number of fields.
 */
module Gsv {
  import opened Options
  import opened Decimal

  /** A satellite in whole numbers; the signal strength is missing unless it is positive. */
  datatype Sat = Sat(prn: int, elevation: int, azimuth: int, snr: Option<int>)

  const PER_SENTENCE := 4

  // ---------- the text of a sentence ----------

  /** Comma-separated fields, each with its comma in front. */
  function Tail(fields: seq<string>): string {
    if fields == [] then "" else "," + fields[0] + Tail(fields[1..])
  }

  function SnrText(snr: Option<int>): string {
    if snr.None? then "" else Format(snr.value, 2)
  }

  /** "$<talker>GSV,%d,%d,%02d". */
  function HeaderText(talker: string, total: nat, number: nat, count: nat): string {
    "$" + talker + "GSV," + Format(total, 1) + "," + Format(number, 1) + "," + Format(count, 2)
  }

  /** ",%02d,%02d,%03d,". */
  function FixedText(prn: int, elevation: int, azimuth: int): string {
    "," + Format(prn, 2) + "," + Format(elevation, 2) + "," + Format(azimuth, 3) + ","
  }

  function SatText(sat: Sat): string {
    FixedText(sat.prn, sat.elevation, sat.azimuth) + SnrText(sat.snr)
  }

  function SatsText(sats: seq<Sat>): string {
    if sats == [] then "" else SatsText(sats[..|sats| - 1]) + SatText(sats[|sats| - 1])
  }

  function Byte(c: char): bv8 {
    (c as int % 256) as bv8
  }

  function Bytes(s: string): (b: seq<bv8>)
    ensures |b| == |s| && forall i :: 0 <= i < |s| ==> b[i] == Byte(s[i])
  {
    seq(|s|, i requires 0 <= i < |s| => Byte(s[i]))
  }

  function XorAll(b: seq<bv8>): bv8 {
    if b == [] then 0 else XorAll(b[..|b| - 1]) ^ b[|b| - 1]
  }

  /** The exclusive or of the characters. */
  function Checksum(s: string): bv8 {
    XorAll(Bytes(s))
  }

  function HexDigit(d: int): char
    requires 0 <= d < 16
  {
    if d < 10 then ('0' as int + d) as char else ('A' as int + d - 10) as char
  }

  /** "%02X". */
  function Hex(v: int): string
    requires 0 <= v < 256
  {
    [HexDigit(v / 16), HexDigit(v % 16)]
  }

  function Hex2(b: bv8): string {
    Hex(b as int)
  }

  /** What put_checksum appends; the leading '$' is not part of the sum. */
  function Seal(text: string): string
    requires text != []
  {
    "*" + Hex2(Checksum(text[1..])) + "\r\n"
  }

  /** The satellites of one sentence. */
  function Group(sats: seq<Sat>, k: nat): seq<Sat>
    requires PER_SENTENCE * k <= |sats|
  {
    if |sats| <= PER_SENTENCE * k + PER_SENTENCE then sats[PER_SENTENCE * k..]
    else sats[PER_SENTENCE * k..PER_SENTENCE * k + PER_SENTENCE]
  }

  function SentenceCount(n: nat): nat {
    n / PER_SENTENCE + if n % PER_SENTENCE != 0 then 1 else 0
  }

  function Body(talker: string, sats: seq<Sat>, k: nat): (text: string)
    requires PER_SENTENCE * k <= |sats|
    ensures text != [] && text[0] == '$'
  {
    HeaderText(talker, SentenceCount(|sats|), k + 1, |sats|) + SatsText(Group(sats, k))
  }

  function BlankBody(talker: string): string {
    "$" + talker + "GSV,1,1,0,"
  }

  lemma CountTimesFour(n: nat)
    ensures PER_SENTENCE * SentenceCount(n) < n + PER_SENTENCE
    ensures n <= PER_SENTENCE * SentenceCount(n)
  {
  }

  /** The sentences before they are sealed. */
  function Bodies(talker: string, sats: seq<Sat>): (bodies: seq<string>)
    ensures |bodies| == if sats == [] then 1 else SentenceCount(|sats|)
    ensures sats != [] ==> forall k :: 0 <= k < |bodies| ==>
      PER_SENTENCE * k <= |sats| && bodies[k] == Body(talker, sats, k)
    ensures sats == [] ==> bodies[0] == BlankBody(talker)
  {
    if sats == [] then [BlankBody(talker)]
    else seq(SentenceCount(|sats|), k requires 0 <= k < SentenceCount(|sats|) => Body(talker, sats, k))
  }

  function Sentence(text: string): string {
    if text == [] then [] else text + Seal(text)
  }

  function Sentences(talker: string, sats: seq<Sat>): (lines: seq<string>)
    ensures |lines| == |Bodies(talker, sats)|
    ensures forall i :: 0 <= i < |lines| ==> lines[i] == Sentence(Bodies(talker, sats)[i])
  {
    seq(|Bodies(talker, sats)|, i requires 0 <= i < |Bodies(talker, sats)| => Sentence(Bodies(talker, sats)[i]))
  }

  // ---------- the reader ----------

  datatype Line = Line(total: int, number: int, count: int, sats: seq<Sat>)

  function Split(s: string): (fields: seq<string>)
    ensures fields != []
  {
    if s == [] then [""]
    else
      var rest := Split(s[1..]);
      if s[0] == ',' then [""] + rest else [[s[0]] + rest[0]] + rest[1..]
  }

  function ReadSat(fields: seq<string>): Option<Sat>
    requires |fields| == 4
  {
    var prn, elevation, azimuth, snr := Parse(fields[0]), Parse(fields[1]), Parse(fields[2]), Parse(fields[3]);
    if prn.None? || elevation.None? || azimuth.None? then None
    else if fields[3] != "" && snr.None? then None
    else Some(Sat(prn.value, elevation.value, azimuth.value, snr))
  }

  function ReadSats(fields: seq<string>): Option<seq<Sat>> {
    if fields == [] then Some([])
    else if |fields| < 4 then None
    else
      var sat, rest := ReadSat(fields[..4]), ReadSats(fields[4..]);
      if sat.None? || rest.None? then None else Some([sat.value] + rest.value)
  }

  function HexValue(c: char): Option<nat> {
    if '0' <= c <= '9' then Some(c as int - '0' as int)
    else if 'A' <= c <= 'F' then Some(10 + c as int - 'A' as int)
    else None
  }

  function ReadHex(high: char, low: char): Option<nat> {
    if HexValue(high).None? || HexValue(low).None? then None
    else Some(16 * HexValue(high).value + HexValue(low).value)
  }

  /** The reader's own sum: the running exclusive or, from front to back. */
  function Parity(b: seq<bv8>, sum: bv8): bv8 {
    if b == [] then sum else Parity(b[1..], sum ^ b[0])
  }

  /** The text between '$' and '*', if the frame and the checksum are right. */
  function Payload(line: string): Option<string> {
    var n := |line|;
    if n < 6 || line[0] != '$' || line[n - 5] != '*' || line[n - 2] != '\r' || line[n - 1] != '\n' then None
    else if ReadHex(line[n - 4], line[n - 3]) != Some(Parity(Bytes(line[1..n - 5]), 0) as int) then None
    else Some(line[1..n - 5])
  }

  function ReadFields(talker: string, fields: seq<string>): Option<Line> {
    if |fields| < 4 || fields[0] != talker + "GSV" then None
    else
      var total, number, count := Parse(fields[1]), Parse(fields[2]), Parse(fields[3]);
      if total.None? || number.None? || count.None? then None
      else if count.value == 0 && fields[4..] == [""] then Some(Line(total.value, number.value, 0, []))
      else
        var sats := ReadSats(fields[4..]);
        if sats.None? then None else Some(Line(total.value, number.value, count.value, sats.value))
  }

  function Read(talker: string, line: string): Option<Line> {
    var payload := Payload(line);
    if payload.None? then None else ReadFields(talker, Split(payload.value))
  }

  function ReadLines(talker: string, lines: seq<string>): (found: seq<Option<Line>>)
    ensures |found| == |lines| && forall i :: 0 <= i < |lines| ==> found[i] == Read(talker, lines[i])
  {
    seq(|lines|, i requires 0 <= i < |lines| => Read(talker, lines[i]))
  }

  /** The satellites of all lines from number k + 1 on, all of which belong to the same report. */
  function Collect(found: seq<Option<Line>>, k: nat, count: int): Option<seq<Sat>>
    requires k <= |found|
    decreases |found| - k
  {
    if k == |found| then Some([])
    else
      var line, rest := found[k], Collect(found, k + 1, count);
      if line.None? || rest.None? then None
      else if line.value.total != |found| || line.value.number != k + 1 || line.value.count != count then None
      else Some(line.value.sats + rest.value)
  }

  /** A whole report of `count` satellites. */
  function ReadReport(talker: string, lines: seq<string>, count: int): Option<seq<Sat>> {
    var sats := Collect(ReadLines(talker, lines), 0, count);
    if lines == [] || sats.None? || |sats.value| != count then None else sats
  }
}

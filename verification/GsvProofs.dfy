/** The report reads back, and a damaged sentence does not. */
module GsvProofs {
  import opened Options
  import opened Decimal
  import opened Gsv

  // ---------- splitting at commas ----------

  lemma {:induction false} SplitFirst(first: string, rest: string)
    requires ',' !in first
    ensures Split(first) == [first]
    ensures Split(first + "," + rest) == [first] + Split(rest)
  {
    var s := first + "," + rest;
    if first == [] {
      assert s[1..] == rest;
    } else {
      SplitFirst(first[1..], rest);
      assert s[1..] == first[1..] + "," + rest;
      assert [first[0]] + first[1..] == first;
    }
  }

  predicate NoCommas(fields: seq<string>) {
    forall i :: 0 <= i < |fields| ==> ',' !in fields[i]
  }

  lemma {:induction false} SplitTail(first: string, fields: seq<string>)
    requires ',' !in first && NoCommas(fields)
    ensures Split(first + Tail(fields)) == [first] + fields
    decreases |fields|
  {
    if fields == [] {
      SplitFirst(first, "");
      assert first + "" == first;
    } else {
      SplitTail(fields[0], fields[1..]);
      SplitFirst(first, fields[0] + Tail(fields[1..]));
      assert first + Tail(fields) == first + "," + (fields[0] + Tail(fields[1..]));
    }
  }

  lemma {:induction false} TailConcat(a: seq<string>, b: seq<string>)
    ensures Tail(a + b) == Tail(a) + Tail(b)
  {
    if a == [] {
      assert a + b == b;
    } else {
      TailConcat(a[1..], b);
      assert (a + b)[0] == a[0] && (a + b)[1..] == a[1..] + b;
      assert "," + a[0] + (Tail(a[1..]) + Tail(b)) == ("," + a[0] + Tail(a[1..])) + Tail(b);
    }
  }

  // ---------- the fields of a sentence ----------

  function SatFields(sat: Sat): seq<string> {
    [Format(sat.prn, 2), Format(sat.elevation, 2), Format(sat.azimuth, 3), SnrText(sat.snr)]
  }

  function AllFields(sats: seq<Sat>): seq<string> {
    if sats == [] then [] else SatFields(sats[0]) + AllFields(sats[1..])
  }

  lemma Tail4(a: string, b: string, c: string, d: string)
    ensures Tail([a, b, c, d]) == "," + a + "," + b + "," + c + "," + d
  {
    assert Tail([d]) == "," + d;
    assert Tail([c, d]) == "," + c + Tail([d]) by { assert [c, d][1..] == [d]; }
    assert Tail([b, c, d]) == "," + b + Tail([c, d]) by { assert [b, c, d][1..] == [c, d]; }
    assert [a, b, c, d][1..] == [b, c, d];
  }

  lemma Tail3(a: string, b: string, c: string)
    ensures Tail([a, b, c]) == "," + a + "," + b + "," + c
  {
    assert Tail([c]) == "," + c;
    assert Tail([b, c]) == "," + b + Tail([c]) by { assert [b, c][1..] == [c]; }
    assert [a, b, c][1..] == [b, c];
  }

  lemma SatsTextLast(sats: seq<Sat>, sat: Sat)
    ensures SatsText(sats + [sat]) == SatsText(sats) + SatText(sat)
  {
    assert (sats + [sat])[..|sats|] == sats;
  }

  lemma Associate(a: string, b: string, c: string)
    ensures (a + b) + c == a + (b + c)
  {
  }

  lemma LastApart<T>(x: T, s: seq<T>)
    requires s != []
    ensures s == s[..|s| - 1] + [s[|s| - 1]]
    ensures [x] + s == ([x] + s[..|s| - 1]) + [s[|s| - 1]]
  {
  }

  lemma {:induction false} SatsTextFront(sat: Sat, sats: seq<Sat>, first: string)
    requires first == SatText(sat)
    ensures SatsText([sat] + sats) == first + SatsText(sats)
  {
    if sats == [] {
      SatsTextLast([], sat);
      assert [sat] + sats == [] + [sat];
    } else {
      var rest, last := sats[..|sats| - 1], sats[|sats| - 1];
      LastApart(sat, sats);
      SatsTextFront(sat, rest, first);
      SatsTextLast([sat] + rest, last);
      SatsTextLast(rest, last);
      Associate(first, SatsText(rest), SatText(last));
    }
  }

  lemma {:induction false} SatsTextIsTail(sats: seq<Sat>)
    ensures SatsText(sats) == Tail(AllFields(sats)) && NoCommas(AllFields(sats))
  {
    if sats != [] {
      SatsTextIsTail(sats[1..]);
      SatsTextFront(sats[0], sats[1..], SatText(sats[0]));
      assert [sats[0]] + sats[1..] == sats;
      TailConcat(SatFields(sats[0]), AllFields(sats[1..]));
      SatTextIsTail(sats[0]);
    }
  }

  lemma SatTextIsTail(sat: Sat)
    ensures SatText(sat) == Tail(SatFields(sat)) && NoCommas(SatFields(sat))
  {
    FormatRoundTrip(sat.prn, 2);
    FormatRoundTrip(sat.elevation, 2);
    FormatRoundTrip(sat.azimuth, 3);
    if sat.snr.Some? {
      FormatRoundTrip(sat.snr.value, 2);
    }
    Tail4(Format(sat.prn, 2), Format(sat.elevation, 2), Format(sat.azimuth, 3), SnrText(sat.snr));
  }

  function HeaderFields(total: nat, number: nat, count: nat): seq<string> {
    [Format(total, 1), Format(number, 1), Format(count, 2)]
  }

  lemma HeaderIsTail(talker: string, total: nat, number: nat, count: nat)
    ensures HeaderText(talker, total, number, count)
         == "$" + (talker + "GSV") + Tail(HeaderFields(total, number, count))
    ensures NoCommas(HeaderFields(total, number, count))
  {
    FormatRoundTrip(total, 1);
    FormatRoundTrip(number, 1);
    FormatRoundTrip(count, 2);
    Tail3(Format(total, 1), Format(number, 1), Format(count, 2));
    assert "GSV" + "," == "GSV,";
  }

  // ---------- one sentence ----------

  lemma ReadOne(sat: Sat)
    ensures ReadSat(SatFields(sat)) == Some(sat)
  {
    FormatRoundTrip(sat.prn, 2);
    FormatRoundTrip(sat.elevation, 2);
    FormatRoundTrip(sat.azimuth, 3);
    if sat.snr.Some? {
      FormatRoundTrip(sat.snr.value, 2);
    } else {
      assert ParseNat("") == None;
    }
  }

  lemma ReadSatsStep(fields: seq<string>, sat: Sat, sats: seq<Sat>)
    requires |fields| >= 4 && ReadSat(fields[..4]) == Some(sat) && ReadSats(fields[4..]) == Some(sats)
    ensures ReadSats(fields) == Some([sat] + sats)
  {
  }

  lemma {:induction false} ReadAllFields(sats: seq<Sat>)
    ensures ReadSats(AllFields(sats)) == Some(sats)
  {
    if sats != [] {
      ReadAllFields(sats[1..]);
      ReadOne(sats[0]);
      var fields := AllFields(sats);
      assert fields[..4] == SatFields(sats[0]) && fields[4..] == AllFields(sats[1..]);
      ReadSatsStep(fields, sats[0], sats[1..]);
      assert [sats[0]] + sats[1..] == sats;
    }
  }

  // ---------- the checksum ----------

  lemma XorAssociates(x: bv8, y: bv8, z: bv8)
    ensures (x ^ y) ^ z == x ^ (y ^ z) && 0 ^ x == x && x ^ 0 == x
  {
  }

  lemma {:induction false} XorConcat(a: seq<bv8>, b: seq<bv8>)
    ensures XorAll(a + b) == XorAll(a) ^ XorAll(b)
  {
    if b == [] {
      assert a + b == a;
      XorAssociates(XorAll(a), 0, 0);
    } else {
      var n := |b| - 1;
      XorConcat(a, b[..n]);
      assert (a + b)[..|a + b| - 1] == a + b[..n] && (a + b)[|a + b| - 1] == b[n];
      XorAssociates(XorAll(a), XorAll(b[..n]), b[n]);
    }
  }

  lemma XorOfOne(x: bv8)
    ensures XorAll([x]) == x
  {
    assert [x][..0] == [];
    XorAssociates(x, 0, 0);
  }

  lemma XorFront(b: seq<bv8>)
    requires b != []
    ensures XorAll(b) == b[0] ^ XorAll(b[1..])
  {
    XorConcat([b[0]], b[1..]);
    XorOfOne(b[0]);
    assert [b[0]] + b[1..] == b;
  }

  lemma {:induction false} ParityIsXor(b: seq<bv8>, sum: bv8)
    ensures Parity(b, sum) == sum ^ XorAll(b)
  {
    if b == [] {
      XorAssociates(sum, 0, 0);
    } else {
      ParityIsXor(b[1..], sum ^ b[0]);
      XorFront(b);
      XorAssociates(sum, b[0], XorAll(b[1..]));
    }
  }

  lemma ParityIsChecksum(s: string)
    ensures Parity(Bytes(s), 0) == Checksum(s)
  {
    ParityIsXor(Bytes(s), 0);
    XorAssociates(Checksum(s), 0, 0);
  }

  /** The sum of a text is the exclusive or of the sums of its parts. */
  lemma ChecksumConcat(a: string, b: string)
    ensures Checksum(a + b) == Checksum(a) ^ Checksum(b)
  {
    assert Bytes(a + b) == Bytes(a) + Bytes(b);
    XorConcat(Bytes(a), Bytes(b));
  }

  /** The sum of one character is the character, that of no character is zero. */
  lemma ChecksumOfOne(c: char)
    ensures Checksum([c]) == Byte(c) && Checksum([]) == 0
  {
    assert Bytes([c]) == [Byte(c)];
    XorOfOne(Byte(c));
  }

  /** A character below 256 counts as its code. */
  lemma ByteIsCode(c: char)
    requires c as int < 256
    ensures Byte(c) as int == c as int
  {
  }

  lemma HexReadsBack(v: int)
    requires 0 <= v < 256
    ensures |Hex(v)| == 2 && ReadHex(Hex(v)[0], Hex(v)[1]) == Some(v)
  {
    DigitReadsBack(v / 16);
    DigitReadsBack(v % 16);
  }

  lemma DigitReadsBack(d: int)
    requires 0 <= d < 16
    ensures HexValue(HexDigit(d)) == Some(d)
  {
  }

  lemma SealIs(text: string)
    requires text != []
    ensures var sum := Checksum(text[1..]) as int;
      && |Seal(text)| == 5 && Seal(text)[0] == '*' && Seal(text)[3] == '\r' && Seal(text)[4] == '\n'
      && ReadHex(Seal(text)[1], Seal(text)[2]) == Some(sum)
  {
    HexReadsBack(Checksum(text[1..]) as int);
  }

  lemma FrameIs(payload: string)
    ensures var line := Sentence("$" + payload); var n := |line|;
      && n == |payload| + 6 && line[0] == '$' && line[1..n - 5] == payload && line[n - 5] == '*'
      && line[n - 2] == '\r' && line[n - 1] == '\n'
      && ReadHex(line[n - 4], line[n - 3]) == Some(Checksum(payload) as int)
  {
    var text := "$" + payload;
    SealIs(text);
    assert text[1..] == payload;
    assert Sentence(text) == text + Seal(text);
  }

  lemma SealedPayload(payload: string)
    ensures Payload(Sentence("$" + payload)) == Some(payload)
  {
    FrameIs(payload);
    ParityIsChecksum(payload);
  }

  lemma ReadPayload(talker: string, text: string, first: string, fields: seq<string>)
    requires ',' !in first && NoCommas(fields) && text == "$" + (first + Tail(fields))
    ensures Read(talker, Sentence(text)) == ReadFields(talker, [first] + fields)
  {
    SplitTail(first, fields);
    SealedPayload(first + Tail(fields));
  }

  lemma ReadHeader(talker: string, total: nat, number: nat, count: nat, sats: seq<Sat>)
    requires count > 0
    ensures ReadFields(talker, [talker + "GSV"] + (HeaderFields(total, number, count) + AllFields(sats)))
         == Some(Line(total, number, count, sats))
  {
    var fields := [talker + "GSV"] + (HeaderFields(total, number, count) + AllFields(sats));
    FormatRoundTrip(total, 1);
    FormatRoundTrip(number, 1);
    FormatRoundTrip(count, 2);
    ReadAllFields(sats);
    assert fields[4..] == AllFields(sats);
  }

  function BodyFields(sats: seq<Sat>, k: nat): seq<string>
    requires PER_SENTENCE * k <= |sats|
  {
    HeaderFields(SentenceCount(|sats|), k + 1, |sats|) + AllFields(Group(sats, k))
  }

  lemma Regroup(a: string, b: string, c: string, d: string)
    ensures (a + b + c) + d == a + (b + (c + d))
  {
  }

  lemma BodyIsTail(talker: string, sats: seq<Sat>, k: nat)
    requires PER_SENTENCE * k <= |sats|
    ensures Body(talker, sats, k) == "$" + ((talker + "GSV") + Tail(BodyFields(sats, k)))
    ensures NoCommas(BodyFields(sats, k))
  {
    var n, group := |sats|, Group(sats, k);
    var header := HeaderFields(SentenceCount(n), k + 1, n);
    HeaderIsTail(talker, SentenceCount(n), k + 1, n);
    SatsTextIsTail(group);
    TailConcat(header, AllFields(group));
    Regroup("$", talker + "GSV", Tail(header), Tail(AllFields(group)));
  }

  lemma ReadText(talker: string, text: string, total: nat, number: nat, count: nat, group: seq<Sat>)
    requires ',' !in talker && count > 0 && NoCommas(HeaderFields(total, number, count) + AllFields(group))
    requires text == "$" + ((talker + "GSV") + Tail(HeaderFields(total, number, count) + AllFields(group)))
    ensures Read(talker, Sentence(text)) == Some(Line(total, number, count, group))
  {
    ReadPayload(talker, text, talker + "GSV", HeaderFields(total, number, count) + AllFields(group));
    ReadHeader(talker, total, number, count, group);
  }

  lemma ReadBody(talker: string, sats: seq<Sat>, k: nat)
    requires ',' !in talker && sats != [] && PER_SENTENCE * k <= |sats|
    ensures Read(talker, Sentence(Body(talker, sats, k)))
         == Some(Line(SentenceCount(|sats|), k + 1, |sats|, Group(sats, k)))
  {
    BodyIsTail(talker, sats, k);
    ReadText(talker, Body(talker, sats, k), SentenceCount(|sats|), k + 1, |sats|, Group(sats, k));
  }

  lemma BlankIsTail(talker: string)
    ensures BlankBody(talker) == "$" + ((talker + "GSV") + Tail(["1", "1", "0", ""]))
  {
    Tail4("1", "1", "0", "");
    assert ",1,1,0," == "," + "1" + "," + "1" + "," + "0" + "," + "";
    assert "GSV" + ",1,1,0," == "GSV,1,1,0,";
    Regroup("$", talker, "GSV", ",1,1,0,");
  }

  lemma ReadBlankFields(talker: string)
    ensures ReadFields(talker, [talker + "GSV"] + ["1", "1", "0", ""]) == Some(Line(1, 1, 0, []))
  {
    var fields := [talker + "GSV"] + ["1", "1", "0", ""];
    assert Parse("1") == Some(1) && Parse("0") == Some(0);
    assert fields[4..] == [""];
  }

  lemma ReadBlank(talker: string)
    requires ',' !in talker
    ensures Read(talker, Sentence(BlankBody(talker))) == Some(Line(1, 1, 0, []))
  {
    var fields := ["1", "1", "0", ""];
    BlankIsTail(talker);
    ReadPayload(talker, BlankBody(talker), talker + "GSV", fields);
    ReadBlankFields(talker);
  }

  // ---------- the whole report ----------

  /** The lines of a report of sats, as the reader sees them. */
  ghost predicate Reports(talker: string, lines: seq<string>, sats: seq<Sat>) {
    |lines| == SentenceCount(|sats|) && forall k :: 0 <= k < |lines| ==>
      PER_SENTENCE * k <= |sats| && Read(talker, lines[k]) == Some(Line(|lines|, k + 1, |sats|, Group(sats, k)))
  }

  lemma SentencesReport(talker: string, sats: seq<Sat>)
    requires ',' !in talker && sats != []
    ensures Reports(talker, Sentences(talker, sats), sats)
  {
    var lines := Sentences(talker, sats);
    forall k | 0 <= k < |lines|
      ensures PER_SENTENCE * k <= |sats|
      ensures Read(talker, lines[k]) == Some(Line(|lines|, k + 1, |sats|, Group(sats, k)))
    {
      CountTimesFour(|sats|);
      ReadBody(talker, sats, k);
    }
  }

  /** The satellites from sentence k + 1 on. */
  function Rest(sats: seq<Sat>, k: nat): seq<Sat> {
    if PER_SENTENCE * k < |sats| then sats[PER_SENTENCE * k..] else []
  }

  lemma RestStep(sats: seq<Sat>, k: nat)
    requires PER_SENTENCE * k < |sats|
    ensures Rest(sats, k) == Group(sats, k) + Rest(sats, k + 1)
  {
  }

  /** What the reader makes of the lines, one by one. */
  ghost predicate Found(found: seq<Option<Line>>, sats: seq<Sat>) {
    |found| == SentenceCount(|sats|) && forall i :: 0 <= i < |found| ==>
      PER_SENTENCE * i <= |sats| && found[i] == Some(Line(|found|, i + 1, |sats|, Group(sats, i)))
  }

  lemma CollectStep(found: seq<Option<Line>>, k: nat, count: int, group: seq<Sat>, rest: seq<Sat>)
    requires k < |found| && found[k] == Some(Line(|found|, k + 1, count, group))
    requires Collect(found, k + 1, count) == Some(rest)
    ensures Collect(found, k, count) == Some(group + rest)
  {
  }

  lemma {:induction false} CollectRest(found: seq<Option<Line>>, sats: seq<Sat>, k: nat)
    requires Found(found, sats) && k <= |found|
    ensures Collect(found, k, |sats|) == Some(Rest(sats, k))
    decreases |found| - k
  {
    CountTimesFour(|sats|);
    if k < |found| {
      CollectRest(found, sats, k + 1);
      RestStep(sats, k);
      CollectStep(found, k, |sats|, Group(sats, k), Rest(sats, k + 1));
    }
  }

  lemma CollectBlank(found: seq<Option<Line>>)
    requires |found| == 1 && found[0] == Some(Line(1, 1, 0, []))
    ensures Collect(found, 0, 0) == Some([])
  {
    assert Collect(found, 1, 0) == Some([]);
    assert found[0].value.sats + [] == [];
  }

  /** The reader gets back exactly the satellites that were written, in order, whatever their values. */
  lemma ReportRoundTrip(talker: string, sats: seq<Sat>)
    requires ',' !in talker
    ensures ReadReport(talker, Sentences(talker, sats), |sats|) == Some(sats)
  {
    var lines := Sentences(talker, sats);
    if sats == [] {
      ReadBlank(talker);
      CollectBlank(ReadLines(talker, lines));
    } else {
      SentencesReport(talker, sats);
      CollectRest(ReadLines(talker, lines), sats, 0);
      assert Rest(sats, 0) == sats;
    }
  }

  /** As many sentences as needed, all but the last with four satellites. */
  lemma FullSentences(talker: string, sats: seq<Sat>, k: nat)
    requires ',' !in talker && sats != [] && k < |Sentences(talker, sats)|
    ensures |Sentences(talker, sats)| == (|sats| + 3) / 4
    ensures Read(talker, Sentences(talker, sats)[k]).Some?
    ensures var own := |Read(talker, Sentences(talker, sats)[k]).value.sats|;
      1 <= own <= 4 && (k + 1 < |Sentences(talker, sats)| ==> own == 4)
  {
    CountTimesFour(|sats|);
    SentencesReport(talker, sats);
  }

  // ---------- damage ----------

  lemma XorCancels(x: bv8, y: bv8, b: bv8)
    ensures x ^ b == y ^ b <==> x == y
    ensures b ^ x == b ^ y <==> x == y
  {
  }

  lemma {:induction false} XorNotices(b: seq<bv8>, i: nat, x: bv8)
    requires i < |b| && b[i] != x
    ensures XorAll(b[i := x]) != XorAll(b)
  {
    var n, t := |b| - 1, b[i := x];
    if i == n {
      assert t[..n] == b[..n];
      XorCancels(b[n], x, XorAll(b[..n]));
    } else {
      XorNotices(b[..n], i, x);
      assert t[..n] == b[..n][i := x];
      XorCancels(XorAll(b[..n]), XorAll(t[..n]), b[n]);
    }
  }

  lemma ChecksumNotices(s: string, i: nat, c: char)
    requires i < |s| && Byte(s[i]) != Byte(c)
    ensures Checksum(s[i := c]) != Checksum(s)
  {
    XorNotices(Bytes(s), i, Byte(c));
    assert Bytes(s[i := c]) == Bytes(s)[i := Byte(c)];
  }

  lemma DifferentSums(x: bv8, y: bv8)
    requires x != y
    ensures x as int != y as int
  {
    assert (x as int) as bv8 == x && (y as int) as bv8 == y;
  }

  /** A sentence with one character before the '*' replaced by a different byte is not accepted. */
  lemma DamageIsNoticed(talker: string, payload: string, i: nat, c: char)
    requires i < |payload| && Byte(payload[i]) != Byte(c)
    ensures Read(talker, Sentence("$" + payload)[i + 1 := c]) == None
  {
    var line := Sentence("$" + payload);
    var damaged, other := line[i + 1 := c], payload[i := c];
    FrameIs(payload);
    assert damaged[1..|damaged| - 5] == other;
    ChecksumNotices(payload, i, c);
    DifferentSums(Checksum(other), Checksum(payload));
    ParityIsChecksum(other);
  }
}

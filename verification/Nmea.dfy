/**
 The satellite report of loc_eng_nmea.cpp: the same loops over a fixed buffer, against the GSV
 sentences they are meant to send.
 */
module Nmea {
  import opened Options
  import opened CStrings
  import opened Decimal
  import opened Gsv
  import GsvProofs

  const MAX_LENGTH := 200
  const GPS_PRN_START := 1
  const GPS_PRN_END := 32
  const GLONASS_PRN_START := 65
  const GLONASS_PRN_END := 96

  datatype SvInfo = SvInfo(prn: int, elevation: real, azimuth: real, snr: real)

  /** What the send function is given: the text in the buffer and the length it is told. */
  datatype Sent = Sent(text: string, length: int)

  /** The conversion from floating point to integer, which cuts off the fraction. */
  function Truncated(x: real): int {
    if x >= 0.0 then x.Floor else -(-x).Floor
  }

  function Rounded(x: real): int {
    Truncated(0.5 + x)
  }

  function Satellite(sv: SvInfo): Sat {
    Sat(sv.prn, Rounded(sv.elevation), Rounded(sv.azimuth), if sv.snr > 0.0 then Some(Rounded(sv.snr)) else None)
  }

  predicate InRange(sv: SvInfo, first: int, last: int) {
    first <= sv.prn <= last
  }

  /** The satellites of one constellation, in list order. */
  function Chosen(svs: seq<SvInfo>, first: int, last: int): (sats: seq<Sat>)
    ensures |sats| <= |svs|
  {
    if svs == [] then []
    else
      var sats, sv := Chosen(svs[..|svs| - 1], first, last), svs[|svs| - 1];
      if InRange(sv, first, last) then sats + [Satellite(sv)] else sats
  }

  /** What fits into the buffer, before its NUL. */
  function Cut(text: string): string {
    if |text| < MAX_LENGTH then text else text[..MAX_LENGTH - 1]
  }

  function Sealed(text: string): Sent
    requires text != []
  {
    Sent(Cut(Sentence(text)), |text| + 4)
  }

  predicate AllFit(bodies: seq<string>) {
    forall i :: 0 <= i < |bodies| ==> |bodies[i]| < MAX_LENGTH
  }

  /** One sentence after the other, up to the first that does not fit. */
  function Emitted(bodies: seq<string>): seq<Sent> {
    if bodies == [] || bodies[0] == [] || |bodies[0]| >= MAX_LENGTH then []
    else [Sealed(bodies[0])] + Emitted(bodies[1..])
  }

  function TalkerReport(talker: string, sats: seq<Sat>): seq<Sent> {
    Emitted(Bodies(talker, sats))
  }

  /** Everything one call sends: a report for GPS and, unless that failed, one for GLONASS. */
  function SvReport(svs: seq<SvInfo>): seq<Sent> {
    var gps := Chosen(svs, GPS_PRN_START, GPS_PRN_END);
    var gln := Chosen(svs, GLONASS_PRN_START, GLONASS_PRN_END);
    TalkerReport("GP", gps) + if AllFit(Bodies("GP", gps)) then TalkerReport("GL", gln) else []
  }

  // ---------- no NUL in a sentence ----------

  lemma FormatHasNoNul(n: int, width: int)
    ensures NUL !in Format(n, width)
  {
    FormatRoundTrip(n, width);
  }

  lemma SatTextHasNoNul(sat: Sat)
    ensures NUL !in SatText(sat)
  {
    FormatHasNoNul(sat.prn, 2);
    FormatHasNoNul(sat.elevation, 2);
    FormatHasNoNul(sat.azimuth, 3);
    if sat.snr.Some? {
      FormatHasNoNul(sat.snr.value, 2);
    }
  }

  lemma {:induction false} SatsTextHasNoNul(sats: seq<Sat>)
    ensures NUL !in SatsText(sats)
  {
    if sats != [] {
      SatsTextHasNoNul(sats[..|sats| - 1]);
      SatTextHasNoNul(sats[|sats| - 1]);
    }
  }

  lemma HeaderHasNoNul(talker: string, total: nat, number: nat, count: nat)
    requires NUL !in talker
    ensures NUL !in HeaderText(talker, total, number, count)
  {
    FormatHasNoNul(total, 1);
    FormatHasNoNul(number, 1);
    FormatHasNoNul(count, 2);
  }

  // ---------- the buffer ----------

  /** The buffer holds the text and a NUL after it. */
  predicate Holds(buffer: seq<char>, text: string) {
    |text| < |buffer| && buffer[..|text|] == text && buffer[|text|] == NUL
  }

  /** snprintf at the end of the text: what does not fit is cut off, the full length is returned. */
  method Snprintf(buffer: array<char>, ghost text: string, pos: nat, remaining: nat, more: string) returns (length: nat)
    requires buffer.Length == MAX_LENGTH == pos + remaining && remaining > 0 && buffer[..pos] == text
    modifies buffer
    ensures length == |more| && Holds(buffer[..], Cut(text + more))
  {
    var i := 0;
    while i < |more| && i < remaining - 1
      invariant i <= |more| && i <= remaining - 1
      invariant buffer[..pos + i] == text + more[..i]
    {
      buffer[pos + i] := more[i];
      i := i + 1;
    }
    buffer[pos + i] := NUL;
    assert Cut(text + more) == text + more[..i];
    length := |more|;
  }

  lemma ChecksumNext(text: string, pos: nat)
    requires 1 <= pos < |text|
    ensures Checksum(text[1..pos + 1]) == Checksum(text[1..pos]) ^ Byte(text[pos])
  {
    assert text[1..pos + 1] == text[1..pos] + [text[pos]];
    GsvProofs.ChecksumConcat(text[1..pos], [text[pos]]);
    GsvProofs.ChecksumOfOne(text[pos]);
  }

  /** The loop of put_checksum: the sum of everything between '$' and the NUL. */
  method SumText(buffer: array<char>, ghost text: string) returns (checksum: bv8, length: nat)
    requires buffer.Length == MAX_LENGTH && Holds(buffer[..], text) && text != [] && NUL !in text
    ensures checksum == Checksum(text[1..]) && length == |text| - 1
  {
    var pos := 1;
    checksum, length := 0, 0;
    assert text[1..1] == [] && Bytes([]) == [];
    while buffer[pos] != NUL
      invariant 1 <= pos <= |text| && length == pos - 1
      invariant checksum == Checksum(text[1..pos])
      invariant pos < |text| ==> buffer[pos] == text[pos]
      decreases |text| - pos
    {
      ChecksumNext(text, pos);
      checksum := checksum ^ Byte(buffer[pos]);
      pos, length := pos + 1, length + 1;
    }
    assert text[1..pos] == text[1..];
  }

  /** put_checksum: the sum is written where the NUL was. */
  method PutChecksum(buffer: array<char>, ghost text: string) returns (length: int)
    requires buffer.Length == MAX_LENGTH && Holds(buffer[..], text) && text != [] && NUL !in text
    modifies buffer
    ensures Holds(buffer[..], Sealed(text).text) && length == Sealed(text).length
  {
    var checksum;
    checksum, length := SumText(buffer, text);
    var tail := "*" + Hex2(checksum) + "\r\n";
    var checksumLength := Snprintf(buffer, text, length + 1, MAX_LENGTH - length - 1, tail);
    length := length + checksumLength;
  }

  // ---------- one sentence ----------

  /** snprintf, the check that its text fitted, and the step of the marker behind it. */
  method Append(buffer: array<char>, ghost text: string, pos: nat, more: string) returns (ok: bool, next: nat)
    requires buffer.Length == MAX_LENGTH && pos == |text| < MAX_LENGTH && buffer[..pos] == text
    modifies buffer
    ensures ok <==> |text + more| < MAX_LENGTH
    ensures ok ==> next == |text + more| && Holds(buffer[..], text + more)
  {
    var length := Snprintf(buffer, text, pos, MAX_LENGTH - pos, more);
    ok, next := length < MAX_LENGTH - pos, pos + length;
  }

  /** One satellite's fields; false if they do not fit. */
  method AppendSat(buffer: array<char>, ghost text: string, start: nat, sv: SvInfo, ghost sat: Sat)
    returns (ok: bool, pos: nat)
    requires buffer.Length == MAX_LENGTH && Holds(buffer[..], text) && start == |text| && sat == Satellite(sv)
    modifies buffer
    ensures ok <==> |text + SatText(sat)| < MAX_LENGTH
    ensures ok ==> pos == |text + SatText(sat)| && Holds(buffer[..], text + SatText(sat))
  {
    var fixed := FixedText(sv.prn, Rounded(sv.elevation), Rounded(sv.azimuth));
    GsvProofs.Associate(text, fixed, SnrText(sat.snr));
    ok, pos := Append(buffer, text, start, fixed);
    if !ok {
      return;
    }
    if sv.snr > 0.0 {
      ok, pos := Append(buffer, text + fixed, pos, Format(Rounded(sv.snr), 2));
    }
  }

  lemma ChosenStep(svs: seq<SvInfo>, first: int, last: int, j: nat)
    requires j < |svs|
    ensures Chosen(svs[..j + 1], first, last) == Chosen(svs[..j], first, last)
         + if InRange(svs[j], first, last) then [Satellite(svs[j])] else []
  {
    assert svs[..j + 1][..j] == svs[..j];
  }

  lemma {:induction false} ChosenPrefix(svs: seq<SvInfo>, first: int, last: int, j: nat)
    requires j <= |svs|
    ensures Chosen(svs[..j], first, last) <= Chosen(svs, first, last)
    decreases |svs| - j
  {
    if j < |svs| {
      ChosenStep(svs, first, last, j);
      ChosenPrefix(svs, first, last, j + 1);
    } else {
      assert svs[..j] == svs;
    }
  }

  /** How many satellites of the constellation the first j entries hold. */
  function Before(svs: seq<SvInfo>, first: int, last: int, j: nat): nat
    requires j <= |svs|
  {
    |Chosen(svs[..j], first, last)|
  }

  lemma BeforeStep(svs: seq<SvInfo>, first: int, last: int, j: nat)
    requires j < |svs|
    ensures Before(svs, first, last, j + 1)
         == Before(svs, first, last, j) + if InRange(svs[j], first, last) then 1 else 0
    ensures Before(svs, first, last, j + 1) <= |Chosen(svs, first, last)|
    ensures InRange(svs[j], first, last) ==> Chosen(svs, first, last)[Before(svs, first, last, j)] == Satellite(svs[j])
  {
    ChosenStep(svs, first, last, j);
    ChosenPrefix(svs, first, last, j + 1);
  }

  /** Rounded is the nearest integer, the higher of two. */
  lemma RoundedIsNearest(x: real)
    requires x >= -0.5
    ensures -0.5 < Rounded(x) as real - x <= 0.5
  {
  }

  /** What is reported of an in-range satellite, and where. */
  lemma ReportedFields(svs: seq<SvInfo>, first: int, last: int, j: nat)
    requires j < |svs| && first <= svs[j].prn <= last
    requires svs[j].elevation >= -0.5 && svs[j].azimuth >= -0.5
    ensures Before(svs, first, last, j) < |Chosen(svs, first, last)|
    ensures var sat, sv := Chosen(svs, first, last)[Before(svs, first, last, j)], svs[j];
      && sat.prn == sv.prn
      && -0.5 < sat.elevation as real - sv.elevation <= 0.5
      && -0.5 < sat.azimuth as real - sv.azimuth <= 0.5
      && (sat.snr.Some? <==> sv.snr > 0.0)
      && (sat.snr.Some? ==> -0.5 < sat.snr.value as real - sv.snr <= 0.5)
  {
    var sv := svs[j];
    BeforeStep(svs, first, last, j);
    RoundedIsNearest(sv.elevation);
    RoundedIsNearest(sv.azimuth);
    if sv.snr > 0.0 {
      RoundedIsNearest(sv.snr);
    }
  }

  /** The entries before svNumber hold what comes before the group and i satellites of the group itself. */
  ghost predicate Reached(svs: seq<SvInfo>, first: int, last: int, k: nat, i: nat, svNumber: nat) {
    && 1 <= svNumber <= |svs| + 1 && PER_SENTENCE * k <= |Chosen(svs, first, last)|
    && Before(svs, first, last, svNumber - 1) == PER_SENTENCE * k + i
  }

  function GroupOf(svs: seq<SvInfo>, first: int, last: int, k: nat): seq<Sat>
    requires PER_SENTENCE * k <= |Chosen(svs, first, last)|
  {
    Group(Chosen(svs, first, last), k)
  }

  lemma ReachedNext(svs: seq<SvInfo>, first: int, last: int, k: nat, i: nat, svNumber: nat)
    requires Reached(svs, first, last, k, i, svNumber) && svNumber <= |svs| && i < PER_SENTENCE
    ensures !InRange(svs[svNumber - 1], first, last) ==> Reached(svs, first, last, k, i, svNumber + 1)
    ensures InRange(svs[svNumber - 1], first, last) ==>
      && Reached(svs, first, last, k, i + 1, svNumber + 1)
      && i < |GroupOf(svs, first, last, k)| && GroupOf(svs, first, last, k)[i] == Satellite(svs[svNumber - 1])
  {
    BeforeStep(svs, first, last, svNumber - 1);
  }

  lemma ReachedEnd(svs: seq<SvInfo>, first: int, last: int, k: nat, i: nat, svNumber: nat)
    requires Reached(svs, first, last, k, i, svNumber) && (svNumber > |svs| || i == PER_SENTENCE)
    requires i <= |GroupOf(svs, first, last, k)|
    ensures i == |GroupOf(svs, first, last, k)|
  {
    assert svs[..|svs|] == svs;
  }

  lemma {:induction false} SatsTextGrows(sats: seq<Sat>, n: nat)
    requires n <= |sats|
    ensures |SatsText(sats[..n])| <= |SatsText(sats)|
  {
    if n < |sats| {
      SatsTextGrows(sats[..|sats| - 1], n);
      assert sats[..|sats| - 1][..n] == sats[..n];
    } else {
      assert sats[..n] == sats;
    }
  }

  /** The text after i satellites of the group. */
  ghost predicate Filled(header: string, group: seq<Sat>, i: nat, text: string) {
    i <= |group| && text == header + SatsText(group[..i])
  }

  lemma FilledStart(header: string, group: seq<Sat>)
    ensures Filled(header, group, 0, header)
  {
    assert group[..0] == [] && header + "" == header;
  }

  lemma PrefixNext<T>(s: seq<T>, i: nat)
    requires i < |s|
    ensures s[..i + 1] == s[..i] + [s[i]]
  {
  }

  lemma FilledStep(header: string, group: seq<Sat>, i: nat, text: string, piece: string)
    requires Filled(header, group, i, text) && i < |group| && piece == SatText(group[i])
    ensures Filled(header, group, i + 1, text + piece) && |text + piece| <= |header + SatsText(group)|
  {
    PrefixNext(group, i);
    GsvProofs.SatsTextLast(group[..i], group[i]);
    GsvProofs.Associate(header, SatsText(group[..i]), piece);
    SatsTextGrows(group, i + 1);
  }

  lemma FilledEnd(header: string, group: seq<Sat>, text: string)
    requires Filled(header, group, |group|, text)
    ensures text == header + SatsText(group)
  {
    assert group[..|group|] == group;
  }

  /** The satellite at position i of the group. */
  method AppendNext(buffer: array<char>, ghost header: string, ghost group: seq<Sat>, ghost i: nat,
                    ghost text: string, start: nat, sv: SvInfo)
    returns (ok: bool, pos: nat, ghost more: string)
    requires buffer.Length == MAX_LENGTH && Holds(buffer[..], text) && start == |text|
    requires i < |group| && group[i] == Satellite(sv) && Filled(header, group, i, text)
    modifies buffer
    ensures !ok ==> |header + SatsText(group)| >= MAX_LENGTH
    ensures ok ==> Filled(header, group, i + 1, more) && Holds(buffer[..], more) && pos == |more|
  {
    more := text + SatText(group[i]);
    FilledStep(header, group, i, text, SatText(group[i]));
    ok, pos := AppendSat(buffer, text, start, sv, group[i]);
  }

  /** The inner loop: the next four satellites of the constellation, or what is left of them. */
  method AppendGroup(buffer: array<char>, ghost header: string, start: nat, svs: seq<SvInfo>,
                     first: int, last: int, next: nat, ghost k: nat, ghost group: seq<Sat>)
    returns (ok: bool, svNumber: nat)
    requires buffer.Length == MAX_LENGTH && Holds(buffer[..], header) && start == |header|
    requires Reached(svs, first, last, k, 0, next) && group == GroupOf(svs, first, last, k)
    modifies buffer
    ensures ok <==> |header + SatsText(group)| < MAX_LENGTH
    ensures ok ==> Holds(buffer[..], header + SatsText(group))
    ensures ok ==> Reached(svs, first, last, k, |group|, svNumber)
  {
    ghost var text := header;
    FilledStart(header, group);
    var i, pos := 0, start;
    svNumber, ok := next, true;
    while svNumber <= |svs| && i < PER_SENTENCE
      invariant i <= |group| && i <= PER_SENTENCE
      invariant Reached(svs, first, last, k, i, svNumber)
      invariant Filled(header, group, i, text)
      invariant pos == |text| && Holds(buffer[..], text)
      decreases |svs| - svNumber
    {
      ReachedNext(svs, first, last, k, i, svNumber);
      if first <= svs[svNumber - 1].prn <= last {
        ok, pos, text := AppendNext(buffer, header, group, i, text, pos, svs[svNumber - 1]);
        if !ok {
          return;
        }
        i := i + 1;
      }
      svNumber := svNumber + 1;
    }
    ReachedEnd(svs, first, last, k, i, svNumber);
    FilledEnd(header, group, text);
  }

  // ---------- one constellation ----------

  lemma HexHasNoNul(v: int)
    requires 0 <= v < 256
    ensures NUL !in Hex(v)
  {
    assert NUL != HexDigit(v / 16) && NUL != HexDigit(v % 16);
  }

  lemma SealedHasNoNul(text: string)
    requires text != [] && NUL !in text
    ensures NUL !in Sealed(text).text
  {
    HexHasNoNul(Checksum(text[1..]) as int);
    assert NUL !in Seal(text);
  }

  /** put_checksum and the call of the send function. */
  method SealAndSend(buffer: array<char>, ghost text: string) returns (message: Sent)
    requires buffer.Length == MAX_LENGTH && Holds(buffer[..], text) && text != [] && NUL !in text
    modifies buffer
    ensures message == Sealed(text)
  {
    var length := PutChecksum(buffer, text);
    message := Sent(CString(buffer[..]), length);
    SealedHasNoNul(text);
    CStringIs(buffer[..], Sealed(text).text);
  }

  lemma BodyHasNoNul(talker: string, sats: seq<Sat>, k: nat)
    requires NUL !in talker && PER_SENTENCE * k <= |sats|
    ensures NUL !in Body(talker, sats, k)
  {
    HeaderHasNoNul(talker, SentenceCount(|sats|), k + 1, |sats|);
    SatsTextHasNoNul(Group(sats, k));
  }

  /** Sentence k + 1 of a report: header, satellites, checksum. */
  method SendSentence(buffer: array<char>, talker: string, svs: seq<SvInfo>, first: int, last: int,
                      total: nat, count: nat, next: nat, k: nat)
    returns (ok: bool, svNumber: nat, message: Sent)
    requires buffer.Length == MAX_LENGTH && NUL !in talker
    requires count == |Chosen(svs, first, last)| && total == SentenceCount(count)
    requires Reached(svs, first, last, k, 0, next)
    modifies buffer
    ensures ok <==> |Body(talker, Chosen(svs, first, last), k)| < MAX_LENGTH
    ensures ok ==> message == Sealed(Body(talker, Chosen(svs, first, last), k))
    ensures ok ==> Reached(svs, first, last, k, |GroupOf(svs, first, last, k)|, svNumber)
  {
    ghost var group := GroupOf(svs, first, last, k);
    ghost var body := Body(talker, Chosen(svs, first, last), k);
    var header := HeaderText(talker, total, k + 1, count);
    assert body == header + SatsText(group);
    svNumber, message := next, Sent("", 0);
    var pos;
    ok, pos := Append(buffer, "", 0, header);
    assert "" + header == header;
    if ok {
      ok, svNumber := AppendGroup(buffer, header, pos, svs, first, last, next, k, group);
    }
    if ok {
      BodyHasNoNul(talker, Chosen(svs, first, last), k);
      message := SealAndSend(buffer, body);
    }
  }

  /** The first k sentences fitted and are what has been sent. */
  ghost predicate SentUpTo(bodies: seq<string>, k: nat, sent: seq<Sent>) {
    k == |sent| <= |bodies| && forall i :: 0 <= i < k ==> IsSent(bodies[i], sent[i])
  }

  predicate IsSent(body: string, message: Sent) {
    0 < |body| < MAX_LENGTH && message == Sealed(body)
  }

  lemma SentNext(bodies: seq<string>, k: nat, sent: seq<Sent>, message: Sent)
    requires SentUpTo(bodies, k, sent) && k < |bodies| && IsSent(bodies[k], message)
    ensures SentUpTo(bodies, k + 1, sent + [message])
  {
    var more := sent + [message];
    forall i | 0 <= i < k + 1 ensures IsSent(bodies[i], more[i]) {
      assert i < k ==> more[i] == sent[i];
    }
  }

  lemma HeadAndTail<T>(s: seq<T>)
    requires s != []
    ensures s == [s[0]] + s[1..] && forall i :: 0 <= i < |s| - 1 ==> s[1..][i] == s[i + 1]
  {
  }

  lemma SentTail(bodies: seq<string>, k: nat, sent: seq<Sent>)
    requires SentUpTo(bodies, k, sent) && k > 0
    ensures SentUpTo(bodies[1..], k - 1, sent[1..]) && sent == [sent[0]] + sent[1..] && IsSent(bodies[0], sent[0])
  {
    var rest, later := bodies[1..], sent[1..];
    HeadAndTail(bodies);
    HeadAndTail(sent);
    forall i | 0 <= i < k - 1 ensures IsSent(rest[i], later[i]) {
      SameIsSent(bodies[i + 1], sent[i + 1], rest[i], later[i]);
    }
  }

  lemma SameIsSent(body: string, message: Sent, body': string, message': Sent)
    requires IsSent(body, message) && body' == body && message' == message
    ensures IsSent(body', message')
  {
  }

  lemma {:induction false} EmittedIs(bodies: seq<string>, k: nat, sent: seq<Sent>)
    requires SentUpTo(bodies, k, sent)
    requires k < |bodies| ==> |bodies[k]| >= MAX_LENGTH
    ensures Emitted(bodies) == sent
    ensures AllFit(bodies) <==> k == |bodies|
    decreases k
  {
    if k > 0 {
      SentTail(bodies, k, sent);
      EmittedIs(bodies[1..], k - 1, sent[1..]);
    }
  }

  /** The message is the sentence, as far as it fits, with the length one short. */
  predicate Carries(message: Sent, body: string) {
    message.text <= Sentence(body) && message.length == |Sentence(body)| - 1
  }

  lemma SealedCarries(body: string)
    requires body != []
    ensures Carries(Sealed(body), body)
  {
    assert |Seal(body)| == 5;
  }

  lemma EmittedUpTo(bodies: seq<string>, k: nat, sent: seq<Sent>)
    requires k < |bodies| && |bodies[k]| >= MAX_LENGTH && forall i :: 0 <= i < k ==> 0 < |bodies[i]| < MAX_LENGTH
    requires |sent| == k && forall i :: 0 <= i < k ==> sent[i] == Sealed(bodies[i])
    ensures Emitted(bodies) == sent && !AllFit(bodies) && forall i :: 0 <= i < k ==> Carries(sent[i], bodies[i])
  {
    forall i | 0 <= i < k ensures IsSent(bodies[i], sent[i]) && Carries(sent[i], bodies[i]) {
      SealedCarries(bodies[i]);
    }
    EmittedIs(bodies, k, sent);
  }

  lemma GpsReportOnly(svs: seq<SvInfo>, bodies: seq<string>)
    requires bodies == Bodies("GP", Chosen(svs, 1, 32)) && !AllFit(bodies)
    ensures SvReport(svs) == Emitted(bodies)
  {
    assert Emitted(bodies) + [] == Emitted(bodies);
  }

  /** The first GPS sentence that does not fit ends the report: those before it are sent, and nothing else. */
  lemma MisfitEndsReport(svs: seq<SvInfo>, bodies: seq<string>, k: nat)
    requires bodies == Bodies("GP", Chosen(svs, 1, 32))
    requires k < |bodies| && |bodies[k]| >= 200 && forall i :: 0 <= i < k ==> |bodies[i]| < 200
    ensures |SvReport(svs)| == k && forall i :: 0 <= i < k ==> Carries(SvReport(svs)[i], bodies[i])
  {
    BodiesNotEmpty("GP", Chosen(svs, 1, 32));
    var sent := seq(k, i requires 0 <= i < k => Sealed(bodies[i]));
    EmittedUpTo(bodies, k, sent);
    GpsReportOnly(svs, bodies);
  }

  lemma BodiesNotEmpty(talker: string, sats: seq<Sat>)
    ensures forall i :: 0 <= i < |Bodies(talker, sats)| ==> Bodies(talker, sats)[i] != []
  {
    var bodies := Bodies(talker, sats);
    forall i | 0 <= i < |bodies| ensures bodies[i] != [] {
      assert bodies[i] == if sats == [] then BlankBody(talker) else Body(talker, sats, i);
    }
  }

  lemma ReachedSentence(svs: seq<SvInfo>, first: int, last: int, k: nat, svNumber: nat)
    requires PER_SENTENCE * (k + 1) <= |Chosen(svs, first, last)|
    requires Reached(svs, first, last, k, |GroupOf(svs, first, last, k)|, svNumber)
    ensures Reached(svs, first, last, k + 1, 0, svNumber)
  {
  }

  lemma ReachedStart(svs: seq<SvInfo>, first: int, last: int)
    ensures Reached(svs, first, last, 0, 0, 1)
  {
  }

  method SendBlank(buffer: array<char>, talker: string) returns (sent: seq<Sent>)
    requires buffer.Length == MAX_LENGTH && NUL !in talker && |talker| == 2
    modifies buffer
    ensures SentUpTo(Bodies(talker, []), 1, sent)
  {
    var body := BlankBody(talker);
    var _ := Snprintf(buffer, "", 0, MAX_LENGTH, body);
    assert "" + body == body;
    var message := SealAndSend(buffer, body);
    sent := [message];
  }

  /** The sentences of one constellation, or the blank sentence if it has no satellite in view. */
  method GenerateTalker(buffer: array<char>, talker: string, svs: seq<SvInfo>, first: int, last: int, count: nat)
    returns (ok: bool, sent: seq<Sent>)
    requires buffer.Length == MAX_LENGTH && NUL !in talker && |talker| == 2
    requires count == |Chosen(svs, first, last)|
    modifies buffer
    ensures ok <==> AllFit(Bodies(talker, Chosen(svs, first, last)))
    ensures sent == TalkerReport(talker, Chosen(svs, first, last))
  {
    ghost var sats := Chosen(svs, first, last);
    ghost var bodies := Bodies(talker, sats);
    ok, sent := true, [];
    if count <= 0 {
      sent := SendBlank(buffer, talker);
      EmittedIs(bodies, 1, sent);
      return;
    }
    var svNumber, sentenceNumber := 1, 1;
    var sentenceCount := count / 4 + if count % 4 != 0 then 1 else 0;
    ReachedStart(svs, first, last);
    while sentenceNumber <= sentenceCount
      invariant 1 <= sentenceNumber <= sentenceCount + 1
      invariant sentenceNumber <= sentenceCount ==> Reached(svs, first, last, sentenceNumber - 1, 0, svNumber)
      invariant SentUpTo(bodies, sentenceNumber - 1, sent)
    {
      CountTimesFour(count);
      ghost var body := Body(talker, sats, sentenceNumber - 1);
      assert bodies[sentenceNumber - 1] == body;
      var message;
      ok, svNumber, message := SendSentence(buffer, talker, svs, first, last,
                                            sentenceCount, count, svNumber, sentenceNumber - 1);
      if !ok {
        EmittedIs(bodies, sentenceNumber - 1, sent);
        return;
      }
      SentNext(bodies, sentenceNumber - 1, sent, message);
      sent := sent + [message];
      if sentenceNumber < sentenceCount {
        ReachedSentence(svs, first, last, sentenceNumber - 1, svNumber);
      }
      sentenceNumber := sentenceNumber + 1;
    }
    EmittedIs(bodies, sentenceCount, sent);
  }

  // ---------- the whole report ----------

  method CountSatellites(svs: seq<SvInfo>) returns (gpsCount: nat, glnCount: nat)
    ensures gpsCount == |Chosen(svs, GPS_PRN_START, GPS_PRN_END)|
    ensures glnCount == |Chosen(svs, GLONASS_PRN_START, GLONASS_PRN_END)|
  {
    gpsCount, glnCount := 0, 0;
    var svNumber := 1;
    while svNumber <= |svs|
      invariant 1 <= svNumber <= |svs| + 1
      invariant gpsCount == Before(svs, GPS_PRN_START, GPS_PRN_END, svNumber - 1)
      invariant glnCount == Before(svs, GLONASS_PRN_START, GLONASS_PRN_END, svNumber - 1)
    {
      BeforeStep(svs, GPS_PRN_START, GPS_PRN_END, svNumber - 1);
      BeforeStep(svs, GLONASS_PRN_START, GLONASS_PRN_END, svNumber - 1);
      if GPS_PRN_START <= svs[svNumber - 1].prn <= GPS_PRN_END {
        gpsCount := gpsCount + 1;
      } else if GLONASS_PRN_START <= svs[svNumber - 1].prn <= GLONASS_PRN_END {
        glnCount := glnCount + 1;
      }
      svNumber := svNumber + 1;
    }
    assert svs[..|svs|] == svs;
  }

  /** loc_eng_nmea_generate_sv, up to the cached fields it stores at its end. */
  method GenerateSv(svs: seq<SvInfo>) returns (sent: seq<Sent>)
    ensures sent == SvReport(svs)
  {
    var buffer := new char[MAX_LENGTH](_ => NUL);
    var gpsCount, glnCount := CountSatellites(svs);
    var ok;
    ok, sent := GenerateTalker(buffer, "GP", svs, GPS_PRN_START, GPS_PRN_END, gpsCount);
    if !ok {
      return;
    }
    var more;
    ok, more := GenerateTalker(buffer, "GL", svs, GLONASS_PRN_START, GLONASS_PRN_END, glnCount);
    sent := sent + more;
  }

  // ---------- the report fits and reads back ----------

  const MAX_INT := 0x7FFF_FFFF

  predicate IsInt32(n: int) {
    -MAX_INT - 1 <= n <= MAX_INT
  }

  /** The conversions of the satellite's fields stay within an int. */
  predicate Convertible(sv: SvInfo) {
    IsInt32(Rounded(sv.elevation)) && IsInt32(Rounded(sv.azimuth)) && IsInt32(Rounded(sv.snr))
  }

  predicate Printable(sat: Sat) {
    && 0 <= sat.prn <= 99 && IsInt32(sat.elevation) && IsInt32(sat.azimuth)
    && (sat.snr.Some? ==> IsInt32(sat.snr.value))
  }

  lemma Pow10Values()
    ensures Pow10(2) == 100 && Pow10(4) == 10_000 && Pow10(10) == 10_000_000_000
  {
    assert Pow10(3) == 1000 && Pow10(4) == 10_000;
    assert Pow10(6) == 1_000_000 && Pow10(8) == 100_000_000;
  }

  lemma SatTextLength(sat: Sat)
    requires Printable(sat)
    ensures |SatText(sat)| <= 39
  {
    Pow10Values();
    FormatLength(sat.prn, 2, 2);
    FormatLength(sat.elevation, 2, 10);
    FormatLength(sat.azimuth, 3, 10);
    if sat.snr.Some? {
      FormatLength(sat.snr.value, 2, 10);
    }
  }

  lemma {:induction false} SatsTextLength(sats: seq<Sat>)
    requires forall i :: 0 <= i < |sats| ==> Printable(sats[i])
    ensures |SatsText(sats)| <= 39 * |sats|
  {
    if sats != [] {
      SatsTextLength(sats[..|sats| - 1]);
      SatTextLength(sats[|sats| - 1]);
    }
  }

  /** No sentence comes near the size of the buffer, for any report of fewer than 10000 satellites. */
  lemma BodiesFit(talker: string, sats: seq<Sat>)
    requires |talker| == 2 && |sats| < 10_000 && forall i :: 0 <= i < |sats| ==> Printable(sats[i])
    ensures forall k :: 0 <= k < |Bodies(talker, sats)| ==> |Sentence(Bodies(talker, sats)[k])| < MAX_LENGTH
  {
    var bodies, total := Bodies(talker, sats), SentenceCount(|sats|);
    if sats != [] {
      forall k | 0 <= k < |bodies| ensures |Sentence(bodies[k])| < MAX_LENGTH {
        CountTimesFour(|sats|);
        Pow10Values();
        FormatLength(total, 1, 4);
        FormatLength(k + 1, 1, 4);
        FormatLength(|sats|, 2, 4);
        SatsTextLength(Group(sats, k));
        assert bodies[k] == Body(talker, sats, k);
      }
    }
  }

  lemma {:induction false} ChosenArePrintable(svs: seq<SvInfo>, first: int, last: int)
    requires 0 <= first && last <= 99 && forall i :: 0 <= i < |svs| ==> Convertible(svs[i])
    ensures forall i :: 0 <= i < |Chosen(svs, first, last)| ==> Printable(Chosen(svs, first, last)[i])
  {
    if svs != [] {
      ChosenArePrintable(svs[..|svs| - 1], first, last);
    }
  }

  function Texts(sent: seq<Sent>): (lines: seq<string>)
    ensures |lines| == |sent| && forall i :: 0 <= i < |lines| ==> lines[i] == sent[i].text
  {
    seq(|sent|, i requires 0 <= i < |sent| => sent[i].text)
  }

  lemma TalkerReportIs(talker: string, sats: seq<Sat>, sent: seq<Sent>)
    requires forall k :: 0 <= k < |Bodies(talker, sats)| ==> |Sentence(Bodies(talker, sats)[k])| < MAX_LENGTH
    requires sent == AllWhole(Bodies(talker, sats))
    ensures AllFit(Bodies(talker, sats)) && TalkerReport(talker, sats) == sent
  {
    var bodies := Bodies(talker, sats);
    forall k | 0 <= k < |bodies| ensures IsSent(bodies[k], sent[k]) {
      WholeIsSealed(bodies[k]);
    }
    EmittedIs(bodies, |bodies|, sent);
  }

  /** A sentence that fits, with the length one short. */
  function Whole(body: string): Sent {
    Sent(Sentence(body), |Sentence(body)| - 1)
  }

  function AllWhole(bodies: seq<string>): seq<Sent> {
    seq(|bodies|, k requires 0 <= k < |bodies| => Whole(bodies[k]))
  }

  lemma WholeIsSealed(body: string)
    requires body != [] && |Sentence(body)| < MAX_LENGTH
    ensures IsSent(body, Whole(body))
  {
    assert |Seal(body)| == 5;
  }

  /**
   Every call sends a GPS and a GLONASS report from which a reader gets back exactly the satellites
   of each constellation, in list order with rounded values. The length passed along with a
   sentence, however, is one less than the sentence's length.
   */
  lemma SvReportReadsBack(svs: seq<SvInfo>)
    requires |svs| < 10_000 && forall i :: 0 <= i < |svs| ==> Convertible(svs[i])
    ensures var gps, gln := Chosen(svs, 1, 32), Chosen(svs, 65, 96);
      exists n :: 0 <= n <= |SvReport(svs)|
        && Texts(SvReport(svs)[..n]) == Sentences("GP", gps) && Texts(SvReport(svs)[n..]) == Sentences("GL", gln)
        && ReadReport("GP", Texts(SvReport(svs)[..n]), |gps|) == Some(gps)
        && ReadReport("GL", Texts(SvReport(svs)[n..]), |gln|) == Some(gln)
    ensures forall i :: 0 <= i < |SvReport(svs)| ==> SvReport(svs)[i].length == |SvReport(svs)[i].text| - 1
  {
    var gps, gln := Chosen(svs, GPS_PRN_START, GPS_PRN_END), Chosen(svs, GLONASS_PRN_START, GLONASS_PRN_END);
    TalkerReportReadsBack("GP", svs, GPS_PRN_START, GPS_PRN_END);
    TalkerReportReadsBack("GL", svs, GLONASS_PRN_START, GLONASS_PRN_END);
    var a, b := TalkerReport("GP", gps), TalkerReport("GL", gln);
    assert SvReport(svs) == a + b;
    assert (a + b)[..|a|] == a && (a + b)[|a|..] == b;
  }

  lemma TalkerReportReadsBack(talker: string, svs: seq<SvInfo>, first: int, last: int)
    requires |talker| == 2 && ',' !in talker && 0 <= first && last <= 99
    requires |svs| < 10_000 && forall i :: 0 <= i < |svs| ==> Convertible(svs[i])
    ensures var sats := Chosen(svs, first, last); var sent := TalkerReport(talker, sats);
      && AllFit(Bodies(talker, sats)) && Texts(sent) == Sentences(talker, sats)
      && ReadReport(talker, Texts(sent), |sats|) == Some(sats)
      && forall i :: 0 <= i < |sent| ==> sent[i].length == |sent[i].text| - 1
  {
    var sats := Chosen(svs, first, last);
    ChosenArePrintable(svs, first, last);
    BodiesFit(talker, sats);
    var sent := AllWhole(Bodies(talker, sats));
    TalkerReportIs(talker, sats, sent);
    GsvProofs.ReportRoundTrip(talker, sats);
  }

  /** Adding a half and cutting off the fraction is rounding to the nearest only down to minus a half. */
  lemma RoundedIsNearestIff(x: real)
    ensures -0.5 <= Rounded(x) as real - x <= 0.5 <==> x >= -0.5 || (x + 0.5).Floor as real == x + 0.5
  {
    var y := 0.5 + x;
    if y < 0.0 {
      var c := -y;
      assert c.Floor as real <= c < c.Floor as real + 1.0;
      if c.Floor as real == c {
        assert (-c.Floor) as real == y;
      }
      if y.Floor as real == y {
        assert (-y.Floor) as real == c;
      }
    }
  }
}

/** Whom each event of the AGPS machine concerns: who is told what, who stays, who goes. */
module AgpsLaws {
  import opened AgpsModel
  import opened AgpsSafety
  import opened AgpsGrants

  /** What has been added to the trace. */
  function News(m: Machine, m': Machine): seq<Event>
    requires |m.log| <= |m'.log|
  {
    m'.log[|m.log|..]
  }

  /** The trace has grown by words. */
  predicate Says(m: Machine, m': Machine, words: seq<Event>) {
    m'.log == m.log + words
  }

  lemma RunSnoc(single: bool, acts: seq<Action>, a: Action)
    ensures Run(single, acts + [a]) == Do(Run(single, acts), a)
  {
    assert (acts + [a])[..|acts|] == acts;
  }

  // ---------- subscribe ----------

  /** A second subscriber of an enforce-single machine is told DENIED, and nothing else happens. */
  lemma SecondIsRefused(m: Machine, id: nat, kind: Kind)
    requires m.single && m.subs != []
    ensures Do(m, Subscribe(id, kind)) == m.(log := m.log + [Told(id, DENIED)])
  {
  }

  /**
   An accepted subscription lists the newcomer, of its kind and active, in front of everybody else,
   unless its key is listed; it is told GRANTED at once exactly in Acquired, and nobody else is told anything.
   */
  lemma SubscribeListsNewcomer(m: Machine, id: nat, kind: Kind)
    requires !(m.single && m.subs != [])
    ensures var m' := Do(m, Subscribe(id, kind));
      && m'.subs == (if exists s :: s in m.subs && s.id == id then m.subs else [Subscriber(id, kind, false)] + m.subs)
      && m'.stage == (if m.stage == Released then Pending else m.stage)
      && m.log + [Joining(id)] <= m'.log
      && forall i :: |m.log| < i < |m'.log| && m'.log[i].Told? ==> m.stage == Acquired && m'.log[i] == Told(id, GRANTED)
    ensures m.stage == Acquired ==> Do(m, Subscribe(id, kind)).log == m.log + [Joining(id), Told(id, GRANTED)]
  {
    HasIffIn(m.subs, Key(id));
    SubscribeMakes(m, id, kind);
    SubscribeNews(m, id, kind);
  }

  lemma SubscribeNews(m: Machine, id: nat, kind: Kind)
    ensures var log, log' := m.log + [Joining(id)], OnSubscribe(m, id, kind).log;
      && (log' == log || (log' == log + [Request] && m.stage == Released)
          || (log' == log + [Told(id, GRANTED)] && m.stage == Acquired))
      && (m.stage == Acquired ==> log' == log + [Told(id, GRANTED)])
  {
  }

  // ---------- unsubscribe ----------

  /** What the entry that leaves is told. */
  function Farewell(s: Subscriber): seq<Event> {
    if s.kind.WIFI? then [] else [Told(s.id, UNSUBSCRIBE)]
  }

  lemma {:induction false} SpeaksToOne(subs: seq<Subscriber>, n: Notification, i: nat)
    requires KeysDistinct(subs) && i < |subs| && n.to == Key(subs[i].id)
    ensures AllWords(subs, n) == Words(subs[i], n)
  {
    if i == 0 {
      SpeaksToNobody(subs[1..], n);
    } else {
      SpeaksToOne(subs[1..], n, i - 1);
      assert !ForMe(subs[0], n.to);
    }
  }

  lemma {:induction false} SpeaksToNobody(subs: seq<Subscriber>, n: Notification)
    requires n.to.Key? && forall i :: 0 <= i < |subs| ==> subs[i].id != n.to.id
    ensures AllWords(subs, n) == []
  {
    if subs != [] {
      SpeaksToNobody(subs[1..], n);
    }
  }

  /** The entry leaves, or goes inactive, and is told what it is to be told; the others do not notice. */
  lemma LeaveConcernsOne(m: Machine, i: nat)
    requires KeysDistinct(m.subs) && i < |m.subs|
    ensures var m', s := Leave(m, i), m.subs[i];
      && Says(m, m', Farewell(s)) && LeftBehind(m.subs, m'.subs, s)
  {
    var s := m.subs[i];
    var n := Notification(Key(s.id), UNSUBSCRIBE, true);
    if s.kind.ATL? {
      SpeaksToOne(m.subs, n, i);
      DeletesOne(m.subs, n, i);
    } else {
      IdlesOne(m.subs, i);
      assert m.log + [] == m.log;
    }
  }

  /** The entry s is gone, or inactive if it is to wait for its close; everybody else is listed as before. */
  ghost predicate LeftBehind(subs: seq<Subscriber>, after: seq<Subscriber>, s: Subscriber) {
    && (forall x: Subscriber :: x.id != s.id ==> (x in after <==> x in subs))
    && (forall x :: x in after && x.id == s.id ==> !s.kind.ATL? && x == s.(inactive := true))
    && (!s.kind.ATL? ==> s.(inactive := true) in after)
  }

  lemma DeletesOne(subs: seq<Subscriber>, n: Notification, i: nat)
    requires KeysDistinct(subs) && i < |subs| && subs[i].kind.ATL?
    requires n == Notification(Key(subs[i].id), UNSUBSCRIBE, true)
    ensures LeftBehind(subs, Spared(subs, n), subs[i])
  {
    SparedAre(subs, n);
  }

  lemma IdlesOne(subs: seq<Subscriber>, i: nat)
    requires KeysDistinct(subs) && i < |subs| && !subs[i].kind.ATL?
    ensures LeftBehind(subs, subs[i := subs[i].(inactive := true)], subs[i])
  {
    var s := subs[i];
    var t := s.(inactive := true);
    var after := subs[i := t];
    assert after[i] == t;
    forall x: Subscriber | x.id != s.id ensures x in after <==> x in subs {
      if x in subs {
        var j :| 0 <= j < |subs| && subs[j] == x;
        assert after[j] == x;
      }
      if x in after {
        var j :| 0 <= j < |after| && after[j] == x;
        assert subs[j] == x;
      }
    }
    forall x | x in after && x.id == s.id ensures x == t {
      var j :| 0 <= j < |after| && after[j] == x;
      assert j == i;
    }
  }

  lemma AfterLeaveNews(left: Machine)
    ensures AfterLeave(left).subs == left.subs
    ensures AfterLeave(left).log == left.log || AfterLeave(left).log == left.log + [Release]
  {
  }

  lemma UnsubscribeIsLeave(m: Machine, i: nat)
    requires m.stage != Released && i < |m.subs|
    ensures var m', left := OnUnsubscribe(m, i), Leave(m, i);
      m'.subs == left.subs && (m'.log == left.log || m'.log == left.log + [Release])
  {
    AfterLeaveNews(Leave(m, i));
  }

  /**
   In every run an unsubscribe concerns the entry with its key only: that one leaves at once if it is of
   the ATL kind, else stays as inactive; it alone is told, UNSUBSCRIBE, unless it is a WIFI client.
   */
  lemma UnsubscribeConcernsItsKey(single: bool, acts: seq<Action>, s: Subscriber)
    requires s in Run(single, acts).subs
    ensures var m, m' := Run(single, acts), Run(single, acts + [Unsubscribe(s.id)]);
      && LeftBehind(m.subs, m'.subs, s)
      && (Says(m, m', Farewell(s)) || Says(m, m', Farewell(s) + [Release]))
  {
    var m := Run(single, acts);
    RunSnoc(single, acts, Unsubscribe(s.id));
    RunKeepsList(single, acts);
    CommandTrace(single, acts);
    FoundByKey(m.subs, s);
    UnsubscribeIsLeave(m, Find(m.subs, Key(s.id)));
    LeaveConcernsOne(m, Find(m.subs, Key(s.id)));
    assert m.log + Farewell(s) + [Release] == m.log + (Farewell(s) + [Release]);
  }

  lemma FoundByKey(subs: seq<Subscriber>, s: Subscriber)
    requires KeysDistinct(subs) && s in subs
    ensures Has(subs, Key(s.id)) && subs[Find(subs, Key(s.id))] == s
  {
    HasIffIn(subs, Key(s.id));
    var i :| 0 <= i < |subs| && subs[i] == s;
    assert i == Find(subs, Key(s.id));
  }

  /** An unsubscribe of somebody who is not listed changes nothing. */
  lemma UnsubscribeOfStranger(m: Machine, id: nat)
    requires forall s :: s in m.subs ==> s.id != id
    ensures Do(m, Unsubscribe(id)) == m
  {
    HasIffIn(m.subs, Key(id));
  }

  // ---------- reports ----------

  /** What a report of the connectivity service means for a listed subscriber: what it is told, and whether it goes. */
  datatype Fate = Untouched | Hears(status: RsrcStatus) | Loses(status: RsrcStatus)

  function FateOf(stage: Stage, r: RsrcStatus, inactive: bool): Fate {
    match stage
    case Released => Untouched
    case Pending =>
      if r == GRANTED && !inactive then Hears(GRANTED) else if r == DENIED then Loses(DENIED) else Untouched
    case Acquired => if r == RELEASED then Loses(RELEASED) else Untouched
    case Releasing => if r != GRANTED && inactive then Loses(r) else Untouched
  }

  /** In m' every subscriber of m has met its fate, and nobody new is listed. */
  ghost predicate MeetsFate(m: Machine, m': Machine, r: RsrcStatus) {
    && |m.log| <= |m'.log|
    && (forall s, status :: s in m.subs ==>
          Times(News(m, m'), Told(s.id, status))
          == if FateOf(m.stage, r, s.inactive) in {Hears(status), Loses(status)} then 1 else 0)
    && (forall s :: s in m'.subs <==> s in m.subs && !FateOf(m.stage, r, s.inactive).Loses?)
  }

  lemma {:induction false} OneStatus(subs: seq<Subscriber>, n: Notification, id: nat, status: RsrcStatus)
    requires status != n.status
    ensures Times(AllWords(subs, n), Told(id, status)) == 0
  {
    if subs != [] {
      OneStatus(subs[1..], n, id, status);
      TimesConcat(Words(subs[0], n), AllWords(subs[1..], n), Told(id, status));
    }
  }

  lemma WordsPerSubscriber(subs: seq<Subscriber>, n: Notification, s: Subscriber, status: RsrcStatus)
    requires KeysDistinct(subs) && s in subs && n.status != UNSUBSCRIBE && Interesting(n.status)
    ensures Times(AllWords(subs, n), Told(s.id, status)) == if status == n.status && ForMe(s, n.to) then 1 else 0
  {
    var i :| 0 <= i < |subs| && subs[i] == s;
    if status == n.status {
      OneWordEach(subs, n, i);
    } else {
      OneStatus(subs, n, s.id, status);
    }
  }

  /** The news of a report are the report itself, what a notification says, and perhaps a new request. */
  lemma NewsTimes(log: seq<Event>, log': seq<Event>, r: RsrcStatus, words: seq<Event>, id: nat, status: RsrcStatus)
    requires log' == log + [Reported(r)] + words || log' == log + [Reported(r)] + words + [Request]
    ensures Times(log'[|log|..], Told(id, status)) == Times(words, Told(id, status))
  {
    var e, news := Told(id, status), log'[|log|..];
    if log' == log + [Reported(r)] + words {
      assert news == [Reported(r)] + words;
      TimesConcat([Reported(r)], words, e);
    } else {
      assert news == ([Reported(r)] + words) + [Request];
      TimesConcat([Reported(r)], words, e);
      TimesConcat([Reported(r)] + words, [Request], e);
    }
  }

  lemma NotifiedMeetsFate(m: Machine, m': Machine, r: RsrcStatus, n: Notification)
    requires KeysDistinct(m.subs) && IsReport(r) && n.status == r
    requires m'.subs == (if n.postNotifyDelete then Spared(m.subs, n) else m.subs)
    requires var log := m.log + [Reported(r)] + AllWords(m.subs, n); m'.log == log || m'.log == log + [Request]
    requires forall s :: s in m.subs ==>
      FateOf(m.stage, r, s.inactive)
      == if !ForMe(s, n.to) then Untouched else if n.postNotifyDelete then Loses(r) else Hears(r)
    ensures MeetsFate(m, m', r)
  {
    SparedAre(m.subs, n);
    forall s, status | s in m.subs
      ensures Times(News(m, m'), Told(s.id, status))
           == if FateOf(m.stage, r, s.inactive) in {Hears(status), Loses(status)} then 1 else 0
    {
      NewsTimes(m.log, m'.log, r, AllWords(m.subs, n), s.id, status);
      WordsPerSubscriber(m.subs, n, s, status);
    }
  }

  lemma IgnoredMeetsFate(m: Machine, m': Machine, r: RsrcStatus)
    requires m' == m.(log := m.log + [Reported(r)])
    requires forall s :: s in m.subs ==> FateOf(m.stage, r, s.inactive) == Untouched
    ensures MeetsFate(m, m', r)
  {
    forall id: nat, status ensures Times(News(m, m'), Told(id, status)) == 0 {
      assert m.log + [Reported(r)] + [] == m.log + [Reported(r)];
      NewsTimes(m.log, m'.log, r, [], id, status);
    }
  }

  lemma ReportMeetsFate(m: Machine, r: RsrcStatus)
    requires KeysDistinct(m.subs) && IsReport(r)
    ensures MeetsFate(m, OnReport(m, r), r)
  {
    var m' := OnReport(m, r);
    match (m.stage, r)
    case (Pending, GRANTED) => NotifiedMeetsFate(m, m', r, Notification(Active, r, false));
    case (Pending, DENIED) => NotifiedMeetsFate(m, m', r, Notification(All, r, true));
    case (Acquired, RELEASED) => NotifiedMeetsFate(m, m', r, Notification(All, r, true));
    case (Releasing, RELEASED) => NotifiedMeetsFate(m, m', r, Notification(Inactive, r, true));
    case (Releasing, DENIED) => NotifiedMeetsFate(m, m', r, Notification(Inactive, r, true));
    case _ => IgnoredMeetsFate(m, m', r);
  }

  /**
   In every run a report means for each listed subscriber exactly this: GRANTED in Pending is told to the
   active ones; DENIED in Pending and RELEASED in Acquired are told to all, who are then deleted; RELEASED
   or DENIED in Releasing are told to the inactive ones, who are deleted. Each is told once; any other
   report is told to nobody.
   */
  lemma ReportsAreTold(single: bool, acts: seq<Action>, r: RsrcStatus)
    requires IsReport(r)
    ensures MeetsFate(Run(single, acts), Run(single, acts + [Report(r)]), r)
  {
    RunSnoc(single, acts, Report(r));
    RunKeepsList(single, acts);
    ReportMeetsFate(Run(single, acts), r);
  }

  /** Dropping empties the list, tells nobody and changes nothing else; what is no report is ignored. */
  lemma DropAndNoise(m: Machine, r: RsrcStatus)
    ensures Do(m, DropAll).subs == [] && Do(m, DropAll).log == m.log && Do(m, DropAll).stage == m.stage
    ensures r != GRANTED && r != RELEASED && r != DENIED ==> Do(m, Report(r)) == m
  {
  }
}

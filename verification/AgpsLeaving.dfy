/** Nobody leaves the subscriber list without being told. */
module AgpsLeaving {
  import opened AgpsModel
  import opened AgpsSafety
  import opened AgpsGrants

  /** e tells id that it has been unsubscribed, or that the resource is released or denied. */
  predicate Bye(e: Event, id: nat) {
    e == Told(id, UNSUBSCRIBE) || e == Told(id, RELEASED) || e == Told(id, DENIED)
  }

  /** After the trace, id has been told so since the machine last processed its subscription. */
  predicate Dismissed(log: seq<Event>, id: nat) {
    log != [] &&
      var e := log[|log| - 1];
      Bye(e, id) || (e != Joining(id) && Dismissed(log[..|log| - 1], id))
  }

  lemma DismissOne(log: seq<Event>, e: Event, id: nat)
    ensures Dismissed(log + [e], id) <==> Bye(e, id) || (e != Joining(id) && Dismissed(log, id))
  {
    assert (log + [e])[..|log|] == log;
  }

  predicate NoJoining(words: seq<Event>) {
    forall i :: 0 <= i < |words| ==> !words[i].Joining?
  }

  ghost predicate SaysBye(words: seq<Event>, id: nat) {
    exists i :: 0 <= i < |words| && Bye(words[i], id)
  }

  lemma {:induction false} DismissMany(log: seq<Event>, words: seq<Event>, id: nat)
    requires NoJoining(words)
    ensures Dismissed(log + words, id) <==> Dismissed(log, id) || SaysBye(words, id)
  {
    if words == [] {
      assert log + words == log;
    } else {
      var init, e := words[..|words| - 1], words[|words| - 1];
      DismissMany(log, init, id);
      DismissOne(log + init, e, id);
      assert log + words == (log + init) + [e];
      ByeSnoc(init, e, id);
      assert words == init + [e];
    }
  }

  lemma ByeSnoc(init: seq<Event>, e: Event, id: nat)
    ensures SaysBye(init + [e], id) <==> SaysBye(init, id) || Bye(e, id)
  {
    var all := init + [e];
    assert all[|init|] == e;
    assert forall i :: 0 <= i < |init| ==> all[i] == init[i];
  }

  ghost predicate Listed(subs: seq<Subscriber>, id: nat) {
    exists s :: s in subs && s.id == id
  }

  ghost predicate ToldAtLeaving(m: Machine) {
    forall id: nat :: Joining(id) in m.log && !Listed(m.subs, id) ==> Dismissed(m.log, id)
  }

  /** From m to m' words are said, and whoever is no longer listed is among those dismissed. */
  ghost predicate Leavers(m: Machine, m': Machine, words: seq<Event>) {
    && m'.log == m.log + words && NoJoining(words)
    && (forall id: nat :: Listed(m.subs, id) && !Listed(m'.subs, id) ==> SaysBye(words, id))
  }

  lemma LeaversTold(m: Machine, m': Machine, words: seq<Event>)
    requires ToldAtLeaving(m) && Leavers(m, m', words)
    ensures ToldAtLeaving(m')
  {
    forall id: nat | Joining(id) in m'.log && !Listed(m'.subs, id) ensures Dismissed(m'.log, id) {
      assert Joining(id) in m.log;
      DismissMany(m.log, words, id);
    }
  }

  // ---------- subscribe ----------

  lemma SubscribeTold(m: Machine, id: nat, kind: Kind)
    requires ToldAtLeaving(m)
    ensures ToldAtLeaving(OnSubscribe(m, id, kind))
  {
    var m', log := OnSubscribe(m, id, kind), m.log + [Joining(id)];
    var words := m'.log[|log|..];
    SubscribeSays(m, id, kind);
    forall x: nat | Joining(x) in m'.log && !Listed(m'.subs, x) ensures Dismissed(m'.log, x) {
      assert x != id && Joining(x) in m.log && !Listed(m.subs, x);
      DismissOne(m.log, Joining(id), x);
      DismissMany(log, words, x);
    }
  }

  /** After the subscription the newcomer is listed and everybody else still is. */
  lemma SubscribeSays(m: Machine, id: nat, kind: Kind)
    ensures var m' := OnSubscribe(m, id, kind); var log := m.log + [Joining(id)];
      && |log| <= |m'.log| && m'.log == log + m'.log[|log|..] && NoJoining(m'.log[|log|..])
      && Listed(m'.subs, id) && forall x: nat :: Listed(m.subs, x) ==> Listed(m'.subs, x)
  {
    SubscribeMakes(m, id, kind);
    SubscribeLists(m.subs, AddSubscriber(m, id, kind).subs, id, kind);
    SubscribeLogs(m, id, kind);
  }

  lemma SubscribeLists(subs: seq<Subscriber>, after: seq<Subscriber>, id: nat, kind: Kind)
    requires after == if Has(subs, Key(id)) then subs else [Subscriber(id, kind, false)] + subs
    ensures Listed(after, id) && forall x: nat :: Listed(subs, x) ==> Listed(after, x)
  {
    HasIffIn(subs, Key(id));
    if !Has(subs, Key(id)) {
      assert after[0] in after;
    }
    assert forall s :: s in subs ==> s in after;
  }

  lemma SubscribeLogs(m: Machine, id: nat, kind: Kind)
    ensures var log, log' := m.log + [Joining(id)], OnSubscribe(m, id, kind).log;
      log' == log || log' == log + [Request] || log' == log + [Told(id, GRANTED)]
  {
  }

  // ---------- notifications that delete ----------

  lemma NotifyLeavers(m: Machine, n: Notification)
    requires n.postNotifyDelete && (n.status.UNSUBSCRIBE? || n.status.RELEASED? || n.status.DENIED?)
    requires forall s :: s in m.subs && s.kind.WIFI? && ForMe(s, n.to) ==> !n.status.UNSUBSCRIBE?
    ensures Leavers(m, Notify(m, n), AllWords(m.subs, n))
  {
    var words := AllWords(m.subs, n);
    WordsAreTold(m.subs, n);
    SparedAre(m.subs, n);
    forall id: nat | Listed(m.subs, id) && !Listed(Spared(m.subs, n), id) ensures SaysBye(words, id) {
      var s :| s in m.subs && s.id == id;
      assert Hits(s, n);
      WordsInList(m.subs, n, Told(id, n.status));
      assert Told(id, n.status) in Words(s, n);
      var i :| 0 <= i < |words| && words[i] == Told(id, n.status);
      assert Bye(words[i], id);
    }
  }

  lemma {:induction false} WordsAreTold(subs: seq<Subscriber>, n: Notification)
    ensures NoJoining(AllWords(subs, n))
  {
    if subs != [] {
      WordsAreTold(subs[1..], n);
    }
  }

  /** More words, and the same list: nobody leaves by that. */
  lemma LeaversSay(m: Machine, m1: Machine, m2: Machine, words: seq<Event>, e: Event)
    requires Leavers(m, m1, words) && !e.Joining? && m2.subs == m1.subs
    requires m2.log == m1.log || m2.log == m1.log + [e]
    ensures Leavers(m, m2, words) || Leavers(m, m2, words + [e])
  {
    if m2.log != m1.log {
      assert m2.log == m.log + (words + [e]);
      forall id: nat | Listed(m.subs, id) && !Listed(m2.subs, id) ensures SaysBye(words + [e], id) {
        ByeSnoc(words, e, id);
      }
    }
  }

  lemma LeaveLeavers(m: Machine, i: nat) returns (words: seq<Event>)
    requires KeysDistinct(m.subs) && i < |m.subs|
    ensures Leavers(m, Leave(m, i), words)
  {
    var s, m' := m.subs[i], Leave(m, i);
    if s.kind.ATL? {
      var n := Notification(Key(s.id), UNSUBSCRIBE, true);
      forall x | x in m.subs && ForMe(x, n.to) ensures x == s {
        var j :| 0 <= j < |m.subs| && m.subs[j] == x;
        assert j == i;
      }
      NotifyLeavers(m, n);
      words := AllWords(m.subs, n);
    } else {
      words := if s.kind.DS? then [Told(s.id, UNSUBSCRIBE)] else [];
      SameKeys(m.subs, i);
    }
  }

  lemma SameKeys(subs: seq<Subscriber>, i: nat)
    requires i < |subs|
    ensures forall id: nat :: Listed(subs, id) ==> Listed(subs[i := subs[i].(inactive := true)], id)
  {
    var after := subs[i := subs[i].(inactive := true)];
    forall id: nat | Listed(subs, id) ensures Listed(after, id) {
      var s :| s in subs && s.id == id;
      var j :| 0 <= j < |subs| && subs[j] == s;
      assert after[j] in after && after[j].id == id;
    }
  }

  lemma UnsubscribeTold(m: Machine, i: nat)
    requires ToldAtLeaving(m) && KeysDistinct(m.subs) && i < |m.subs|
    ensures ToldAtLeaving(OnUnsubscribe(m, i))
  {
    var m' := OnUnsubscribe(m, i);
    if m.stage.Released? {
      LeaversTold(m, m', Words(m.subs[i], Notification(Key(m.subs[i].id), UNSUBSCRIBE, false)));
    } else {
      var words := LeaveLeavers(m, i);
      LeaversSay(m, Leave(m, i), m', words, Release);
      if Leavers(m, m', words) {
        LeaversTold(m, m', words);
      } else {
        LeaversTold(m, m', words + [Release]);
      }
    }
  }

  // ---------- reports ----------

  /** A report, a notification, and perhaps a new request. */
  lemma ReportedTold(m: Machine, r: RsrcStatus, n: Notification, m': Machine)
    requires ToldAtLeaving(m) && n.postNotifyDelete && n.status == r && (r == RELEASED || r == DENIED)
    requires var m2 := Notify(m.(log := m.log + [Reported(r)]), n);
      m'.subs == m2.subs && (m'.log == m2.log || m'.log == m2.log + [Request])
    ensures ToldAtLeaving(m')
  {
    var m1 := m.(log := m.log + [Reported(r)]);
    LeaversTold(m, m1, [Reported(r)]);
    NotifyLeavers(m1, n);
    var words := AllWords(m1.subs, n);
    LeaversSay(m1, Notify(m1, n), m', words, Request);
    if Leavers(m1, m', words) {
      LeaversTold(m1, m', words);
    } else {
      LeaversTold(m1, m', words + [Request]);
    }
  }

  lemma GrantedTold(m: Machine)
    requires ToldAtLeaving(m)
    ensures ToldAtLeaving(Notify(m.(log := m.log + [Reported(GRANTED)]), Notification(Active, GRANTED, false)))
  {
    var m1, n := m.(log := m.log + [Reported(GRANTED)]), Notification(Active, GRANTED, false);
    LeaversTold(m, m1, [Reported(GRANTED)]);
    WordsAreTold(m1.subs, n);
    LeaversTold(m1, Notify(m1, n), AllWords(m1.subs, n));
  }

  lemma ReportTold(m: Machine, r: RsrcStatus)
    requires ToldAtLeaving(m) && IsReport(r)
    ensures ToldAtLeaving(OnReport(m, r))
  {
    var m' := OnReport(m, r);
    match (m.stage, r)
    case (Pending, GRANTED) =>
      GrantedTold(m);
      LeaversTold(m'.(stage := m.stage), m', []);
    case (Pending, DENIED) => ReportedTold(m, r, Notification(All, r, true), m');
    case (Acquired, RELEASED) => ReportedTold(m, r, Notification(All, r, true), m');
    case (Releasing, RELEASED) => ReportedTold(m, r, Notification(Inactive, r, true), m');
    case (Releasing, DENIED) => ReportedTold(m, r, Notification(Inactive, r, true), m');
    case _ => LeaversTold(m, m', [Reported(r)]);
  }

  // ---------- every run ----------

  lemma StepTold(m: Machine, a: Action)
    requires ToldAtLeaving(m) && KeysDistinct(m.subs) && a != DropAll
    ensures ToldAtLeaving(Do(m, a))
  {
    match a
    case Subscribe(id, kind) =>
      if m.single && m.subs != [] {
        LeaversTold(m, Do(m, a), [Told(id, DENIED)]);
      } else {
        SubscribeTold(m, id, kind);
      }
    case Unsubscribe(id) =>
      if Has(m.subs, Key(id)) {
        UnsubscribeTold(m, Find(m.subs, Key(id)));
      }
    case Report(r) =>
      if IsReport(r) {
        ReportTold(m, r);
      }
  }

  lemma {:induction false} RunTold(single: bool, acts: seq<Action>)
    requires DropAll !in acts
    ensures ToldAtLeaving(Run(single, acts))
  {
    if acts != [] {
      var init, a := acts[..|acts| - 1], acts[|acts| - 1];
      assert a in acts;
      RunTold(single, init);
      RunKeepsList(single, init);
      StepTold(Run(single, init), a);
    }
  }

  /**
   In every run without a drop, whoever has subscribed and is no longer listed has been told so
   (unsubscribed, released or denied) since its last subscription.
   */
  lemma NobodyLeavesSilently(single: bool, acts: seq<Action>, id: nat)
    requires DropAll !in acts && Joining(id) in Run(single, acts).log
    requires forall s :: s in Run(single, acts).subs ==> s.id != id
    ensures Dismissed(Run(single, acts).log, id)
  {
    RunTold(single, acts);
  }
}

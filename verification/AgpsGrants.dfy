/** Who has been told that the resource is granted. */
module AgpsGrants {
  import opened AgpsModel
  import opened AgpsSafety

  /** After the trace, id has been told GRANTED since the machine last processed its subscription. */
  function HasGrant(log: seq<Event>, id: nat): bool {
    if log == [] then false
    else
      var e := log[|log| - 1];
      if e == Told(id, GRANTED) then true
      else if e == Joining(id) then false
      else HasGrant(log[..|log| - 1], id)
  }

  lemma GrantOne(log: seq<Event>, e: Event, id: nat)
    ensures HasGrant(log + [e], id)
            == (if e == Told(id, GRANTED) then true else if e == Joining(id) then false else HasGrant(log, id))
  {
    assert (log + [e])[..|log|] == log;
  }

  /** Words say nothing of id's grant, or they grant it. */
  lemma {:induction false} GrantMany(log: seq<Event>, words: seq<Event>, id: nat)
    requires Joining(id) !in words
    ensures HasGrant(log + words, id) == (HasGrant(log, id) || Told(id, GRANTED) in words)
  {
    if words == [] {
      assert log + words == log;
    } else {
      var init, e := words[..|words| - 1], words[|words| - 1];
      GrantMany(log, init, id);
      GrantOne(log + init, e, id);
      assert log + words == log + init + [e];
      assert words == init + [e];
    }
  }

  lemma {:induction false} WordsInList(subs: seq<Subscriber>, n: Notification, e: Event)
    ensures e in AllWords(subs, n) <==> exists s :: s in subs && e in Words(s, n)
  {
    if subs != [] {
      WordsInList(subs[1..], n, e);
      assert forall s :: s in subs <==> s == subs[0] || s in subs[1..];
    }
  }

  /** A notification grants exactly to those it hits with GRANTED. */
  lemma NotifyGrants(m: Machine, n: Notification, id: nat)
    ensures HasGrant(Notify(m, n).log, id)
            == (HasGrant(m.log, id) || (n.status.GRANTED? && exists s :: s in m.subs && s.id == id && Hits(s, n)))
  {
    var words := AllWords(m.subs, n);
    WordsInList(m.subs, n, Joining(id));
    WordsInList(m.subs, n, Told(id, GRANTED));
    GrantMany(m.log, words, id);
    if n.status.GRANTED? {
      forall s | s in m.subs ensures Told(id, GRANTED) in Words(s, n) <==> s.id == id && Hits(s, n) {
      }
    }
  }

  /** Active listed subscribers have their grant exactly while the machine is in Acquired. */
  ghost predicate GrantsOk(m: Machine) {
    forall s :: s in m.subs && !s.inactive ==> (HasGrant(m.log, s.id) <==> m.stage.Acquired?)
  }

  lemma SubscribeGrants(m: Machine, id: nat, kind: Kind)
    requires GrantsOk(m) && EmptyWhenReleased(m)
    ensures GrantsOk(OnSubscribe(m, id, kind))
  {
    var m', log := OnSubscribe(m, id, kind), m.log + [Joining(id)];
    forall x ensures HasGrant(log, x) == (if x == id then false else HasGrant(m.log, x)) {
      GrantOne(m.log, Joining(id), x);
    }
    forall s | s in m'.subs && !s.inactive ensures HasGrant(m'.log, s.id) <==> m'.stage.Acquired? {
      assert s in m.subs || s == Subscriber(id, kind, false);
      if m.stage.Released? {
        FirstSubscriber(m.(log := log), id, kind);
        GrantOne(log, Request, s.id);
      } else if m.stage.Acquired? {
        GrantOne(log, Told(id, GRANTED), s.id);
        AddKeepsLog(m.(log := log + [Told(id, GRANTED)]), id, kind);
      } else {
        AddKeepsLog(m.(log := log), id, kind);
      }
    }
  }

  lemma LeaveGrants(m: Machine, i: nat, id: nat)
    requires i < |m.subs|
    ensures HasGrant(Leave(m, i).log, id) == HasGrant(m.log, id)
  {
    NotifyGrants(m, Notification(Key(m.subs[i].id), UNSUBSCRIBE, true), id);
    GrantOne(m.log, Told(m.subs[i].id, UNSUBSCRIBE), id);
    assert m.log + [] == m.log;
  }

  /** Nobody becomes active by leaving. */
  lemma LeaveKeepsActive(m: Machine, i: nat, s: Subscriber)
    requires i < |m.subs| && s in Leave(m, i).subs && !s.inactive
    ensures s in m.subs
  {
    SparedAre(m.subs, Notification(Key(m.subs[i].id), UNSUBSCRIBE, true));
  }

  lemma UnsubscribeGrants(m: Machine, i: nat)
    requires GrantsOk(m) && EmptyWhenReleased(m) && i < |m.subs|
    ensures GrantsOk(OnUnsubscribe(m, i))
  {
    var m', left := OnUnsubscribe(m, i), Leave(m, i);
    HasIffIn(left.subs, Active);
    forall s | s in m'.subs && !s.inactive ensures HasGrant(m'.log, s.id) <==> m'.stage.Acquired? {
      LeaveKeepsActive(m, i, s);
      LeaveGrants(m, i, s.id);
    }
  }

  lemma ReportGrants(m: Machine, r: RsrcStatus)
    requires GrantsOk(m) && IsReport(r)
    ensures GrantsOk(OnReport(m, r))
  {
    var m1, m' := m.(log := m.log + [Reported(r)]), OnReport(m, r);
    forall s | s in m'.subs && !s.inactive ensures HasGrant(m'.log, s.id) <==> m'.stage.Acquired? {
      GrantOne(m.log, Reported(r), s.id);
      match (m.stage, r)
      case (Pending, GRANTED) => NotifyGrants(m1, Notification(Active, GRANTED, false), s.id);
      case (Pending, DENIED) => NobodySpared(m.subs, r);
      case (Acquired, RELEASED) => NobodySpared(m.subs, r);
      case (Releasing, RELEASED) => AfterReleaseGrants(m1, r, s);
      case (Releasing, DENIED) => AfterReleaseGrants(m1, r, s);
      case _ =>
    }
  }

  lemma AfterReleaseGrants(m: Machine, r: RsrcStatus, s: Subscriber)
    requires r == RELEASED || r == DENIED
    requires s in AfterRelease(Notify(m, Notification(Inactive, r, true))).subs
    ensures s in m.subs
    ensures HasGrant(AfterRelease(Notify(m, Notification(Inactive, r, true))).log, s.id) == HasGrant(m.log, s.id)
  {
    var n := Notification(Inactive, r, true);
    SparedAre(m.subs, n);
    NotifyGrants(m, n, s.id);
    GrantOne(Notify(m, n).log, Request, s.id);
  }

  lemma StepGrants(m: Machine, a: Action)
    requires GrantsOk(m) && EmptyWhenReleased(m)
    ensures GrantsOk(Do(m, a))
  {
    match a
    case Subscribe(id, kind) =>
      if m.single && m.subs != [] {
        forall s | s in m.subs ensures HasGrant(Do(m, a).log, s.id) == HasGrant(m.log, s.id) {
          GrantOne(m.log, Told(id, DENIED), s.id);
        }
      } else {
        SubscribeGrants(m, id, kind);
      }
    case Unsubscribe(id) =>
      if Has(m.subs, Key(id)) {
        UnsubscribeGrants(m, Find(m.subs, Key(id)));
      }
    case Report(r) =>
      if IsReport(r) {
        ReportGrants(m, r);
      }
    case DropAll =>
  }

  /** In every run, drops included: an active listed subscriber holds a grant iff the machine is in Acquired. */
  lemma {:induction false} GrantInvariant(single: bool, acts: seq<Action>)
    ensures var m := Run(single, acts);
      forall s :: s in m.subs && !s.inactive ==> (HasGrant(m.log, s.id) <==> m.stage == Acquired)
  {
    if acts != [] {
      GrantInvariant(single, acts[..|acts| - 1]);
      CommandTrace(single, acts[..|acts| - 1]);
      StepGrants(Run(single, acts[..|acts| - 1]), acts[|acts| - 1]);
    }
  }

  // ---------- a subscription that is not taken up ----------

  /**
   A subscribe call that is not refused leaves an active subscriber with its key, unless that key
   is still listed as waiting for its close: then the call has no effect on the list.
   */
  lemma SubscribeTakesEffect(m: Machine, id: nat, kind: Kind)
    requires ListOk(m) && !(m.single && m.subs != [])
    ensures var m' := Do(m, Subscribe(id, kind));
      (exists s :: s in m'.subs && s.id == id && !s.inactive)
      <==> !(exists s :: s in m.subs && s.id == id && s.inactive)
    ensures (exists s :: s in m.subs && s.id == id && s.inactive) ==> Do(m, Subscribe(id, kind)).subs == m.subs
  {
    var m' := Do(m, Subscribe(id, kind));
    assert m'.subs == if Has(m.subs, Key(id)) then m.subs else [Subscriber(id, kind, false)] + m.subs;
    if Has(m.subs, Key(id)) {
      var k := Find(m.subs, Key(id));
      assert m.subs[k] in m.subs;
      forall s | s in m.subs && s.id == id ensures s == m.subs[k] {
        var j :| 0 <= j < |m.subs| && m.subs[j] == s;
        assert j == k;
      }
    } else {
      assert m'.subs[0] == Subscriber(id, kind, false) && m'.subs[0] in m'.subs;
    }
  }

  /** A run in which a WIFI client unsubscribes, subscribes again, and is never served. */
  lemma ResubscriptionCanBeLost()
    ensures var acts := [Subscribe(1, WIFI), Unsubscribe(1), Subscribe(1, WIFI), Report(RELEASED)];
      var m := Run(false, acts);
      m.stage == Released && m.subs == [] && m.log[|m.log| - 1] == Told(1, RELEASED)
  {
    var a1 := [Subscribe(1, WIFI)];
    var a2 := a1 + [Unsubscribe(1)];
    var a3 := a2 + [Subscribe(1, WIFI)];
    var acts := [Subscribe(1, WIFI), Unsubscribe(1), Subscribe(1, WIFI), Report(RELEASED)];
    var s, t := Subscriber(1, WIFI, false), Subscriber(1, WIFI, true);
    assert Run(false, a1) == Machine(false, Pending, [s], [Joining(1), Request]);
    assert a2[..1] == a1;
    var m2 := Run(false, a2);
    assert [s][0 := t] == [t];
    assert m2 == Machine(false, Releasing, [t], [Joining(1), Request, Release]);
    assert a3[..2] == a2;
    var m3 := Run(false, a3);
    assert m3 == m2.(log := m2.log + [Joining(1)]);
    assert acts[..3] == a3;
    assert Spared([t], Notification(Inactive, RELEASED, true)) == [];
    assert AllWords([t], Notification(Inactive, RELEASED, true)) == [Told(1, RELEASED)];
    var m := Run(false, acts);
    assert m.log == m3.log + [Reported(RELEASED)] + [Told(1, RELEASED)];
  }

  // ---------- delete after notify ----------

  /** How often an event occurs in a trace. */
  ghost function Times(log: seq<Event>, e: Event): nat {
    multiset(log)[e]
  }

  lemma TimesConcat(a: seq<Event>, b: seq<Event>, e: Event)
    ensures Times(a + b, e) == Times(a, e) + Times(b, e)
  {
  }

  lemma TimesOfWords(s: Subscriber, n: Notification, id: nat)
    ensures Times(Words(s, n), Told(id, n.status)) == if s.id == id then |Words(s, n)| else 0
  {
  }

  /** Who is not in the list is told nothing. */
  lemma {:induction false} OthersToldNothing(subs: seq<Subscriber>, n: Notification, id: nat)
    requires forall i :: 0 <= i < |subs| ==> subs[i].id != id
    ensures Times(AllWords(subs, n), Told(id, n.status)) == 0
  {
    if subs != [] {
      OthersToldNothing(subs[1..], n, id);
      TimesConcat(Words(subs[0], n), AllWords(subs[1..], n), Told(id, n.status));
      TimesOfWords(subs[0], n, id);
    }
  }

  lemma {:induction false} OneWordEach(subs: seq<Subscriber>, n: Notification, i: nat)
    requires KeysDistinct(subs) && i < |subs|
    ensures Times(AllWords(subs, n), Told(subs[i].id, n.status)) == |Words(subs[i], n)|
  {
    var id, rest := subs[i].id, subs[1..];
    TimesConcat(Words(subs[0], n), AllWords(rest, n), Told(id, n.status));
    TimesOfWords(subs[0], n, id);
    if i == 0 {
      OthersToldNothing(rest, n, id);
    } else {
      OneWordEach(rest, n, i - 1);
    }
  }

  /**
   A deleting notification tells every subscriber it hits exactly once (a WIFI subscriber takes
   UNSUBSCRIBE silently), and exactly those are gone; the others are told nothing and stay.
   */
  lemma DeleteAfterNotify(m: Machine, n: Notification, s: Subscriber)
    requires KeysDistinct(m.subs) && s in m.subs && n.postNotifyDelete
    ensures var m' := Notify(m, n);
      && m.log <= m'.log
      && Times(m'.log[|m.log|..], Told(s.id, n.status))
         == (if Hits(s, n) && !(s.kind.WIFI? && n.status.UNSUBSCRIBE?) then 1 else 0)
      && (s in m'.subs <==> !Hits(s, n))
      && |m'.subs| <= |m.subs|
  {
    var i :| 0 <= i < |m.subs| && m.subs[i] == s;
    OneWordEach(m.subs, n, i);
    SparedIsSublist(m.subs, n);
    SparedAre(m.subs, n);
    assert Notify(m, n).log[|m.log|..] == AllWords(m.subs, n);
  }

  /** Those who stay keep their order. */
  lemma {:induction false} SparedKeepsOrder(subs: seq<Subscriber>, n: Notification, i: nat, j: nat)
    requires i < j < |Spared(subs, n)|
    ensures exists k, l :: 0 <= k < l < |subs| && subs[k] == Spared(subs, n)[i] && subs[l] == Spared(subs, n)[j]
  {
    var rest := Spared(subs[1..], n);
    if Hits(subs[0], n) {
      SparedKeepsOrder(subs[1..], n, i, j);
      var k, l :| 0 <= k < l < |subs[1..]| && subs[1..][k] == rest[i] && subs[1..][l] == rest[j];
      assert subs[k + 1] == Spared(subs, n)[i] && subs[l + 1] == Spared(subs, n)[j];
    } else if i == 0 {
      SparedAre(subs[1..], n);
      assert rest[j - 1] in rest && rest[j - 1] in subs[1..];
      var l :| 0 <= l < |subs[1..]| && subs[1..][l] == rest[j - 1];
      assert subs[0] == Spared(subs, n)[i] && subs[l + 1] == Spared(subs, n)[j];
    } else {
      SparedKeepsOrder(subs[1..], n, i - 1, j - 1);
      var k, l :| 0 <= k < l < |subs[1..]| && subs[1..][k] == rest[i - 1] && subs[1..][l] == rest[j - 1];
      assert subs[k + 1] == Spared(subs, n)[i] && subs[l + 1] == Spared(subs, n)[j];
    }
  }
}

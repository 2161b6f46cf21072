/** Run-level safety of the AGPS state machine. */
module AgpsSafety {
  import opened AgpsModel

  // ---------- the trace as the connectivity service sees it ----------

  datatype Service = Idle | Requested | Granted

  function Observe(v: Service, e: Event): Service {
    match e
    case Request => Requested
    case Release => Idle
    case Reported(r) =>
      if v.Requested? && r.GRANTED? then Granted
      else if v.Requested? && r.DENIED? then Idle
      else if v.Granted? && r.RELEASED? then Idle
      else v
    case _ => v
  }

  /** What the service has promised after a trace; it depends on commands and reports only. */
  function View(log: seq<Event>): Service {
    if log == [] then Idle else Observe(View(log[..|log| - 1]), log[|log| - 1])
  }

  /** e is a command in its place: REQUEST when nothing is held, RELEASE when something is. */
  predicate Proper(v: Service, e: Event) {
    (e.Request? ==> v.Idle?) && (e.Release? ==> !v.Idle?)
  }

  predicate ProperTrace(log: seq<Event>) {
    log != [] ==> ProperTrace(log[..|log| - 1]) && Proper(View(log[..|log| - 1]), log[|log| - 1])
  }

  /** ProperTrace, read entry by entry. */
  lemma {:induction false} ProperAt(log: seq<Event>, i: nat)
    requires ProperTrace(log) && i < |log|
    ensures Proper(View(log[..i]), log[i])
  {
    if i < |log| - 1 {
      ProperAt(log[..|log| - 1], i);
      assert log[..|log| - 1][..i] == log[..i];
    }
  }

  lemma LogOne(log: seq<Event>, e: Event)
    ensures View(log + [e]) == Observe(View(log), e)
    ensures ProperTrace(log + [e]) <==> ProperTrace(log) && Proper(View(log), e)
  {
    assert (log + [e])[..|log|] == log;
  }

  /** Only what passes between subscribers and machine. */
  predicate Chatter(words: seq<Event>) {
    forall i :: 0 <= i < |words| ==> words[i].Told? || words[i].Joining?
  }

  lemma {:induction false} ChatterIsInvisible(log: seq<Event>, words: seq<Event>)
    requires Chatter(words)
    ensures View(log + words) == View(log) && (ProperTrace(log + words) <==> ProperTrace(log))
  {
    if words == [] {
      assert log + words == log;
    } else {
      ChatterIsInvisible(log, words[..|words| - 1]);
      LogOne(log + words[..|words| - 1], words[|words| - 1]);
      assert log + words == log + words[..|words| - 1] + [words[|words| - 1]];
    }
  }

  lemma {:induction false} WordsAreChatter(subs: seq<Subscriber>, n: Notification)
    ensures Chatter(AllWords(subs, n))
  {
    if subs != [] {
      WordsAreChatter(subs[1..], n);
    }
  }

  function ViewOf(stage: Stage): Service {
    match stage
    case Pending => Requested
    case Acquired => Granted
    case _ => Idle
  }

  /** The machine's stage and the service agree, and every command so far was in its place. */
  predicate InStep(m: Machine) {
    View(m.log) == ViewOf(m.stage) && ProperTrace(m.log)
  }

  /** Nothing is listed in Released: that holds even across DropAll. */
  predicate EmptyWhenReleased(m: Machine) {
    m.stage.Released? ==> m.subs == []
  }

  /** From Released, with the empty list: the newcomer makes the request go out. */
  lemma FirstSubscriber(m: Machine, id: nat, kind: Kind)
    requires m.subs == []
    ensures SendRequest(AddSubscriber(m, id, kind)).log == m.log + [Request]
  {
    var subs := [Subscriber(id, kind, false)];
    assert AddSubscriber(m, id, kind).subs == subs;
    assert Find(subs, Active) == 0;
  }

  lemma AddKeepsLog(m: Machine, id: nat, kind: Kind)
    ensures AddSubscriber(m, id, kind).log == m.log && AddSubscriber(m, id, kind).stage == m.stage
  {
  }

  lemma SubscribeInStep(m: Machine, id: nat, kind: Kind)
    requires InStep(m) && EmptyWhenReleased(m)
    ensures InStep(OnSubscribe(m, id, kind)) && EmptyWhenReleased(OnSubscribe(m, id, kind))
  {
    var m1 := m.(log := m.log + [Joining(id)]);
    ChatterIsInvisible(m.log, [Joining(id)]);
    match m.stage
    case Released =>
      FirstSubscriber(m1, id, kind);
      LogOne(m1.log, Request);
    case Acquired =>
      ChatterIsInvisible(m1.log, [Told(id, GRANTED)]);
      AddKeepsLog(m1.(log := m1.log + [Told(id, GRANTED)]), id, kind);
    case Pending => AddKeepsLog(m1, id, kind);
    case Releasing => AddKeepsLog(m1, id, kind);
  }

  lemma NotifyInStep(m: Machine, n: Notification)
    ensures View(Notify(m, n).log) == View(m.log)
    ensures ProperTrace(Notify(m, n).log) <==> ProperTrace(m.log)
  {
    WordsAreChatter(m.subs, n);
    ChatterIsInvisible(m.log, AllWords(m.subs, n));
  }

  lemma LeaveInStep(m: Machine, i: nat)
    requires i < |m.subs|
    ensures View(Leave(m, i).log) == View(m.log)
    ensures ProperTrace(Leave(m, i).log) <==> ProperTrace(m.log)
    ensures Leave(m, i).stage == m.stage
  {
    var s := m.subs[i];
    NotifyInStep(m, Notification(Key(s.id), UNSUBSCRIBE, true));
    ChatterIsInvisible(m.log, [Told(s.id, UNSUBSCRIBE)]);
    assert m.log + [] == m.log;
  }

  lemma UnsubscribeInStep(m: Machine, i: nat)
    requires InStep(m) && EmptyWhenReleased(m) && i < |m.subs|
    ensures InStep(OnUnsubscribe(m, i)) && EmptyWhenReleased(OnUnsubscribe(m, i))
  {
    LeaveInStep(m, i);
    LogOne(Leave(m, i).log, Release);
  }

  lemma {:induction false} SparedAre(subs: seq<Subscriber>, n: Notification)
    ensures forall s :: s in Spared(subs, n) <==> s in subs && !Hits(s, n)
  {
    if subs != [] {
      SparedAre(subs[1..], n);
      assert forall s :: s in subs <==> s == subs[0] || s in subs[1..];
    }
  }

  /** After the inactive ones are told and deleted: the machine asks again, or is done. */
  lemma ReleaseInStep(m: Machine, r: RsrcStatus)
    requires View(m.log) == Idle && ProperTrace(m.log) && Interesting(r)
    ensures var m' := AfterRelease(Notify(m, Notification(Inactive, r, true)));
      InStep(m') && EmptyWhenReleased(m')
  {
    var n := Notification(Inactive, r, true);
    NotifyInStep(m, n);
    LogOne(Notify(m, n).log, Request);
    var left := Spared(m.subs, n);
    SparedAre(m.subs, n);
    if left != [] {
      assert left[0] in left;
    }
  }

  /** Everybody is told and deleted. */
  lemma ReleasedForAll(m: Machine, r: RsrcStatus)
    requires View(m.log) == Idle && ProperTrace(m.log) && Interesting(r)
    ensures var m' := Notify(m, Notification(All, r, true)).(stage := Released);
      InStep(m') && EmptyWhenReleased(m')
  {
    NotifyInStep(m, Notification(All, r, true));
    NobodySpared(m.subs, r);
  }

  lemma {:induction false} NobodySpared(subs: seq<Subscriber>, r: RsrcStatus)
    requires Interesting(r)
    ensures Spared(subs, Notification(All, r, true)) == []
  {
    if subs != [] {
      NobodySpared(subs[1..], r);
    }
  }

  lemma PendingInStep(m: Machine, r: RsrcStatus)
    requires InStep(m) && IsReport(r) && m.stage.Pending?
    ensures InStep(OnReport(m, r)) && EmptyWhenReleased(OnReport(m, r))
  {
    var m1 := m.(log := m.log + [Reported(r)]);
    LogOne(m.log, Reported(r));
    if r.GRANTED? {
      NotifyInStep(m1, Notification(Active, GRANTED, false));
    } else if r.DENIED? {
      ReleasedForAll(m1, DENIED);
    }
  }

  lemma AcquiredInStep(m: Machine, r: RsrcStatus)
    requires InStep(m) && IsReport(r) && m.stage.Acquired?
    ensures InStep(OnReport(m, r)) && EmptyWhenReleased(OnReport(m, r))
  {
    LogOne(m.log, Reported(r));
    if r.RELEASED? {
      ReleasedForAll(m.(log := m.log + [Reported(r)]), RELEASED);
    }
  }

  lemma ReleasingInStep(m: Machine, r: RsrcStatus)
    requires InStep(m) && IsReport(r) && m.stage.Releasing?
    ensures InStep(OnReport(m, r)) && EmptyWhenReleased(OnReport(m, r))
  {
    LogOne(m.log, Reported(r));
    if !r.GRANTED? {
      ReleaseInStep(m.(log := m.log + [Reported(r)]), r);
    }
  }

  lemma ReportInStep(m: Machine, r: RsrcStatus)
    requires InStep(m) && EmptyWhenReleased(m) && IsReport(r)
    ensures InStep(OnReport(m, r)) && EmptyWhenReleased(OnReport(m, r))
  {
    match m.stage
    case Released => LogOne(m.log, Reported(r));
    case Pending => PendingInStep(m, r);
    case Acquired => AcquiredInStep(m, r);
    case Releasing => ReleasingInStep(m, r);
  }

  lemma StepInStep(m: Machine, a: Action)
    requires InStep(m) && EmptyWhenReleased(m)
    ensures InStep(Do(m, a)) && EmptyWhenReleased(Do(m, a))
  {
    match a
    case Subscribe(id, kind) =>
      SubscribeInStep(m, id, kind);
      ChatterIsInvisible(m.log, [Told(id, DENIED)]);
    case Unsubscribe(id) =>
      if Has(m.subs, Key(id)) {
        UnsubscribeInStep(m, Find(m.subs, Key(id)));
      }
    case Report(r) =>
      if IsReport(r) {
        ReportInStep(m, r);
      }
    case DropAll =>
  }

  /**
   Over every run, drops included: the resource is held (in the service's view) exactly in
   Pending and Acquired, and granted exactly in Acquired; REQUEST is sent only when nothing is
   held, RELEASE only when something is.
   */
  lemma {:induction false} CommandTrace(single: bool, acts: seq<Action>)
    ensures var m := Run(single, acts);
      && (View(m.log) != Idle <==> m.stage == Pending || m.stage == Acquired)
      && (View(m.log) == Granted <==> m.stage == Acquired)
      && (forall i :: 0 <= i < |m.log| ==> Proper(View(m.log[..i]), m.log[i]))
      && (m.stage == Released ==> m.subs == [])
    ensures InStep(Run(single, acts)) && EmptyWhenReleased(Run(single, acts))
  {
    var m := Run(single, acts);
    if acts != [] {
      CommandTrace(single, acts[..|acts| - 1]);
      StepInStep(Run(single, acts[..|acts| - 1]), acts[|acts| - 1]);
    }
    forall i | 0 <= i < |m.log| ensures Proper(View(m.log[..i]), m.log[i]) {
      ProperAt(m.log, i);
    }
  }

  // ---------- who is listed ----------

  ghost predicate KeysDistinct(subs: seq<Subscriber>) {
    forall i, j :: 0 <= i < j < |subs| ==> subs[i].id != subs[j].id
  }

  predicate OnlyClosersInactive(subs: seq<Subscriber>) {
    forall i :: 0 <= i < |subs| ==> subs[i].inactive ==> !subs[i].kind.ATL?
  }

  ghost predicate ListOk(m: Machine) {
    && KeysDistinct(m.subs) && OnlyClosersInactive(m.subs)
    && (m.single ==> |m.subs| <= 1)
  }

  /** Whom each stage has listed, as long as nobody drops the list. */
  predicate StageOk(m: Machine) {
    match m.stage
    case Released => m.subs == []
    case Pending => Has(m.subs, Active)
    case Acquired => Has(m.subs, Active)
    case Releasing => Has(m.subs, Inactive)
  }

  lemma HasIffIn(subs: seq<Subscriber>, to: Receiver)
    ensures Has(subs, to) <==> exists s :: s in subs && ForMe(s, to)
  {
    if Has(subs, to) {
      assert subs[Find(subs, to)] in subs;
    }
  }

  lemma {:induction false} SparedIsSublist(subs: seq<Subscriber>, n: Notification)
    requires KeysDistinct(subs)
    ensures KeysDistinct(Spared(subs, n)) && |Spared(subs, n)| <= |subs|
    ensures OnlyClosersInactive(subs) ==> OnlyClosersInactive(Spared(subs, n))
  {
    if subs != [] {
      SparedIsSublist(subs[1..], n);
      var rest := Spared(subs[1..], n);
      SparedAre(subs[1..], n);
      forall j | 0 <= j < |rest| ensures rest[j].id != subs[0].id {
        assert rest[j] in rest;
        var k :| 0 <= k < |subs[1..]| && subs[1..][k] == rest[j];
        assert subs[k + 1] == rest[j];
      }
    }
  }

  lemma AddKeepsList(m: Machine, id: nat, kind: Kind)
    requires ListOk(m) && (m.single ==> m.subs == [])
    ensures ListOk(AddSubscriber(m, id, kind))
    ensures Has(m.subs, Active) ==> Has(AddSubscriber(m, id, kind).subs, Active)
    ensures Has(m.subs, Inactive) ==> Has(AddSubscriber(m, id, kind).subs, Inactive)
    ensures m.subs == [] ==> Has(AddSubscriber(m, id, kind).subs, Active)
  {
    var subs := AddSubscriber(m, id, kind).subs;
    HasIffIn(m.subs, Active);
    HasIffIn(subs, Active);
    HasIffIn(m.subs, Inactive);
    HasIffIn(subs, Inactive);
    if subs != m.subs {
      assert subs[0] == Subscriber(id, kind, false) && subs[1..] == m.subs;
      assert forall s :: s in m.subs ==> s in subs;
    }
  }

  /** Going inactive in place. */
  lemma IdleKeepsList(m: Machine, i: nat)
    requires ListOk(m) && i < |m.subs| && !m.subs[i].kind.ATL?
    ensures ListOk(Leave(m, i))
    ensures Has(Leave(m, i).subs, Inactive)
  {
    var m' := Leave(m, i);
    HasIffIn(m'.subs, Inactive);
    assert m'.subs[i] in m'.subs && m'.subs[i].inactive;
  }

  /** Leaving at once: whoever is inactive is somebody else, and stays. */
  lemma DeleteKeepsList(m: Machine, i: nat)
    requires ListOk(m) && i < |m.subs| && m.subs[i].kind.ATL?
    ensures ListOk(Leave(m, i))
    ensures Has(m.subs, Inactive) ==> Has(Leave(m, i).subs, Inactive)
  {
    var n := Notification(Key(m.subs[i].id), UNSUBSCRIBE, true);
    SparedIsSublist(m.subs, n);
    SparedAre(m.subs, n);
    HasIffIn(m.subs, Inactive);
    HasIffIn(Leave(m, i).subs, Inactive);
    if Has(m.subs, Inactive) {
      var x :| x in m.subs && x.inactive;
      var k :| 0 <= k < |m.subs| && m.subs[k] == x;
      assert k != i && x.id != m.subs[i].id;
      assert x in Spared(m.subs, n);
    }
  }

  lemma LeaveKeepsList(m: Machine, i: nat)
    requires ListOk(m) && i < |m.subs|
    ensures ListOk(Leave(m, i))
    ensures Has(m.subs, Inactive) ==> Has(Leave(m, i).subs, Inactive)
  {
    if m.subs[i].kind.ATL? {
      DeleteKeepsList(m, i);
    } else {
      IdleKeepsList(m, i);
    }
  }

  /** A list without active subscribers has an inactive one, unless it is empty. */
  lemma ActiveOrInactive(subs: seq<Subscriber>)
    requires subs != [] && !Has(subs, Active)
    ensures Has(subs, Inactive)
  {
    HasIffIn(subs, Active);
    HasIffIn(subs, Inactive);
    assert subs[0] in subs;
  }

  lemma StageAfterLeave(left: Machine)
    requires left.stage.Pending? || left.stage.Acquired?
    ensures StageOk(AfterLeave(left)) && AfterLeave(left).subs == left.subs && AfterLeave(left).single == left.single
  {
    if left.subs != [] && !Has(left.subs, Active) {
      ActiveOrInactive(left.subs);
    }
  }

  lemma LeaveKeepsStage(m: Machine, i: nat)
    requires i < |m.subs|
    ensures Leave(m, i).stage == m.stage && Leave(m, i).single == m.single
  {
  }

  lemma UnsubscribeKeepsList(m: Machine, i: nat)
    requires ListOk(m) && i < |m.subs|
    ensures ListOk(OnUnsubscribe(m, i))
    ensures StageOk(m) ==> StageOk(OnUnsubscribe(m, i))
  {
    LeaveKeepsList(m, i);
    LeaveKeepsStage(m, i);
    if m.stage.Pending? || m.stage.Acquired? {
      StageAfterLeave(Leave(m, i));
    }
  }

  lemma ReportKeepsList(m: Machine, r: RsrcStatus)
    requires ListOk(m) && IsReport(r)
    ensures ListOk(OnReport(m, r))
    ensures StageOk(m) ==> StageOk(OnReport(m, r))
  {
    match (m.stage, r)
    case (Pending, DENIED) => NobodySpared(m.subs, r);
    case (Acquired, RELEASED) => NobodySpared(m.subs, r);
    case (Releasing, RELEASED) => OnlyActiveSpared(m.subs, r);
    case (Releasing, DENIED) => OnlyActiveSpared(m.subs, r);
    case _ =>
  }

  lemma OnlyActiveSpared(subs: seq<Subscriber>, r: RsrcStatus)
    requires KeysDistinct(subs) && OnlyClosersInactive(subs) && Interesting(r)
    ensures var left := Spared(subs, Notification(Inactive, r, true));
      && KeysDistinct(left) && OnlyClosersInactive(left) && |left| <= |subs|
      && (left == [] || Has(left, Active))
  {
    SparedIsSublist(subs, Notification(Inactive, r, true));
    SparedAre(subs, Notification(Inactive, r, true));
    var left := Spared(subs, Notification(Inactive, r, true));
    if left != [] {
      assert left[0] in left;
      HasIffIn(left, Active);
    }
  }

  /** What a subscription makes of list and stage. */
  lemma SubscribeMakes(m: Machine, id: nat, kind: Kind)
    ensures OnSubscribe(m, id, kind).subs == AddSubscriber(m, id, kind).subs
    ensures OnSubscribe(m, id, kind).single == m.single
    ensures OnSubscribe(m, id, kind).stage == if m.stage.Released? then Pending else m.stage
  {
  }

  lemma SubscribeKeepsList(m: Machine, id: nat, kind: Kind)
    requires ListOk(m) && (m.single ==> m.subs == [])
    ensures ListOk(OnSubscribe(m, id, kind))
    ensures StageOk(m) ==> StageOk(OnSubscribe(m, id, kind))
  {
    SubscribeMakes(m, id, kind);
    AddKeepsList(m, id, kind);
  }

  lemma StepKeepsList(m: Machine, a: Action)
    requires ListOk(m)
    ensures ListOk(Do(m, a))
    ensures StageOk(m) && a != DropAll ==> StageOk(Do(m, a))
  {
    match a
    case Subscribe(id, kind) =>
      if !(m.single && m.subs != []) {
        SubscribeKeepsList(m, id, kind);
      }
    case Unsubscribe(id) =>
      if Has(m.subs, Key(id)) {
        UnsubscribeKeepsList(m, Find(m.subs, Key(id)));
      }
    case Report(r) =>
      if IsReport(r) {
        ReportKeepsList(m, r);
      }
    case DropAll =>
  }

  lemma StepKeepsSingle(m: Machine, a: Action)
    ensures Do(m, a).single == m.single
  {
  }

  lemma {:induction false} RunKeepsList(single: bool, acts: seq<Action>)
    ensures ListOk(Run(single, acts)) && Run(single, acts).single == single
    ensures DropAll !in acts ==> StageOk(Run(single, acts))
  {
    if acts != [] {
      var init, a := acts[..|acts| - 1], acts[|acts| - 1];
      RunKeepsList(single, init);
      StepKeepsSingle(Run(single, init), a);
      StepKeepsList(Run(single, init), a);
      assert a in acts;
    }
  }

  /**
   Without drops: Released exactly when the list is empty; Pending and Acquired have an active
   subscriber, Releasing an inactive one. In every run keys are distinct, and a machine that
   enforces a single subscriber never lists two.
   */
  lemma StateAndList(single: bool, acts: seq<Action>)
    ensures var m := Run(single, acts);
      && (forall i, j :: 0 <= i < j < |m.subs| ==> m.subs[i].id != m.subs[j].id)
      && (single ==> |m.subs| <= 1)
    ensures DropAll !in acts ==> var m := Run(single, acts);
      && (m.stage == Released <==> m.subs == [])
      && (m.stage == Pending || m.stage == Acquired ==> exists s :: s in m.subs && !s.inactive)
      && (m.stage == Releasing ==> exists s :: s in m.subs && s.inactive)
  {
    RunKeepsList(single, acts);
    HasIffIn(Run(single, acts).subs, Active);
    HasIffIn(Run(single, acts).subs, Inactive);
  }
}

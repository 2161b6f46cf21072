/** Claims one might expect of the timer service that its code does not keep, each with a run that shows it. */
module TimerFindings {
  import opened Options
  import opened Ranking
  import opened Deadline
  import opened TimerModel
  import opened TimerInv
  import opened TimerSafety
  import opened TimerArming
  import HT = HeapTree

  /** Extends a run whose last state is known by one move. */
  lemma Then(acts: seq<Action>, s: State, a: Action) returns (more: seq<Action>)
    requires Run(acts) == s
    ensures Run(more) == Do(s, a)
  {
    more := acts + [a];
    RunSnoc(acts, a);
  }

  const T0 := Timer(0, Timespec(2, 0))
  const T1 := Timer(1, Timespec(7, 0))
  const H0: Heap := HT.Node((), HT.Nil, T0, 1, HT.Nil)
  const H1: Heap := HT.Node((), HT.Nil, T1, 1, HT.Nil)
  const Off := Container(HT.Nil, false, None)

  /** A timer is started and stopped, both messages are handled: its fd stays polled and armed. */
  function AfterStop(): State {
    State(START, [Client(true, None, Lock(1, false), 1, 1)],
          [Delegate(0, Sw, Timespec(2, 0), None, false, 0, Some(1), 1)],
          [MsgPush(0), MsgRemove(0)], 2,
          Container(HT.Nil, true, Some(Timespec(2, 0))), Off, Idle, Waiting, History(HT.Nil, []))
  }

  function AfterStart(): State {
    State(START, [Client(true, Some(0), Lock(2, false), 1, 0)],
          [Delegate(0, Sw, Timespec(2, 0), Some(0), true, 0, None, 0)],
          [MsgPush(0)], 1, Container(H0, true, Some(Timespec(2, 0))), Off, Idle, Waiting, History(HT.Nil, []))
  }

  lemma RunToStart() returns (acts: seq<Action>)
    ensures Run(acts) == AfterStart()
  {
    var s := Boot;
    acts := Then([], s, NewTimer);
    s := Boot.(clients := [Client(true, None, Lock(1, false), 0, 0)]);
    acts := Then(acts, s, Start(0, 1000, Sw));
    s := AfterStart().(sw := Off, taken := 0);
    assert Run(acts) == s;
    acts := Then(acts, s, Task);
    s := s.(taken := 1, task := Got(MsgPush(0)));
    acts := Then(acts, s, Task);
    s := s.(sw := Container(H0, false, None), task := AddPoll(Sw, None));
    assert Run(acts) == s;
    acts := Then(acts, s, Task);
    s := s.(sw := Container(H0, true, None), task := SetTime(Sw, None));
    acts := Then(acts, s, Task);
  }

  lemma RunToStop() returns (acts: seq<Action>)
    ensures Run(acts) == AfterStop()
  {
    acts := RunToStart();
    var s := AfterStart();
    acts := Then(acts, s, Stop(0));
    s := s.(clients := [Client(true, None, Lock(2, false), 1, 1)],
            delegates := [Delegate(0, Sw, Timespec(2, 0), None, false, 0, Some(1), 0)],
            sent := [MsgPush(0), MsgRemove(0)]);
    assert Run(acts) == s;
    acts := Then(acts, s, Task);
    s := s.(taken := 2, task := Got(MsgRemove(0)));
    acts := Then(acts, s, Task);
    s := s.(sw := Container(HT.Nil, true, Some(Timespec(2, 0))), task := Free(0));
    assert Run(acts) == s;
    acts := Then(acts, s, Task);
  }

  /** Removing the last timer does not disarm: an empty container can stay polled and armed. */
  lemma EmptyContainerCanStayArmed()
    ensures exists acts :: var s := Run(acts);
      s.task.Idle? && s.taken == |s.sent| && s.sw.heap.Nil? && s.sw.polled && s.sw.armed.Some?
  {
    var acts := RunToStop();
    assert Run(acts).sw.heap.Nil?;
  }

  predicate Disarms(p: TaskPc) {
    p.RemovePoll? || p.ClearTime?
  }

  lemma PushNeverDisarms(s: State, id: nat)
    requires id < |s.delegates|
    ensures !Disarms(ProcPush(s, id).task)
  {
    assert Top(HT.Push(TimerRank, s.Cont(s.delegates[id].kind).heap, (), Entry(s, id))).Some?;
  }

  lemma StepNeverDisarms(s: State, a: Action)
    requires !Disarms(s.task)
    ensures !Disarms(Do(s, a).task)
  {
    if a.Task? {
      match s.task
      case Got(MsgPush(id)) =>
        if id < |s.delegates| {
          PushNeverDisarms(s, id);
        }
      case _ =>
    } else {
      assert Do(s, a).task == s.task;
    }
  }

  /** The branch of updateSoonestTime that disarms an empty container is never taken, in any run. */
  lemma {:induction false} DisarmBranchIsDead(acts: seq<Action>)
    ensures !Run(acts).task.RemovePoll? && !Run(acts).task.ClearTime?
  {
    if acts != [] {
      DisarmBranchIsDead(acts[..|acts| - 1]);
      StepNeverDisarms(Run(acts[..|acts| - 1]), acts[|acts| - 1]);
    }
  }

  lemma EmptyHeapsKeepFds(s: State, k: Kind)
    requires !Disarms(s.task) && DoTask(s).Cont(k).heap.Nil?
    requires (s.task.AddPoll? || s.task.SetTime?) && s.task.kind == k ==> s.Cont(k).heap.Node?
    ensures DoTask(s).Cont(k).polled == s.Cont(k).polled && DoTask(s).Cont(k).armed == s.Cont(k).armed
  {
  }

  /**
   In every run, whatever empties a container, a removal or an expiration, the message thread leaves
   the fd as it finds it: polled and armed exactly if it was.
   */
  lemma EmptyingLeavesTheFd(acts: seq<Action>, k: Kind)
    requires DoTask(Run(acts)).Cont(k).heap.Nil?
    ensures DoTask(Run(acts)).Cont(k).polled == Run(acts).Cont(k).polled
    ensures DoTask(Run(acts)).Cont(k).armed == Run(acts).Cont(k).armed
  {
    DisarmBranchIsDead(acts);
    RunsAreArmed(acts);
    assert ArmOk(Run(acts), k);
    EmptyHeapsKeepFds(Run(acts), k);
  }

  /** The stopped timer's time comes while a new one, due at 7 s, has just been started. */
  function StaleExpireSent(): State {
    State(Timespec(2, 0), [Client(true, Some(1), Lock(2, false), 2, 1)],
          [Delegate(0, Sw, Timespec(2, 0), None, false, 0, Some(1), 1),
           Delegate(0, Sw, Timespec(7, 0), Some(0), true, 2, None, 0)],
          [MsgPush(0), MsgRemove(0), MsgPush(1), MsgExpire(Sw)], 2, Off, Off, Idle, Waiting, History(HT.Nil, []))
  }

  function Restarted(): State {
    StaleExpireSent().(sent := [MsgPush(0), MsgRemove(0), MsgPush(1)],
                       sw := Container(HT.Nil, true, Some(Timespec(2, 0))))
  }

  lemma RunToRestart() returns (acts: seq<Action>)
    ensures Run(acts) == Restarted()
  {
    acts := RunToStop();
    var s := AfterStop();
    acts := Then(acts, s, Advance(Timespec(2, 0)));
    s := s.(clock := Timespec(2, 0));
    assert Run(acts) == s;
    acts := Then(acts, s, Start(0, 5000, Sw));
    assert FutureTime(s.clock, 5000) == Timespec(7, 0);
    var s' := DoStart(s, 0, 5000, Sw);
    assert s'.clients == Restarted().clients;
    assert s'.delegates == Restarted().delegates;
    assert s'.sent == Restarted().sent;
  }

  lemma RunToStaleExpire() returns (acts: seq<Action>)
    ensures Run(acts) == StaleExpireSent()
  {
    acts := RunToRestart();
    var s := Restarted();
    assert Fired(s, Sw) && [Sw][1..] == [];
    acts := Then(acts, s, Wake([Sw]));
    s := s.(poll := Disarm(Sw, []));
    assert Run(acts) == s;
    acts := Then(acts, s, Poll);
    s := s.(poll := Unpoll(Sw, []), sw := Container(HT.Nil, true, None));
    acts := Then(acts, s, Poll);
    s := s.(poll := Send(Sw, []), sw := Off);
    acts := Then(acts, s, Poll);
  }

  /** The message thread has popped the timer that is due at 7 s, at 2 s. */
  function Early(): State {
    StaleExpireSent().(taken := 4, sw := Container(HT.Nil, true, Some(Timespec(7, 0))),
                       task := ReadClient(Batch(Sw, Timespec(2, 0)), T1), batch := History(H1, [T1]))
  }

  lemma RunToEarly() returns (acts: seq<Action>)
    ensures Run(acts) == Early()
  {
    acts := RunToStaleExpire();
    var s := StaleExpireSent();
    acts := Then(acts, s, Task);
    s := s.(taken := 3, task := Got(MsgPush(1)));
    acts := Then(acts, s, Task);
    s := s.(sw := Container(H1, false, None), task := AddPoll(Sw, None));
    assert Run(acts) == s;
    acts := Then(acts, s, Task);
    s := s.(sw := Container(H1, true, None), task := SetTime(Sw, None));
    acts := Then(acts, s, Task);
    s := s.(sw := Container(H1, true, Some(Timespec(7, 0))), task := Idle);
    assert Run(acts) == s;
    acts := RunToPop(acts, s);
  }

  lemma RunToPop(acts: seq<Action>, s: State) returns (more: seq<Action>)
    requires Run(acts) == s
    requires s == StaleExpireSent().(taken := 3, sw := Container(H1, true, Some(Timespec(7, 0))))
    ensures Run(more) == Early()
  {
    more := Then(acts, s, Task);
    var s' := s.(taken := 4, task := Got(MsgExpire(Sw)));
    more := Then(more, s', Task);
    assert HT.Pop(TimerRank, H1) == HT.Nil && [] + [T1] == [T1];
  }

  /** "A timer never fires early" is not kept: here one is popped five seconds before its time. */
  lemma ATimerCanExpireEarly()
    ensures exists acts :: var s := Run(acts);
      s.task.ReadClient? && s.task.d.id < |s.delegates| && s.delegates[s.task.d.id].contained
      && Nanos(s.task.d.at) == Nanos(s.clock) + 5 * NANOS
  {
    var acts := RunToEarly();
    assert Run(acts).task.d == T1;
  }

  lemma RunToStopClient() returns (acts: seq<Action>)
    ensures Run(acts) == Early().(task := StopClient(Batch(Sw, Timespec(2, 0)), T1, 0))
  {
    acts := RunToEarly();
    acts := Then(acts, Early(), Task);
  }

  /**
   "The callback runs only if the popped timer has not been stopped already" is not kept either:
   between the unlocked read of the client pointer and the stop, the client may stop that timer
   and start another; then the new one is stopped and its callback comes early.
   */
  lemma CallbackCanHitANewerTimer(acts: seq<Action>, ms: Millis, kind: Kind) returns (more: seq<Action>)
    requires var s := Run(acts); s.task.StopClient? && Stoppable(s, s.task.c) && s.clients[s.task.c].alive
    ensures var s, s' := Run(acts), Run(acts + more);
      && s'.task.Callback? && s'.task.c == s.task.c && s'.task.d == s.task.d
      && |s.delegates| == s'.task.stopped < |s'.delegates|
      && Nanos(s'.delegates[s'.task.stopped].at) == Nanos(s'.clock) + ms * 1_000_000
  {
    var s, c := Run(acts), Run(acts).task.c;
    var a1 := acts + [Stop(c)];
    var a2 := a1 + [Start(c, ms, kind)];
    RunSnoc(acts, Stop(c));
    RunSnoc(a1, Start(c, ms, kind));
    RunSnoc(a2, Task);
    more := [Stop(c), Start(c, ms, kind), Task];
    assert acts + more == a2 + [Task];
    RestartHitsNewer(s, ms, kind);
  }

  lemma RestartHitsNewer(s: State, ms: Millis, kind: Kind)
    requires s.task.StopClient? && Stoppable(s, s.task.c) && s.clients[s.task.c].alive
    ensures var s1 := Do(s, Stop(s.task.c)); var s2 := Do(s1, Start(s.task.c, ms, kind)); var s' := Do(s2, Task);
      && s'.task.Callback? && s'.task.c == s.task.c && s'.task.d == s.task.d
      && |s.delegates| == s'.task.stopped < |s'.delegates|
      && Nanos(s'.delegates[s'.task.stopped].at) == Nanos(s'.clock) + ms * 1_000_000
  {
    var c := s.task.c;
    var s1 := DoStop(s, c);
    assert Do(s, Stop(c)) == s1 && Startable(s1, c);
    var s2 := DoStart(s1, c, ms, kind);
    assert Do(s1, Start(c, ms, kind)) == s2;
    FutureIsInstant(s1.clock, ms);
    assert Stoppable(s2, c) && s2.clients[c].timer == Some(|s.delegates|);
  }

  /** A whole run from the start in which the callback of one timer comes because another was popped, an hour early. */
  lemma ANewerTimerIsHit()
    ensures exists acts :: var s := Run(acts);
      && s.task.Callback? && s.task.stopped != s.task.d.id && s.task.stopped < |s.delegates|
      && Nanos(s.delegates[s.task.stopped].at) == Nanos(s.clock) + 3600 * NANOS
  {
    var acts := RunToStopClient();
    var more := CallbackCanHitANewerTimer(acts, 3_600_000, Sw);
    assert Run(acts + more).task.d == T1;
  }
}

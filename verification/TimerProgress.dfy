/**
 The message thread and the poll thread, left to themselves, always come to rest, in whatever order
 they move; and then no running timer is due.
 */
module TimerProgress {
  import opened Options
  import opened Ranking
  import opened Deadline
  import opened TimerModel
  import opened TimerInv
  import opened TimerSafety
  import opened TimerPresence
  import opened TimerArming
  import opened TimerBatch
  import HT = HeapTree

  // ---------- schedules of the two service threads ----------

  /** A move of the message thread, of the poll thread, or of the kernel that wakes the latter. */
  predicate Service(a: Action) {
    a.Task? || a.Poll? || a.Wake?
  }

  function Follow(s: State, more: seq<Action>): State
    decreases |more|
  {
    if more == [] then s else Follow(Do(s, more[0]), more[1..])
  }

  /** A schedule of service moves each of which changes the state. */
  predicate Busy(s: State, more: seq<Action>)
    decreases |more|
  {
    more != [] ==> Service(more[0]) && Do(s, more[0]) != s && Busy(Do(s, more[0]), more[1..])
  }

  /** No service move changes the state. */
  ghost predicate AtRest(s: State) {
    forall a: Action :: Service(a) ==> Do(s, a) == s
  }

  // ---------- what is still to be done ----------

  const EXPIRE := 4   // an expire message in the queue
  const ROUND := 7    // a container that the poll thread has to handle
  const DUE := 8      // an fd that is armed for a time that has come
  const REMOVE := 13  // a remove message in the queue, or a timer that can still be stopped
  const PUSH := 16    // a push message in the queue
  const ENTRY := 4    // an entry of a heap

  ghost function Running(s: State): set<nat> {
    set id | 0 <= id < |s.delegates| && s.delegates[id].contained
  }

  function MsgWork(m: Msg): nat {
    match m
    case MsgPush(_) => PUSH
    case MsgRemove(_) => REMOVE
    case MsgExpire(_) => EXPIRE
  }

  function QueueWork(msgs: seq<Msg>): nat {
    if msgs == [] then 0 else MsgWork(msgs[0]) + QueueWork(msgs[1..])
  }

  function Queued(s: State): nat
    requires s.taken <= |s.sent|
  {
    QueueWork(s.sent[s.taken..])
  }

  predicate TopDue(h: Heap, now: Uptime) {
    h.Node? && Due(h.data, now)
  }

  /** Arming for the top: work of the poll thread only if the top is due. */
  function RearmWork(s: State, k: Kind): nat {
    if TopDue(s.Cont(k).heap, s.clock) then DUE else 0
  }

  function FreeWork(free: Option<nat>): nat {
    if free.Some? then 1 else 0
  }

  /** The end of a batch can arm for a due time only if the batch has read the clock some time ago. */
  function EndWork(s: State, b: Batch): nat {
    if b.now == s.clock then 2 else 2 + DUE
  }

  function TaskWork(s: State): nat {
    match s.task
    case Idle => 0
    case Got(m) => MsgWork(m) - 1
    case AddPoll(k, f) => 2 + FreeWork(f) + RearmWork(s, k)
    case SetTime(k, f) => 1 + FreeWork(f) + RearmWork(s, k)
    case RemovePoll(_, f) => 2 + FreeWork(f)
    case ClearTime(_, f) => 1 + FreeWork(f)
    case Free(_) => 1
    case ReadClient(b, _) => 4 + EndWork(s, b)
    case StopClient(b, _, _) => 3 + EndWork(s, b)
    case Callback(b, _, _, _) => 2 + EndWork(s, b)
    case More(b) => 1 + EndWork(s, b)
  }

  function PollWork(p: PollPc): nat {
    match p
    case Waiting => 0
    case Disarm(_, rest) => ROUND * |rest| + ROUND
    case Unpoll(_, rest) => ROUND * |rest| + ROUND - 1
    case Send(_, rest) => ROUND * |rest| + ROUND - 2
  }

  /** The poll thread will disarm k in the round it is in. */
  predicate ToDisarm(p: PollPc, k: Kind) {
    match p
    case Waiting => false
    case Disarm(j, rest) => j == k || k in rest
    case Unpoll(_, rest) => k in rest
    case Send(_, rest) => k in rest
  }

  function ArmWork(c: Container, p: PollPc, k: Kind, now: Uptime): nat {
    if c.armed.Some? && Nanos(c.armed.value) <= Nanos(now) && !ToDisarm(p, k) then DUE else 0
  }

  function Arms(s: State): nat {
    ArmWork(s.sw, s.poll, Sw, s.clock) + ArmWork(s.hw, s.poll, Hw, s.clock)
  }

  function InHeaps(s: State): nat {
    HT.Count(s.sw.heap) + HT.Count(s.hw.heap)
  }

  /** Bounds the number of service moves that are still possible before something else happens. */
  ghost function Effort(s: State): nat
    requires s.taken <= |s.sent|
  {
    REMOVE * |Running(s)| + Queued(s) + TaskWork(s) + ENTRY * InHeaps(s) + PollWork(s.poll) + Arms(s)
  }

  // ---------- the queue ----------

  lemma {:induction false} QueueAppend(msgs: seq<Msg>, m: Msg)
    ensures QueueWork(msgs + [m]) == QueueWork(msgs) + MsgWork(m)
  {
    if msgs == [] {
      assert msgs + [m] == [m] && [m][1..] == [];
    } else {
      QueueAppend(msgs[1..], m);
      assert (msgs + [m])[1..] == msgs[1..] + [m];
    }
  }

  lemma SentAppend(s: State, s': State, m: Msg)
    requires s.taken == s'.taken <= |s.sent| && s'.sent == s.sent + [m]
    ensures Queued(s') == Queued(s) + MsgWork(m)
  {
    QueueAppend(s.sent[s.taken..], m);
    assert s'.sent[s.taken..] == s.sent[s.taken..] + [m];
  }

  lemma TakeWork(sent: seq<Msg>, taken: nat)
    requires taken < |sent|
    ensures QueueWork(sent[taken..]) == MsgWork(sent[taken]) + QueueWork(sent[taken + 1..])
  {
    assert sent[taken..][1..] == sent[taken + 1..];
  }

  // ---------- the poll thread ----------

  lemma PollQueue(s: State)
    requires s.taken <= |s.sent| && !s.poll.Waiting?
    ensures DoPoll(s).taken == s.taken <= |DoPoll(s).sent|
    ensures Queued(DoPoll(s)) + PollWork(DoPoll(s).poll) < Queued(s) + PollWork(s.poll)
  {
    var s' := DoPoll(s);
    if s.poll.Send? {
      SentAppend(s, s', MsgExpire(s.poll.kind));
    } else {
      assert s'.sent == s.sent && s'.taken == s.taken;
    }
  }

  lemma PollLeaves(s: State)
    ensures Running(DoPoll(s)) == Running(s) && TaskWork(DoPoll(s)) == TaskWork(s) && InHeaps(DoPoll(s)) == InHeaps(s)
  {
    SameHeapsSameWork(s, DoPoll(s));
  }

  /** The work of the message thread and in the heaps depends on task, heaps, clock and delegates only. */
  lemma SameHeapsSameWork(s: State, s': State)
    requires s'.task == s.task && s'.clock == s.clock && s'.delegates == s.delegates
    requires s'.sw.heap == s.sw.heap && s'.hw.heap == s.hw.heap
    ensures Running(s') == Running(s) && TaskWork(s') == TaskWork(s) && InHeaps(s') == InHeaps(s)
  {
  }

  lemma PollShrinks(s: State)
    requires s.taken <= |s.sent| && !s.poll.Waiting?
    ensures DoPoll(s).taken <= |DoPoll(s).sent| && Effort(DoPoll(s)) < Effort(s)
  {
    PollQueue(s);
    PollLeaves(s);
    PollKeepsArmWork(s);
  }

  lemma PollKeepsArmWork(s: State)
    requires !s.poll.Waiting?
    ensures Arms(DoPoll(s)) <= Arms(s)
  {
    DisarmPasses(s.poll, Sw);
    DisarmPasses(s.poll, Hw);
  }

  /** Who is still to be disarmed stays so, except the one that is disarmed now. */
  lemma DisarmPasses(p: PollPc, k: Kind)
    requires !p.Waiting?
    ensures p.Disarm? && p.kind != k ==> (ToDisarm(p, k) <==> k in p.rest)
    ensures !p.Disarm? ==> (ToDisarm(p, k) <==> k in p.rest)
    ensures ToDisarm(NextPoll(p.rest), k) <==> k in p.rest
  {
    if p.rest != [] {
      assert p.rest == [p.rest[0]] + p.rest[1..];
    }
  }

  lemma Repeats(kinds: seq<Kind>)
    requires |kinds| > 2
    ensures exists i, j :: 0 <= i < j < |kinds| && kinds[i] == kinds[j]
  {
    if kinds[0] == kinds[1] {
    } else if kinds[0] == kinds[2] {
    } else {
      assert kinds[1] == kinds[2];
    }
  }

  /** Waking the poll thread turns armed fds into containers to handle. */
  lemma WakeArms(s: State, ready: seq<Kind>)
    requires Ready(s, ready)
    ensures Arms(s) >= DUE * |ready|
    ensures Arms(s.(poll := Disarm(ready[0], ready[1..]))) <= Arms(s) - DUE * |ready|
  {
    var p := Disarm(ready[0], ready[1..]);
    assert ready == [ready[0]] + ready[1..];
    assert forall k :: ToDisarm(p, k) <==> k in ready;
    if |ready| == 1 {
      assert Fired(s, ready[0]);
    } else {
      if |ready| > 2 {
        Repeats(ready);
        assert false;
      }
      assert ready[0] != ready[1] && Fired(s, ready[0]) && Fired(s, ready[1]);
    }
  }

  lemma WakeShrinks(s: State, ready: seq<Kind>)
    requires s.taken <= |s.sent| && Ready(s, ready)
    ensures Effort(Do(s, Wake(ready))) < Effort(s)
  {
    var s' := s.(poll := Disarm(ready[0], ready[1..]));
    assert Do(s, Wake(ready)) == s';
    WakeArms(s, ready);
    SameHeapsSameWork(s, s');
    assert PollWork(s'.poll) == ROUND * |ready|;
    assert Queued(s') == Queued(s);
  }

  // ---------- the message thread ----------

  predicate Settled(s: State) {
    s.task.Idle? && s.taken == |s.sent|
  }

  /** Neither fds nor the poll thread change, and nothing is sent or taken or stopped. */
  predicate TaskInside(s: State, s': State) {
    && s'.taken == s.taken && s'.sent == s.sent && s'.clock == s.clock && s'.poll == s.poll
    && s'.sw.armed == s.sw.armed && s'.hw.armed == s.hw.armed
    && |s'.delegates| == |s.delegates|
    && (forall id :: 0 <= id < |s.delegates| ==> s'.delegates[id].contained == s.delegates[id].contained)
  }

  lemma InsideShrinks(s: State, s': State)
    requires s.taken <= |s.sent| && TaskInside(s, s')
    requires TaskWork(s') + ENTRY * InHeaps(s') < TaskWork(s) + ENTRY * InHeaps(s)
    ensures Effort(s') < Effort(s)
  {
    assert Running(s') == Running(s);
    assert Queued(s') == Queued(s);
    assert Arms(s') == Arms(s);
  }

  lemma TakeShrinks(s: State)
    requires s.task.Idle? && s.taken < |s.sent|
    ensures DoTask(s).taken <= |DoTask(s).sent| && Effort(DoTask(s)) < Effort(s)
  {
    TakeWork(s.sent, s.taken);
    assert Running(DoTask(s)) == Running(s);
    assert Arms(DoTask(s)) == Arms(s);
  }

  lemma AfterUpdateWork(s: State, u: Update, k: Kind, free: Option<nat>)
    ensures TaskWork(s.(task := AfterUpdate(u, k, free))) <= 2 + FreeWork(free) + DUE
    ensures !TopDue(s.Cont(k).heap, s.clock) ==> TaskWork(s.(task := AfterUpdate(u, k, free))) <= 2 + FreeWork(free)
  {
  }

  lemma PushShrinks(s: State, id: nat)
    requires s.taken <= |s.sent| && s.task == Got(MsgPush(id)) && id < |s.delegates|
    ensures Effort(ProcPush(s, id)) < Effort(s)
  {
    var s', k, h := ProcPush(s, id), s.delegates[id].kind, s.Cont(s.delegates[id].kind).heap;
    HT.PushAddsOne(TimerRank, h, (), Entry(s, id));
    assert InHeaps(s') == InHeaps(s) + 1;
    AfterUpdateWork(s', UpdateSoonest(Top(h), Top(s'.Cont(k).heap)), k, None);
    InsideShrinks(s, s');
  }

  lemma RemoveCounts(h: Heap, x: Timer)
    ensures HT.Count(HT.Remove(TimerRank, h, x)) <= HT.Count(h)
  {
    if HT.Finds(TimerRank, h, x) {
      HT.RemoveTakesOne(TimerRank, h, x);
    }
  }

  lemma RemoveShrinks(s: State, id: nat)
    requires s.taken <= |s.sent| && s.task == Got(MsgRemove(id)) && id < |s.delegates|
    ensures Effort(ProcRemove(s, id)) < Effort(s)
  {
    var s', k := ProcRemove(s, id), s.delegates[id].kind;
    RemoveCounts(s.Cont(k).heap, Entry(s, id));
    assert InHeaps(s') <= InHeaps(s);
    InsideShrinks(s, s');
  }

  lemma PopShrinks(s: State, b: Batch, past: History)
    requires s.taken <= |s.sent| && s.Cont(b.kind).heap.Node?
    requires (s.task == Got(MsgExpire(b.kind)) && b.now == s.clock) || s.task == More(b)
    ensures Effort(PopOne(s, b, past)) < Effort(s)
  {
    assert InHeaps(PopOne(s, b, past)) == InHeaps(s) - 1;
    InsideShrinks(s, PopOne(s, b, past));
  }

  lemma EndShrinks(s: State)
    requires s.taken <= |s.sent| && s.task.More? && !PopsAt(s.Cont(s.task.b.kind).heap, s.task.b.now)
    ensures Effort(DoTask(s)) < Effort(s)
  {
    var b, h := s.task.b, s.Cont(s.task.b.kind).heap;
    if h.Node? {
      PopsAtMeansDue(h, b.now);
    }
    AfterUpdateWork(s, UpdateSoonest(None, Top(h)), b.kind, None);
    InsideShrinks(s, DoTask(s));
  }

  lemma BatchShrinks(s: State, k: Kind)
    requires s.taken <= |s.sent| && InBatch(s, k)
    ensures Effort(DoTask(s)) < Effort(s)
  {
    var h := s.Cont(k).heap;
    if s.task.More? {
      if PopsAt(h, s.task.b.now) {
        PopShrinks(s, s.task.b, s.batch);
      } else {
        EndShrinks(s);
      }
    } else if h.Node? {
      PopShrinks(s, Batch(k, s.clock), History(h, []));
    } else {
      InsideShrinks(s, DoTask(s));
    }
  }

  lemma LoopShrinks(s: State)
    requires s.taken <= |s.sent| && (s.task.ReadClient? || s.task.Callback?)
    ensures Effort(DoTask(s)) < Effort(s)
  {
    InsideShrinks(s, DoTask(s));
  }

  lemma StopRuns(s: State, c: nat)
    requires Safe(s) && Stoppable(s, c)
    ensures |Running(DoStop(s, c))| == |Running(s)| - 1
    ensures DoStop(s, c).sent == s.sent + [MsgRemove(s.clients[c].timer.value)]
  {
    var id := s.clients[c].timer.value;
    assert ClientOk(s, c);
    assert id in Running(s);
    assert Running(DoStop(s, c)) == Running(s) - {id};
  }

  lemma StopMoveShrinks(s: State)
    requires Safe(s) && s.task.StopClient?
    ensures DoTask(s).taken <= |DoTask(s).sent| && Effort(DoTask(s)) < Effort(s)
  {
    var c, s' := s.task.c, DoTask(s);
    if Stoppable(s, c) {
      StopRuns(s, c);
      SentAppend(s, s', MsgRemove(s.clients[c].timer.value));
      assert Running(s') == Running(DoStop(s, c));
      assert Arms(s') == Arms(s) && InHeaps(s') == InHeaps(s);
    } else {
      InsideShrinks(s, s');
    }
  }

  /** Arming for a due top turns the work of the message thread into work of the poll thread. */
  lemma SetTimeArms(s: State)
    requires s.task.SetTime?
    ensures Arms(DoTask(s)) <= Arms(s) + RearmWork(s, s.task.kind)
  {
  }

  lemma FdMoveShrinks(s: State)
    requires s.taken <= |s.sent|
    requires s.task.AddPoll? || s.task.SetTime? || s.task.RemovePoll? || s.task.ClearTime?
    ensures DoTask(s).taken <= |DoTask(s).sent| && Effort(DoTask(s)) < Effort(s)
  {
    var s' := DoTask(s);
    assert Running(s') == Running(s);
    assert Queued(s') == Queued(s) && InHeaps(s') == InHeaps(s) && s'.poll == s.poll;
    if s.task.SetTime? {
      SetTimeArms(s);
    }
  }

  lemma FreeShrinks(s: State)
    requires Safe(s) && s.task.Free?
    ensures Effort(DoTask(s)) < Effort(s)
  {
    assert DelegateClient(s, s.task.id);
    InsideShrinks(s, DoTask(s));
  }

  lemma TaskShrinks(s: State)
    requires Safe(s) && !Settled(s)
    ensures DoTask(s).taken <= |DoTask(s).sent| && Effort(DoTask(s)) < Effort(s)
  {
    match s.task
    case Idle => TakeShrinks(s);
    case Got(MsgPush(id)) =>
      assert SentOk(s, s.taken - 1);
      PushShrinks(s, id);
    case Got(MsgRemove(id)) =>
      assert SentOk(s, s.taken - 1);
      RemoveShrinks(s, id);
    case Got(MsgExpire(k)) => BatchShrinks(s, k);
    case More(b) => BatchShrinks(s, b.kind);
    case ReadClient(_, _) => LoopShrinks(s);
    case Callback(_, _, _, _) => LoopShrinks(s);
    case StopClient(_, _, _) => StopMoveShrinks(s);
    case Free(_) => FreeShrinks(s);
    case _ => FdMoveShrinks(s);
  }

  // ---------- schedules end ----------

  lemma ShrinkingChanges(s: State, s': State)
    requires s.taken <= |s.sent| && s'.taken <= |s'.sent| && Effort(s') < Effort(s)
    ensures s' != s
  {
  }

  lemma SettledStays(s: State)
    requires Settled(s)
    ensures DoTask(s) == s
  {
  }

  lemma TaskSteps(s: State)
    requires Safe(s)
    ensures DoTask(s) != s <==> !Settled(s)
    ensures DoTask(s) != s ==> DoTask(s).taken <= |DoTask(s).sent| && Effort(DoTask(s)) < Effort(s)
  {
    if Settled(s) {
      SettledStays(s);
    } else {
      TaskShrinks(s);
      ShrinkingChanges(s, DoTask(s));
    }
  }

  lemma PollSteps(s: State)
    requires s.taken <= |s.sent|
    ensures DoPoll(s) != s <==> !s.poll.Waiting?
    ensures DoPoll(s) != s ==> DoPoll(s).taken <= |DoPoll(s).sent| && Effort(DoPoll(s)) < Effort(s)
  {
    if !s.poll.Waiting? {
      PollShrinks(s);
    }
  }

  lemma ServiceShrinks(s: State, a: Action)
    requires Safe(s) && Service(a) && Do(s, a) != s
    ensures Do(s, a).taken <= |Do(s, a).sent| && Effort(Do(s, a)) < Effort(s)
  {
    match a
    case Task => TaskSteps(s);
    case Poll => PollSteps(s);
    case Wake(ready) => WakeShrinks(s, ready);
  }

  lemma ServiceKeepsClock(s: State, a: Action)
    requires Service(a)
    ensures Do(s, a).clock == s.clock
  {
  }

  lemma MoveCounts(s: State, a: Action)
    requires Safe(s) && Service(a) && Do(s, a) != s
    ensures Safe(Do(s, a)) && Effort(Do(s, a)) < Effort(s) && Do(s, a).clock == s.clock
  {
    StepKeeps(s, a);
    ServiceShrinks(s, a);
    ServiceKeepsClock(s, a);
  }

  /** However the service threads take turns, they can make no more than Effort(s) moves. */
  lemma {:induction false} BusyIsShort(s: State, more: seq<Action>)
    requires Safe(s) && Busy(s, more)
    ensures Follow(s, more).clock == s.clock && |more| <= Effort(s)
    decreases |more|
  {
    if more != [] {
      MoveCounts(s, more[0]);
      BusyIsShort(Do(s, more[0]), more[1..]);
    }
  }

  /** And as long as they are not at rest, they can move. */
  lemma {:induction false} RestIsReached(s: State) returns (more: seq<Action>)
    requires Safe(s)
    ensures Busy(s, more) && AtRest(Follow(s, more))
    decreases Effort(s)
  {
    if AtRest(s) {
      more := [];
    } else {
      var a: Action :| Service(a) && Do(s, a) != s;
      MoveCounts(s, a);
      var rest := RestIsReached(Do(s, a));
      more := [a] + rest;
      assert more[1..] == rest;
    }
  }

  lemma MoveOver<T>(a: seq<T>, b: seq<T>)
    requires b != []
    ensures (a + [b[0]]) + b[1..] == a + b
  {
  }

  lemma {:induction false} RunFollows(acts: seq<Action>, s: State, more: seq<Action>)
    requires Run(acts) == s
    ensures Run(acts + more) == Follow(s, more)
    decreases |more|
  {
    if more == [] {
      assert acts + more == acts;
    } else {
      RunSnoc(acts, more[0]);
      MoveOver(acts, more);
      RunFollows(acts + [more[0]], Do(s, more[0]), more[1..]);
    }
  }

  // ---------- at rest nothing is due ----------

  lemma ServiceMoves(s: State)
    ensures Do(s, Task) == DoTask(s) && Do(s, Poll) == DoPoll(s)
  {
  }

  lemma SettledIfStill(s: State, t: State)
    requires Safe(s) && t == DoTask(s) && t == s
    ensures Settled(s)
  {
    if !Settled(s) {
      TaskShrinks(s);
      ShrinkingChanges(s, t);
      assert false;
    }
  }

  lemma RestIsSettled(s: State)
    requires Safe(s) && AtRest(s)
    ensures Settled(s) && s.poll.Waiting?
  {
    assert Service(Task) && Service(Poll);
    ServiceMoves(s);
    SettledIfStill(s, DoTask(s));
    PollSteps(s);
  }

  lemma RestHasNoneFired(s: State, k: Kind)
    requires AtRest(s) && s.poll.Waiting?
    ensures !Fired(s, k)
  {
    assert Service(Wake([k]));
    if Fired(s, k) {
      assert Ready(s, [k]);
      assert false;
    }
  }

  lemma RestHasNoneDue(s: State, k: Kind)
    requires Safe(s) && ArmOk(s, k) && AtRest(s)
    ensures forall x :: x in HT.Contents(s.Cont(k).heap) ==> !Due(x, s.clock)
  {
    RestIsSettled(s);
    RestHasNoneFired(s, k);
    assert !Awake(s, k);
    assert HeapOk(s, k);
    forall x | x in HT.Contents(s.Cont(k).heap) ensures !Due(x, s.clock) {
      TopIsEarliest(s.Cont(k).heap, x);
    }
  }

  /** At rest, every timer that is still running has its time ahead. */
  lemma RestHasExpiredAll(acts: seq<Action>, id: nat)
    requires AtRest(Run(acts)) && id < |Run(acts).delegates| && Run(acts).delegates[id].contained
    ensures Nanos(Run(acts).delegates[id].at) > Nanos(Run(acts).clock)
  {
    RunsAreSafe(acts);
    RunsAreArmed(acts);
    RunsKeepPresent(acts);
    RunningIsAhead(Run(acts), id);
  }

  lemma RunningIsAhead(s: State, id: nat)
    requires Safe(s) && ArmsOk(s) && AllPresent(s) && AtRest(s)
    requires id < |s.delegates| && s.delegates[id].contained
    ensures Nanos(s.delegates[id].at) > Nanos(s.clock)
  {
    var k := s.delegates[id].kind;
    RestIsSettled(s);
    assert DelegateMail(s, id) && Present(s, id);
    assert ArmOk(s, k);
    RestHasNoneDue(s, k);
    assert Entry(s, id) in HT.Contents(s.Cont(k).heap);
  }

  // ---------- the main results ----------

  /** Every timer that is still running has its time ahead. */
  predicate NoneRunningDue(s: State) {
    forall id :: 0 <= id < |s.delegates| && s.delegates[id].contained ==> Nanos(s.delegates[id].at) > Nanos(s.clock)
  }

  /**
   From every reachable state, every schedule of service moves is finite, whatever turns the two
   threads take; and if it goes on until neither can move, the message thread is idle, the queue is
   empty, the poll thread waits, and no running timer is due: each that was has been stopped.
   */
  lemma EveryScheduleExpires(acts: seq<Action>, more: seq<Action>)
    requires Busy(Run(acts), more)
    ensures Run(acts).taken <= |Run(acts).sent| && |more| <= Effort(Run(acts))
    ensures Run(acts + more).clock == Run(acts).clock
    ensures AtRest(Run(acts + more)) ==> var s := Run(acts + more);
      s.task.Idle? && s.taken == |s.sent| && s.poll.Waiting? && NoneRunningDue(s)
  {
    RunsAreSafe(acts);
    BusyIsShort(Run(acts), more);
    RunFollows(acts, Run(acts), more);
    if AtRest(Run(acts + more)) {
      RunsAreSafe(acts + more);
      RestIsSettled(Run(acts + more));
      forall id | 0 <= id < |Run(acts + more).delegates| && Run(acts + more).delegates[id].contained
        ensures Nanos(Run(acts + more).delegates[id].at) > Nanos(Run(acts + more).clock)
      {
        RestHasExpiredAll(acts + more, id);
      }
    }
  }

  /** Such a schedule exists from every reachable state, without any client or clock move. */
  lemma DueTimersGetExpired(acts: seq<Action>) returns (more: seq<Action>)
    ensures Busy(Run(acts), more) && AtRest(Run(acts + more)) && Run(acts + more).clock == Run(acts).clock
    ensures NoneRunningDue(Run(acts + more))
  {
    RunsAreSafe(acts);
    more := RestIsReached(Run(acts));
    RunFollows(acts, Run(acts), more);
    EveryScheduleExpires(acts, more);
  }
}

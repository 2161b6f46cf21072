/** No running timer is lost: until it is stopped, it is in its container's heap or in the message thread's hand. */
module TimerPresence {
  import opened Options
  import opened Ranking
  import opened Deadline
  import opened TimerModel
  import opened TimerInv
  import opened TimerSafety
  import HT = HeapTree

  // ---------- whose delegate the message thread has in hand ----------

  /** The client in hand is the owner of the delegate it was read from. */
  predicate HoldsOwner(s: State) {
    s.task.StopClient? ==> s.task.d.id < |s.delegates| && s.delegates[s.task.d.id].owner == s.task.c
  }

  lemma StepHoldsOwner(s: State, a: Action)
    requires ClientsOk(s) && (s.task.ReadClient? ==> s.task.d.id < |s.delegates|) && HoldsOwner(s)
    ensures HoldsOwner(Do(s, a))
  {
    if a.Task? && s.task.ReadClient? {
      assert DelegateClient(s, s.task.d.id);
    } else if a.Task? {
      assert !Do(s, a).task.StopClient?;
    } else {
      OthersKeepOwners(s, a);
    }
  }

  lemma {:induction false} RunsHoldOwner(acts: seq<Action>)
    ensures HoldsOwner(Run(acts))
  {
    if acts != [] {
      RunsHoldOwner(acts[..|acts| - 1]);
      RunsAreSafe(acts[..|acts| - 1]);
      StepHoldsOwner(Run(acts[..|acts| - 1]), acts[|acts| - 1]);
    }
  }

  lemma OthersKeepOwners(s: State, a: Action)
    requires !a.Task?
    ensures Do(s, a).task == s.task && |s.delegates| <= |Do(s, a).delegates|
    ensures forall id :: 0 <= id < |s.delegates| ==> Do(s, a).delegates[id].owner == s.delegates[id].owner
  {
  }

  // ---------- where a running timer is ----------

  /** The timer that has been popped and whose client has not been stopped yet. */
  function InHand(p: TaskPc): Option<Timer> {
    match p
    case ReadClient(_, d) => Some(d)
    case StopClient(_, d, _) => Some(d)
    case _ => None
  }

  /** Timer x is where the message thread will find it. */
  ghost predicate Placed(h: Heap, p: TaskPc, x: Timer) {
    x in HT.Contents(h) || InHand(p) == Some(x)
  }

  ghost predicate Present(s: State, id: nat)
    requires id < |s.delegates|
  {
    s.delegates[id].contained && s.delegates[id].pushAt < Handled(s)
    ==> Placed(s.Cont(s.delegates[id].kind).heap, s.task, Entry(s, id))
  }

  ghost predicate AllPresent(s: State) {
    forall id :: 0 <= id < |s.delegates| ==> Present(s, id)
  }

  // ---------- moves of clients, clock and poll thread ----------

  /** What the other threads do to a delegate: nothing, or stop it. */
  predicate SameEntry(d: Delegate, d': Delegate) {
    d'.kind == d.kind && d'.at == d.at && d'.pushAt == d.pushAt && (d'.contained ==> d.contained)
  }

  lemma OthersKeepEntries(s: State, a: Action)
    requires !a.Task?
    ensures |s.delegates| <= |Do(s, a).delegates|
    ensures forall id :: 0 <= id < |s.delegates| ==> SameEntry(s.delegates[id], Do(s, a).delegates[id])
    ensures forall id :: |s.delegates| <= id < |Do(s, a).delegates| ==> Do(s, a).delegates[id].pushAt == |s.sent|
  {
  }

  lemma OthersKeepHeaps(s: State, a: Action)
    requires !a.Task?
    ensures Do(s, a).task == s.task && Do(s, a).taken == s.taken
    ensures forall k :: Do(s, a).Cont(k).heap == s.Cont(k).heap
  {
  }

  lemma OthersKeepPresent(s: State, a: Action)
    requires s.taken <= |s.sent| && AllPresent(s) && !a.Task?
    ensures AllPresent(Do(s, a))
  {
    var s' := Do(s, a);
    OthersKeepEntries(s, a);
    OthersKeepHeaps(s, a);
    forall id | 0 <= id < |s'.delegates| ensures Present(s', id) {
      if id < |s.delegates| {
        assert Present(s, id) && SameEntry(s.delegates[id], s'.delegates[id]);
      }
    }
  }

  // ---------- moves of the message thread ----------

  /** Nothing changes but the task, and whoever was in hand still is, or is stopped. */
  lemma SameHeapsKeepPresent(s: State, s': State)
    requires AllPresent(s) && s'.delegates == s.delegates && Handled(s') == Handled(s)
    requires forall k :: s'.Cont(k).heap == s.Cont(k).heap
    requires InHand(s.task).Some? && InHand(s'.task) != InHand(s.task) ==>
      InHand(s.task).value.id < |s.delegates| && !s.delegates[InHand(s.task).value.id].contained
    ensures AllPresent(s')
  {
    forall id | 0 <= id < |s'.delegates| ensures Present(s', id) {
      assert Present(s, id);
    }
  }

  /** The message in hand is the push of a delegate that becomes handled now. */
  lemma NewlyHandled(s: State, id: nat)
    requires MailOk(s) && s.task.Got? && id < |s.delegates| && s.delegates[id].pushAt == Handled(s)
    ensures s.task.m == MsgPush(id)
  {
    assert DelegateMail(s, id);
  }

  ghost predicate KeepsOthers(h: Heap, h': Heap, x: Timer) {
    forall y :: y in HT.Contents(h) && y != x ==> y in HT.Contents(h')
  }

  lemma PushKeepsOthers(h: Heap, x: Timer)
    ensures KeepsOthers(h, HT.Push(TimerRank, h, (), x), x)
    ensures x in HT.Contents(HT.Push(TimerRank, h, (), x))
  {
    HT.PushAddsOne(TimerRank, h, (), x);
  }

  lemma RemoveKeepsOthers(h: Heap, x: Timer)
    requires HT.IsHeap(TimerRank, h) && HT.SizesOk(h)
    ensures KeepsOthers(h, HT.Remove(TimerRank, h, x), x)
  {
    RemovedContents(h, x);
  }

  lemma PopKeepsOthers(h: Heap)
    requires h.Node?
    ensures KeepsOthers(h, HT.Pop(TimerRank, h), h.data)
  {
    HT.PopRemovesTop(TimerRank, h);
  }

  /** The only timer that a handler moves is x, which is placed afterwards if it runs. */
  ghost predicate Moves(s: State, s': State, x: Timer) {
    && s'.delegates == s.delegates && s'.taken == s.taken && !s'.task.Got? && InHand(s.task).None?
    && (forall k :: KeepsOthers(s.Cont(k).heap, s'.Cont(k).heap, x))
  }

  lemma MovesKeepPresent(s: State, s': State, x: Timer)
    requires MailOk(s) && AllPresent(s) && Moves(s, s', x) && x.id < |s.delegates|
    requires s.task.Got? && s.task.m.MsgPush? ==> s.task.m.id == x.id
    requires s.delegates[x.id].contained ==> Placed(s'.Cont(s.delegates[x.id].kind).heap, s'.task, Entry(s, x.id))
    ensures AllPresent(s')
  {
    forall y | 0 <= y < |s'.delegates| ensures Present(s', y) {
      assert Present(s, y);
      if s.task.Got? && s.delegates[y].pushAt == Handled(s) {
        NewlyHandled(s, y);
      }
    }
  }

  /** Heap k becomes h', the other one stays. */
  lemma OneHeapMoves(s: State, s': State, k: Kind, x: Timer)
    requires s'.delegates == s.delegates && s'.taken == s.taken && !s'.task.Got? && InHand(s.task).None?
    requires KeepsOthers(s.Cont(k).heap, s'.Cont(k).heap, x)
    requires forall j :: j != k ==> s'.Cont(j).heap == s.Cont(j).heap
    ensures Moves(s, s', x)
  {
  }

  lemma PushMoves(s: State, id: nat)
    requires s.task == Got(MsgPush(id)) && id < |s.delegates|
    ensures Moves(s, ProcPush(s, id), Entry(s, id))
    ensures Entry(s, id) in HT.Contents(ProcPush(s, id).Cont(s.delegates[id].kind).heap)
  {
    var k := s.delegates[id].kind;
    PushKeepsOthers(s.Cont(k).heap, Entry(s, id));
    OneHeapMoves(s, ProcPush(s, id), k, Entry(s, id));
  }

  lemma PushPlaces(s: State, id: nat)
    requires Safe(s) && AllPresent(s) && s.task == Got(MsgPush(id)) && id < |s.delegates|
    ensures AllPresent(ProcPush(s, id))
  {
    PushMoves(s, id);
    MovesKeepPresent(s, ProcPush(s, id), Entry(s, id));
  }

  lemma RemoveMoves(s: State, id: nat)
    requires HeapsOk(s) && s.task == Got(MsgRemove(id)) && id < |s.delegates|
    ensures Moves(s, ProcRemove(s, id), Entry(s, id))
  {
    var k := s.delegates[id].kind;
    assert HeapOk(s, k);
    RemoveKeepsOthers(s.Cont(k).heap, Entry(s, id));
    OneHeapMoves(s, ProcRemove(s, id), k, Entry(s, id));
  }

  lemma RemoveKeepsPresent(s: State, id: nat)
    requires Safe(s) && AllPresent(s) && s.task == Got(MsgRemove(id)) && id < |s.delegates|
    ensures AllPresent(ProcRemove(s, id))
  {
    assert SentOk(s, s.taken - 1) && DelegateMail(s, id);
    RemoveMoves(s, id);
    MovesKeepPresent(s, ProcRemove(s, id), Entry(s, id));
  }

  lemma PopMoves(s: State, b: Batch, past: History)
    requires InBatch(s, b.kind) && s.Cont(b.kind).heap.Node?
    ensures Moves(s, PopOne(s, b, past), s.Cont(b.kind).heap.data)
    ensures PopOne(s, b, past).task == ReadClient(b, s.Cont(b.kind).heap.data)
  {
    var h := s.Cont(b.kind).heap;
    PopKeepsOthers(h);
    OneHeapMoves(s, PopOne(s, b, past), b.kind, h.data);
  }

  /** A popped timer is in hand; the others stay in the heap. */
  lemma PopKeepsPresent(s: State, b: Batch, past: History)
    requires Safe(s) && AllPresent(s) && InBatch(s, b.kind) && s.Cont(b.kind).heap.Node?
    ensures AllPresent(PopOne(s, b, past))
  {
    var x := s.Cont(b.kind).heap.data;
    assert x in HT.Contents(s.Cont(b.kind).heap);
    assert HeapOk(s, b.kind) && Resident(s, b.kind, x);
    PopMoves(s, b, past);
    MovesKeepPresent(s, PopOne(s, b, past), x);
  }

  lemma BatchEndKeepsPresent(s: State, k: Kind, pc: TaskPc)
    requires Safe(s) && AllPresent(s) && InBatch(s, k) && !pc.Got?
    ensures AllPresent(s.(task := pc))
  {
    var s' := s.(task := pc);
    forall y | 0 <= y < |s'.delegates| ensures Present(s', y) {
      assert Present(s, y);
      if s.delegates[y].pushAt == Handled(s) && s.task.Got? {
        NewlyHandled(s, y);
      }
    }
  }

  lemma BatchKeepsPresent(s: State, k: Kind)
    requires Safe(s) && AllPresent(s) && InBatch(s, k)
    ensures AllPresent(DoTask(s))
  {
    if PopsNow(s, k) {
      var b, past := BatchPopMove(s, k);
      PopKeepsPresent(s, b, past);
    } else {
      BatchEndMove(s, k);
      BatchEndKeepsPresent(s, k, DoTask(s).task);
    }
  }

  lemma ReadKeepsPresent(s: State)
    requires Safe(s) && AllPresent(s) && s.task.ReadClient?
    ensures AllPresent(DoTask(s))
  {
    assert DelegateClient(s, s.task.d.id);
    SameHeapsKeepPresent(s, DoTask(s));
  }

  /** The stop that follows stops the delegate in hand, or that one had been stopped before. */
  lemma StopKeepsPresent(s: State)
    requires Safe(s) && AllPresent(s) && HoldsOwner(s) && s.task.StopClient?
    ensures AllPresent(DoTask(s))
  {
    var c, d := s.task.c, s.task.d.id;
    assert DelegateClient(s, d);
    if Stoppable(s, c) {
      StoppedKeepsPresent(s, c, DoTask(s));
    } else {
      SameHeapsKeepPresent(s, DoTask(s));
    }
  }

  lemma StoppedKeepsPresent(s: State, c: nat, s': State)
    requires AllPresent(s) && Stoppable(s, c) && s.task.StopClient? && InHand(s'.task).None? && !s'.task.Got?
    requires s'.taken == s.taken && forall k :: s'.Cont(k).heap == s.Cont(k).heap
    requires s'.delegates == DoStop(s, c).delegates
    requires s.task.d.id < |s.delegates|
    requires s.delegates[s.task.d.id].contained ==> s.clients[c].timer == Some(s.task.d.id)
    ensures AllPresent(s')
  {
    forall id | 0 <= id < |s'.delegates| ensures Present(s', id) {
      assert Present(s, id);
      assert SameEntry(s.delegates[id], s'.delegates[id]);
    }
  }

  lemma TaskKeepsPresent(s: State)
    requires Safe(s) && HoldsOwner(s) && AllPresent(s)
    ensures AllPresent(DoTask(s))
  {
    match s.task
    case Got(MsgPush(id)) =>
      assert SentOk(s, s.taken - 1);
      PushPlaces(s, id);
    case Got(MsgRemove(id)) =>
      assert SentOk(s, s.taken - 1);
      RemoveKeepsPresent(s, id);
    case Got(MsgExpire(k)) => BatchKeepsPresent(s, k);
    case More(b) => BatchKeepsPresent(s, b.kind);
    case ReadClient(_, _) => ReadKeepsPresent(s);
    case StopClient(_, _, _) => StopKeepsPresent(s);
    case Free(id) => FreeKeepsPresent(s);
    case _ => SameHeapsKeepPresent(s, DoTask(s));
  }

  lemma FreeKeepsPresent(s: State)
    requires AllPresent(s) && s.task.Free?
    ensures AllPresent(DoTask(s))
  {
    var s' := DoTask(s);
    forall id | 0 <= id < |s'.delegates| ensures Present(s', id) {
      assert Present(s, id);
    }
  }

  // ---------- every run ----------

  lemma {:induction false} RunsKeepPresent(acts: seq<Action>)
    ensures AllPresent(Run(acts))
  {
    if acts != [] {
      var s, a := Run(acts[..|acts| - 1]), acts[|acts| - 1];
      RunsKeepPresent(acts[..|acts| - 1]);
      RunsAreSafe(acts[..|acts| - 1]);
      RunsHoldOwner(acts[..|acts| - 1]);
      if a.Task? {
        TaskKeepsPresent(s);
      } else {
        OthersKeepPresent(s, a);
      }
    }
  }

  /**
   In every run, a delegate that has been pushed and not been stopped is in its container's heap,
   or it has been popped and its client is about to be stopped.
   */
  lemma NoTimerIsLost(acts: seq<Action>, id: nat)
    requires id < |Run(acts).delegates|
    requires var s := Run(acts); s.delegates[id].contained && s.delegates[id].pushAt < Handled(s)
    ensures var s := Run(acts);
      || Entry(s, id) in HT.Contents(s.Cont(s.delegates[id].kind).heap)
      || ((s.task.ReadClient? || s.task.StopClient?) && s.task.d == Entry(s, id))
  {
    RunsKeepPresent(acts);
    assert Present(Run(acts), id);
  }
}

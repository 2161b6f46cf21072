/** Delegate lifetime: messages, client pointers, deletions, heaps and lock counts in every run. */
module TimerSafety {
  import opened Options
  import opened Ranking
  import opened Deadline
  import opened TimerModel
  import opened TimerInv
  import HT = HeapTree

  ghost predicate Safe(s: State) {
    MailOk(s) && ClientsOk(s) && FreesOk(s) && HeapsOk(s) && LocksOk(s)
  }

  // ---------- start ----------

  lemma StartMail(s: State, c: nat, ms: Millis, k: Kind)
    requires Startable(s, c) && Safe(s)
    ensures MailOk(DoStart(s, c, ms, k)) && ClientsOk(DoStart(s, c, ms, k))
    ensures FreesOk(DoStart(s, c, ms, k))
  {
    var s' := DoStart(s, c, ms, k);
    forall id | 0 <= id < |s'.delegates| ensures DelegateMail(s', id) && DelegateClient(s', id) {
      if id < |s.delegates| {
        assert DelegateMail(s, id) && DelegateClient(s, id);
      }
    }
    forall i | 0 <= i < |s'.sent| ensures SentOk(s', i) {
      if i < |s.sent| {
        assert SentOk(s, i);
      }
    }
    forall x | 0 <= x < |s'.clients| ensures ClientOk(s', x) {
      assert ClientOk(s, x);
    }
  }

  lemma StartHeaps(s: State, c: nat, ms: Millis, k: Kind)
    requires Startable(s, c) && HeapsOk(s)
    ensures HeapsOk(DoStart(s, c, ms, k))
  {
    SameHeaps(s, DoStart(s, c, ms, k));
  }

  lemma StartLocks(s: State, c: nat, ms: Millis, k: Kind)
    requires Startable(s, c) && Safe(s)
    ensures LocksOk(DoStart(s, c, ms, k))
  {
    var s' := DoStart(s, c, ms, k);
    forall x | 0 <= x < |s'.clients| ensures LockOk(s', x) {
      assert LockOk(s, x);
      assert Live(s', x) == if x == c then Live(s, x) + {|s.delegates|} else Live(s, x);
    }
  }

  // ---------- stop ----------

  lemma StopMail(s: State, c: nat)
    requires Stoppable(s, c) && Safe(s)
    ensures MailOk(DoStop(s, c)) && ClientsOk(DoStop(s, c)) && FreesOk(DoStop(s, c))
  {
    var s' := DoStop(s, c);
    assert ClientOk(s, c);
    assert DelegateMail(s, s.clients[c].timer.value);
    forall id | 0 <= id < |s'.delegates| ensures DelegateMail(s', id) && DelegateClient(s', id) {
      assert DelegateMail(s, id) && DelegateClient(s, id);
    }
    forall i | 0 <= i < |s'.sent| ensures SentOk(s', i) {
      if i < |s.sent| {
        assert SentOk(s, i);
      }
    }
    forall x | 0 <= x < |s'.clients| ensures ClientOk(s', x) {
      assert ClientOk(s, x);
    }
  }

  lemma StopHeaps(s: State, c: nat)
    requires Stoppable(s, c) && Safe(s)
    ensures HeapsOk(DoStop(s, c))
  {
    forall k, x | Resident(s, k, x) ensures Resident(DoStop(s, c), k, x) {
      StopResident(s, c, k, x);
    }
    SameHeaps(s, DoStop(s, c));
  }

  lemma StopResident(s: State, c: nat, k: Kind, x: Timer)
    requires Stoppable(s, c) && Safe(s) && Resident(s, k, x)
    ensures Resident(DoStop(s, c), k, x)
  {
    assert DelegateMail(s, x.id);
  }

  /** A step that touches no heap and makes no resident a stranger keeps the heaps in order. */
  lemma SameHeaps(s: State, s': State)
    requires HeapsOk(s)
    requires s'.sw.heap == s.sw.heap && s'.hw.heap == s.hw.heap
    requires s'.task.ReadClient? ==> s'.task == s.task
    requires forall k, x :: Resident(s, k, x) ==> Resident(s', k, x)
    ensures HeapsOk(s')
  {
  }

  lemma StopLocks(s: State, c: nat)
    requires Stoppable(s, c) && Safe(s)
    ensures LocksOk(DoStop(s, c))
  {
    var s' := DoStop(s, c);
    forall x | 0 <= x < |s'.clients| ensures LockOk(s', x) {
      assert LockOk(s, x);
      assert Live(s', x) == Live(s, x);
    }
  }

  // ---------- the remaining client moves ----------

  lemma NewTimerKeeps(s: State)
    requires Safe(s)
    ensures Safe(DoNewTimer(s))
  {
    var s' := DoNewTimer(s);
    forall id | 0 <= id < |s'.delegates| ensures DelegateMail(s', id) && DelegateClient(s', id) {
      assert DelegateMail(s, id) && DelegateClient(s, id);
    }
    forall i | 0 <= i < |s'.sent| ensures SentOk(s', i) {
      assert SentOk(s, i);
    }
    SameHeaps(s, s');
    forall x | 0 <= x < |s'.clients| ensures ClientOk(s', x) && LockOk(s', x) {
      if x < |s.clients| {
        assert ClientOk(s, x) && LockOk(s, x);
        assert Live(s', x) == Live(s, x);
      } else {
        forall id | 0 <= id < |s.delegates| ensures s.delegates[id].owner != x {
          assert DelegateClient(s, id);
        }
        assert Live(s', x) == {};
      }
    }
  }

  /** The last part of the destructor: the owner's own reference to the lock goes. */
  function Retire(s: State, c: nat): State
    requires c < |s.clients|
  {
    s.(clients := s.clients[c := s.clients[c].(alive := false, lock := s.clients[c].lock.Drop())])
  }

  lemma RetireKeeps(s: State, c: nat)
    requires Safe(s) && c < |s.clients| && s.clients[c].alive && s.clients[c].timer.None?
    requires HeldClient(s) != Some(c)
    ensures Safe(Retire(s, c))
  {
    var s' := Retire(s, c);
    forall id | 0 <= id < |s'.delegates| ensures DelegateMail(s', id) && DelegateClient(s', id) {
      assert DelegateMail(s, id) && DelegateClient(s, id);
    }
    forall i | 0 <= i < |s'.sent| ensures SentOk(s', i) {
      assert SentOk(s, i);
    }
    SameHeaps(s, s');
    forall x | 0 <= x < |s'.clients| ensures ClientOk(s', x) && LockOk(s', x) {
      assert ClientOk(s, x) && LockOk(s, x);
      assert Live(s', x) == Live(s, x);
    }
  }

  lemma DestroyKeeps(s: State, c: nat)
    requires Safe(s) && c < |s.clients| && s.clients[c].alive && HeldClient(s) != Some(c)
    ensures Safe(DoDestroy(s, c))
  {
    assert ClientOk(s, c);
    if Stoppable(s, c) {
      StopKeeps(s, c);
      RetireKeeps(DoStop(s, c), c);
    } else {
      RetireKeeps(s, c);
    }
  }

  lemma StartKeeps(s: State, c: nat, ms: Millis, k: Kind)
    requires Startable(s, c) && Safe(s)
    ensures Safe(DoStart(s, c, ms, k))
  {
    StartMail(s, c, ms, k);
    StartHeaps(s, c, ms, k);
    StartLocks(s, c, ms, k);
  }

  lemma StopKeeps(s: State, c: nat)
    requires Stoppable(s, c) && Safe(s)
    ensures Safe(DoStop(s, c))
  {
    StopMail(s, c);
    StopHeaps(s, c);
    StopLocks(s, c);
  }

  // ---------- poll thread, clock ----------

  /** A step that leaves timers, delegates and heaps alone; it may send expire messages. */
  predicate Quiet(s: State, s': State) {
    && s'.clients == s.clients && s'.delegates == s.delegates
    && s'.sw.heap == s.sw.heap && s'.hw.heap == s.hw.heap
    && s'.task == s.task && s'.taken == s.taken
    && s.sent <= s'.sent && (forall i :: |s.sent| <= i < |s'.sent| ==> s'.sent[i].MsgExpire?)
  }

  lemma QuietKeeps(s: State, s': State)
    requires Safe(s) && Quiet(s, s')
    ensures Safe(s')
  {
    forall id | 0 <= id < |s'.delegates| ensures DelegateMail(s', id) && DelegateClient(s', id) {
      assert DelegateMail(s, id) && DelegateClient(s, id);
    }
    forall i | 0 <= i < |s'.sent| ensures SentOk(s', i) {
      if i < |s.sent| {
        assert SentOk(s, i);
      }
    }
    SameHeaps(s, s');
    forall x | 0 <= x < |s'.clients| ensures ClientOk(s', x) && LockOk(s', x) {
      assert ClientOk(s, x) && LockOk(s, x);
      assert Live(s', x) == Live(s, x);
    }
  }

  lemma PollIsQuiet(s: State)
    ensures Quiet(s, DoPoll(s))
  {
  }

  // ---------- message thread: moves that leave messages, delegates and heaps alone ----------

  predicate TaskOnly(s: State, s': State) {
    && s'.clients == s.clients && s'.delegates == s.delegates && s'.sent == s.sent
    && s'.sw.heap == s.sw.heap && s'.hw.heap == s.hw.heap
    && Handled(s') == Handled(s) && s'.taken <= |s'.sent|
    && (Removing(s).Some? ==> s'.taken == s.taken)
    && (s'.task.Got? ==> 0 < s'.taken && s'.sent[s'.taken - 1] == s'.task.m)
    && Removing(s') == Removing(s)
    && !s'.task.ReadClient?
    && (HeldClient(s').Some? ==>
          HeldClient(s').value < |s.clients| && s.clients[HeldClient(s').value].alive)
  }

  lemma TaskOnlyKeeps(s: State, s': State)
    requires Safe(s) && TaskOnly(s, s')
    ensures Safe(s')
  {
    forall id | 0 <= id < |s'.delegates| ensures DelegateMail(s', id) && DelegateClient(s', id) {
      assert DelegateMail(s, id) && DelegateClient(s, id);
    }
    forall i | 0 <= i < |s'.sent| ensures SentOk(s', i) {
      assert SentOk(s, i);
    }
    SameHeaps(s, s');
    forall x | 0 <= x < |s'.clients| ensures ClientOk(s', x) && LockOk(s', x) {
      assert ClientOk(s, x) && LockOk(s, x);
      assert Live(s', x) == Live(s, x);
    }
  }

  predicate LightPc(p: TaskPc) {
    p.Idle? || p.AddPoll? || p.SetTime? || p.RemovePoll? || p.ClearTime? || p.ReadClient? || p.Callback?
  }

  lemma LightStepKeeps(s: State)
    requires Safe(s) && LightPc(s.task)
    ensures Safe(DoTask(s))
  {
    if s.task.ReadClient? {
      assert DelegateClient(s, s.task.d.id);
      if s.delegates[s.task.d.id].contained {
        assert ClientOk(s, s.delegates[s.task.d.id].owner);
      }
    }
    TaskOnlyKeeps(s, DoTask(s));
  }

  lemma StopStepKeeps(s: State)
    requires Safe(s) && s.task.StopClient?
    ensures Safe(DoTask(s))
  {
    var c := s.task.c;
    if Stoppable(s, c) {
      StopKeeps(s, c);
      TaskOnlyKeeps(DoStop(s, c), DoTask(s));
    } else {
      TaskOnlyKeeps(s, DoTask(s));
    }
  }

  // ---------- message thread: moves that change a heap ----------

  /**
   The handling of one message (or part of it): heap k becomes h, and the count of
   handled messages may grow. Everything about messages and clients follows.
   */
  predicate HeapMove(s: State, s': State, k: Kind, h: Heap) {
    && s' == s.WithCont(k, s.Cont(k).(heap := h)).(task := s'.task, batch := s'.batch)
    && !s'.task.Got? && HeldClient(s').None?
  }

  lemma HeapMoveKeeps(s: State, s': State, k: Kind, h: Heap)
    requires Safe(s) && HeapMove(s, s', k, h)
    requires FreesOk(s') && HeapsOk(s')
    ensures Safe(s')
  {
    forall id | 0 <= id < |s'.delegates| ensures DelegateMail(s', id) && DelegateClient(s', id) {
      assert DelegateMail(s, id) && DelegateClient(s, id);
    }
    forall i | 0 <= i < |s'.sent| ensures SentOk(s', i) {
      assert SentOk(s, i);
    }
    forall x | 0 <= x < |s'.clients| ensures ClientOk(s', x) && LockOk(s', x) {
      assert ClientOk(s, x) && LockOk(s, x);
      assert Live(s', x) == Live(s, x);
    }
  }

  /** A resident stays one unless the message just handled is its removal. */
  lemma HandledResident(s: State, s': State, k: Kind, x: Timer)
    requires MailOk(s) && s.task.Got? && Resident(s, k, x) && s.task.m != MsgRemove(x.id)
    requires s'.delegates == s.delegates && s'.taken == s.taken && !s'.task.Got?
    ensures Resident(s', k, x)
  {
    assert DelegateMail(s, x.id);
  }

  /** Heap k after gaining x, given that x was no resident before. */
  lemma GrownHeapOk(s: State, s': State, k: Kind, x: Timer)
    requires HeapOk(s, k) && !Resident(s, k, x) && Resident(s', k, x)
    requires s'.Cont(k).heap == HT.Push(TimerRank, s.Cont(k).heap, (), x)
    requires forall y :: Resident(s, k, y) ==> Resident(s', k, y)
    ensures HeapOk(s', k)
  {
    var h := s.Cont(k).heap;
    TimerRankIsWeakOrder();
    HT.PushKeepsHeap(TimerRank, h, (), x);
    HT.PushKeepsSizes(TimerRank, h, (), x);
    HT.PushAddsOne(TimerRank, h, (), x);
    var before, after := HT.Contents(h), HT.Contents(s'.Cont(k).heap);
    assert x !in before;
    forall y | y in after ensures Resident(s', k, y) && after[y] == 1 {
      assert y == x || y in before;
    }
  }

  /** Heap k after losing x: what stays is still resident. */
  lemma ShrunkHeapOk(s: State, s': State, k: Kind, x: Timer)
    requires HeapOk(s, k)
    requires HT.IsHeap(TimerRank, s'.Cont(k).heap) && HT.SizesOk(s'.Cont(k).heap)
    requires HT.Contents(s'.Cont(k).heap) == HT.Contents(s.Cont(k).heap) - multiset{x}
    requires x.id < |s.delegates| && s.delegates[x.id].at == x.at
    requires forall y :: Resident(s, k, y) && y.id != x.id ==> Resident(s', k, y)
    ensures HeapOk(s', k)
  {
    var before, after := HT.Contents(s.Cont(k).heap), HT.Contents(s'.Cont(k).heap);
    forall y | y in after ensures Resident(s', k, y) && after[y] == 1 {
      assert y in before && before[y] == 1;
    }
  }

  lemma PushedHeaps(s: State, s': State, id: nat, k: Kind)
    requires Safe(s) && s.task == Got(MsgPush(id)) && id < |s.delegates| && s.delegates[id].kind == k
    requires s'.delegates == s.delegates && s'.taken == s.taken && !s'.task.Got? && !s'.task.ReadClient?
    requires s'.Cont(k).heap == HT.Push(TimerRank, s.Cont(k).heap, (), Entry(s, id))
    requires forall j :: j != k ==> s'.Cont(j).heap == s.Cont(j).heap
    ensures HeapsOk(s')
  {
    assert SentOk(s, s.taken - 1);
    assert DelegateMail(s, id);
    forall j, y | Resident(s, j, y) ensures Resident(s', j, y) {
      HandledResident(s, s', j, y);
    }
    GrownHeapOk(s, s', k, Entry(s, id));
    KeptHeapOk(s, s', if k.Sw? then Hw else Sw);
  }

  lemma PushHeaps(s: State, id: nat)
    requires Safe(s) && s.task == Got(MsgPush(id)) && id < |s.delegates|
    ensures HeapsOk(ProcPush(s, id))
  {
    PushedHeaps(s, ProcPush(s, id), id, s.delegates[id].kind);
  }

  lemma KeptHeapOk(s: State, s': State, j: Kind)
    requires HeapOk(s, j) && s'.Cont(j).heap == s.Cont(j).heap
    requires forall y :: Resident(s, j, y) ==> Resident(s', j, y)
    ensures HeapOk(s', j)
  {
  }

  lemma PushStepKeeps(s: State, id: nat)
    requires Safe(s) && s.task == Got(MsgPush(id))
    ensures id < |s.delegates| && Safe(ProcPush(s, id))
  {
    assert SentOk(s, s.taken - 1);
    PushHeaps(s, id);
    PushFrees(s, id);
    HeapMoveKeeps(s, ProcPush(s, id), s.delegates[id].kind, ProcPush(s, id).Cont(s.delegates[id].kind).heap);
  }

  lemma PushFrees(s: State, id: nat)
    requires MailOk(s) && FreesOk(s) && s.task == Got(MsgPush(id)) && id < |s.delegates|
    ensures FreesOk(ProcPush(s, id))
  {
    var s' := ProcPush(s, id);
    forall y | 0 <= y < |s.delegates| ensures RemoveHandled(s', y) == RemoveHandled(s, y) {
      assert DelegateMail(s, y);
    }
    assert Removing(s').None?;
  }

  lemma RemoveHeaps(s: State, id: nat)
    requires Safe(s) && s.task == Got(MsgRemove(id)) && id < |s.delegates|
    ensures HeapsOk(ProcRemove(s, id))
  {
    var s', k, x := ProcRemove(s, id), s.delegates[id].kind, Entry(s, id);
    forall j, y | Resident(s, j, y) && y.id != id ensures Resident(s', j, y) {
      HandledResident(s, s', j, y);
    }
    assert s'.Cont(k).heap == HT.Remove(TimerRank, s.Cont(k).heap, x);
    RemovedHeapOk(s, s', k, x);
    OtherHeapOk(s, s', if k.Sw? then Hw else Sw, id);
  }

  lemma RemovedHeapOk(s: State, s': State, k: Kind, x: Timer)
    requires HeapOk(s, k)
    requires s'.Cont(k).heap == HT.Remove(TimerRank, s.Cont(k).heap, x)
    requires x.id < |s.delegates| && s.delegates[x.id].at == x.at
    requires forall y :: Resident(s, k, y) && y.id != x.id ==> Resident(s', k, y)
    ensures HeapOk(s', k)
  {
    RemovedContents(s.Cont(k).heap, x);
    ShrunkHeapOk(s, s', k, x);
  }

  lemma RemovedContents(h: Heap, x: Timer)
    requires HT.IsHeap(TimerRank, h) && HT.SizesOk(h)
    ensures HT.IsHeap(TimerRank, HT.Remove(TimerRank, h, x)) && HT.SizesOk(HT.Remove(TimerRank, h, x))
    ensures HT.Contents(HT.Remove(TimerRank, h, x)) == HT.Contents(h) - multiset{x}
  {
    TimerRankIsWeakOrder();
    HT.RemoveIsComplete(TimerRank, h, x);
  }

  /** The heap that id does not belong to. */
  lemma OtherHeapOk(s: State, s': State, j: Kind, id: nat)
    requires HeapOk(s, j) && id < |s.delegates| && s.delegates[id].kind != j
    requires s'.Cont(j).heap == s.Cont(j).heap
    requires forall y :: Resident(s, j, y) && y.id != id ==> Resident(s', j, y)
    ensures HeapOk(s', j)
  {
  }

  /** Once a remove message has been handled, it is its delegate's deletion that is under way. */
  lemma RemoveHandledBy(s: State, s': State, id: nat, y: nat)
    requires MailOk(s) && FreesOk(s) && s.task == Got(MsgRemove(id)) && y < |s.delegates|
    requires s'.delegates == s.delegates && s'.taken == s.taken && !s'.task.Got?
    ensures s.delegates[y].frees == if RemoveHandled(s', y) && y != id then 1 else 0
  {
    assert Removing(s).None?;
    assert SentOk(s, s.taken - 1) && DelegateMail(s, y);
  }

  lemma RemoveFrees(s: State, id: nat)
    requires MailOk(s) && FreesOk(s) && s.task == Got(MsgRemove(id)) && id < |s.delegates|
    ensures FreesOk(ProcRemove(s, id))
  {
    var s' := ProcRemove(s, id);
    assert SentOk(s, s.taken - 1);
    assert Removing(s') == Some(id);
    forall y | 0 <= y < |s.delegates|
      ensures s'.delegates[y].frees == if RemoveHandled(s', y) && y != id then 1 else 0
    {
      RemoveHandledBy(s, s', id, y);
    }
  }

  lemma RemoveStepKeeps(s: State, id: nat)
    requires Safe(s) && s.task == Got(MsgRemove(id))
    ensures id < |s.delegates| && Safe(ProcRemove(s, id))
  {
    assert SentOk(s, s.taken - 1);
    RemoveHeaps(s, id);
    RemoveFrees(s, id);
    HeapMoveKeeps(s, ProcRemove(s, id), s.delegates[id].kind, ProcRemove(s, id).Cont(s.delegates[id].kind).heap);
  }

  // ---------- message thread: the expire batch ----------

  /** Having the expire message in hand, or being in the loop, counts alike. */
  predicate InBatch(s: State, k: Kind) {
    (s.task == Got(MsgExpire(k))) || (s.task.More? && s.task.b.kind == k)
  }

  lemma BatchResident(s: State, s': State, k: Kind, j: Kind, x: Timer)
    requires Safe(s) && InBatch(s, k) && Resident(s, j, x)
    requires s'.delegates == s.delegates && s'.taken == s.taken && !s'.task.Got?
    ensures Resident(s', j, x)
  {
    assert DelegateMail(s, x.id);
  }

  lemma BatchFrees(s: State, s': State, k: Kind)
    requires Safe(s) && InBatch(s, k)
    requires s'.delegates == s.delegates && s'.taken == s.taken && !s'.task.Got? && Removing(s').None?
    ensures FreesOk(s')
  {
    forall y | 0 <= y < |s.delegates| ensures RemoveHandled(s', y) == RemoveHandled(s, y) {
      assert DelegateMail(s, y);
    }
  }

  lemma PopOneHeaps(s: State, b: Batch, past: History)
    requires Safe(s) && InBatch(s, b.kind) && s.Cont(b.kind).heap.Node?
    ensures HeapsOk(PopOne(s, b, past))
  {
    var s', k := PopOne(s, b, past), b.kind;
    var h := s.Cont(k).heap;
    TimerRankIsWeakOrder();
    HT.PopKeepsHeap(TimerRank, h);
    HT.PopKeepsSizes(TimerRank, h);
    HT.PopRemovesTop(TimerRank, h);
    forall j, y | Resident(s, j, y) ensures Resident(s', j, y) {
      BatchResident(s, s', k, j, y);
    }
    HT.OneLess(HT.Contents(h), HT.Contents(HT.Pop(TimerRank, h)), h.data);
    ShrunkHeapOk(s, s', k, h.data);
    assert s'.Cont(if k.Sw? then Hw else Sw) == s.Cont(if k.Sw? then Hw else Sw);
  }

  lemma PopOneKeeps(s: State, b: Batch, past: History)
    requires Safe(s) && InBatch(s, b.kind) && s.Cont(b.kind).heap.Node?
    ensures Safe(PopOne(s, b, past))
  {
    PopOneHeaps(s, b, past);
    BatchFrees(s, PopOne(s, b, past), b.kind);
    HeapMoveKeeps(s, PopOne(s, b, past), b.kind, PopOne(s, b, past).Cont(b.kind).heap);
  }

  lemma BatchEndKeeps(s: State, k: Kind, pc: TaskPc)
    requires Safe(s) && InBatch(s, k)
    requires pc == Idle || pc == AddPoll(k, None) || pc == RemovePoll(k, None)
    ensures Safe(s.(task := pc))
  {
    var s' := s.(task := pc);
    forall j, y | Resident(s, j, y) ensures Resident(s', j, y) {
      BatchResident(s, s', k, j, y);
    }
    SameHeaps(s, s');
    BatchFrees(s, s', k);
    HeapMoveKeeps(s, s', k, s.Cont(k).heap);
  }

  /** The loop of a batch, or its start, pops once more. */
  predicate PopsNow(s: State, k: Kind)
    requires InBatch(s, k)
  {
    if s.task.More? then PopsAt(s.Cont(k).heap, s.task.b.now) else s.Cont(k).heap.Node?
  }

  lemma BatchPopMove(s: State, k: Kind) returns (b: Batch, past: History)
    requires InBatch(s, k) && PopsNow(s, k)
    ensures b.kind == k && s.Cont(k).heap.Node? && DoTask(s) == PopOne(s, b, past)
  {
    if s.task.More? {
      b, past := s.task.b, s.batch;
    } else {
      b, past := Batch(k, s.clock), History(s.Cont(k).heap, []);
    }
  }

  lemma BatchEndMove(s: State, k: Kind)
    requires InBatch(s, k) && !PopsNow(s, k)
    ensures var pc := DoTask(s).task;
      && DoTask(s) == s.(task := pc)
      && (pc == Idle || pc == AddPoll(k, None) || pc == RemovePoll(k, None))
  {
  }

  lemma BatchStepKeeps(s: State, k: Kind)
    requires Safe(s) && InBatch(s, k)
    ensures Safe(DoTask(s))
  {
    if PopsNow(s, k) {
      var b, past := BatchPopMove(s, k);
      PopOneKeeps(s, b, past);
    } else {
      BatchEndMove(s, k);
      BatchEndKeeps(s, k, DoTask(s).task);
    }
  }

  // ---------- message thread: deletion ----------

  lemma FreeLocks(s: State)
    requires Safe(s) && s.task.Free?
    ensures LocksOk(DoTask(s))
  {
    var s', id := DoTask(s), s.task.id;
    assert DelegateClient(s, id);
    var c := s.delegates[id].owner;
    forall x | 0 <= x < |s'.clients| ensures LockOk(s', x) {
      assert LockOk(s, x);
      assert id in Live(s, c);
      assert Live(s', x) == if x == c then Live(s, x) - {id} else Live(s, x);
    }
  }

  lemma FreeMail(s: State)
    requires Safe(s) && s.task.Free?
    ensures MailOk(DoTask(s)) && ClientsOk(DoTask(s))
  {
    var s', id := DoTask(s), s.task.id;
    assert DelegateClient(s, id);
    forall y | 0 <= y < |s'.delegates| ensures DelegateMail(s', y) && DelegateClient(s', y) {
      assert DelegateMail(s, y) && DelegateClient(s, y);
    }
    forall i | 0 <= i < |s'.sent| ensures SentOk(s', i) {
      assert SentOk(s, i);
    }
    forall x | 0 <= x < |s'.clients| ensures ClientOk(s', x) {
      assert ClientOk(s, x);
    }
  }

  lemma FreeStepKeeps(s: State)
    requires Safe(s) && s.task.Free?
    ensures Safe(DoTask(s))
  {
    assert DelegateClient(s, s.task.id);
    FreeMail(s);
    FreeLocks(s);
    SameHeaps(s, DoTask(s));
  }

  // ---------- every step, every run ----------

  lemma TaskKeeps(s: State)
    requires Safe(s)
    ensures Safe(DoTask(s))
  {
    match s.task
    case Got(MsgPush(id)) => PushStepKeeps(s, id);
    case Got(MsgRemove(id)) => RemoveStepKeeps(s, id);
    case Got(MsgExpire(k)) => BatchStepKeeps(s, k);
    case More(b) => BatchStepKeeps(s, b.kind);
    case StopClient(_, _, _) => StopStepKeeps(s);
    case Free(_) => FreeStepKeeps(s);
    case _ => LightStepKeeps(s);
  }

  lemma StepKeeps(s: State, a: Action)
    requires Safe(s)
    ensures Safe(Do(s, a))
  {
    if Do(s, a) != s {
      match a
      case Advance(_) => QuietKeeps(s, Do(s, a));
      case NewTimer => NewTimerKeeps(s);
      case Start(c, ms, k) => StartKeeps(s, c, ms, k);
      case Stop(c) => StopKeeps(s, c);
      case Destroy(c) => DestroyKeeps(s, c);
      case Wake(_) => QuietKeeps(s, Do(s, a));
      case Poll =>
        PollIsQuiet(s);
        QuietKeeps(s, Do(s, a));
      case Task => TaskKeeps(s);
    }
  }

  lemma {:induction false} RunsAreSafe(acts: seq<Action>)
    ensures Safe(Run(acts))
  {
    if acts != [] {
      RunsAreSafe(acts[..|acts| - 1]);
      StepKeeps(Run(acts[..|acts| - 1]), acts[|acts| - 1]);
    }
  }
}

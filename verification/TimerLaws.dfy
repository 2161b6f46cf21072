/** What each move of the timer service is for, said in terms of times, clients and messages. */
module TimerLaws {
  import opened Options
  import opened Ranking
  import opened Deadline
  import opened TimerModel
  import opened TimerInv
  import opened TimerSafety
  import opened TimerPresence
  import opened TimerBatch
  import HT = HeapTree

  // ---------- start and stop ----------

  /** Everybody but client c, and every delegate but id, is as before. */
  predicate OthersSame(s: State, s': State, c: nat, id: nat) {
    && |s.clients| <= |s'.clients| && |s.delegates| <= |s'.delegates|
    && (forall x :: 0 <= x < |s.clients| && x != c ==> s'.clients[x] == s.clients[x])
    && (forall y :: 0 <= y < |s.delegates| && y != id ==> s'.delegates[y] == s.delegates[y])
  }

  /** Neither the message thread nor the poll thread nor a container is touched. */
  predicate ThreadsSame(s: State, s': State) {
    && s'.clock == s.clock && s'.taken == s.taken && s'.sw == s.sw && s'.hw == s.hw
    && s'.task == s.task && s'.poll == s.poll
  }

  /**
   A start makes one new delegate, for the container that was asked for, due after the delay that
   was asked for; its push message is the last one sent, and nobody else notices.
   */
  lemma StartMakesTimer(acts: seq<Action>, c: nat, ms: Millis, kind: Kind)
    requires Startable(Run(acts), c)
    ensures var s, s' := Run(acts), Run(acts + [Start(c, ms, kind)]); var id := |s.delegates|;
      && |s'.delegates| == id + 1 && |s'.clients| == |s.clients|
      && s'.delegates[id].kind == kind && s'.delegates[id].owner == c
      && s'.delegates[id].client == Some(c) && s'.delegates[id].contained
      && Nanos(s'.delegates[id].at) == Nanos(s.clock) + ms * 1_000_000
      && s'.sent == s.sent + [MsgPush(id)] && s'.clients[c].timer == Some(id) && s'.clients[c].alive
      && OthersSame(s, s', c, id) && ThreadsSame(s, s')
  {
    RunSnoc(acts, Start(c, ms, kind));
    FutureIsInstant(Run(acts).clock, ms);
  }

  /** A client that is dead, or has a timer, cannot start one. */
  lemma StartRefused(s: State, c: nat, ms: Millis, kind: Kind)
    requires c < |s.clients| && (!s.clients[c].alive || s.clients[c].timer.Some?)
    ensures Do(s, Start(c, ms, kind)) == s
  {
  }

  /** A stop clears the client's timer, cuts the delegate off its client and container, and sends its removal. */
  lemma StopCutsTimer(s: State, c: nat)
    requires Safe(s) && c < |s.clients| && s.clients[c].timer.Some?
    ensures Stoppable(s, c)
    ensures var s', id := Do(s, Stop(c)), s.clients[c].timer.value;
      && |s'.clients| == |s.clients| && |s'.delegates| == |s.delegates|
      && s'.clients[c].timer == None && s'.clients[c].alive == s.clients[c].alive
      && s'.delegates[id].client == None && !s'.delegates[id].contained
      && s'.sent == s.sent + [MsgRemove(id)]
      && OthersSame(s, s', c, id) && ThreadsSame(s, s')
  {
    assert ClientOk(s, c);
  }

  lemma StopMakesNoTimer(acts: seq<Action>, c: nat)
    requires c < |Run(acts).clients| && Run(acts).clients[c].timer.Some?
    ensures var s, s' := Run(acts), Run(acts + [Stop(c)]); var id := s.clients[c].timer.value;
      && id < |s.delegates| == |s'.delegates| && |s'.clients| == |s.clients|
      && s'.clients[c].timer == None
      && s'.delegates[id].client == None && !s'.delegates[id].contained
      && s'.sent == s.sent + [MsgRemove(id)]
      && OthersSame(s, s', c, id) && ThreadsSame(s, s')
  {
    RunsAreSafe(acts);
    RunSnoc(acts, Stop(c));
    StopCutsTimer(Run(acts), c);
  }

  /** A new timer object is alive, without a timer, and the only reference to its lock. */
  lemma NewTimerIsFresh(acts: seq<Action>)
    ensures var s, s' := Run(acts), Run(acts + [NewTimer]); var c := |s.clients|;
      && |s'.clients| == c + 1 && |s'.delegates| == |s.delegates| && s'.sent == s.sent
      && s'.clients[c].alive && s'.clients[c].timer == None && s'.clients[c].lock.refs == 1
      && OthersSame(s, s', c, |s.delegates|) && ThreadsSame(s, s')
  {
    RunSnoc(acts, NewTimer);
  }

  /** A destroyed timer object is dead and has no timer. */
  lemma DestroyEnds(acts: seq<Action>, c: nat)
    requires c < |Run(acts).clients| && Run(acts).clients[c].alive && HeldClient(Run(acts)) != Some(c)
    ensures var s, s' := Run(acts), Run(acts + [Destroy(c)]);
      && |s'.clients| == |s.clients| && !s'.clients[c].alive && s'.clients[c].timer == None
      && s'.sent == s.sent + (if s.clients[c].timer.Some? then [MsgRemove(s.clients[c].timer.value)] else [])
      && ThreadsSame(s, s')
  {
    RunsAreSafe(acts);
    RunSnoc(acts, Destroy(c));
    if Run(acts).clients[c].timer.Some? {
      StopCutsTimer(Run(acts), c);
    }
  }

  // ---------- expire in the poll thread ----------

  /**
   Undisturbed, the poll thread's handling of a container disarms its fd, takes it out of the poll
   and sends one expire message for it; the other container is left alone.
   */
  lemma ExpireTakesFdOut(s: State)
    requires s.poll.Disarm?
    ensures var k, s' := s.poll.kind, DoPoll(DoPoll(DoPoll(s)));
      && !s'.Cont(k).polled && s'.Cont(k).armed == None && s'.Cont(k).heap == s.Cont(k).heap
      && s'.sent == s.sent + [MsgExpire(k)] && s'.poll == NextPoll(s.poll.rest)
      && (forall j :: j != k ==> s'.Cont(j) == s.Cont(j))
      && s'.clients == s.clients && s'.delegates == s.delegates && s'.task == s.task && s'.taken == s.taken
  {
  }

  /** The poll thread starts on exactly the containers whose fd is polled and whose time has come. */
  lemma WakesForFired(s: State, ready: seq<Kind>)
    requires Do(s, Wake(ready)) != s
    ensures s.poll.Waiting? && ready != [] && Do(s, Wake(ready)) == s.(poll := NextPoll(ready))
    ensures forall i :: 0 <= i < |ready| ==>
      var c := s.Cont(ready[i]);
      c.polled && c.armed.Some? && Nanos(c.armed.value) <= Nanos(s.clock)
  {
    assert Ready(s, ready);
    forall i | 0 <= i < |ready| ensures Fired(s, ready[i]) {
    }
  }

  // ---------- when the message thread touches an fd ----------

  lemma EarliestIff(h: Heap, x: Timer)
    requires GoodHeap(h)
    ensures (forall y :: y in HT.Contents(h) ==> Nanos(x.at) < Nanos(y.at))
       <==> h.Nil? || OutRanks(TimerRank, x, h.data)
  {
    if h.Node? {
      TimerRankIsTimeOrder(x, h.data);
      assert h.data in HT.Contents(h);
      forall y | y in HT.Contents(h) ensures Nanos(h.data.at) <= Nanos(y.at) {
        TopIsEarliest(h, y);
      }
    }
  }

  lemma PushDecides(h: Heap, x: Timer)
    requires h.Node? ==> h.data != x
    ensures UpdateSoonest(Top(h), Top(HT.Push(TimerRank, h, (), x)))
         == if h.Nil? || OutRanks(TimerRank, x, h.data) then Arm else Keep
  {
  }

  /** A push touches the fd exactly if the new timer is the first or earlier than all the others. */
  lemma PushTouchesFdIff(s: State, id: nat)
    requires HeapsOk(s) && id < |s.delegates|
    requires forall x :: x in HT.Contents(s.Cont(s.delegates[id].kind).heap) ==> x.id != id
    ensures var k, x := s.delegates[id].kind, Entry(s, id);
      ProcPush(s, id).task == (if forall y :: y in HT.Contents(s.Cont(k).heap) ==> Nanos(x.at) < Nanos(y.at)
                               then AddPoll(k, None) else Idle)
  {
    var h := s.Cont(s.delegates[id].kind).heap;
    assert HeapOk(s, s.delegates[id].kind);
    assert h.Node? ==> h.data in HT.Contents(h);
    EarliestIff(h, Entry(s, id));
    PushDecides(h, Entry(s, id));
  }

  /** A removal touches the fd exactly if it took the top away and something is left. */
  lemma RemoveTouchesFdIff(s: State, id: nat)
    requires id < |s.delegates|
    ensures var k := s.delegates[id].kind; var h := s.Cont(k).heap;
      ProcRemove(s, id).task.AddPoll? <==>
        h.Node? && h.data == Entry(s, id) && ProcRemove(s, id).Cont(k).heap.Node?
    ensures !ProcRemove(s, id).task.AddPoll? ==> ProcRemove(s, id).task == Free(id)
  {
    var h := s.Cont(s.delegates[id].kind).heap;
    if h.Nil? {
      assert HT.Remove(TimerRank, h, Entry(s, id)) == h;
    }
  }

  /** Undisturbed, touching the fd leaves it polled and armed for the top. */
  lemma TouchingArms(s: State)
    requires s.task.AddPoll? && s.Cont(s.task.kind).heap.Node?
    ensures var k, s' := s.task.kind, DoTask(DoTask(s));
      && s'.Cont(k).polled && s'.Cont(k).armed == Some(s.Cont(k).heap.data.at)
      && s'.Cont(k).heap == s.Cont(k).heap && s'.task == Finish(s.task.free)
  {
  }

  // ---------- expire in the message thread: the client ----------

  /**
   A popped timer whose client pointer is still set leads to its owner; one that has been stopped
   leaves every client and every delegate alone.
   */
  lemma ReadFindsOwnerIff(acts: seq<Action>, b: Batch, d: Timer)
    requires Run(acts).task == ReadClient(b, d)
    ensures var s, s' := Run(acts), Run(acts + [Task]);
      && d.id < |s.delegates|
      && (s'.task == StopClient(b, d, s.delegates[d.id].owner) <==> s.delegates[d.id].contained)
      && (!s.delegates[d.id].contained ==> s'.task == More(b))
      && s' == s.(task := s'.task)
  {
    RunsAreSafe(acts);
    RunSnoc(acts, Task);
    assert DelegateClient(Run(acts), d.id);
  }

  lemma StopClientCalls(s: State)
    requires s.task.StopClient?
    ensures var c := s.task.c;
      if Stoppable(s, c)
      then DoTask(s).task == Callback(s.task.b, s.task.d, c, s.clients[c].timer.value)
        && DoTask(s).(task := s.task) == DoStop(s, c)
      else DoTask(s) == s.(task := More(s.task.b))
  {
  }

  /** Undisturbed, a running timer that has been popped is stopped and its owner is called back. */
  lemma PoppedTimerIsCalled(acts: seq<Action>, b: Batch, d: Timer)
    requires Run(acts).task == ReadClient(b, d)
    requires d.id < |Run(acts).delegates| && Run(acts).delegates[d.id].contained
    ensures var s, s' := Run(acts), Run(acts + [Task] + [Task]); var c := s.delegates[d.id].owner;
      && s'.task == Callback(b, d, c, d.id)
      && c < |s'.clients| && s'.clients[c].alive && s'.clients[c].timer == None
      && d.id < |s'.delegates| && !s'.delegates[d.id].contained && s'.sent == s.sent + [MsgRemove(d.id)]
  {
    RunsAreSafe(acts);
    ReadFindsOwnerIff(acts, b, d);
    RunSnoc(acts + [Task], Task);
    var s := Run(acts);
    var c := s.delegates[d.id].owner;
    assert DelegateClient(s, d.id) && ClientOk(s, c);
    var s1 := s.(task := StopClient(b, d, c));
    assert Run(acts + [Task]) == s1;
    StopClientCalls(s1);
  }

  // ---------- expire in the message thread: the batch ----------

  /**
   The handler that found heap h at time now is in its loop, on track, or has left it with exactly
   the batch popped; or a later message has been taken.
   */
  ghost predicate Tracks(t: State, k: Kind, h: Heap, now: Uptime, taken: nat) {
    || t.taken > taken
    || (t.taken == taken && BatchOf(t.task) == Some(Batch(k, now)) && t.batch.start == h
        && OnTrack(t.batch, now, t.Cont(k).heap))
    || (t.taken == taken && LeftLoop(t.task) && t.batch.popped == ExpireBatch(h, now).timers
        && t.Cont(k).heap == ExpireBatch(h, now).rest)
  }

  /** The loop is over: the fd is being set, or the message is done. */
  predicate LeftLoop(p: TaskPc) {
    p.Idle? || (Setting(p) && p.free.None?)
  }

  predicate Setting(p: TaskPc) {
    p.AddPoll? || p.SetTime? || p.RemovePoll? || p.ClearTime?
  }

  lemma OthersTrack(t: State, a: Action, k: Kind, h: Heap, now: Uptime, taken: nat)
    requires Tracks(t, k, h, now, taken) && !a.Task?
    ensures Tracks(Do(t, a), k, h, now, taken)
  {
    OthersKeepBatch(t, a);
    OthersKeepHeaps(t, a);
  }

  lemma LoopTracks(t: State, k: Kind, h: Heap, now: Uptime, taken: nat)
    requires t.taken == taken && BatchOf(t.task) == Some(Batch(k, now)) && t.batch.start == h
    requires OnTrack(t.batch, now, t.Cont(k).heap)
    ensures Tracks(DoTask(t), k, h, now, taken)
  {
    var g := t.Cont(k).heap;
    if t.task.More? {
      if PopsAt(g, now) {
        PopStaysOnTrack(t.batch, now, g);
      } else {
        assert t.batch.popped + [] == t.batch.popped;
      }
    } else {
      LightMoves(t);
    }
  }

  lemma LightMoves(t: State)
    requires t.task.ReadClient? || t.task.StopClient? || t.task.Callback?
    ensures DoTask(t).taken == t.taken && DoTask(t).batch == t.batch && BatchOf(DoTask(t).task) == BatchOf(t.task)
    ensures forall k :: DoTask(t).Cont(k) == t.Cont(k)
  {
  }

  lemma EndTracks(t: State, k: Kind, h: Heap, now: Uptime, taken: nat)
    requires t.taken == taken && LeftLoop(t.task) && t.batch.popped == ExpireBatch(h, now).timers
    requires t.Cont(k).heap == ExpireBatch(h, now).rest
    ensures Tracks(DoTask(t), k, h, now, taken)
  {
  }

  lemma TaskTracks(t: State, k: Kind, h: Heap, now: Uptime, taken: nat)
    requires Tracks(t, k, h, now, taken)
    ensures Tracks(DoTask(t), k, h, now, taken)
  {
    if t.taken > taken {
      TakenGrows(t);
    } else if BatchOf(t.task).Some? {
      LoopTracks(t, k, h, now, taken);
    } else {
      EndTracks(t, k, h, now, taken);
    }
  }

  lemma TakenGrows(t: State)
    ensures t.taken <= DoTask(t).taken <= t.taken + 1
    ensures DoTask(t).taken != t.taken ==> t.task.Idle? && t.taken < |t.sent| && DoTask(t).task == Got(t.sent[t.taken])
  {
  }

  lemma FirstPopTracks(s: State, k: Kind)
    requires Safe(s) && s.task == Got(MsgExpire(k)) && s.Cont(k).heap.Node?
    ensures Tracks(DoTask(s), k, s.Cont(k).heap, s.clock, s.taken)
  {
    var h := s.Cont(k).heap;
    assert HeapOk(s, k);
    FirstPopIsOnTrack(h, s.clock);
    assert [] + [h.data] == [h.data];
  }

  lemma StepTracks(t: State, a: Action, k: Kind, h: Heap, now: Uptime, taken: nat)
    requires Tracks(t, k, h, now, taken)
    ensures Tracks(Do(t, a), k, h, now, taken)
  {
    if a.Task? {
      TaskTracks(t, k, h, now, taken);
    } else {
      OthersTrack(t, a, k, h, now, taken);
    }
  }

  lemma LastApart<T>(a: seq<T>, b: seq<T>)
    requires b != []
    ensures a + b == (a + b[..|b| - 1]) + [b[|b| - 1]]
  {
  }

  lemma {:induction false} RunTracks(acts: seq<Action>, more: seq<Action>, k: Kind, h: Heap, now: Uptime, taken: nat)
    requires Tracks(Run(acts), k, h, now, taken)
    ensures Tracks(Run(acts + more), k, h, now, taken)
  {
    if more == [] {
      assert acts + more == acts;
    } else {
      var init, a := acts + more[..|more| - 1], more[|more| - 1];
      RunTracks(acts, more[..|more| - 1], k, h, now, taken);
      StepTracks(Run(init), a, k, h, now, taken);
      RunSnoc(init, a);
      LastApart(acts, more);
    }
  }

  /**
   The handler that starts in s, whatever happens while it runs: once its loop is over it has popped,
   earliest first, exactly the timers that were due when it started, by the clock of that moment, or
   the single earliest if none was; and all it has left in the heap is later.
   */
  lemma HandlerExpiresWhatIsDue(acts: seq<Action>, more: seq<Action>, k: Kind)
    requires Run(acts).task == Got(MsgExpire(k)) && Run(acts).Cont(k).heap.Node?
    requires var t := Run(acts + [Task] + more); t.taken == Run(acts).taken && BatchOf(t.task).None?
    ensures var s, t := Run(acts), Run(acts + [Task] + more);
      && t.batch.popped == ExpireBatch(s.Cont(k).heap, s.clock).timers
      && t.Cont(k).heap == ExpireBatch(s.Cont(k).heap, s.clock).rest
    ensures var s, t := Run(acts), Run(acts + [Task] + more);
      && TimeSorted(t.batch.popped)
      && multiset(t.batch.popped) + HT.Contents(t.Cont(k).heap) == HT.Contents(s.Cont(k).heap)
      && (forall x :: x in HT.Contents(t.Cont(k).heap) ==> Nanos(x.at) > Nanos(s.clock))
      && (if exists x :: x in HT.Contents(s.Cont(k).heap) && Nanos(x.at) <= Nanos(s.clock)
          then forall x :: x in t.batch.popped ==> Nanos(x.at) <= Nanos(s.clock)
          else |t.batch.popped| == 1)
  {
    var s := Run(acts);
    var h := s.Cont(k).heap;
    RunsAreSafe(acts);
    RunSnoc(acts, Task);
    FirstPopTracks(s, k);
    RunTracks(acts + [Task], more, k, h, s.clock, s.taken);
    assert HeapOk(s, k);
    BatchIsWhatIsDue(h, s.clock);
  }

  lemma BatchIsWhatIsDue(h: Heap, now: Uptime)
    requires GoodHeap(h) && h.Node?
    ensures var p := ExpireBatch(h, now);
      && TimeSorted(p.timers) && multiset(p.timers) + HT.Contents(p.rest) == HT.Contents(h)
      && (forall x :: x in HT.Contents(p.rest) ==> Nanos(x.at) > Nanos(now))
      && (if exists x :: x in HT.Contents(h) && Nanos(x.at) <= Nanos(now)
          then forall x :: x in p.timers ==> Nanos(x.at) <= Nanos(now)
          else |p.timers| == 1)
  {
    ExpireBatchExact(h, now);
    assert h.data in HT.Contents(h);
    forall x | x in HT.Contents(h) ensures Nanos(h.data.at) <= Nanos(x.at) {
      TopIsEarliest(h, x);
    }
  }
}

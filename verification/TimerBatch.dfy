/** What one MsgTimerExpire pops. */
module TimerBatch {
  import opened Options
  import opened Ranking
  import opened Deadline
  import opened TimerModel
  import opened TimerInv
  import opened TimerSafety
  import HT = HeapTree

  datatype Popped = Popped(timers: seq<Timer>, rest: Heap)

  predicate Due(x: Timer, now: Uptime) {
    Nanos(x.at) <= Nanos(now)
  }

  /** Popping as long as popIfOutRanks does. */
  function PopDue(h: Heap, now: Uptime): Popped
    decreases HT.Count(h)
  {
    if !PopsAt(h, now) then Popped([], h)
    else
      var p := PopDue(HT.Pop(TimerRank, h), now);
      Popped([h.data] + p.timers, p.rest)
  }

  /** The whole handler: the first pop is unconditional. */
  function ExpireBatch(h: Heap, now: Uptime): Popped {
    if h.Nil? then Popped([], h)
    else
      var p := PopDue(HT.Pop(TimerRank, h), now);
      Popped([h.data] + p.timers, p.rest)
  }

  lemma PopsAtMeansDue(h: Heap, now: Uptime)
    requires h.Node?
    ensures PopsAt(h, now) <==> Due(h.data, now)
  {
    TimerRankIsTimeOrder(Timer(0, now), h.data);
  }

  predicate TimeSorted(s: seq<Timer>) {
    forall i, j :: 0 <= i < j < |s| ==> Nanos(s[i].at) <= Nanos(s[j].at)
  }

  /** The top of a timer heap is the earliest. */
  lemma TopIsEarliest(h: Heap, x: Timer)
    requires HT.IsHeap(TimerRank, h) && x in HT.Contents(h)
    ensures Nanos(h.data.at) <= Nanos(x.at)
  {
    TimerRankIsWeakOrder();
    HT.TopIsHighest(TimerRank, h, x);
    TimerRankIsTimeOrder(x, h.data);
  }

  ghost predicate GoodHeap(h: Heap) {
    HT.IsHeap(TimerRank, h) && HT.SizesOk(h)
  }

  lemma PoppedIsGood(h: Heap)
    requires GoodHeap(h) && h.Node?
    ensures GoodHeap(HT.Pop(TimerRank, h))
    ensures HT.Contents(h) == HT.Contents(HT.Pop(TimerRank, h)) + multiset{h.data}
  {
    TimerRankIsWeakOrder();
    HT.PopKeepsHeap(TimerRank, h);
    HT.PopKeepsSizes(TimerRank, h);
    HT.PopRemovesTop(TimerRank, h);
  }

  /** Putting the top before what the rest of the batch pops. */
  lemma ConsTop(h: Heap, p: Popped)
    requires GoodHeap(h) && h.Node? && TimeSorted(p.timers)
    requires multiset(p.timers) + HT.Contents(p.rest) == HT.Contents(HT.Pop(TimerRank, h))
    ensures TimeSorted([h.data] + p.timers)
    ensures multiset([h.data] + p.timers) + HT.Contents(p.rest) == HT.Contents(h)
  {
    PoppedIsGood(h);
    ConsSorted(h, p.timers);
    ConsMultiset(h.data, p.timers, HT.Contents(p.rest));
  }

  lemma ConsSorted(h: Heap, s: seq<Timer>)
    requires GoodHeap(h) && h.Node? && TimeSorted(s) && multiset(s) <= HT.Contents(h)
    ensures TimeSorted([h.data] + s)
  {
    forall i | 0 <= i < |s| ensures Nanos(h.data.at) <= Nanos(s[i].at) {
      assert s[i] in multiset(s);
      TopIsEarliest(h, s[i]);
    }
  }

  lemma ConsMultiset<T>(x: T, s: seq<T>, rest: multiset<T>)
    ensures multiset([x] + s) + rest == (multiset(s) + rest) + multiset{x}
  {
  }

  lemma {:induction false} PopDueExact(h: Heap, now: Uptime)
    requires GoodHeap(h)
    ensures var p := PopDue(h, now);
      && TimeSorted(p.timers) && GoodHeap(p.rest)
      && multiset(p.timers) + HT.Contents(p.rest) == HT.Contents(h)
      && (forall x :: x in p.timers ==> Due(x, now))
      && (forall x :: x in HT.Contents(p.rest) ==> !Due(x, now))
    decreases HT.Count(h)
  {
    if h.Node? {
      PopsAtMeansDue(h, now);
      if PopsAt(h, now) {
        PoppedIsGood(h);
        PopDueExact(HT.Pop(TimerRank, h), now);
        ConsTop(h, PopDue(HT.Pop(TimerRank, h), now));
      } else {
        forall x | x in HT.Contents(h) ensures !Due(x, now) {
          TopIsEarliest(h, x);
        }
      }
    }
  }

  /**
   On a non-empty heap the handler pops, earliest first, exactly the timers that are due, or
   the single earliest one if none is due; everything it leaves is later than now.
   */
  lemma ExpireBatchExact(h: Heap, now: Uptime)
    requires GoodHeap(h) && h.Node?
    ensures var p := ExpireBatch(h, now);
      && TimeSorted(p.timers) && GoodHeap(p.rest)
      && multiset(p.timers) + HT.Contents(p.rest) == HT.Contents(h)
      && (forall x :: x in HT.Contents(p.rest) ==> !Due(x, now))
      && (if Due(h.data, now) then forall x :: x in p.timers ==> Due(x, now) else p.timers == [h.data])
  {
    var p := PopDue(HT.Pop(TimerRank, h), now);
    PoppedIsGood(h);
    PopDueExact(HT.Pop(TimerRank, h), now);
    ConsTop(h, p);
    NothingElseDue(h, now);
  }

  lemma NothingElseDue(h: Heap, now: Uptime)
    requires GoodHeap(h) && h.Node?
    ensures !Due(h.data, now) ==> PopDue(HT.Pop(TimerRank, h), now).timers == []
  {
    var rest := HT.Pop(TimerRank, h);
    PoppedIsGood(h);
    if rest.Node? {
      PopsAtMeansDue(rest, now);
      assert rest.data in HT.Contents(rest);
      TopIsEarliest(h, rest.data);
    }
  }

  /** A handler expires a timer early exactly when it finds none that is due. */
  lemma EarlyIffNoneDue(h: Heap, now: Uptime)
    requires GoodHeap(h) && h.Node?
    ensures (exists x :: x in ExpireBatch(h, now).timers && !Due(x, now))
            <==> (forall x :: x in HT.Contents(h) ==> !Due(x, now))
  {
    ExpireBatchExact(h, now);
    assert ExpireBatch(h, now).timers[0] == h.data;
    assert h.data in HT.Contents(h);
    forall x | x in HT.Contents(h) ensures Nanos(h.data.at) <= Nanos(x.at) {
      TopIsEarliest(h, x);
    }
  }

  // ---------- the handler as it runs, interleaved with everything else ----------

  function BatchOf(p: TaskPc): Option<Batch> {
    match p
    case ReadClient(b, _) => Some(b)
    case StopClient(b, _, _) => Some(b)
    case Callback(b, _, _, _) => Some(b)
    case More(b) => Some(b)
    case _ => None
  }

  /** What has been popped so far, and what the heap at hand will still give, is the batch of the start. */
  ghost predicate OnTrack(past: History, now: Uptime, h: Heap) {
    && GoodHeap(past.start) && past.start.Node?
    && past.popped + PopDue(h, now).timers == ExpireBatch(past.start, now).timers
    && PopDue(h, now).rest == ExpireBatch(past.start, now).rest
  }

  ghost predicate BatchOk(s: State) {
    var b := BatchOf(s.task);
    b.Some? ==> OnTrack(s.batch, b.value.now, s.Cont(b.value.kind).heap)
  }

  lemma PopStaysOnTrack(past: History, now: Uptime, h: Heap)
    requires OnTrack(past, now, h) && PopsAt(h, now)
    ensures OnTrack(past.(popped := past.popped + [h.data]), now, HT.Pop(TimerRank, h))
  {
    var p := PopDue(HT.Pop(TimerRank, h), now);
    assert past.popped + ([h.data] + p.timers) == (past.popped + [h.data]) + p.timers;
  }

  lemma FirstPopIsOnTrack(h: Heap, now: Uptime)
    requires GoodHeap(h) && h.Node?
    ensures OnTrack(History(h, [h.data]), now, HT.Pop(TimerRank, h))
  {
  }

  lemma OthersKeepBatch(s: State, a: Action)
    requires !a.Task?
    ensures Do(s, a).task == s.task && Do(s, a).batch == s.batch
    ensures Do(s, a).sw.heap == s.sw.heap && Do(s, a).hw.heap == s.hw.heap
  {
  }

  lemma LightMovesKeepBatch(s: State)
    requires BatchOk(s) && (s.task.ReadClient? || s.task.StopClient? || s.task.Callback?)
    ensures BatchOk(DoTask(s))
  {
    var s' := DoTask(s);
    assert BatchOf(s'.task) == BatchOf(s.task);
    assert s'.sw == s.sw && s'.hw == s.hw && s'.batch == s.batch;
  }

  lemma TaskKeepsBatch(s: State)
    requires Safe(s) && BatchOk(s)
    ensures BatchOk(DoTask(s))
  {
    match s.task
    case More(b) =>
      if PopsAt(s.Cont(b.kind).heap, b.now) {
        PopStaysOnTrack(s.batch, b.now, s.Cont(b.kind).heap);
      }
    case Got(MsgExpire(k)) =>
      var h := s.Cont(k).heap;
      if h.Node? {
        FirstPopIsOnTrack(h, s.clock);
        assert [] + [h.data] == [h.data];
      }
    case Got(MsgPush(id)) => assert BatchOf(DoTask(s).task).None?;
    case Got(MsgRemove(id)) => assert BatchOf(DoTask(s).task).None?;
    case ReadClient(_, _) => LightMovesKeepBatch(s);
    case StopClient(_, _, _) => LightMovesKeepBatch(s);
    case Callback(_, _, _, _) => LightMovesKeepBatch(s);
    case _ => assert BatchOf(DoTask(s).task).None?;
  }

  lemma StepKeepsBatch(s: State, a: Action)
    requires Safe(s) && BatchOk(s)
    ensures BatchOk(Do(s, a))
  {
    if a.Task? {
      TaskKeepsBatch(s);
    } else {
      OthersKeepBatch(s, a);
    }
  }

  lemma {:induction false} RunsKeepBatch(acts: seq<Action>)
    ensures BatchOk(Run(acts))
  {
    if acts != [] {
      RunsKeepBatch(acts[..|acts| - 1]);
      RunsAreSafe(acts[..|acts| - 1]);
      StepKeepsBatch(Run(acts[..|acts| - 1]), acts[|acts| - 1]);
    }
  }

  /**
   Whatever clients and the poll thread did meanwhile: when the loop of a handler ends, what it
   popped is exactly the batch of the heap it started from, and the heap holds the rest.
   */
  lemma InterleavedBatchIsExact(acts: seq<Action>)
    requires Run(acts).task.More?
    requires var s := Run(acts); !PopsAt(s.Cont(s.task.b.kind).heap, s.task.b.now)
    ensures var s := Run(acts); var b := s.task.b;
      ExpireBatch(s.batch.start, b.now) == Popped(s.batch.popped, s.Cont(b.kind).heap)
  {
    RunsKeepBatch(acts);
    var s := Run(acts);
    assert s.batch.popped + [] == s.batch.popped;
  }
}

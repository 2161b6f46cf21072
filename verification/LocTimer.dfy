/** The timer service as objects whose fields change in place, each method proved against the step system. */
module LocTimer {
  import opened Options
  import opened Ranking
  import opened Deadline
  import opened TimerModel
  import opened TimerInv
  import opened TimerBatch
  import HT = HeapTree
  import LH = LocHeap

  /** A heap without the identity of its node objects. */
  function Forget<N>(t: HT.Tree<N, Timer>): Heap {
    if t.Nil? then HT.Nil else HT.Node((), Forget(t.left), t.data, t.size, Forget(t.right))
  }

  lemma {:induction false} ForgetPush<N>(t: HT.Tree<N, Timer>, n: N, x: Timer)
    ensures Forget(HT.Push(TimerRank, t, n, x)) == HT.Push(TimerRank, Forget(t), (), x)
  {
    if t.Node? {
      var lo := if OutRanks(TimerRank, x, t.data) then t.data else x;
      ForgetPush(t.left, n, lo);
      ForgetPush(t.right, n, lo);
    }
  }

  lemma {:induction false} ForgetPop<N>(t: HT.Tree<N, Timer>)
    requires t.Node?
    ensures Forget(HT.Pop(TimerRank, t)) == HT.Pop(TimerRank, Forget(t))
    decreases HT.Count(t)
  {
    if t.left.Node? || t.right.Node? {
      var below := HT.Swapped(TimerRank, t);
      ForgetPop(below);
      assert Forget(t).left == Forget(t.left) && Forget(t).right == Forget(t.right);
      assert Forget(below) == HT.Swapped(TimerRank, Forget(t));
    }
  }

  lemma {:induction false} ForgetFinds<N>(t: HT.Tree<N, Timer>, x: Timer)
    ensures HT.Finds(TimerRank, t, x) == HT.Finds(TimerRank, Forget(t), x)
  {
    if t.Node? {
      ForgetFinds(t.left, x);
      ForgetFinds(t.right, x);
    }
  }

  lemma {:induction false} ForgetRemove<N>(t: HT.Tree<N, Timer>, x: Timer)
    ensures Forget(HT.Remove(TimerRank, t, x)) == HT.Remove(TimerRank, Forget(t), x)
  {
    ForgetFinds(t, x);
    if HT.Finds(TimerRank, t, x) {
      ForgetFinds(t.left, x);
      if t.data == x {
        ForgetPop(t);
      } else {
        ForgetRemove(t.left, x);
        ForgetRemove(t.right, x);
      }
    }
  }

  /** What updateSoonestTime makes of the fd when nothing interferes. */
  function Rearmed(c: Container, prior: Option<Timer>): Container {
    match UpdateSoonest(prior, Top(c.heap))
    case Keep => c
    case Disarmed => c.(polled := false, armed := None)
    case Arm => c.(polled := true, armed := Some(c.heap.data.at))
  }

  /** Armed for the top, if there is one. */
  predicate Attended(c: Container) {
    c.heap.Node? ==> ArmedForTop(c)
  }

  /** An undisturbed push leaves the fd armed for the new top. */
  lemma PushLeavesArmed(c: Container, x: Timer)
    requires Attended(c) && HT.IsHeap(TimerRank, c.heap)
    ensures Attended(Rearmed(c.(heap := HT.Push(TimerRank, c.heap, (), x)), Top(c.heap)))
  {
    TimerRankIsWeakOrder();
    HT.PushKeepsHeap(TimerRank, c.heap, (), x);
  }

  /** So does whatever ends by arming for the top: a removal of the top, or a batch. */
  lemma RearmingArms(c: Container)
    ensures Attended(Rearmed(c, None)) && Rearmed(c, None).heap == c.heap
    ensures c.heap.Nil? ==> Rearmed(c, None) == c
  {
  }

  /** A removal of something else leaves the top, and the fd, as they are. */
  lemma RemoveLeavesArmed(c: Container, x: Timer)
    requires Attended(c) && HT.IsHeap(TimerRank, c.heap) && Top(c.heap) != Some(x)
    ensures Attended(c.(heap := HT.Remove(TimerRank, c.heap, x)))
  {
    TimerRankIsWeakOrder();
    HT.RemoveKeepsHeap(TimerRank, c.heap, x);
  }

  /** In the expire loop: what was expired, the timer in hand, and what the heap still gives make up the batch p. */
  ghost predicate LoopState(expired: seq<Timer>, timer: Option<Timer>, h: Heap, now: Uptime, p: Popped) {
    if timer.Some?
    then expired + [timer.value] + PopDue(h, now).timers == p.timers && PopDue(h, now).rest == p.rest
    else expired == p.timers && h == p.rest
  }

  lemma LoopStart(h: Heap, now: Uptime)
    ensures LoopState([], Top(h), if h.Node? then HT.Pop(TimerRank, h) else h, now, ExpireBatch(h, now))
  {
    if h.Node? {
      assert [] + [h.data] == [h.data];
    }
  }

  lemma LoopStep(expired: seq<Timer>, timer: Timer, h: Heap, now: Uptime, p: Popped)
    requires LoopState(expired, Some(timer), h, now, p)
    ensures if PopsAt(h, now)
            then LoopState(expired + [timer], Some(h.data), HT.Pop(TimerRank, h), now, p)
            else LoopState(expired + [timer], None, h, now, p)
  {
    if PopsAt(h, now) {
      var rest := PopDue(HT.Pop(TimerRank, h), now).timers;
      assert expired + [timer] + ([h.data] + rest) == expired + [timer] + [h.data] + rest;
    }
  }

  /** LocTimerContainer: a timer heap and the state of its fd. */
  class LocTimerContainer {
    const heap: LH.LocHeap<Timer>
    var polled: bool
    var armed: Option<Instant>

    ghost predicate Valid()
      reads this, heap, heap.repr
    {
      heap.Valid() && heap.rk == TimerRank
    }

    ghost function View(): Container
      reads this, heap
    {
      Container(Forget(heap.tree), polled, armed)
    }

    constructor ()
      ensures Valid() && fresh(heap) && fresh(heap.repr) && View() == Container(HT.Nil, false, None)
    {
      TimerRankIsWeakOrder();
      heap := new LH.LocHeap(TimerRank);
      polled, armed := false, None;
    }

    method GetSoonestTimer() returns (top: Option<Timer>)
      requires Valid()
      ensures top == Top(View().heap)
    {
      top := heap.Peek();
    }

    method UpdateSoonestTime(prior: Option<Timer>)
      requires Valid()
      modifies this
      ensures Valid() && View() == Rearmed(old(View()), prior)
    {
      var cur := GetSoonestTimer();
      if cur != prior {
        if cur.None? {
          polled := false;
          armed := None;
        } else if prior.None? || OutRanks(TimerRank, cur.value, prior.value) {
          polled := true;
          armed := Some(cur.value.at);
        }
      }
    }

    method PushTimer(x: Timer)
      requires Valid()
      modifies heap, heap.repr
      ensures Valid() && fresh(heap.repr - old(heap.repr))
      ensures View() == old(View()).(heap := HT.Push(TimerRank, old(View()).heap, (), x))
    {
      ghost var t := heap.tree;
      heap.Push(x);
      ghost var n :| heap.tree == HT.Push(TimerRank, t, n, x);
      ForgetPush(t, n, x);
    }

    method PopTimer() returns (x: Option<Timer>)
      requires Valid()
      modifies heap, heap.repr
      ensures Valid() && heap.repr <= old(heap.repr)
      ensures x == Top(old(View()).heap)
      ensures x.None? ==> View() == old(View())
      ensures x.Some? ==> View() == old(View()).(heap := HT.Pop(TimerRank, old(View()).heap))
    {
      if heap.tree.Node? {
        ForgetPop(heap.tree);
      }
      x := heap.Pop();
    }

    method RemoveTimer(x: Timer) returns (removed: Option<Timer>)
      requires Valid()
      modifies heap, heap.repr
      ensures Valid() && heap.repr <= old(heap.repr)
      ensures removed == if HT.Finds(TimerRank, old(View()).heap, x) then Some(x) else None
      ensures View() == old(View()).(heap := HT.Remove(TimerRank, old(View()).heap, x))
    {
      ForgetFinds(heap.tree, x);
      ForgetRemove(heap.tree, x);
      HT.FindsIffHeld(TimerRank, heap.tree, x);
      removed := heap.Remove(x);
    }

    /** MsgTimerPush::proc, undisturbed. */
    method ProcPush(x: Timer)
      requires Valid()
      modifies this, heap, heap.repr
      ensures Valid() && fresh(heap.repr - old(heap.repr))
      ensures var h := HT.Push(TimerRank, old(View()).heap, (), x);
        View() == Rearmed(old(View()).(heap := h), Top(old(View()).heap))
    {
      var priorTop := GetSoonestTimer();
      PushTimer(x);
      UpdateSoonestTime(priorTop);
    }

    /** MsgTimerRemove::proc up to the deletion, undisturbed. */
    method ProcRemove(x: Timer)
      requires Valid()
      modifies this, heap, heap.repr
      ensures Valid() && heap.repr <= old(heap.repr)
      ensures var c := old(View()); var h := HT.Remove(TimerRank, c.heap, x);
        View() == if Top(c.heap) == (if HT.Finds(TimerRank, c.heap, x) then Some(x) else None)
                  then Rearmed(c.(heap := h), None) else c.(heap := h)
    {
      var priorTop := GetSoonestTimer();
      var removed := RemoveTimer(x);
      if priorTop == removed {
        UpdateSoonestTime(None);
      }
    }

    method PopIfOutRanks(now: Uptime) returns (x: Option<Timer>)
      requires Valid()
      modifies heap, heap.repr
      ensures Valid() && heap.repr <= old(heap.repr)
      ensures var h := old(View()).heap;
        && x == (if PopsAt(h, now) then Some(h.data) else None)
        && View() == if PopsAt(h, now) then old(View()).(heap := HT.Pop(TimerRank, h)) else old(View())
    {
      x := None;
      var top := GetSoonestTimer();
      if top.Some? && !OutRanks(TimerRank, Timer(0, now), top.value) {
        x := PopTimer();
      }
    }

    /** The loop of MsgTimerExpire::proc: what it pops is the batch of the heap it finds. */
    method PopBatch(now: Uptime) returns (expired: seq<Timer>)
      requires Valid()
      modifies heap, heap.repr
      ensures Valid() && heap.repr <= old(heap.repr)
      ensures var p := ExpireBatch(old(View()).heap, now);
        expired == p.timers && View().heap == p.rest
    {
      expired := [];
      ghost var p := ExpireBatch(View().heap, now);
      LoopStart(View().heap, now);
      var timer := PopTimer();
      while timer.Some?
        invariant Valid() && heap.repr <= old(heap.repr)
        invariant LoopState(expired, timer, View().heap, now, p)
        decreases timer.Some?, HT.Count(View().heap)
      {
        LoopStep(expired, timer.value, View().heap, now, p);
        expired := expired + [timer.value];
        timer := PopIfOutRanks(now);
      }
    }

    method ProcExpire(now: Uptime) returns (expired: seq<Timer>)
      requires Valid()
      modifies this, heap, heap.repr
      ensures Valid() && heap.repr <= old(heap.repr)
      ensures var c := old(View()); var p := ExpireBatch(c.heap, now);
        expired == p.timers && View() == Rearmed(c.(heap := p.rest), None)
    {
      expired := PopBatch(now);
      UpdateSoonestTime(None);
    }

    /** LocTimerContainer::expire in the poll thread: the caller sends the returned message. */
    method Expire(k: Kind) returns (send: Msg)
      requires Valid()
      modifies this
      ensures Valid() && View() == old(View()).(polled := false, armed := None)
      ensures send == MsgExpire(k)
    {
      armed := None;
      polled := false;
      send := MsgExpire(k);
    }
  }

  /** The process-wide service: all timers, both containers, the message queue and the two threads. */
  class TimerService {
    var clock: Uptime
    var clients: seq<Client>
    var delegates: seq<Delegate>
    var sent: seq<Msg>
    var taken: nat
    const sw: LocTimerContainer
    const hw: LocTimerContainer
    var task: TaskPc
    var poll: PollPc
    ghost var batch: History

    ghost predicate Valid()
      reads this, sw, hw, sw.heap, hw.heap, sw.heap.repr, hw.heap.repr
    {
      && sw.Valid() && hw.Valid()
      && sw != hw && sw.heap != hw.heap && sw.heap.repr !! hw.heap.repr
    }

    ghost function View(): State
      reads this, sw, hw, sw.heap, hw.heap
    {
      State(clock, clients, delegates, sent, taken, sw.View(), hw.View(), task, poll, batch)
    }

    constructor ()
      ensures Valid() && View() == Boot
      ensures fresh(sw) && fresh(hw) && fresh(sw.heap) && fresh(hw.heap)
      ensures fresh(sw.heap.repr) && fresh(hw.heap.repr)
    {
      clock := START;
      clients, delegates, sent, taken := [], [], [], 0;
      sw := new LocTimerContainer();
      hw := new LocTimerContainer();
      task, poll := Idle, Waiting;
      batch := History(HT.Nil, []);
    }

    method Get(kind: Kind) returns (c: LocTimerContainer)
      ensures c == if kind.Sw? then sw else hw
    {
      c := if kind.Sw? then sw else hw;
    }

    method SendMsg(m: Msg)
      modifies this`sent
      ensures sent == old(sent) + [m]
    {
      sent := sent + [m];
    }

    method NewLocTimer() returns (c: nat)
      requires Valid()
      modifies this
      ensures Valid() && View() == DoNewTimer(old(View())) && c == |old(clients)|
    {
      c := |clients|;
      clients := clients + [Client(true, None, Lock(1, false), 0, 0)];
    }

    /** The arithmetic of LocTimer::start. */
    method Deadline(timeOutInMs: Millis) returns (futureTime: Instant)
      ensures futureTime == FutureTime(clock, timeOutInMs)
      ensures Nanos(futureTime) == Nanos(clock) + timeOutInMs * 1_000_000
    {
      FutureIsInstant(clock, timeOutInMs);
      var sec, nsec := clock.sec, clock.nsec;
      sec := Int32(sec + timeOutInMs / 1000);
      nsec := Int32(nsec + (timeOutInMs % 1000) * 1_000_000);
      if nsec >= NANOS {
        sec := Int32(sec + nsec / NANOS);
        nsec := nsec % NANOS;
      }
      futureTime := Timespec(sec, nsec);
    }

    method StartTimer(c: nat, timeOutInMs: Millis, wakeOnExpire: bool) returns (success: bool)
      requires Valid()
      modifies this
      ensures Valid()
      ensures View() == Do(old(View()), Start(c, timeOutInMs, if wakeOnExpire then Hw else Sw))
      ensures success <==> c < |old(clients)| && old(clients)[c].alive && old(clients)[c].timer.None?
      ensures !success ==> View() == old(View())
      ensures success ==> var id := |old(delegates)|;
        && delegates[..id] == old(delegates) && |delegates| == id + 1 && sent == old(sent) + [MsgPush(id)]
        && delegates[id].kind == (if wakeOnExpire then Hw else Sw)
        && delegates[id].owner == c && delegates[id].client == Some(c)
        && Nanos(delegates[id].at) == Nanos(old(clock)) + timeOutInMs * 1_000_000
        && |clients| == |old(clients)| && clients[c].timer == Some(id)
    {
      success := false;
      if c < |clients| && clients[c].alive && clients[c].timer.None? {
        var futureTime := Deadline(timeOutInMs);
        var id, kind := |delegates|, if wakeOnExpire then Hw else Sw;
        var cl := clients[c];
        delegates := delegates + [Delegate(c, kind, futureTime, Some(c), true, |sent|, None, 0)];
        SendMsg(MsgPush(id));
        clients := clients[c := cl.(timer := Some(id), lock := cl.lock.Share(), starts := cl.starts + 1)];
        success := true;
      }
    }

    method StopTimer(c: nat) returns (success: bool)
      requires Valid()
      modifies this
      ensures Valid()
      ensures View() == if Stoppable(old(View()), c) then DoStop(old(View()), c) else old(View())
      ensures success <==> Stoppable(old(View()), c)
      ensures success ==> |clients| == |old(clients)| && clients[c].timer == None
      ensures !success ==> View() == old(View())
    {
      success := false;
      if c < |clients| && clients[c].timer.Some? && clients[c].timer.value < |delegates| {
        var id := clients[c].timer.value;
        clients := clients[c := clients[c].(timer := None, stops := clients[c].stops + 1)];
        DestroyLocked(id);
        success := true;
      }
    }

    method DestroyLocked(id: nat)
      requires id < |delegates|
      modifies this`delegates, this`sent
      ensures var d := old(delegates)[id];
        if d.contained
        then delegates == old(delegates)[id := d.(client := None, contained := false, removeAt := Some(|old(sent)|))]
             && sent == old(sent) + [MsgRemove(id)]
        else delegates == old(delegates)[id := d.(client := None)] && sent == old(sent)
    {
      delegates := delegates[id := delegates[id].(client := None)];
      if delegates[id].contained {
        delegates := delegates[id := delegates[id].(contained := false, removeAt := Some(|sent|))];
        SendMsg(MsgRemove(id));
      }
    }

    /** LocTimer's destructor; a timer that the message thread is about to stop or call is not destroyed. */
    method DestroyTimer(c: nat)
      requires Valid() && c < |clients| && clients[c].alive && HeldClient(View()) != Some(c)
      modifies this
      ensures Valid() && View() == Do(old(View()), Destroy(c))
    {
      var stopped := StopTimer(c);
      clients := clients[c := clients[c].(alive := false, lock := clients[c].lock.Drop())];
    }

    /** epoll_wait reports containers whose fd has fired; the poll thread is to handle them in turn. */
    method WakeMove(ready: seq<Kind>)
      requires Valid() && Ready(View(), ready)
      modifies this`poll
      ensures Valid() && View() == Do(old(View()), Wake(ready))
    {
      poll := Disarm(ready[0], ready[1..]);
    }

    method PollMove()
      requires Valid()
      modifies this, sw, hw
      ensures Valid() && View() == DoPoll(old(View()))
    {
      match poll
      case Waiting =>
      case Disarm(k, rest) =>
        var c := Get(k);
        c.armed := None;
        poll := Unpoll(k, rest);
      case Unpoll(k, rest) =>
        var c := Get(k);
        c.polled := false;
        poll := Send(k, rest);
      case Send(k, rest) =>
        SendMsg(MsgExpire(k));
        poll := NextPoll(rest);
    }

    // ---------- the message thread ----------

    method TopOf(k: Kind) returns (top: Option<Timer>)
      requires Valid()
      ensures top == Top(View().Cont(k).heap)
    {
      var c := Get(k);
      top := c.GetSoonestTimer();
    }

    method PushInto(k: Kind, x: Timer)
      requires Valid()
      modifies sw.heap, hw.heap, sw.heap.repr, hw.heap.repr
      ensures Valid()
      ensures var s := old(View());
        View() == s.WithCont(k, s.Cont(k).(heap := HT.Push(TimerRank, s.Cont(k).heap, (), x)))
    {
      var c := Get(k);
      c.PushTimer(x);
    }

    method RemoveFrom(k: Kind, x: Timer) returns (removed: Option<Timer>)
      requires Valid()
      modifies sw.heap, hw.heap, sw.heap.repr, hw.heap.repr
      ensures Valid()
      ensures var s := old(View()); var h := s.Cont(k).heap;
        && removed == (if HT.Finds(TimerRank, h, x) then Some(x) else None)
        && View() == s.WithCont(k, s.Cont(k).(heap := HT.Remove(TimerRank, h, x)))
    {
      var c := Get(k);
      removed := c.RemoveTimer(x);
    }

    /** One pop of the expire loop: unconditional the first time, of due timers afterwards. */
    method PopFrom(k: Kind, now: Uptime, first: bool) returns (x: Option<Timer>)
      requires Valid()
      modifies sw.heap, hw.heap, sw.heap.repr, hw.heap.repr
      ensures Valid()
      ensures var s := old(View()); var h := s.Cont(k).heap;
        if (first && h.Node?) || (!first && PopsAt(h, now))
        then x == Some(h.data) && View() == s.WithCont(k, s.Cont(k).(heap := HT.Pop(TimerRank, h)))
        else x == None && View() == s
    {
      var c := Get(k);
      if first {
        x := c.PopTimer();
      } else {
        x := c.PopIfOutRanks(now);
      }
    }

    method PushMove(id: nat)
      requires Valid() && id < |delegates|
      modifies this`task, sw.heap, hw.heap, sw.heap.repr, hw.heap.repr
      ensures Valid() && View() == TimerModel.ProcPush(old(View()), id)
    {
      var x, k := Timer(id, delegates[id].at), delegates[id].kind;
      var priorTop := TopOf(k);
      PushInto(k, x);
      var top := TopOf(k);
      task := AfterUpdate(UpdateSoonest(priorTop, top), k, None);
    }

    method RemoveMove(id: nat)
      requires Valid() && id < |delegates|
      modifies this`task, sw.heap, hw.heap, sw.heap.repr, hw.heap.repr
      ensures Valid() && View() == TimerModel.ProcRemove(old(View()), id)
    {
      var x, k := Timer(id, delegates[id].at), delegates[id].kind;
      var priorTop := TopOf(k);
      var removed := RemoveFrom(k, x);
      var u := Keep;
      if priorTop == removed {
        var top := TopOf(k);
        u := UpdateSoonest(None, top);
      }
      task := AfterUpdate(u, k, Some(id));
    }

    method BatchMove(b: Batch, first: bool, ghost past: History)
      requires Valid()
      modifies this`task, this`batch, sw.heap, hw.heap, sw.heap.repr, hw.heap.repr
      ensures Valid()
      ensures var s := old(View()); var h := s.Cont(b.kind).heap;
        View() == if (first && h.Node?) || (!first && PopsAt(h, b.now)) then PopOne(s, b, past)
                  else s.(task := AfterUpdate(UpdateSoonest(None, Top(h)), b.kind, None))
    {
      var x := PopFrom(b.kind, b.now, first);
      if x.Some? {
        task := ReadClient(b, x.value);
        batch := past.(popped := past.popped + [x.value]);
      } else {
        var top := TopOf(b.kind);
        task := AfterUpdate(UpdateSoonest(None, top), b.kind, None);
      }
    }

    method FreeMove(id: nat)
      requires Valid()
      modifies this`delegates, this`clients, this`task
      ensures Valid() && View() == DoFree(old(View()), id)
    {
      if id < |delegates| && delegates[id].owner < |clients| {
        var c := delegates[id].owner;
        clients := clients[c := clients[c].(lock := clients[c].lock.Drop())];
        delegates := delegates[id := delegates[id].(frees := delegates[id].frees + 1)];
        task := Idle;
      }
    }

    method TakeMove()
      requires Valid() && task.Idle?
      modifies this`task, this`taken
      ensures Valid() && View() == DoTask(old(View()))
    {
      if taken < |sent| {
        task := Got(sent[taken]);
        taken := taken + 1;
      }
    }

    /** epoll_ctl: the fd is added to or taken out of the poll. */
    method PollCtlMove()
      requires Valid() && (task.AddPoll? || task.RemovePoll?)
      modifies this`task, sw, hw
      ensures Valid() && View() == DoTask(old(View()))
    {
      var c := Get(task.kind);
      c.polled := task.AddPoll?;
      task := if task.AddPoll? then SetTime(task.kind, task.free) else ClearTime(task.kind, task.free);
    }

    /** timerfd_settime: the fd is armed for the top, or disarmed. */
    method SetTimeMove()
      requires Valid() && (task.SetTime? || task.ClearTime?)
      modifies this`task, sw, hw
      ensures Valid() && View() == DoTask(old(View()))
    {
      var c := Get(task.kind);
      var top := c.GetSoonestTimer();
      c.armed := if task.SetTime? && top.Some? then Some(top.value.at) else None;
      task := Finish(task.free);
    }

    /** LocTimerDelegate::expire: read the client, stop it, call it back. */
    method ClientMove()
      requires Valid() && (task.ReadClient? || task.StopClient? || task.Callback?)
      modifies this
      ensures Valid() && View() == DoTask(old(View()))
    {
      match task
      case ReadClient(b, d) =>
        var client := if d.id < |delegates| then delegates[d.id].client else None;
        task := if client.Some? then StopClient(b, d, client.value) else More(b);
      case StopClient(b, d, c) =>
        var id := if c < |clients| then clients[c].timer else None;
        var stopped := StopTimer(c);
        task := if stopped then Callback(b, d, c, id.value) else More(b);
      case Callback(b, _, _, _) =>
        task := More(b);
    }

    /** A message is handled up to its first system call or callback. */
    method MessageMove()
      requires Valid() && task.Got?
      modifies this, sw, hw, sw.heap, hw.heap, sw.heap.repr, hw.heap.repr
      ensures Valid() && View() == DoTask(old(View()))
    {
      match task.m
      case MsgPush(id) =>
        if id < |delegates| {
          PushMove(id);
        }
      case MsgRemove(id) =>
        if id < |delegates| {
          RemoveMove(id);
        }
      case MsgExpire(k) =>
        var c := Get(k);
        BatchMove(Batch(k, clock), true, History(c.View().heap, []));
    }

    method TaskMove()
      requires Valid()
      modifies this, sw, hw, sw.heap, hw.heap, sw.heap.repr, hw.heap.repr
      ensures Valid() && View() == DoTask(old(View()))
    {
      match task
      case Got(_) => MessageMove();
      case More(b) => BatchMove(b, false, batch);
      case Free(id) => FreeMove(id);
      case Idle => TakeMove();
      case AddPoll(_, _) => PollCtlMove();
      case RemovePoll(_, _) => PollCtlMove();
      case SetTime(_, _) => SetTimeMove();
      case ClearTime(_, _) => SetTimeMove();
      case _ => ClientMove();
    }
  }
}

/**
 The blocking queue as a step system: every section under the mutex is one step, and a receiver
 waiting on the condition variable is asleep until a signal, a broadcast or chance wakes it.
 */
module QueueModel {
  import opened ListSpec

  /** A message that has left the queue: handed to a receiver, or flushed. */
  datatype Gone<T> = Gone(msg: T, received: bool)

  datatype State<T> = State(items: seq<Item<T>>, unblocked: bool, sleeping: set<nat>, woken: set<nat>,
                            accepted: seq<T>, gone: seq<Gone<T>>)

  datatype Action<T> =
    | Snd(msg: T, dealloc: bool, wakes: set<nat>)
    | Rcv(r: nat)
    | Resume(r: nat)
    | WakeByChance(r: nat)
    | FlushAll
    | Unblock

  function Empty<T>(): State<T> {
    State([], false, {}, {}, [], [])
  }

  /** A signal wakes at least one sleeper if there is any. */
  predicate Signals<T>(s: State<T>, wakes: set<nat>) {
    wakes <= s.sleeping && (s.sleeping != {} ==> wakes != {})
  }

  function DoSnd<T>(s: State<T>, msg: T, dealloc: bool, wakes: set<nat>): State<T> {
    if s.unblocked then s
    else s.(items := Added(s.items, Item(msg, dealloc)).items, accepted := s.accepted + [msg],
            sleeping := s.sleeping - wakes, woken := s.woken + wakes)
  }

  /** The loop test under the mutex: wait on, or take a message if there is one. */
  function TestOrTake<T>(s: State<T>, r: nat): State<T> {
    if s.items == [] && !s.unblocked then s.(sleeping := s.sleeping + {r})
    else if s.items == [] then s
    else s.(items := Removed(s.items).items, gone := s.gone + [Gone(Removed(s.items).handed[0], true)])
  }

  function AllGone<T>(msgs: seq<T>): (g: seq<Gone<T>>)
    ensures |g| == |msgs| && forall i :: 0 <= i < |msgs| ==> g[i] == Gone(msgs[i], false)
  {
    seq(|msgs|, i requires 0 <= i < |msgs| => Gone(msgs[i], false))
  }

  function Do<T>(s: State<T>, a: Action<T>): State<T> {
    match a
    case Snd(msg, dealloc, wakes) => if Signals(s, wakes) then DoSnd(s, msg, dealloc, wakes) else s
    case Rcv(r) =>
      if r in s.sleeping || r in s.woken || s.unblocked then s else TestOrTake(s, r)
    case Resume(r) => if r in s.woken then TestOrTake(s.(woken := s.woken - {r}), r) else s
    case WakeByChance(r) =>
      if r in s.sleeping then s.(sleeping := s.sleeping - {r}, woken := s.woken + {r}) else s
    case FlushAll => s.(items := [], gone := s.gone + AllGone(Arrivals(s.items)))
    case Unblock => if s.unblocked then s else s.(unblocked := true, sleeping := {}, woken := s.woken + s.sleeping)
  }

  function Run<T>(acts: seq<Action<T>>): State<T> {
    if acts == [] then Empty() else Do(Run(acts[..|acts| - 1]), acts[|acts| - 1])
  }

  function Msgs<T>(g: seq<Gone<T>>): (m: seq<T>)
    ensures |m| == |g| && forall i :: 0 <= i < |g| ==> m[i] == g[i].msg
  {
    seq(|g|, i requires 0 <= i < |g| => g[i].msg)
  }

  function Received<T>(g: seq<Gone<T>>): seq<T> {
    if g == [] then []
    else Received(g[..|g| - 1]) + if g[|g| - 1].received then [g[|g| - 1].msg] else []
  }

  // ---------- order ----------

  predicate InOrder<T(==)>(s: State<T>) {
    s.accepted == Msgs(s.gone) + Arrivals(s.items)
  }

  lemma TakeKeepsOrder<T>(s: State<T>, r: nat)
    requires InOrder(s)
    ensures InOrder(TestOrTake(s, r))
  {
    if s.items != [] {
      ArrivalsOfLast(s.items);
      assert Msgs(TestOrTake(s, r).gone) == Msgs(s.gone) + Removed(s.items).handed;
    }
  }

  lemma StepKeepsOrder<T>(s: State<T>, a: Action<T>)
    requires InOrder(s)
    ensures InOrder(Do(s, a))
  {
    match a
    case Snd(msg, dealloc, _) => assert ([Item(msg, dealloc)] + s.items)[1..] == s.items;
    case Rcv(r) => TakeKeepsOrder(s, r);
    case Resume(r) => TakeKeepsOrder(s.(woken := s.woken - {r}), r);
    case FlushAll => assert Msgs(Do(s, a).gone) == Msgs(s.gone) + Arrivals(s.items);
    case _ =>
  }

  /** Accepted messages leave in the order they were sent; those not gone are queued, in order. */
  lemma {:induction false} AcceptedInOrder<T>(acts: seq<Action<T>>)
    ensures Run(acts).accepted == Msgs(Run(acts).gone) + Arrivals(Run(acts).items)
  {
    if acts != [] {
      AcceptedInOrder(acts[..|acts| - 1]);
      StepKeepsOrder(Run(acts[..|acts| - 1]), acts[|acts| - 1]);
    }
  }

  lemma {:induction false} NothingFlushed<T>(acts: seq<Action<T>>)
    requires FlushAll !in acts
    ensures Received(Run(acts).gone) == Msgs(Run(acts).gone)
  {
    if acts != [] {
      var s, a := Run(acts[..|acts| - 1]), acts[|acts| - 1];
      NothingFlushed(acts[..|acts| - 1]);
      if Do(s, a).gone != s.gone {
        var g := Do(s, a).gone;
        assert g[..|g| - 1] == s.gone;
        assert Msgs(g) == Msgs(s.gone) + [g[|g| - 1].msg];
      }
    }
  }

  /** Until a flush, what was received followed by what is queued is what was accepted. */
  lemma ReceivedThenQueued<T>(acts: seq<Action<T>>)
    requires FlushAll !in acts
    ensures Received(Run(acts).gone) + Arrivals(Run(acts).items) == Run(acts).accepted
  {
    AcceptedInOrder(acts);
    NothingFlushed(acts);
  }

  // ---------- what is accepted, what is received ----------

  /** The messages that a run sends, up to the first Unblock; a send whose signal is no signal is no move. */
  function SentBeforeUnblock<T(==)>(acts: seq<Action<T>>): seq<T> {
    if acts == [] then []
    else
      var init, a := acts[..|acts| - 1], acts[|acts| - 1];
      SentBeforeUnblock(init)
      + if a.Snd? && Unblock !in init && Signals(Run(init), a.wakes) then [a.msg] else []
  }

  lemma StepAccepts<T>(s: State<T>, a: Action<T>)
    ensures Do(s, a).unblocked == (s.unblocked || a == Unblock)
    ensures Do(s, a).accepted
         == s.accepted + if a.Snd? && !s.unblocked && Signals(s, a.wakes) then [a.msg] else []
  {
  }

  lemma {:induction false} UnblockedIff<T>(acts: seq<Action<T>>)
    ensures Run(acts).unblocked <==> Unblock in acts
  {
    if acts != [] {
      var init, a := acts[..|acts| - 1], acts[|acts| - 1];
      UnblockedIff(init);
      StepAccepts(Run(init), a);
      assert acts == init + [a];
    }
  }

  /** Every message sent before the queue is unblocked is accepted, in order, and none later. */
  lemma {:induction false} AcceptsWhatIsSent<T>(acts: seq<Action<T>>)
    ensures Run(acts).accepted == SentBeforeUnblock(acts)
  {
    if acts != [] {
      var init, a := acts[..|acts| - 1], acts[|acts| - 1];
      AcceptsWhatIsSent(init);
      UnblockedIff(init);
      StepAccepts(Run(init), a);
    }
  }

  /** A receiver that gets to the loop test. */
  predicate Enters<T>(s: State<T>, a: Action<T>) {
    (a.Rcv? && a.r !in s.sleeping && a.r !in s.woken && !s.unblocked) || (a.Resume? && a.r in s.woken)
  }

  /** It takes the oldest message if there is one, else sleeps exactly if the queue is not unblocked. */
  lemma ReceivesOldest<T>(s: State<T>, a: Action<T>)
    requires Enters(s, a)
    ensures var s' := Do(s, a);
      && s'.accepted == s.accepted && s'.unblocked == s.unblocked
      && s'.woken == s.woken - {a.r}
      && (if s.items != [] then
            && s'.gone == s.gone + [Gone(Arrivals(s.items)[0], true)]
            && Arrivals(s'.items) == Arrivals(s.items)[1..] && s'.sleeping == s.sleeping
          else s'.gone == s.gone && s'.items == [] && s'.sleeping == s.sleeping + if s.unblocked then {} else {a.r})
  {
    if s.items != [] {
      ArrivalsOfLast(s.items);
    } else {
      assert s.sleeping + {} == s.sleeping;
    }
  }

  /** A flush empties the queue, an unblocking wakes everybody. */
  lemma FlushAndUnblock<T>(s: State<T>)
    ensures var f := Do(s, FlushAll); f.items == [] && f.sleeping == s.sleeping && f.woken == s.woken
    ensures var u := Do(s, Unblock);
      u.unblocked && u.items == s.items && (!s.unblocked ==> u.sleeping == {} && u.woken == s.woken + s.sleeping)
  {
  }

  // ---------- wakeups ----------

  predicate Awake<T>(s: State<T>) {
    && s.sleeping !! s.woken
    && (s.sleeping == {} || |s.woken| >= |s.items|)
    && (s.unblocked ==> s.sleeping == {})
  }

  /** A signal that wakes somebody makes one more receiver for one more message. */
  lemma SignalCounts(woken: set<nat>, wakes: set<nat>)
    requires woken !! wakes && wakes != {}
    ensures |woken + wakes| >= |woken| + 1
  {
    var w :| w in wakes;
    assert |woken + wakes| == |woken| + |wakes|;
    assert |wakes| == |wakes - {w}| + 1;
  }

  lemma SndKeepsAwake<T>(s: State<T>, msg: T, dealloc: bool, wakes: set<nat>)
    requires Awake(s) && Signals(s, wakes)
    ensures Awake(DoSnd(s, msg, dealloc, wakes))
  {
    if s.sleeping != {} {
      SignalCounts(s.woken, wakes);
    }
  }

  lemma ResumeKeepsAwake<T>(s: State<T>, r: nat)
    requires Awake(s) && r in s.woken
    ensures Awake(TestOrTake(s.(woken := s.woken - {r}), r))
  {
    assert |s.woken| == |s.woken - {r}| + 1;
  }

  lemma ChanceKeepsAwake<T>(s: State<T>, r: nat)
    requires Awake(s) && r in s.sleeping
    ensures Awake(s.(sleeping := s.sleeping - {r}, woken := s.woken + {r}))
  {
    assert |s.woken + {r}| == |s.woken| + 1;
  }

  lemma StepKeepsAwake<T>(s: State<T>, a: Action<T>)
    requires Awake(s)
    ensures Awake(Do(s, a))
  {
    match a
    case Snd(msg, dealloc, wakes) =>
      if Signals(s, wakes) {
        SndKeepsAwake(s, msg, dealloc, wakes);
      }
    case Resume(r) =>
      if r in s.woken {
        ResumeKeepsAwake(s, r);
      }
    case WakeByChance(r) =>
      if r in s.sleeping {
        ChanceKeepsAwake(s, r);
      }
    case _ =>
  }

  /** Either nobody sleeps, or at least as many receivers are on their way as messages are queued. */
  lemma {:induction false} NoLostWakeup<T>(acts: seq<Action<T>>)
    ensures var s := Run(acts); s.sleeping == {} || |s.woken| >= |s.items|
    ensures Awake(Run(acts))
  {
    if acts != [] {
      NoLostWakeup(acts[..|acts| - 1]);
      StepKeepsAwake(Run(acts[..|acts| - 1]), acts[|acts| - 1]);
    }
  }

  /** Once unblocked, the queue accepts nothing and no receiver sleeps, whatever happens. */
  lemma {:induction false} UnblockedForGood<T>(acts: seq<Action<T>>, more: seq<Action<T>>)
    requires Run(acts).unblocked
    ensures var s, s' := Run(acts), Run(acts + more);
      s'.unblocked && s'.accepted == s.accepted && s'.sleeping == {}
      && |s'.items| <= |s.items| && s'.woken <= s.woken
  {
    NoLostWakeup(acts);
    if more == [] {
      assert acts + more == acts;
    } else {
      var a := more[|more| - 1];
      UnblockedForGood(acts, more[..|more| - 1]);
      assert (acts + more)[..|acts + more| - 1] == acts + more[..|more| - 1];
      assert Run(acts + more) == Do(Run(acts + more[..|more| - 1]), a);
    }
  }

  /** A receiver that was asleep or enters after the unblocking returns at its next step. */
  lemma UnblockedReturns<T>(acts: seq<Action<T>>, r: nat)
    requires Run(acts).unblocked
    ensures var s' := Run(acts + [Resume(r)]); r !in s'.woken && r !in s'.sleeping
  {
    NoLostWakeup(acts);
    assert (acts + [Resume(r)])[..|acts|] == acts;
  }
}

/** msg_q.c over the linked list, each section under the mutex proved against its step. */
module MsgQ {
  import opened Options
  import opened ListSpec
  import opened QueueModel
  import LL = LinkedList

  datatype QError = QSuccess | QInvalidParameter | QInvalidHandle | QUnavailableResource

  function Convert(e: Error): QError {
    match e
    case Success => QSuccess
    case InvalidParameter => QInvalidParameter
    case InvalidHandle => QInvalidHandle
    case UnavailableResource => QUnavailableResource
  }

  class MsgQueue<T> {
    const msg_list: LL.ListState<T>
    var unblocked: bool
    var sleeping: set<nat>
    var woken: set<nat>
    ghost var accepted: seq<T>
    ghost var gone: seq<Gone<T>>

    ghost predicate Valid()
      reads this, msg_list, msg_list.spine
    {
      msg_list.Valid()
    }

    ghost function View(): State<T>
      reads this, msg_list
    {
      State(msg_list.items, unblocked, sleeping, woken, accepted, gone)
    }

    constructor ()
      ensures Valid() && View() == Empty() && fresh(msg_list) && msg_list.spine == []
    {
      msg_list := new LL.ListState();
      unblocked, sleeping, woken := false, {}, {};
      accepted, gone := [], [];
    }

    /** wakes are the sleepers that the signal happens to wake. */
    method Snd(msg_obj: Option<T>, dealloc: bool, wakes: set<nat>) returns (rv: QError)
      requires Valid() && Signals(View(), wakes)
      modifies this, msg_list, msg_list.spine
      ensures Valid() && (forall e :: e in msg_list.spine ==> e in old(msg_list.spine) || fresh(e))
      ensures msg_obj.None? ==> rv == QInvalidParameter && View() == old(View())
      ensures msg_obj.Some? ==>
        && rv == (if old(unblocked) then QUnavailableResource else QSuccess)
        && View() == QueueModel.Do(old(View()), QueueModel.Snd(msg_obj.value, dealloc, wakes))
      ensures rv == QSuccess ==>
        && accepted == old(accepted) + [msg_obj.value]
        && msg_list.items == [Item(msg_obj.value, dealloc)] + old(msg_list.items)
      ensures rv != QSuccess ==> View() == old(View())
    {
      if msg_obj.None? {
        return QInvalidParameter;
      }
      if unblocked {
        return QUnavailableResource;
      }
      var e := msg_list.Add(msg_obj, dealloc);
      rv := Convert(e);
      sleeping, woken := sleeping - wakes, woken + wakes;
      accepted := accepted + [msg_obj.value];
    }

    /** The loop test of msg_q_rcv and what follows it; None if the receiver goes to sleep. */
    method TestOrTake(r: nat) returns (rv: Option<QError>, msg: Option<T>)
      requires Valid()
      modifies this, msg_list, msg_list.spine
      ensures Valid() && (forall e :: e in msg_list.spine ==> e in old(msg_list.spine))
      ensures View() == QueueModel.TestOrTake(old(View()), r)
      ensures var s := old(View());
        && rv == (if s.items == [] && !s.unblocked then None
                  else Some(if s.items == [] then QUnavailableResource else QSuccess))
        && msg == (if s.items == [] then None else Some(Removed(s.items).handed[0]))
    {
      var empty := msg_list.Empty();
      if empty && !unblocked {
        sleeping := sleeping + {r};
        return None, None;
      }
      var e;
      e, msg := msg_list.Remove();
      if msg.Some? {
        gone := gone + [Gone(msg.value, true)];
      }
      rv := Some(Convert(e));
    }

    method Rcv(r: nat) returns (rv: Option<QError>, msg: Option<T>)
      requires Valid() && r !in sleeping && r !in woken
      modifies this, msg_list, msg_list.spine
      ensures Valid() && (forall e :: e in msg_list.spine ==> e in old(msg_list.spine))
      ensures View() == QueueModel.Do(old(View()), QueueModel.Rcv(r))
      ensures old(unblocked) ==> rv == Some(QUnavailableResource) && msg == None
      ensures !old(unblocked) && old(msg_list.items) != [] ==>
        && rv == Some(QSuccess) && msg == Some(old(msg_list.items)[|old(msg_list.items)| - 1].data)
        && msg_list.items == old(msg_list.items)[..|old(msg_list.items)| - 1]
      ensures r in sleeping <==> rv == None
      ensures msg.Some? ==> gone == old(gone) + [Gone(msg.value, true)]
    {
      if unblocked {
        return Some(QUnavailableResource), None;
      }
      rv, msg := TestOrTake(r);
    }

    /** A receiver that was woken re-acquires the mutex. */
    method Resume(r: nat) returns (rv: Option<QError>, msg: Option<T>)
      requires Valid() && r in woken && r !in sleeping
      modifies this, msg_list, msg_list.spine
      ensures Valid() && (forall e :: e in msg_list.spine ==> e in old(msg_list.spine))
      ensures View() == QueueModel.Do(old(View()), QueueModel.Resume(r))
      ensures r in sleeping <==> rv == None
      ensures msg.Some? ==> gone == old(gone) + [Gone(msg.value, true)]
    {
      woken := woken - {r};
      rv, msg := TestOrTake(r);
    }

    method FlushQueue() returns (rv: QError, deallocated: seq<T>)
      requires Valid()
      modifies this, msg_list, msg_list.spine
      ensures Valid() && msg_list.spine == []
      ensures View() == QueueModel.Do(old(View()), FlushAll)
      ensures rv == QSuccess && deallocated == Flushed(old(msg_list.items)).deallocated
    {
      gone := gone + AllGone(Arrivals(msg_list.items));
      var e;
      e, deallocated := msg_list.Flush();
      rv := Convert(e);
    }

    method UnblockQueue() returns (rv: QError)
      requires Valid()
      modifies this
      ensures Valid() && View() == QueueModel.Do(old(View()), Unblock)
      ensures rv == if old(unblocked) then QUnavailableResource else QSuccess
    {
      if unblocked {
        return QUnavailableResource;
      }
      unblocked := true;
      sleeping, woken := {}, woken + sleeping;
      rv := QSuccess;
    }
  }
}

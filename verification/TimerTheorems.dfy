/** The promises of the timer service, for every run. */
module TimerTheorems {
  import opened Options
  import opened Ranking
  import opened Deadline
  import opened TimerModel
  import opened TimerInv
  import opened TimerSafety
  import opened TimerArming
  import opened TimerPresence
  import HT = HeapTree

  // ---------- wakeups ----------

  /**
   Between messages, a container with timers is polled and armed at exactly its top's deadline,
   or an expire message is queued, or the poll thread is still to send one.
   */
  lemma NoLostWakeup(acts: seq<Action>, k: Kind)
    requires Run(acts).task.Idle? && Run(acts).Cont(k).heap.Node?
    ensures var s := Run(acts); var c := s.Cont(k);
      || (c.polled && c.armed == Some(c.heap.data.at))
      || (exists i :: s.taken <= i < |s.sent| && s.sent[i] == MsgExpire(k))
      || (!s.poll.Waiting? && (s.poll.kind == k || k in s.poll.rest))
  {
    RunsAreArmed(acts);
  }

  // ---------- delegates ----------

  /** A delegate is deleted at most once, after its own two messages; nobody refers to it afterwards. */
  lemma DelegateLifetime(acts: seq<Action>, id: nat)
    requires id < |Run(acts).delegates|
    ensures var s := Run(acts); var d := s.delegates[id];
      && d.frees <= 1
      && (d.frees == 1 ==>
            && !d.contained && d.removeAt.Some? && d.pushAt < d.removeAt.value < s.taken <= |s.sent|
            && s.sent[d.pushAt] == MsgPush(id) && s.sent[d.removeAt.value] == MsgRemove(id)
            && (forall i :: Handled(s) <= i < |s.sent| ==> s.sent[i] != MsgPush(id) && s.sent[i] != MsgRemove(id))
            && (forall k, x :: x in HT.Contents(s.Cont(k).heap) ==> x.id != id)
            && (s.task.ReadClient? ==> s.task.d.id != id)
            && (forall c :: 0 <= c < |s.clients| ==> s.clients[c].timer != Some(id)))
  {
    RunsAreSafe(acts);
    var s := Run(acts);
    assert DelegateMail(s, id);
    if s.delegates[id].frees == 1 {
      forall i | Handled(s) <= i < |s.sent| ensures s.sent[i] != MsgPush(id) && s.sent[i] != MsgRemove(id) {
        assert SentOk(s, i);
      }
      forall k, x | x in HT.Contents(s.Cont(k).heap) ensures x.id != id {
        assert HeapOk(s, k) && Resident(s, k, x);
      }
      forall c | 0 <= c < |s.clients| ensures s.clients[c].timer != Some(id) {
        assert ClientOk(s, c);
      }
    }
  }

  lemma OnlyFreeDeletes(s: State, a: Action, id: nat)
    requires id < |s.delegates|
    ensures |s.delegates| <= |Do(s, a).delegates|
    ensures Do(s, a).delegates[id].frees != s.delegates[id].frees ==> a.Task? && s.task == Free(id)
  {
    if a.Task? {
      match s.task
      case Got(m) => assert Do(s, a).delegates == s.delegates;
      case _ =>
    }
  }

  /** The only move that deletes a delegate is the end of the handler of its own remove message. */
  lemma FreedOnlyByItsRemove(acts: seq<Action>, a: Action, id: nat)
    requires id < |Run(acts).delegates|
    ensures |Run(acts).delegates| <= |Do(Run(acts), a).delegates|
    ensures var s := Run(acts);
      Do(s, a).delegates[id].frees != s.delegates[id].frees ==>
        && a.Task? && s.task == Free(id) && s.delegates[id].frees == 0
        && 0 < s.taken <= |s.sent| && s.sent[s.taken - 1] == MsgRemove(id)
  {
    var s := Run(acts);
    OnlyFreeDeletes(s, a, id);
    RunsAreSafe(acts);
    if s.task == Free(id) {
      FreeingIsFirst(s, id);
    }
  }

  lemma FreeingIsFirst(s: State, id: nat)
    requires MailOk(s) && FreesOk(s) && s.task == Free(id)
    ensures id < |s.delegates| && s.delegates[id].frees == 0
    ensures 0 < s.taken <= |s.sent| && s.sent[s.taken - 1] == MsgRemove(id)
  {
    assert DelegateMail(s, id);
  }

  /** The timer's shared lock counts its owner and its live delegates, and dies with the last of them. */
  lemma LockLifetime(acts: seq<Action>, c: nat)
    requires c < |Run(acts).clients|
    ensures var s := Run(acts); var cl := s.clients[c];
      && cl.lock.refs == (if cl.alive then 1 else 0) + |Live(s, c)|
      && (cl.lock.deleted <==> !cl.alive && Live(s, c) == {})
  {
    RunsAreSafe(acts);
    assert LockOk(Run(acts), c);
  }

  /** Successful starts exceed true-returning stops by one exactly while a timer is set. */
  lemma StartStopLedger(acts: seq<Action>, c: nat)
    requires c < |Run(acts).clients|
    ensures var cl := Run(acts).clients[c];
      cl.starts - cl.stops == if cl.timer.Some? then 1 else 0
  {
    RunsAreSafe(acts);
    assert ClientOk(Run(acts), c);
  }

  /** Once the message thread has caught up, exactly the stopped delegates are gone. */
  lemma NothingLeaks(acts: seq<Action>, id: nat)
    requires var s := Run(acts); s.task.Idle? && s.taken == |s.sent| && id < |s.delegates|
    ensures var s := Run(acts);
      && s.delegates[id].owner < |s.clients|
      && s.delegates[id].frees == if s.clients[s.delegates[id].owner].timer == Some(id) then 0 else 1
  {
    RunsAreSafe(acts);
    var s := Run(acts);
    assert DelegateMail(s, id) && DelegateClient(s, id);
    if s.clients[s.delegates[id].owner].timer == Some(id) {
      assert ClientOk(s, s.delegates[id].owner);
    }
  }

  /**
   The stop inside LocTimerDelegate::expire hits the delegate that was popped exactly if nobody
   has stopped that one since it was read; otherwise it hits a newer timer of the same client.
   */
  lemma ExpireStopsItsOwnDelegate(acts: seq<Action>)
    requires Run(acts).task.StopClient? && DoTask(Run(acts)).task.Callback?
    ensures var s := Run(acts);
      && s.task.d.id < |s.delegates|
      && (DoTask(s).task.stopped == s.task.d.id <==> s.delegates[s.task.d.id].contained)
      && DoTask(s).task.stopped < |s.delegates| && s.delegates[DoTask(s).task.stopped].owner == s.task.c
  {
    RunsAreSafe(acts);
    RunsHoldOwner(acts);
    var s := Run(acts);
    assert ClientOk(s, s.task.c);
    assert DelegateClient(s, s.task.d.id);
  }
}

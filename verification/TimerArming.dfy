/** No lost wakeup: a container with timers is armed for its top, or its expiration is on the way. */
module TimerArming {
  import opened Options
  import opened Ranking
  import opened Deadline
  import opened TimerModel
  import opened TimerInv
  import opened TimerSafety
  import HT = HeapTree

  ghost predicate ArmsOk(s: State) {
    ArmOk(s, Sw) && ArmOk(s, Hw)
  }

  // ---------- moves of clients, clock and poll thread ----------

  /** Nothing is taken from the queue and no wakeup of k is forgotten. */
  predicate KeepsAwake(s: State, s': State, k: Kind) {
    && s.taken <= |s.sent| && s'.taken == s.taken && s.sent <= s'.sent
    && (PollPending(s, k) ==> PollPending(s', k))
  }

  lemma AwakeKept(s: State, s': State, k: Kind)
    requires KeepsAwake(s, s', k) && Awake(s, k)
    ensures Awake(s', k)
  {
    if ExpireQueued(s, k) {
      var i :| s.taken <= i < |s.sent| && s.sent[i] == MsgExpire(k);
      assert s'.sent[i] == MsgExpire(k);
    }
  }

  /** The message thread and container k stay as they are. */
  lemma BystanderKeeps(s: State, s': State, k: Kind)
    requires ArmOk(s, k) && KeepsAwake(s, s', k)
    requires s'.task == s.task && s'.Cont(k) == s.Cont(k)
    ensures ArmOk(s', k)
  {
    if Awake(s, k) {
      AwakeKept(s, s', k);
    }
  }

  lemma PollKeepsArms(s: State, k: Kind)
    requires s.taken <= |s.sent| && ArmOk(s, k)
    ensures ArmOk(DoPoll(s), k)
  {
    var s' := DoPoll(s);
    if s.poll.Send? && s.poll.kind == k {
      assert s'.sent[|s.sent|] == MsgExpire(k);
      assert ExpireQueued(s', k);
    } else if s.poll.Disarm? || s.poll.Unpoll? || s.poll.Send? {
      if s.poll.kind == k {
        assert PollPending(s', k);
      } else {
        assert KeepsAwake(s, s', k);
        BystanderKeeps(s, s', k);
      }
    }
  }

  lemma OthersKeepArms(s: State, a: Action)
    requires s.taken <= |s.sent| && ArmsOk(s) && !a.Task?
    ensures ArmsOk(Do(s, a))
  {
    if a.Poll? {
      PollKeepsArms(s, Sw);
      PollKeepsArms(s, Hw);
    } else {
      BystanderKeeps(s, Do(s, a), Sw);
      BystanderKeeps(s, Do(s, a), Hw);
    }
  }

  // ---------- moves of the message thread ----------

  lemma TakeKeepsArms(s: State, k: Kind)
    requires s.taken <= |s.sent| && ArmOk(s, k) && s.task.Idle?
    ensures ArmOk(DoTask(s), k)
  {
    var s' := DoTask(s);
    if s.taken < |s.sent| && s.sent[s.taken] != MsgExpire(k) && ExpireQueued(s, k) {
      var i :| s.taken <= i < |s.sent| && s.sent[i] == MsgExpire(k);
      assert s'.taken <= i;
    }
  }

  /** A message about another container leaves k alone. */
  predicate Concerns(s: State, k: Kind) {
    match s.task
    case Idle => false
    case Got(MsgPush(id)) => id < |s.delegates| && s.delegates[id].kind == k
    case Got(MsgRemove(id)) => id < |s.delegates| && s.delegates[id].kind == k
    case Got(MsgExpire(j)) => j == k
    case AddPoll(j, _) => j == k
    case SetTime(j, _) => j == k
    case RemovePoll(j, _) => j == k
    case ClearTime(j, _) => j == k
    case Free(_) => false
    case ReadClient(b, _) => b.kind == k
    case StopClient(b, _, _) => b.kind == k
    case Callback(b, _, _, _) => b.kind == k
    case More(b) => b.kind == k
  }

  lemma StaysUnconcerned(s: State, k: Kind)
    requires !Concerns(s, k) && !s.task.Idle?
    ensures !Concerns(DoTask(s), k) && DoTask(s).Cont(k) == s.Cont(k)
  {
  }

  lemma MessageThreadKeepsAwake(s: State, k: Kind)
    requires s.taken <= |s.sent| && !s.task.Idle?
    ensures KeepsAwake(s, DoTask(s), k)
  {
  }

  lemma UnconcernedKeeps(s: State, k: Kind)
    requires s.taken <= |s.sent| && ArmOk(s, k) && !Concerns(s, k) && !s.task.Idle?
    ensures ArmOk(DoTask(s), k)
  {
    var s' := DoTask(s);
    StaysUnconcerned(s, k);
    MessageThreadKeepsAwake(s, k);
    if Awake(s, k) {
      AwakeKept(s, s', k);
    }
  }

  lemma PushKeepsArm(s: State, id: nat)
    requires Safe(s) && s.task == Got(MsgPush(id)) && id < |s.delegates|
    requires ArmOk(s, s.delegates[id].kind)
    ensures ArmOk(ProcPush(s, id), s.delegates[id].kind)
  {
    var s', k := ProcPush(s, id), s.delegates[id].kind;
    var h := s.Cont(k).heap;
    TimerRankIsWeakOrder();
    HT.PushKeepsHeap(TimerRank, h, (), Entry(s, id));
    assert Top(s'.Cont(k).heap).Some?;
    if Awake(s, k) {
      AwakeKept(s, s', k);
    }
  }

  lemma RemoveKeepsArm(s: State, id: nat)
    requires Safe(s) && s.task == Got(MsgRemove(id)) && id < |s.delegates|
    requires ArmOk(s, s.delegates[id].kind)
    ensures ArmOk(ProcRemove(s, id), s.delegates[id].kind)
  {
    var s', k, x := ProcRemove(s, id), s.delegates[id].kind, Entry(s, id);
    var h := s.Cont(k).heap;
    TimerRankIsWeakOrder();
    HT.RemoveKeepsHeap(TimerRank, h, x);
    assert s'.Cont(k).heap == HT.Remove(TimerRank, h, x);
    if Awake(s, k) {
      AwakeKept(s, s', k);
    }
  }

  lemma BatchKeepsArm(s: State, k: Kind)
    requires Safe(s) && InBatch(s, k) && ArmOk(s, k)
    ensures ArmOk(DoTask(s), k)
  {
    var h := s.Cont(k).heap;
    if (s.task.More? && !PopsAt(h, s.task.b.now)) || (s.task.Got? && h.Nil?) {
      assert DoTask(s).Cont(k) == s.Cont(k);
    } else {
      assert WillArm(DoTask(s), k);
    }
  }

  lemma FdMoveKeepsArm(s: State, k: Kind)
    requires s.taken <= |s.sent| && Concerns(s, k) && ArmOk(s, k)
    requires s.task.AddPoll? || s.task.SetTime? || s.task.RemovePoll? || s.task.ClearTime?
    ensures ArmOk(DoTask(s), k)
  {
    if Awake(s, k) {
      AwakeKept(s, DoTask(s), k);
    }
  }

  lemma LoopKeepsArm(s: State, k: Kind)
    requires s.taken <= |s.sent| && Concerns(s, k)
    requires s.task.ReadClient? || s.task.StopClient? || s.task.Callback?
    ensures ArmOk(DoTask(s), k)
  {
    assert WillArm(DoTask(s), k);
  }

  lemma TaskKeepsArm(s: State, k: Kind)
    requires Safe(s) && ArmOk(s, k)
    ensures ArmOk(DoTask(s), k)
  {
    if s.task.Idle? {
      TakeKeepsArms(s, k);
    } else if !Concerns(s, k) {
      UnconcernedKeeps(s, k);
    } else {
      match s.task
      case Got(MsgPush(id)) => PushKeepsArm(s, id);
      case Got(MsgRemove(id)) => RemoveKeepsArm(s, id);
      case Got(MsgExpire(_)) => BatchKeepsArm(s, k);
      case More(_) => BatchKeepsArm(s, k);
      case ReadClient(_, _) => LoopKeepsArm(s, k);
      case StopClient(_, _, _) => LoopKeepsArm(s, k);
      case Callback(_, _, _, _) => LoopKeepsArm(s, k);
      case _ => FdMoveKeepsArm(s, k);
    }
  }

  // ---------- every run ----------

  lemma {:induction false} RunsAreArmed(acts: seq<Action>)
    ensures ArmsOk(Run(acts))
  {
    if acts != [] {
      var s, a := Run(acts[..|acts| - 1]), acts[|acts| - 1];
      RunsAreArmed(acts[..|acts| - 1]);
      RunsAreSafe(acts[..|acts| - 1]);
      if a.Task? {
        TaskKeepsArm(s, Sw);
        TaskKeepsArm(s, Hw);
      } else {
        OthersKeepArms(s, a);
      }
    }
  }
}

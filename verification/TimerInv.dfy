/** What every run of the timer service keeps. */
module TimerInv {
  import opened Options
  import opened Ranking
  import opened Deadline
  import opened TimerModel
  import HT = HeapTree

  /** How many messages have had their effect on the heaps. */
  function Handled(s: State): int {
    if s.task.Got? then s.taken - 1 else s.taken
  }

  // ---------- messages ----------

  predicate DelegateMail(s: State, id: nat)
    requires id < |s.delegates|
  {
    var d := s.delegates[id];
    && d.pushAt < |s.sent| && s.sent[d.pushAt] == MsgPush(id)
    && (d.removeAt.Some? <==> !d.contained)
    && (d.removeAt.Some? ==>
          d.pushAt < d.removeAt.value < |s.sent| && s.sent[d.removeAt.value] == MsgRemove(id))
  }

  predicate SentOk(s: State, i: nat)
    requires i < |s.sent|
  {
    match s.sent[i]
    case MsgPush(id) => id < |s.delegates| && s.delegates[id].pushAt == i
    case MsgRemove(id) => id < |s.delegates| && s.delegates[id].removeAt == Some(i)
    case MsgExpire(_) => true
  }

  predicate MailOk(s: State) {
    && s.taken <= |s.sent|
    && (s.task.Got? ==> 0 < s.taken && s.sent[s.taken - 1] == s.task.m)
    && (forall id :: 0 <= id < |s.delegates| ==> DelegateMail(s, id))
    && (forall i :: 0 <= i < |s.sent| ==> SentOk(s, i))
  }

  // ---------- timers and their delegates ----------

  predicate DelegateClient(s: State, id: nat)
    requires id < |s.delegates|
  {
    var d := s.delegates[id];
    && d.owner < |s.clients|
    && d.client == (if d.contained then Some(d.owner) else None)
    && (d.contained ==> s.clients[d.owner].timer == Some(id))
  }

  predicate ClientOk(s: State, c: nat)
    requires c < |s.clients|
  {
    var cl := s.clients[c];
    && cl.starts == cl.stops + (if cl.timer.Some? then 1 else 0)
    && (cl.timer.Some? ==>
          && cl.alive && cl.timer.value < |s.delegates|
          && s.delegates[cl.timer.value].owner == c && s.delegates[cl.timer.value].contained)
  }

  predicate ClientsOk(s: State) {
    && (forall id :: 0 <= id < |s.delegates| ==> DelegateClient(s, id))
    && (forall c :: 0 <= c < |s.clients| ==> ClientOk(s, c))
    && (HeldClient(s).Some? ==> HeldClient(s).value < |s.clients| && s.clients[HeldClient(s).value].alive)
  }

  // ---------- deletion ----------

  /** The delegate whose removal the message thread is in the middle of. */
  function Removing(s: State): Option<nat> {
    match s.task
    case AddPoll(_, f) => f
    case SetTime(_, f) => f
    case RemovePoll(_, f) => f
    case ClearTime(_, f) => f
    case Free(id) => Some(id)
    case _ => None
  }

  predicate RemoveHandled(s: State, id: nat)
    requires id < |s.delegates|
  {
    s.delegates[id].removeAt.Some? && s.delegates[id].removeAt.value < Handled(s)
  }

  predicate FreesOk(s: State) {
    && (forall id :: 0 <= id < |s.delegates| ==>
          s.delegates[id].frees == if RemoveHandled(s, id) && Removing(s) != Some(id) then 1 else 0)
    && (Removing(s).Some? ==>
          && Removing(s).value < |s.delegates|
          && s.delegates[Removing(s).value].removeAt == Some(s.taken - 1))
  }

  // ---------- heaps ----------

  /** x is a delegate of container k that has been pushed and whose removal has not been handled. */
  predicate Resident(s: State, k: Kind, x: Timer) {
    && x.id < |s.delegates| && s.delegates[x.id].kind == k && s.delegates[x.id].at == x.at
    && s.delegates[x.id].pushAt < Handled(s) && !RemoveHandled(s, x.id)
  }

  ghost predicate HeapOk(s: State, k: Kind) {
    var h := s.Cont(k).heap;
    && HT.IsHeap(TimerRank, h) && HT.SizesOk(h)
    && (forall x :: x in HT.Contents(h) ==> Resident(s, k, x) && HT.Contents(h)[x] == 1)
  }

  ghost predicate HeapsOk(s: State) {
    && HeapOk(s, Sw) && HeapOk(s, Hw)
    && (s.task.ReadClient? ==> Resident(s, s.task.b.kind, s.task.d))
  }

  // ---------- arming ----------

  /** The poll thread is inside expire() for k and has its message still to send. */
  predicate PollPending(s: State, k: Kind) {
    !s.poll.Waiting? && (s.poll.kind == k || k in s.poll.rest)
  }

  ghost predicate ExpireQueued(s: State, k: Kind) {
    exists i :: s.taken <= i < |s.sent| && s.sent[i] == MsgExpire(k)
  }

  ghost predicate Awake(s: State, k: Kind) {
    PollPending(s, k) || ExpireQueued(s, k)
  }

  predicate ArmedForTop(c: Container)
    requires c.heap.Node?
  {
    c.polled && c.armed == Some(c.heap.data.at)
  }

  /** The message thread will arm k before it is done with the message in hand. */
  predicate WillArm(s: State, k: Kind) {
    match s.task
    case Got(m) => m == MsgExpire(k)
    case AddPoll(j, _) => j == k
    case ReadClient(b, _) => b.kind == k
    case StopClient(b, _, _) => b.kind == k
    case Callback(b, _, _, _) => b.kind == k
    case More(b) => b.kind == k
    case _ => false
  }

  ghost predicate ArmOk(s: State, k: Kind) {
    var c := s.Cont(k);
    && ((s.task.RemovePoll? || s.task.ClearTime?) && s.task.kind == k ==> c.heap.Nil?)
    && ((s.task.AddPoll? || s.task.SetTime?) && s.task.kind == k ==> c.heap.Node?)
    && (s.task.SetTime? && s.task.kind == k ==> c.polled || Awake(s, k))
    && (c.heap.Node? && !(s.task.SetTime? && s.task.kind == k) && !WillArm(s, k)
        ==> ArmedForTop(c) || Awake(s, k))
  }

  // ---------- lock counts ----------

  ghost function Live(s: State, c: nat): set<nat> {
    set id | 0 <= id < |s.delegates| && s.delegates[id].owner == c && s.delegates[id].frees == 0
  }

  ghost predicate LockOk(s: State, c: nat)
    requires c < |s.clients|
  {
    var l := s.clients[c].lock;
    && l.refs == (if s.clients[c].alive then 1 else 0) + |Live(s, c)|
    && (l.deleted <==> l.refs == 0)
  }

  ghost predicate LocksOk(s: State) {
    forall c :: 0 <= c < |s.clients| ==> LockOk(s, c)
  }
}

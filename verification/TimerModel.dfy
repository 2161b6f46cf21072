/**
 The timer service as a step system. Client threads, the poll thread and the message thread
 each move by one access to shared state at a time; a run is any sequence of such moves.
 */
module TimerModel {
  import opened Options
  import opened Ranking
  import opened Deadline
  import HT = HeapTree

  /** Two containers share the threads and the queue: timers and alarms. */
  datatype Kind = Sw | Hw

  datatype Msg = MsgPush(id: nat) | MsgRemove(id: nat) | MsgExpire(kind: Kind)

  /** LocSharedLock: a reference count that deletes its object on the way to zero. */
  datatype Lock = Lock(refs: int, deleted: bool) {
    function Share(): Lock {
      this.(refs := refs + 1)
    }
    function Drop(): Lock {
      Lock(refs - 1, deleted || refs == 1)
    }
  }

  /**
   A LocTimerDelegate. `client` and `contained` are the pointers mClient and mContainer != NULL;
   pushAt, removeAt and frees are history: the positions of its two messages among all messages
   ever sent, and how often it was deleted.
   */
  datatype Delegate = Delegate(owner: nat, kind: Kind, at: Instant, client: Option<nat>, contained: bool,
                               pushAt: nat, removeAt: Option<nat>, frees: nat)

  /** A LocTimer object; starts and stops count the calls that returned true. */
  datatype Client = Client(alive: bool, timer: Option<nat>, lock: Lock, starts: nat, stops: nat)

  type Heap = HT.Tree<(), Timer>

  datatype Container = Container(heap: Heap, polled: bool, armed: Option<Instant>)

  /** A MsgTimerExpire in progress: whose timers it expires, and the time it has read. */
  datatype Batch = Batch(kind: Kind, now: Uptime)

  /** History of the latest one: the heap it found, and what it has popped since. */
  datatype History = History(start: Heap, popped: seq<Timer>)

  /** Where the message thread is. */
  datatype TaskPc =
    | Idle
    | Got(m: Msg)
    | AddPoll(kind: Kind, free: Option<nat>)
    | SetTime(kind: Kind, free: Option<nat>)
    | RemovePoll(kind: Kind, free: Option<nat>)
    | ClearTime(kind: Kind, free: Option<nat>)
    | Free(id: nat)
    | ReadClient(b: Batch, d: Timer)
    | StopClient(b: Batch, d: Timer, c: nat)
    | Callback(b: Batch, d: Timer, c: nat, stopped: nat)
    | More(b: Batch)

  /** Where the poll thread is; rest holds the containers still to be handled after this one. */
  datatype PollPc =
    | Waiting
    | Disarm(kind: Kind, rest: seq<Kind>)
    | Unpoll(kind: Kind, rest: seq<Kind>)
    | Send(kind: Kind, rest: seq<Kind>)

  datatype State = State(clock: Uptime, clients: seq<Client>, delegates: seq<Delegate>,
                         sent: seq<Msg>, taken: nat, sw: Container, hw: Container,
                         task: TaskPc, poll: PollPc, batch: History)
  {
    function Cont(k: Kind): Container {
      if k.Sw? then sw else hw
    }
    function WithCont(k: Kind, c: Container): (s: State)
      ensures forall j :: s.Cont(j) == if j == k then c else Cont(j)
    {
      if k.Sw? then this.(sw := c) else this.(hw := c)
    }
  }

  datatype Action =
    | Advance(to: Uptime)
    | NewTimer
    | Start(c: nat, ms: Millis, kind: Kind)
    | Stop(c: nat)
    | Destroy(c: nat)
    | Wake(ready: seq<Kind>)
    | Poll
    | Task

  // ---------- client threads: each is one section under the timer's lock ----------

  function DoNewTimer(s: State): State {
    s.(clients := s.clients + [Client(true, None, Lock(1, false), 0, 0)])
  }

  predicate Startable(s: State, c: nat) {
    c < |s.clients| && s.clients[c].alive && s.clients[c].timer.None?
  }

  function DoStart(s: State, c: nat, ms: Millis, kind: Kind): State
    requires Startable(s, c)
  {
    FutureIsInstant(s.clock, ms);
    var id, cl := |s.delegates|, s.clients[c];
    var d := Delegate(c, kind, FutureTime(s.clock, ms), Some(c), true, |s.sent|, None, 0);
    s.(delegates := s.delegates + [d],
       clients := s.clients[c := cl.(timer := Some(id), lock := cl.lock.Share(), starts := cl.starts + 1)],
       sent := s.sent + [MsgPush(id)])
  }

  predicate Stoppable(s: State, c: nat) {
    && c < |s.clients| && s.clients[c].timer.Some?
    && s.clients[c].timer.value < |s.delegates|
  }

  /** LocTimer::stop with LocTimerDelegate::destroyLocked. */
  function DoStop(s: State, c: nat): State
    requires Stoppable(s, c)
  {
    var cl := s.clients[c];
    var id := cl.timer.value;
    var d := s.delegates[id];
    var s' := s.(clients := s.clients[c := cl.(timer := None, stops := cl.stops + 1)]);
    if d.contained
    then s'.(delegates := s.delegates[id := d.(client := None, contained := false, removeAt := Some(|s.sent|))],
             sent := s.sent + [MsgRemove(id)])
    else s'.(delegates := s.delegates[id := d.(client := None)])
  }

  /** The client that the message thread still has to call into. The environment does not destroy it meanwhile. */
  function HeldClient(s: State): Option<nat> {
    match s.task
    case StopClient(_, _, c) => Some(c)
    case Callback(_, _, c, _) => Some(c)
    case _ => None
  }

  function DoDestroy(s: State, c: nat): State
    requires c < |s.clients| && s.clients[c].alive
  {
    var s' := if Stoppable(s, c) then DoStop(s, c) else s;
    var cl := s'.clients[c];
    s'.(clients := s'.clients[c := cl.(alive := false, lock := cl.lock.Drop())])
  }

  // ---------- the poll thread ----------

  /** epoll_wait reports these containers: polled, and armed for a time that has come. */
  predicate Ready(s: State, ready: seq<Kind>) {
    && s.poll.Waiting? && ready != []
    && (forall i, j :: 0 <= i < j < |ready| ==> ready[i] != ready[j])
    && (forall i :: 0 <= i < |ready| ==> Fired(s, ready[i]))
  }

  predicate Fired(s: State, k: Kind) {
    s.Cont(k).polled && s.Cont(k).armed.Some? && Nanos(s.Cont(k).armed.value) <= Nanos(s.clock)
  }

  function NextPoll(rest: seq<Kind>): PollPc {
    if rest == [] then Waiting else Disarm(rest[0], rest[1..])
  }

  /** LocTimerContainer::expire: disarm the fd, take it out of the poll, send the message. */
  function DoPoll(s: State): State {
    match s.poll
    case Waiting => s
    case Disarm(k, rest) => s.WithCont(k, s.Cont(k).(armed := None)).(poll := Unpoll(k, rest))
    case Unpoll(k, rest) => s.WithCont(k, s.Cont(k).(polled := false)).(poll := Send(k, rest))
    case Send(k, rest) => s.(sent := s.sent + [MsgExpire(k)], poll := NextPoll(rest))
  }

  // ---------- the message thread ----------

  function Top(h: Heap): Option<Timer> {
    if h.Nil? then None else Some(h.data)
  }

  datatype Update = Keep | Disarmed | Arm

  /** The decision in LocTimerContainer::updateSoonestTime. */
  function UpdateSoonest(prior: Option<Timer>, cur: Option<Timer>): Update {
    if cur == prior then Keep
    else if cur.None? then Disarmed
    else if prior.None? || OutRanks(TimerRank, cur.value, prior.value) then Arm
    else Keep
  }

  function Finish(free: Option<nat>): TaskPc {
    if free.Some? then Free(free.value) else Idle
  }

  function AfterUpdate(u: Update, k: Kind, free: Option<nat>): TaskPc {
    match u
    case Keep => Finish(free)
    case Disarmed => RemovePoll(k, free)
    case Arm => AddPoll(k, free)
  }

  function Entry(s: State, id: nat): Timer
    requires id < |s.delegates|
  {
    Timer(id, s.delegates[id].at)
  }

  function ProcPush(s: State, id: nat): State
    requires id < |s.delegates|
  {
    var k := s.delegates[id].kind;
    var h := s.Cont(k).heap;
    var h' := HT.Push(TimerRank, h, (), Entry(s, id));
    s.WithCont(k, s.Cont(k).(heap := h'))
     .(task := AfterUpdate(UpdateSoonest(Top(h), Top(h')), k, None))
  }

  function ProcRemove(s: State, id: nat): State
    requires id < |s.delegates|
  {
    var k, x := s.delegates[id].kind, Entry(s, id);
    var h := s.Cont(k).heap;
    var h' := HT.Remove(TimerRank, h, x);
    var removed := if HT.Finds(TimerRank, h, x) then Some(x) else None;
    var u := if Top(h) == removed then UpdateSoonest(None, Top(h')) else Keep;
    s.WithCont(k, s.Cont(k).(heap := h')).(task := AfterUpdate(u, k, Some(id)))
  }

  function PopOne(s: State, b: Batch, past: History): State
    requires s.Cont(b.kind).heap.Node?
  {
    var h := s.Cont(b.kind).heap;
    s.WithCont(b.kind, s.Cont(b.kind).(heap := HT.Pop(TimerRank, h)))
     .(task := ReadClient(b, h.data), batch := past.(popped := past.popped + [h.data]))
  }

  function ProcExpire(s: State, k: Kind): State {
    var h := s.Cont(k).heap;
    if h.Nil? then s.(task := Idle) else PopOne(s, Batch(k, s.clock), History(h, []))
  }

  /** Whether LocTimerContainer::popIfOutRanks pops: the top is not later than now. */
  predicate PopsAt(h: Heap, now: Uptime) {
    h.Node? && !OutRanks(TimerRank, Timer(0, now), h.data)
  }

  function DoTask(s: State): State {
    match s.task
    case Idle =>
      if s.taken < |s.sent| then s.(taken := s.taken + 1, task := Got(s.sent[s.taken])) else s
    case Got(MsgPush(id)) => if id < |s.delegates| then ProcPush(s, id) else s
    case Got(MsgRemove(id)) => if id < |s.delegates| then ProcRemove(s, id) else s
    case Got(MsgExpire(k)) => ProcExpire(s, k)
    case AddPoll(k, f) => s.WithCont(k, s.Cont(k).(polled := true)).(task := SetTime(k, f))
    case SetTime(k, f) =>
      var h := s.Cont(k).heap;
      s.WithCont(k, s.Cont(k).(armed := if h.Node? then Some(h.data.at) else None)).(task := Finish(f))
    case RemovePoll(k, f) => s.WithCont(k, s.Cont(k).(polled := false)).(task := ClearTime(k, f))
    case ClearTime(k, f) => s.WithCont(k, s.Cont(k).(armed := None)).(task := Finish(f))
    case Free(id) => DoFree(s, id)
    case ReadClient(b, d) =>
      var client := if d.id < |s.delegates| then s.delegates[d.id].client else None;
      s.(task := if client.Some? then StopClient(b, d, client.value) else More(b))
    case StopClient(b, d, c) =>
      if Stoppable(s, c) then DoStop(s, c).(task := Callback(b, d, c, s.clients[c].timer.value))
      else s.(task := More(b))
    case Callback(b, d, c, stopped) => s.(task := More(b))
    case More(b) =>
      var h := s.Cont(b.kind).heap;
      if PopsAt(h, b.now) then PopOne(s, b, s.batch)
      else s.(task := AfterUpdate(UpdateSoonest(None, Top(h)), b.kind, None))
  }

  /** The delegate's destructor, which drops its reference to the lock. */
  function DoFree(s: State, id: nat): State {
    if id < |s.delegates| && s.delegates[id].owner < |s.clients| then
      var d := s.delegates[id];
      var cl := s.clients[d.owner];
      s.(delegates := s.delegates[id := d.(frees := d.frees + 1)],
         clients := s.clients[d.owner := cl.(lock := cl.lock.Drop())],
         task := Idle)
    else s
  }

  // ---------- runs ----------

  /** A move that is not possible in s changes nothing. */
  function Do(s: State, a: Action): State {
    match a
    case Advance(to) => if Nanos(to) >= Nanos(s.clock) then s.(clock := to) else s
    case NewTimer => DoNewTimer(s)
    case Start(c, ms, kind) => if Startable(s, c) then DoStart(s, c, ms, kind) else s
    case Stop(c) =>
      if Stoppable(s, c) && s.clients[c].alive then DoStop(s, c) else s
    case Destroy(c) =>
      if c < |s.clients| && s.clients[c].alive && HeldClient(s) != Some(c) then DoDestroy(s, c) else s
    case Wake(ready) => if Ready(s, ready) then s.(poll := Disarm(ready[0], ready[1..])) else s
    case Poll => DoPoll(s)
    case Task => DoTask(s)
  }

  const Boot := State(START, [], [], [], 0,
                      Container(HT.Nil, false, None), Container(HT.Nil, false, None),
                      Idle, Waiting, History(HT.Nil, []))

  function Run(acts: seq<Action>): State {
    if acts == [] then Boot else Do(Run(acts[..|acts| - 1]), acts[|acts| - 1])
  }

  lemma RunSnoc(acts: seq<Action>, a: Action)
    ensures Run(acts + [a]) == Do(Run(acts), a)
  {
    assert (acts + [a])[..|acts|] == acts;
  }
}

/** The AGPS resource state machine, its subscribers and what it says to whom, as values. */
module AgpsModel {
  datatype Kind = ATL | WIFI | DS

  datatype Subscriber = Subscriber(id: nat, kind: Kind, inactive: bool)

  datatype RsrcStatus = SUBSCRIBE | UNSUBSCRIBE | GRANTED | RELEASED | DENIED | STATUS_MAX

  /** The receiver of a notification: one key, or a group of subscribers. */
  datatype Receiver = Key(id: nat) | All | Active | Inactive

  datatype Notification = Notification(to: Receiver, status: RsrcStatus, postNotifyDelete: bool)

  datatype Stage = Released | Pending | Acquired | Releasing

  /**
   The trace: commands to the connectivity service, its reports, the subscriptions that the
   machine processes, and what subscribers are told.
   */
  datatype Event =
    | Request
    | Release
    | Reported(report: RsrcStatus)
    | Joining(id: nat)
    | Told(id: nat, status: RsrcStatus)

  datatype Machine = Machine(single: bool, stage: Stage, subs: seq<Subscriber>, log: seq<Event>)

  // ---------- subscribers and notifications ----------

  predicate ForMe(s: Subscriber, to: Receiver) {
    match to
    case Key(id) => s.id == id
    case All => true
    case Active => !s.inactive
    case Inactive => s.inactive
  }

  predicate Interesting(status: RsrcStatus) {
    status == UNSUBSCRIBE || status == RELEASED || status == DENIED || status == GRANTED
  }

  /** notifyRsrcStatus returns true: the notification is for s and its status is one that s handles. */
  predicate Hits(s: Subscriber, n: Notification) {
    ForMe(s, n.to) && Interesting(n.status)
  }

  /** What notifyRsrcStatus says; a WIFI subscriber takes UNSUBSCRIBE silently. */
  function Words(s: Subscriber, n: Notification): seq<Event> {
    if Hits(s, n) && !(s.kind.WIFI? && n.status.UNSUBSCRIBE?) then [Told(s.id, n.status)] else []
  }

  /** What a list of subscribers is told, head first, and who stays when those hit are deleted. */
  function AllWords(subs: seq<Subscriber>, n: Notification): seq<Event> {
    if subs == [] then [] else Words(subs[0], n) + AllWords(subs[1..], n)
  }

  function Spared(subs: seq<Subscriber>, n: Notification): seq<Subscriber> {
    if subs == [] then []
    else (if Hits(subs[0], n) then [] else [subs[0]]) + Spared(subs[1..], n)
  }

  function Notify(m: Machine, n: Notification): Machine {
    m.(log := m.log + AllWords(m.subs, n),
       subs := if n.postNotifyDelete then Spared(m.subs, n) else m.subs)
  }

  /** The position of the first subscriber in the group or with the key, or the length. */
  function Find(subs: seq<Subscriber>, to: Receiver): (i: nat)
    ensures i <= |subs|
    ensures i < |subs| ==> ForMe(subs[i], to)
    ensures forall j :: 0 <= j < i ==> !ForMe(subs[j], to)
  {
    if subs == [] || ForMe(subs[0], to) then 0 else 1 + Find(subs[1..], to)
  }

  predicate Has(subs: seq<Subscriber>, to: Receiver) {
    Find(subs, to) < |subs|
  }

  // ---------- the machine's own operations ----------

  function AddSubscriber(m: Machine, id: nat, kind: Kind): Machine {
    if Has(m.subs, Key(id)) then m else m.(subs := [Subscriber(id, kind, false)] + m.subs)
  }

  /** REQUEST is passed on only with an active subscriber, RELEASE only without. */
  function SendRequest(m: Machine): Machine {
    if Has(m.subs, Active) then m.(log := m.log + [Request]) else m
  }

  function SendRelease(m: Machine): Machine {
    if Has(m.subs, Active) then m else m.(log := m.log + [Release])
  }

  /** The subscriber at i waits for the close, or leaves at once. */
  function Leave(m: Machine, i: nat): Machine
    requires i < |m.subs|
  {
    var s := m.subs[i];
    if s.kind.ATL? then Notify(m, Notification(Key(s.id), UNSUBSCRIBE, true))
    else m.(subs := m.subs[i := s.(inactive := true)],
            log := m.log + if s.kind.DS? then [Told(s.id, UNSUBSCRIBE)] else [])
  }

  // ---------- the four states ----------

  function OnSubscribe(m: Machine, id: nat, kind: Kind): Machine {
    var m := m.(log := m.log + [Joining(id)]);
    match m.stage
    case Released => SendRequest(AddSubscriber(m, id, kind)).(stage := Pending)
    case Pending => AddSubscriber(m, id, kind)
    case Acquired => AddSubscriber(m.(log := m.log + [Told(id, GRANTED)]), id, kind)
    case Releasing => AddSubscriber(m, id, kind)
  }

  function OnUnsubscribe(m: Machine, i: nat): Machine
    requires i < |m.subs|
  {
    match m.stage
    case Released => m.(log := m.log + Words(m.subs[i], Notification(Key(m.subs[i].id), UNSUBSCRIBE, false)))
    case Pending => AfterLeave(Leave(m, i))
    case Acquired => AfterLeave(Leave(m, i))
    case Releasing =>
      var m := Leave(m, i);
      if m.subs == [] then m.(stage := Released) else m
  }

  /** In Pending and Acquired: give the resource back when nobody active is left. */
  function AfterLeave(m: Machine): Machine {
    if m.subs == [] then SendRelease(m).(stage := Released)
    else if !Has(m.subs, Active) then SendRelease(m).(stage := Releasing)
    else m
  }

  predicate IsReport(r: RsrcStatus) {
    r == GRANTED || r == RELEASED || r == DENIED
  }

  function OnReport(m: Machine, r: RsrcStatus): Machine
    requires IsReport(r)
  {
    var m := m.(log := m.log + [Reported(r)]);
    match (m.stage, r)
    case (Pending, GRANTED) => Notify(m, Notification(Active, GRANTED, false)).(stage := Acquired)
    case (Pending, DENIED) => Notify(m, Notification(All, DENIED, true)).(stage := Released)
    case (Acquired, RELEASED) => Notify(m, Notification(All, RELEASED, true)).(stage := Released)
    case (Releasing, RELEASED) => AfterRelease(Notify(m, Notification(Inactive, RELEASED, true)))
    case (Releasing, DENIED) => AfterRelease(Notify(m, Notification(Inactive, DENIED, true)))
    case _ => m
  }

  /** In Releasing: ask again for those who have subscribed meanwhile. */
  function AfterRelease(m: Machine): Machine {
    if Has(m.subs, Active) then SendRequest(m).(stage := Pending) else m.(stage := Released)
  }

  // ---------- what callers can do ----------

  datatype Action =
    | Subscribe(id: nat, kind: Kind)
    | Unsubscribe(id: nat)
    | Report(status: RsrcStatus)
    | DropAll

  function Do(m: Machine, a: Action): Machine {
    match a
    case Subscribe(id, kind) =>
      if m.single && m.subs != [] then m.(log := m.log + [Told(id, DENIED)])
      else OnSubscribe(m, id, kind)
    case Unsubscribe(id) =>
      if Has(m.subs, Key(id)) then OnUnsubscribe(m, Find(m.subs, Key(id))) else m
    case Report(r) => if IsReport(r) then OnReport(m, r) else m
    case DropAll => m.(subs := [])
  }

  function Run(single: bool, acts: seq<Action>): Machine {
    if acts == [] then Machine(single, Released, [], [])
    else Do(Run(single, acts[..|acts| - 1]), acts[|acts| - 1])
  }
}

/** The adapter array of LocApiBase and the event mask it determines. */
module RegistryModel {
  type Mask = bv32

  const MAX_ADAPTERS := 10

  /** What LocApiBase tells the location engine, and the messages that make it do so later. */
  datatype Call = Open(mask: Mask) | Close
  datatype Msg = MsgOpen | MsgSsr

  // ---------- the array as a list ----------

  predicate Distinct<T(==)>(list: seq<T>) {
    forall i, j :: 0 <= i < j < |list| ==> list[i] != list[j]
  }

  predicate Fits<T(==)>(list: seq<T>, a: T) {
    a !in list && |list| < MAX_ADAPTERS
  }

  function Added<T(==)>(list: seq<T>, a: T): seq<T> {
    if Fits(list, a) then list + [a] else list
  }

  /** The position of a, or the length. */
  function Position<T(==)>(list: seq<T>, a: T): (i: nat)
    ensures i <= |list| && a !in list[..i]
    ensures i < |list| ==> list[i] == a
  {
    if list == [] || list[0] == a then 0
    else
      var i := 1 + Position(list[1..], a);
      assert list[..i] == [list[0]] + list[1..][..i - 1];
      i
  }

  /** The last entry moves into the hole. */
  function Removed<T(==)>(list: seq<T>, a: T): seq<T> {
    var i := Position(list, a);
    if i == |list| then list else list[i := list[|list| - 1]][..|list| - 1]
  }

  // ---------- masks ----------

  function OrAll(masks: seq<Mask>): Mask {
    if masks == [] then 0 else OrAll(masks[..|masks| - 1]) | masks[|masks| - 1]
  }

  function MaskOf(masks: map<nat, Mask>, a: nat): Mask {
    if a in masks then masks[a] else 0
  }

  function MasksOf(list: seq<nat>, masks: map<nat, Mask>): (m: seq<Mask>)
    ensures |m| == |list| && forall i :: 0 <= i < |list| ==> m[i] == MaskOf(masks, list[i])
  {
    seq(|list|, i requires 0 <= i < |list| => MaskOf(masks, list[i]))
  }

  predicate Has(mask: Mask, event: Mask) {
    mask & event != 0
  }

  lemma OrHas(x: Mask, y: Mask, event: Mask)
    ensures Has(x | y, event) <==> Has(x, event) || Has(y, event)
  {
    assert (x | y) & event == (x & event) | (y & event);
  }

  /** Masks differ only if one has something beyond the other. */
  lemma Beyond(x: Mask, y: Mask)
    ensures !Has(y, x & !y)
    ensures !Has(x, x & !y) && !Has(y, y & !x) ==> x == y
  {
    assert x & (x & !y) == x & !y;
    assert y & (y & !x) == y & !x;
  }

  predicate SomeHas(masks: seq<Mask>, event: Mask) {
    masks != [] && (SomeHas(masks[..|masks| - 1], event) || Has(masks[|masks| - 1], event))
  }

  lemma {:induction false} SomeHasIff(masks: seq<Mask>, event: Mask)
    ensures SomeHas(masks, event) <==> exists i :: 0 <= i < |masks| && Has(masks[i], event)
  {
    if masks != [] {
      var rest, n := masks[..|masks| - 1], |masks| - 1;
      SomeHasIff(rest, event);
      assert forall i :: 0 <= i < n ==> masks[i] == rest[i];
    }
  }

  /** An event is in the disjunction exactly if it is in some mask. */
  lemma {:induction false} OrAllHas(masks: seq<Mask>, event: Mask)
    ensures Has(OrAll(masks), event) <==> SomeHas(masks, event)
  {
    if masks == [] {
      assert 0 as Mask & event == 0;
    } else {
      var rest, last := OrAll(masks[..|masks| - 1]), masks[|masks| - 1];
      OrAllHas(masks[..|masks| - 1], event);
      OrHas(rest, last, event);
    }
  }

  lemma OrAllWithin(a: seq<Mask>, b: seq<Mask>, event: Mask)
    requires forall m :: m in a ==> m in b
    requires Has(OrAll(a), event)
    ensures Has(OrAll(b), event)
  {
    OrAllHas(a, event);
    OrAllHas(b, event);
    SomeHasIff(a, event);
    SomeHasIff(b, event);
    var i :| 0 <= i < |a| && Has(a[i], event);
    assert a[i] in b;
  }

  /** The order of the entries, which a removal changes, does not matter. */
  lemma OrderDoesNotMatter(a: seq<Mask>, b: seq<Mask>)
    requires forall m :: m in a <==> m in b
    ensures OrAll(a) == OrAll(b)
  {
    var x, y := OrAll(a), OrAll(b);
    if Has(x, x & !y) {
      OrAllWithin(a, b, x & !y);
    }
    if Has(y, y & !x) {
      OrAllWithin(b, a, y & !x);
    }
    Beyond(x, y);
    Beyond(y, x);
  }

  // ---------- the list as a set ----------

  ghost function SetOf<T>(list: seq<T>): set<T> {
    set a | a in list
  }

  predicate Registry<T(==)>(list: seq<T>) {
    Distinct(list) && |list| <= MAX_ADAPTERS
  }

  lemma AddedIsUnion<T>(list: seq<T>, a: T)
    requires Registry(list)
    ensures Registry(Added(list, a))
    ensures SetOf(Added(list, a)) == if |list| < MAX_ADAPTERS then SetOf(list) + {a} else SetOf(list)
  {
    assert forall x :: x in Added(list, a) <==> x in list || (x == a && Fits(list, a));
  }

  lemma RemovedIsDifference<T>(list: seq<T>, a: T)
    requires Registry(list)
    ensures Registry(Removed(list, a))
    ensures SetOf(Removed(list, a)) == SetOf(list) - {a}
    ensures |Removed(list, a)| == |list| - if a in list then 1 else 0
  {
    var i, n, r := Position(list, a), |list| - 1, Removed(list, a);
    if i < |list| {
      assert r[..i] == list[..i];
      forall x | x in list && x != a ensures x in r {
        var j :| 0 <= j < |list| && list[j] == x;
        assert if j == n then r[i] == x else r[j] == x;
      }
      assert forall j :: 0 <= j < n ==> r[j] == list[if j == i then n else j];
    } else {
      assert list[..i] == list;
    }
  }

  // ---------- runs ----------

  /**
   The registered adapters, the mask of every adapter that exists, the message thread's queue and
   the calls made to the engine so far.
   */
  datatype State = State(adapters: seq<nat>, masks: map<nat, Mask>, excluded: Mask, queue: seq<Msg>,
                         calls: seq<Call>)

  /** An adapter's constructor, destructor and updateEvtMask, an engine restart, one message handled. */
  datatype Action =
    | Construct(a: nat, mask: Mask)
    | Destroy(a: nat)
    | Update(a: nat, event: Mask, enabled: bool)
    | EngineUp
    | Proc

  function Initial(excluded: Mask): State {
    State([], map[], excluded, [], [])
  }

  function Allowed(mask: Mask, excluded: Mask): Mask {
    mask & !excluded
  }

  /** getEvtMask. */
  function Wanted(s: State): Mask {
    Allowed(OrAll(MasksOf(s.adapters, s.masks)), s.excluded)
  }

  /** What the engine was last told; a closed engine reports nothing. */
  function Told(calls: seq<Call>): Mask {
    if calls == [] || calls[|calls| - 1] == Close then 0 else calls[|calls| - 1].mask
  }

  function DoAdd(s: State, a: nat): State {
    if Fits(s.adapters, a) then s.(adapters := Added(s.adapters, a), queue := s.queue + [MsgOpen]) else s
  }

  function DoRemove(s: State, a: nat): State {
    if a !in s.adapters then s
    else
      var left := Removed(s.adapters, a);
      if left == [] then s.(adapters := left, calls := s.calls + [Close])
      else s.(adapters := left, queue := s.queue + [MsgOpen])
  }

  function Updated(mask: Mask, event: Mask, enabled: bool): Mask {
    if enabled then mask | event else mask & !event
  }

  function CallsOf(msg: Msg, mask: Mask): seq<Call> {
    match msg case MsgOpen => [Open(mask)] case MsgSsr => [Close, Open(mask)]
  }

  function Do(s: State, act: Action): State {
    match act
    case Construct(a, mask) => if a in s.masks then s else DoAdd(s.(masks := s.masks[a := mask]), a)
    case Destroy(a) =>
      if a !in s.masks then s else var t := DoRemove(s, a); t.(masks := t.masks - {a})
    case Update(a, event, enabled) =>
      if a !in s.masks then s
      else s.(masks := s.masks[a := Updated(s.masks[a], event, enabled)], queue := s.queue + [MsgOpen])
    case EngineUp => s.(queue := s.queue + [MsgSsr])
    case Proc =>
      if s.queue == [] then s
      else s.(queue := s.queue[1..], calls := s.calls + CallsOf(s.queue[0], Wanted(s)))
  }

  function Run(s: State, acts: seq<Action>): State {
    if acts == [] then s else Do(Run(s, acts[..|acts| - 1]), acts[|acts| - 1])
  }

  // ---------- the array over runs ----------

  /** The array holds existing adapters only, each once. */
  ghost predicate Sound(s: State) {
    Registry(s.adapters) && forall a :: a in s.adapters ==> a in s.masks
  }

  lemma StepIsSound(s: State, act: Action)
    requires Sound(s)
    ensures Sound(Do(s, act))
  {
    match act
    case Construct(a, _) =>
      AddedIsUnion(s.adapters, a);
    case Destroy(a) =>
      RemovedIsDifference(s.adapters, a);
      var r := Removed(s.adapters, a);
      assert forall x :: x in r ==> x in SetOf(r);
    case _ =>
  }

  lemma {:induction false} RunIsSound(excluded: Mask, acts: seq<Action>)
    ensures Sound(Run(Initial(excluded), acts))
  {
    if acts != [] {
      RunIsSound(excluded, acts[..|acts| - 1]);
      StepIsSound(Run(Initial(excluded), acts[..|acts| - 1]), acts[|acts| - 1]);
    }
  }

  predicate Destroys(acts: seq<Action>, a: nat) {
    Destroy(a) in acts
  }

  lemma StepKeepsStanding(s: State, a: nat, act: Action)
    requires Sound(s) && a in s.masks && act != Destroy(a)
    ensures a in Do(s, act).masks && (a in Do(s, act).adapters <==> a in s.adapters)
  {
    match act
    case Construct(b, _) =>
    case Destroy(b) =>
      RemovedIsDifference(s.adapters, b);
      assert a in SetOf(Removed(s.adapters, b)) <==> a in SetOf(s.adapters) - {b};
    case _ =>
  }

  /**
   Registration is decided once, by the constructor, and only the destructor ends it: an adapter
   that found the array full is never registered later, however much room there is.
   */
  lemma {:induction false} StandingLasts(s: State, a: nat, acts: seq<Action>)
    requires Sound(s) && a in s.masks && !Destroys(acts, a)
    ensures Sound(Run(s, acts)) && a in Run(s, acts).masks
    ensures a in Run(s, acts).adapters <==> a in s.adapters
  {
    if acts != [] {
      var k := |acts| - 1;
      assert acts[k] in acts;
      StandingLasts(s, a, acts[..k]);
      StepIsSound(Run(s, acts[..k]), acts[k]);
      StepKeepsStanding(Run(s, acts[..k]), a, acts[k]);
    }
  }

  // ---------- the mask over runs ----------

  /** An adapter outside the array contributes nothing. */
  lemma OutsiderIsIgnored(list: seq<nat>, masks: map<nat, Mask>, a: nat, mask: Mask)
    requires a !in list
    ensures MasksOf(list, masks[a := mask]) == MasksOf(list, masks)
    ensures MasksOf(list, masks - {a}) == MasksOf(list, masks)
  {
  }

  /** Which adapters are registered matters, the order of the array does not. */
  lemma WantedIgnoresOrder(s: State, list: seq<nat>)
    requires SetOf(list) == SetOf(s.adapters)
    ensures Wanted(s.(adapters := list)) == Wanted(s)
  {
    var a, b := MasksOf(list, s.masks), MasksOf(s.adapters, s.masks);
    assert forall x :: x in list <==> x in SetOf(s.adapters);
    forall m ensures m in a <==> m in b {
      if m in a {
        var i :| 0 <= i < |a| && a[i] == m;
        assert list[i] in SetOf(s.adapters);
      }
      if m in b {
        var i :| 0 <= i < |b| && b[i] == m;
        assert s.adapters[i] in SetOf(list);
      }
    }
    OrderDoesNotMatter(a, b);
  }

  ghost predicate AskedFor(s: State, event: Mask) {
    exists i :: 0 <= i < |s.adapters| && Has(MaskOf(s.masks, s.adapters[i]), event)
  }

  lemma AskedForIff(s: State, event: Mask)
    ensures Has(OrAll(MasksOf(s.adapters, s.masks)), event) <==> AskedFor(s, event)
  {
    var masks := MasksOf(s.adapters, s.masks);
    OrAllHas(masks, event);
    SomeHasIff(masks, event);
    assert forall i :: 0 <= i < |masks| ==> masks[i] == MaskOf(s.masks, s.adapters[i]);
  }

  lemma AllowedHas(mask: Mask, excluded: Mask, event: Mask)
    ensures Has(Allowed(mask, excluded), event) <==> Has(mask, Allowed(event, excluded))
  {
    assert (mask & !excluded) & event == mask & (event & !excluded);
  }

  lemma AllowedBits(mask: Mask, excluded: Mask, event: Mask)
    ensures Allowed(mask, excluded) & excluded == 0
    ensures event & excluded == 0 ==> Allowed(event, excluded) == event
  {
  }

  /**
   No excluded event is ever wanted; any other event is wanted exactly if a registered adapter asks
   for it.
   */
  lemma WantedIff(s: State, event: Mask)
    ensures Wanted(s) & s.excluded == 0
    ensures event & s.excluded == 0 ==> (Has(Wanted(s), event) <==> AskedFor(s, event))
  {
    AllowedBits(OrAll(MasksOf(s.adapters, s.masks)), s.excluded, event);
    if event & s.excluded == 0 {
      WantedOfAllowed(s, event);
    }
  }

  lemma WantedOfAllowed(s: State, event: Mask)
    requires Allowed(event, s.excluded) == event
    ensures Has(Wanted(s), event) <==> AskedFor(s, event)
  {
    AllowedHas(OrAll(MasksOf(s.adapters, s.masks)), s.excluded, event);
    AskedForIff(s, event);
  }

  // ---------- what each call does ----------

  lemma SetBits(mask: Mask, event: Mask)
    ensures (mask | event) & event == event
    ensures (mask | event) & !event == mask & !event
  {
  }

  lemma ClearBits(mask: Mask, event: Mask)
    ensures (mask & !event) & event == 0
    ensures (mask & !event) & !event == mask & !event
  {
  }

  /** An update that enables sets the events named and leaves all others. */
  lemma UpdateSets(mask: Mask, event: Mask)
    ensures Updated(mask, event, true) & event == event
    ensures Updated(mask, event, true) & !event == mask & !event
  {
    SetBits(mask, event);
  }

  /** One that disables clears them and leaves all others. */
  lemma UpdateClears(mask: Mask, event: Mask)
    ensures Updated(mask, event, false) & event == 0
    ensures Updated(mask, event, false) & !event == mask & !event
  {
    ClearBits(mask, event);
  }

  /** Every other adapter keeps its mask. */
  predicate OtherMasksSame(s: State, s': State, a: nat) {
    && (forall x :: x in s.masks && x != a ==> x in s'.masks && s'.masks[x] == s.masks[x])
    && (forall x :: x in s'.masks && x != a ==> x in s.masks)
  }

  /** A new adapter has the mask it was made with, and is registered last if there is room. */
  lemma ConstructRegisters(s: State, a: nat, mask: Mask)
    requires Sound(s) && a !in s.masks
    ensures var s' := Do(s, Construct(a, mask));
      && a in s'.masks && s'.masks[a] == mask && OtherMasksSame(s, s', a)
      && s'.adapters == (if |s.adapters| < 10 then s.adapters + [a] else s.adapters)
      && s'.queue == (if |s.adapters| < 10 then s.queue + [MsgOpen] else s.queue) && s'.calls == s.calls
  {
  }

  /** An update changes the one adapter's mask and has the engine told. */
  lemma UpdateChangesOne(s: State, a: nat, event: Mask, enabled: bool)
    requires a in s.masks
    ensures var s' := Do(s, Update(a, event, enabled));
      && a in s'.masks && OtherMasksSame(s, s', a)
      && s'.masks[a] == Updated(s.masks[a], event, enabled)
      && s'.queue == s.queue + [MsgOpen] && s'.adapters == s.adapters && s'.calls == s.calls
  {
  }

  /** A destroyed adapter has no mask, and is not registered; the others are, as before. */
  lemma DestroyUnregisters(s: State, a: nat)
    requires Sound(s) && a in s.masks
    ensures var s' := Do(s, Destroy(a));
      a !in s'.masks && OtherMasksSame(s, s', a) && SetOf(s'.adapters) == SetOf(s.adapters) - {a}
  {
    RemovedIsDifference(s.adapters, a);
    var left := if a in s.adapters then Removed(s.adapters, a) else s.adapters;
    assert Do(s, Destroy(a)).adapters == left;
  }

  lemma {:induction false} DrainEnds(s: State, msg: Msg)
    ensures exists pre :: Drained(s.(queue := s.queue + [msg])).calls == s.calls + pre + CallsOf(msg, Wanted(s))
    decreases |s.queue|
  {
    var t := s.(queue := s.queue + [msg]);
    if s.queue == [] {
      assert t.queue == [msg] && [msg][1..] == [];
      assert Drained(t).calls == s.calls + [] + CallsOf(msg, Wanted(s));
    } else {
      var u := Do(s, Proc);
      assert t.queue[0] == s.queue[0] && t.queue[1..] == s.queue[1..] + [msg];
      assert Do(t, Proc) == u.(queue := u.queue + [msg]);
      DrainEnds(u, msg);
      var pre :| Drained(u.(queue := u.queue + [msg])).calls == u.calls + pre + CallsOf(msg, Wanted(u));
      assert u.calls + pre == s.calls + (CallsOf(s.queue[0], Wanted(s)) + pre);
    }
  }

  /** After an engine restart, once the queue is drained, the engine has been closed and opened again, last of all. */
  lemma RestartReopens(s: State)
    ensures exists pre :: Drained(Do(s, EngineUp)).calls == s.calls + pre + [Close, Open(Wanted(s))]
  {
    DrainEnds(s, MsgSsr);
  }

  /** The engine has been told the mask wanted now, or a message that will tell it is queued. */
  predicate InSync(s: State) {
    s.queue == [] ==> Told(s.calls) == Wanted(s)
  }

  lemma ClosedWantsNothing(s: State)
    requires s.adapters == []
    ensures Wanted(s) == 0
  {
    assert MasksOf([], s.masks) == [];
  }

  lemma StepKeepsSync(s: State, act: Action)
    requires Sound(s) && InSync(s)
    ensures InSync(Do(s, act))
  {
    match act
    case Construct(a, mask) =>
      if a !in s.masks {
        OutsiderIsIgnored(s.adapters, s.masks, a, mask);
      }
    case Destroy(a) =>
      if a in s.masks {
        if a in s.adapters && Removed(s.adapters, a) == [] {
          ClosedWantsNothing(Do(s, act));
        } else if a !in s.adapters {
          OutsiderIsIgnored(s.adapters, s.masks, a, 0);
        }
      }
    case _ =>
  }

  /** In every run, whenever no message is waiting, the engine has been told exactly the wanted mask. */
  lemma {:induction false} RunIsInSync(excluded: Mask, acts: seq<Action>)
    ensures InSync(Run(Initial(excluded), acts))
  {
    if acts == [] {
      ClosedWantsNothing(Initial(excluded));
    } else {
      var s := Run(Initial(excluded), acts[..|acts| - 1]);
      RunIsInSync(excluded, acts[..|acts| - 1]);
      RunIsSound(excluded, acts[..|acts| - 1]);
      StepKeepsSync(s, acts[|acts| - 1]);
    }
  }

  function Drained(s: State): State
    decreases |s.queue|
  {
    if s.queue == [] then s else Drained(Do(s, Proc))
  }

  /** Handling what is queued changes neither the registry nor the wanted mask, and tells the engine. */
  lemma {:induction false} DrainTells(s: State)
    requires InSync(s)
    ensures Drained(s).queue == [] && Drained(s).adapters == s.adapters && Drained(s).masks == s.masks
    ensures Told(Drained(s).calls) == Wanted(s)
    decreases |s.queue|
  {
    if s.queue != [] {
      DrainTells(Do(s, Proc));
    }
  }
}

/** What linked_list.c promises, as operations on a sequence (head first). */
module ListSpec {
  /** An element's data, and whether the list was given a function to deallocate it. */
  datatype Item<T> = Item(data: T, dealloc: bool)

  datatype Error = Success | InvalidParameter | InvalidHandle | UnavailableResource

  /** What an operation leaves in the list, and what becomes of the data it takes out. */
  datatype Outcome<T> = Outcome(items: seq<Item<T>>, handed: seq<T>, deallocated: seq<T>, lost: seq<T>)

  function Added<T>(items: seq<Item<T>>, x: Item<T>): Outcome<T> {
    Outcome([x] + items, [], [], [])
  }

  function Removed<T>(items: seq<Item<T>>): Outcome<T> {
    if items == [] then Outcome(items, [], [], [])
    else Outcome(items[..|items| - 1], [items[|items| - 1].data], [], [])
  }

  /** The position of the first match, or the length if there is none. */
  function FirstMatch<T>(items: seq<Item<T>>, equal: T -> bool): (i: nat)
    ensures i <= |items|
    ensures i < |items| ==> equal(items[i].data)
    ensures forall j :: 0 <= j < i ==> !equal(items[j].data)
  {
    if items == [] || equal(items[0].data) then 0 else 1 + FirstMatch(items[1..], equal)
  }

  function Searched<T>(items: seq<Item<T>>, equal: T -> bool, wanted: bool, rm: bool): Outcome<T> {
    var i := FirstMatch(items, equal);
    if i == |items| || !rm then Outcome(items, [], [], [])
    else
      var x := items[i];
      Outcome(items[..i] + items[i + 1..],
              if wanted then [x.data] else [],
              if !wanted && x.dealloc then [x.data] else [],
              if !wanted && !x.dealloc then [x.data] else [])
  }

  function Flushed<T>(items: seq<Item<T>>): Outcome<T> {
    Outcome([], [], Kept(items, true), Kept(items, false))
  }

  /** The data of the items that have (or lack) a deallocation function, in order. */
  function Kept<T>(items: seq<Item<T>>, dealloc: bool): seq<T> {
    if items == [] then []
    else (if items[0].dealloc == dealloc then [items[0].data] else []) + Kept(items[1..], dealloc)
  }

  lemma KeptStep<T>(items: seq<Item<T>>, i: nat)
    requires i < |items|
    ensures Kept(items[i..], true)
            == (if items[i].dealloc then [items[i].data] else []) + Kept(items[i + 1..], true)
  {
    assert items[i..][0] == items[i] && items[i..][1..] == items[i + 1..];
  }

  // ---------- runs ----------

  datatype Op<!T> = Add(x: T, dealloc: bool) | Remove | Search(equal: T -> bool, wanted: bool, rm: bool) | Flush

  function Do<T>(items: seq<Item<T>>, op: Op<T>): Outcome<T> {
    match op
    case Add(x, dealloc) => Added(items, Item(x, dealloc))
    case Remove => Removed(items)
    case Search(equal, wanted, rm) => Searched(items, equal, wanted, rm)
    case Flush => Flushed(items)
  }

  /** Everything that has left the list so far, over a run that starts from an empty list. */
  function Run<T>(ops: seq<Op<T>>): Outcome<T> {
    if ops == [] then Outcome([], [], [], [])
    else
      var before := Run(ops[..|ops| - 1]);
      var o := Do(before.items, ops[|ops| - 1]);
      Outcome(o.items, before.handed + o.handed, before.deallocated + o.deallocated, before.lost + o.lost)
  }

  function Data<T>(items: seq<Item<T>>): (d: seq<T>)
    ensures |d| == |items| && forall i :: 0 <= i < |items| ==> d[i] == items[i].data
  {
    if items == [] then [] else [items[0].data] + Data(items[1..])
  }

  ghost function DataOf<T>(items: seq<Item<T>>): multiset<T> {
    multiset(Data(items))
  }

  ghost function AddedData<T>(ops: seq<Op<T>>): multiset<T> {
    if ops == [] then multiset{}
    else AddedData(ops[..|ops| - 1]) + Brought(ops[|ops| - 1])
  }

  /** Where the data of an outcome is: still listed, handed to the caller, deallocated, or lost. */
  ghost function Whereabouts<T>(o: Outcome<T>): multiset<T> {
    DataOf(o.items) + multiset(o.handed) + multiset(o.deallocated) + multiset(o.lost)
  }

  lemma DataOfSplit<T>(items: seq<Item<T>>, i: nat)
    requires i < |items|
    ensures DataOf(items) == DataOf(items[..i] + items[i + 1..]) + multiset{items[i].data}
  {
    var d, rest := Data(items), Data(items[..i] + items[i + 1..]);
    assert rest == d[..i] + d[i + 1..];
    assert d == d[..i] + ([d[i]] + d[i + 1..]);
  }

  lemma {:induction false} KeptSplits<T>(items: seq<Item<T>>)
    ensures DataOf(items) == multiset(Kept(items, true)) + multiset(Kept(items, false))
  {
    if items != [] {
      KeptSplits(items[1..]);
      var x := items[0].data;
      assert DataOf(items) == multiset{x} + DataOf(items[1..]);
    }
  }

  /** What an operation adds to the list. */
  ghost function Brought<T>(op: Op<T>): multiset<T> {
    match op case Add(x, _) => multiset{x} case _ => multiset{}
  }

  lemma SearchConserves<T>(items: seq<Item<T>>, equal: T -> bool, wanted: bool, rm: bool)
    ensures Whereabouts(Searched(items, equal, wanted, rm)) == DataOf(items)
  {
    var i := FirstMatch(items, equal);
    if i < |items| && rm {
      DataOfSplit(items, i);
    }
  }

  lemma RemoveConserves<T>(items: seq<Item<T>>)
    ensures Whereabouts(Removed(items)) == DataOf(items)
  {
    if items != [] {
      DataOfSplit(items, |items| - 1);
      assert items[..|items| - 1] + items[|items|..] == items[..|items| - 1];
    }
  }

  lemma AddConserves<T>(items: seq<Item<T>>, x: Item<T>)
    ensures Whereabouts(Added(items, x)) == DataOf(items) + multiset{x.data}
  {
    assert Data([x] + items) == [x.data] + Data(items);
  }

  lemma FlushConserves<T>(items: seq<Item<T>>)
    ensures Whereabouts(Flushed(items)) == DataOf(items)
  {
    KeptSplits(items);
  }

  lemma StepConserves<T>(items: seq<Item<T>>, op: Op<T>)
    ensures Whereabouts(Do(items, op)) == DataOf(items) + Brought(op)
  {
    match op
    case Add(x, dealloc) => AddConserves(items, Item(x, dealloc));
    case Remove => RemoveConserves(items);
    case Search(equal, wanted, rm) => SearchConserves(items, equal, wanted, rm);
    case Flush => FlushConserves(items);
  }

  lemma SumOfWhereabouts<T>(a: Outcome<T>, o: Outcome<T>)
    ensures Whereabouts(Outcome(o.items, a.handed + o.handed, a.deallocated + o.deallocated, a.lost + o.lost))
            == Whereabouts(o) + (multiset(a.handed) + multiset(a.deallocated) + multiset(a.lost))
  {
  }

  // ---------- what goes, and where ----------

  /**
   A search with removal takes out the first match and nothing else; its datum goes to the caller if
   wanted, else to its deallocation function if it has one.
   */
  lemma SearchTakesFirst<T>(items: seq<Item<T>>, equal: T -> bool, wanted: bool, i: nat)
    requires i < |items| && equal(items[i].data) && forall j :: 0 <= j < i ==> !equal(items[j].data)
    ensures var o, x := Searched(items, equal, wanted, true), items[i];
      && o.items[..i] == items[..i] && o.items[i..] == items[i + 1..] && |o.items| == |items| - 1
      && o.handed == (if wanted then [x.data] else [])
      && o.deallocated == (if !wanted && x.dealloc then [x.data] else [])
  {
    MatchIs(items, equal, i);
  }

  lemma {:induction false} MatchIs<T>(items: seq<Item<T>>, equal: T -> bool, i: nat)
    requires i < |items| && equal(items[i].data) && forall j :: 0 <= j < i ==> !equal(items[j].data)
    ensures FirstMatch(items, equal) == i
  {
    var m := FirstMatch(items, equal);
    assert m <= i;
  }

  /** Without a match, or without the wish to remove, a search changes nothing. */
  lemma SearchLeaves<T>(items: seq<Item<T>>, equal: T -> bool, wanted: bool, rm: bool)
    requires !rm || forall j :: 0 <= j < |items| ==> !equal(items[j].data)
    ensures Searched(items, equal, wanted, rm) == Outcome(items, [], [], [])
  {
  }

  lemma Associate<T>(a: seq<T>, b: seq<T>, c: seq<T>)
    ensures (a + b) + c == a + (b + c)
  {
  }

  lemma ConsOver<T>(a: seq<T>, b: seq<T>)
    requires a != []
    ensures (a + b)[0] == a[0] && (a + b)[1..] == a[1..] + b
  {
  }

  lemma {:induction false} KeptConcat<T>(a: seq<Item<T>>, b: seq<Item<T>>, dealloc: bool)
    ensures Kept(a + b, dealloc) == Kept(a, dealloc) + Kept(b, dealloc)
  {
    if a == [] {
      assert a + b == b;
    } else {
      KeptConcat(a[1..], b, dealloc);
      ConsOver(a, b);
      var first := if a[0].dealloc == dealloc then [a[0].data] else [];
      Associate(first, Kept(a[1..], dealloc), Kept(b, dealloc));
    }
  }

  /** A flush empties the list and deallocates, in order, exactly the data with a deallocation function. */
  lemma FlushDeallocates<T>(before: seq<Item<T>>, x: Item<T>, after: seq<Item<T>>)
    ensures var o := Flushed(before + [x] + after);
      && o.items == [] && o.handed == []
      && o.deallocated
         == Flushed(before).deallocated + (if x.dealloc then [x.data] else []) + Flushed(after).deallocated
    ensures Flushed<T>([]).deallocated == []
  {
    KeptConcat(before + [x], after, true);
    KeptConcat(before, [x], true);
    assert [x][1..] == [];
  }

  /** Over every run, each datum ever added is in exactly one place, as often as it was added. */
  lemma {:induction false} RunConserves<T>(ops: seq<Op<T>>)
    ensures Whereabouts(Run(ops)) == AddedData(ops)
  {
    if ops != [] {
      var before, op := Run(ops[..|ops| - 1]), ops[|ops| - 1];
      RunConserves(ops[..|ops| - 1]);
      StepConserves(before.items, op);
      SumOfWhereabouts(before, Do(before.items, op));
    }
  }

  /** Data added once is handed out or deallocated at most once, and never both. */
  lemma NeverTwice<T>(ops: seq<Op<T>>, x: T)
    requires AddedData(ops)[x] <= 1
    ensures var o := Run(ops);
      multiset(o.handed)[x] + multiset(o.deallocated)[x] <= 1
    ensures var o := Run(ops);
      x in o.handed || x in o.deallocated ==> DataOf(o.items)[x] == 0
  {
    RunConserves(ops);
    var o := Run(ops);
    assert Whereabouts(o)[x]
      == DataOf(o.items)[x] + multiset(o.handed)[x] + multiset(o.deallocated)[x] + multiset(o.lost)[x];
  }

  lemma AddArrives<T>(items: seq<Item<T>>, x: Item<T>)
    ensures Arrivals(Added(items, x).items) == Arrivals(items) + [x.data]
  {
    assert ([x] + items)[1..] == items;
  }

  lemma RemoveDeparts<T>(items: seq<Item<T>>)
    ensures Removed(items).handed + Arrivals(Removed(items).items) == Arrivals(items)
  {
    if items != [] {
      ArrivalsOfLast(items);
    }
  }

  /** Adding and removing alone is a queue: data comes out in the order it went in. */
  lemma {:induction false} AddRemoveIsFifo<T>(ops: seq<Op<T>>)
    requires forall i :: 0 <= i < |ops| ==> ops[i].Add? || ops[i].Remove?
    ensures Run(ops).handed + Arrivals(Run(ops).items) == Sent(ops)
  {
    if ops != [] {
      var before, op := Run(ops[..|ops| - 1]), ops[|ops| - 1];
      AddRemoveIsFifo(ops[..|ops| - 1]);
      match op
      case Add(x, dealloc) =>
        AddArrives(before.items, Item(x, dealloc));
        Associate(before.handed, Arrivals(before.items), [x]);
      case Remove =>
        RemoveDeparts(before.items);
        Associate(before.handed, Removed(before.items).handed, Arrivals(Removed(before.items).items));
    }
  }

  /** The listed data, oldest first. */
  function Arrivals<T>(items: seq<Item<T>>): seq<T> {
    if items == [] then [] else Arrivals(items[1..]) + [items[0].data]
  }

  function Sent<T>(ops: seq<Op<T>>): seq<T> {
    if ops == [] then []
    else Sent(ops[..|ops| - 1]) + match ops[|ops| - 1] case Add(x, _) => [x] case _ => []
  }

  lemma {:induction false} ArrivalsOfLast<T>(items: seq<Item<T>>)
    requires items != []
    ensures Arrivals(items) == [items[|items| - 1].data] + Arrivals(items[..|items| - 1])
  {
    if |items| > 1 {
      ArrivalsOfLast(items[1..]);
      assert items[1..][..|items| - 2] == items[..|items| - 1][1..];
    }
  }
}

/** linked_list.c: doubly linked elements, proved against the sequence operations. */
module LinkedList {
  import opened Options
  import opened ListSpec

  class ListElement<T> {
    var next: ListElement?<T>
    var prev: ListElement?<T>
    var data: T
    var dealloc: bool

    constructor (data: T, dealloc: bool)
      ensures next == null && prev == null && this.data == data && this.dealloc == dealloc
    {
      next, prev := null, null;
      this.data, this.dealloc := data, dealloc;
    }
  }

  /** A place the caller wants data copied to: None is a null pointer, Some(None) holds NULL. */
  type Slot<T> = Option<Option<T>>

  /** Element i of s holds item i and points at its neighbours. */
  ghost predicate Element<T>(s: seq<ListElement<T>>, items: seq<Item<T>>, i: nat)
    requires i < |s| == |items|
    reads s
  {
    && s[i].data == items[i].data && s[i].dealloc == items[i].dealloc
    && s[i].next == (if i + 1 < |s| then s[i + 1] else null)
    && s[i].prev == (if i > 0 then s[i - 1] else null)
  }

  ghost predicate Chain<T>(s: seq<ListElement<T>>, items: seq<Item<T>>)
    reads s
  {
    && |items| == |s|
    && (forall i :: 0 <= i < |s| ==> Element(s, items, i))
    && (forall i, j :: 0 <= i < j < |s| ==> s[i] != s[j])
  }

  lemma DistinctWithout<T>(s: seq<T>, i: nat)
    requires i < |s| && forall j, k :: 0 <= j < k < |s| ==> s[j] != s[k]
    ensures var r := s[..i] + s[i + 1..]; forall j, k :: 0 <= j < k < |r| ==> r[j] != r[k]
  {
    var r := s[..i] + s[i + 1..];
    forall j, k | 0 <= j < k < |r| ensures r[j] != r[k] {
      assert r[j] == s[if j < i then j else j + 1] && r[k] == s[if k < i then k else k + 1];
    }
  }

  /** Element j of s, once its neighbours point past element i. */
  ghost predicate Skips<T>(s: seq<ListElement<T>>, items: seq<Item<T>>, i: nat, j: nat)
    requires i < |s| == |items| && j < |s|
    reads s
  {
    var after, before := if j + 1 == i then i + 1 else j + 1, if j == i + 1 then i - 1 else j - 1;
    && s[j].data == items[j].data && s[j].dealloc == items[j].dealloc
    && s[j].next == (if after < |s| then s[after] else null)
    && s[j].prev == (if before >= 0 then s[before] else null)
  }

  lemma ChainWithout<T>(s: seq<ListElement<T>>, items: seq<Item<T>>, i: nat)
    requires i < |s| == |items| && forall j, k :: 0 <= j < k < |s| ==> s[j] != s[k]
    requires forall j :: 0 <= j < |s| && j != i ==> Skips(s, items, i, j)
    ensures Chain(s[..i] + s[i + 1..], items[..i] + items[i + 1..])
  {
    var r, xs := s[..i] + s[i + 1..], items[..i] + items[i + 1..];
    forall j | 0 <= j < |r| ensures Element(r, xs, j) {
      ElementWithout(s, items, i, j);
    }
    DistinctWithout(s, i);
  }

  lemma ElementWithout<T>(s: seq<ListElement<T>>, items: seq<Item<T>>, i: nat, j: nat)
    requires i < |s| == |items| && j < |s| - 1
    requires Skips(s, items, i, if j < i then j else j + 1)
    ensures Element(s[..i] + s[i + 1..], items[..i] + items[i + 1..], j)
  {
    var r := s[..i] + s[i + 1..];
    assert r[j] == s[if j < i then j else j + 1];
    assert j + 1 < |r| ==> r[j + 1] == s[if j + 1 < i then j + 1 else j + 2];
    assert j > 0 ==> r[j - 1] == s[if j - 1 < i then j - 1 else j];
  }

  class ListState<T> {
    var head: ListElement?<T>
    var tail: ListElement?<T>
    ghost var spine: seq<ListElement<T>>
    ghost var items: seq<Item<T>>

    ghost predicate Valid()
      reads this, spine
    {
      && Chain(spine, items)
      && head == (if spine == [] then null else spine[0])
      && tail == (if spine == [] then null else spine[|spine| - 1])
    }

    constructor ()
      ensures Valid() && items == [] && spine == []
    {
      head, tail := null, null;
      spine, items := [], [];
    }

    predicate Empty()
      requires Valid()
      reads this, spine
      ensures Empty() <==> items == []
    {
      head == null
    }

    method Add(data_obj: Option<T>, dealloc: bool) returns (err: Error)
      requires Valid()
      modifies this, spine
      ensures Valid() && (forall e :: e in spine ==> e in old(spine) || fresh(e))
      ensures err == if data_obj.None? then InvalidParameter else Success
      ensures items == if data_obj.None? then old(items) else Added(old(items), Item(data_obj.value, dealloc)).items
    {
      if data_obj.None? {
        return InvalidParameter;
      }
      var elem := new ListElement(data_obj.value, dealloc);
      var tmp := head;
      head := elem;
      head.next := tmp;
      if tmp != null {
        tmp.prev := head;
      } else {
        tail := head;
      }
      ghost var s, xs := spine, items;
      spine, items := [elem] + s, [Item(data_obj.value, dealloc)] + xs;
      forall i | 0 <= i < |spine| ensures Element(spine, items, i) {
        if i > 0 {
          assert old(Element(s, xs, i - 1));
        }
      }
      return Success;
    }

    method Remove() returns (err: Error, data: Option<T>)
      requires Valid()
      modifies this, spine
      ensures Valid() && (forall e :: e in spine ==> e in old(spine))
      ensures err == if old(items) == [] then UnavailableResource else Success
      ensures items == Removed(old(items)).items
      ensures data == if old(items) == [] then None else Some(Removed(old(items)).handed[0])
    {
      if tail == null {
        return UnavailableResource, None;
      }
      assert Element(spine, items, |spine| - 1);
      var tmp := tail;
      tail := tmp.prev;
      if tail != null {
        tail.next := null;
      } else {
        head := tail;
      }
      data := Some(tmp.data);
      ghost var s, xs := spine, items;
      spine, items := s[..|s| - 1], xs[..|xs| - 1];
      forall i | 0 <= i < |spine| ensures Element(spine, items, i) {
        assert old(Element(s, xs, i));
      }
      err := Success;
    }

    /** The element at position i, if any. */
    ghost function At(i: nat): ListElement?<T>
      reads this
    {
      if i < |spine| then spine[i] else null
    }

    /** Makes the neighbours of element i, held by tmp, point at each other. */
    method Bypass(tmp: ListElement<T>, ghost i: nat)
      requires Valid() && i < |spine| && tmp == spine[i]
      modifies this, spine
      ensures spine == old(spine) && items == old(items)
      ensures head == (if i > 0 then old(head) else old(tmp.next))
      ensures tail == (if i + 1 < |spine| then old(tail) else old(tmp.prev))
      ensures forall e :: e in spine ==> e.data == old(e.data) && e.dealloc == old(e.dealloc)
      ensures forall j :: 0 <= j < |spine| && j != i ==>
                spine[j].next == if j + 1 == i then old(tmp.next) else old(spine[j].next)
      ensures forall j :: 0 <= j < |spine| && j != i ==>
                spine[j].prev == if j == i + 1 then old(tmp.prev) else old(spine[j].prev)
    {
      assert Element(spine, items, i);
      if tmp.prev == null {
        head := tmp.next;
      } else {
        tmp.prev.next := tmp.next;
      }
      if tmp.next == null {
        tail := tmp.prev;
      } else {
        tmp.next.prev := tmp.prev;
      }
    }

    /** Takes element i, held by tmp, out of the chain. */
    method Unlink(tmp: ListElement<T>, ghost i: nat)
      requires Valid() && i < |spine| && tmp == spine[i]
      modifies this, spine
      ensures Valid() && (forall e :: e in spine ==> e in old(spine))
      ensures items == old(items)[..i] + old(items)[i + 1..]
      ensures tmp.data == old(tmp.data) && tmp.dealloc == old(tmp.dealloc)
    {
      ghost var s, xs := spine, items;
      assert Element(s, xs, i);
      Bypass(tmp, i);
      tmp.prev, tmp.next := null, null;
      spine, items := s[..i] + s[i + 1..], xs[..i] + xs[i + 1..];
      forall j | 0 <= j < |s| && j != i ensures Skips(s, xs, i, j) {
        assert old(Element(s, xs, j));
      }
      ChainWithout(s, xs, i);
    }

    /** equal is None for a null comparison function; slot is the caller's place for the data. */
    method Search(slot: Slot<T>, equal: Option<T -> bool>, rm_if_found: bool)
      returns (err: Error, out: Slot<T>, deallocated: seq<T>)
      requires Valid()
      modifies this, spine
      ensures Valid() && (forall e :: e in spine ==> e in old(spine))
      ensures err == if equal.None? then InvalidHandle else if old(items) == [] then UnavailableResource else Success
      ensures err != Success ==> items == old(items) && out == slot && deallocated == []
      ensures err == Success ==>
        var i := FirstMatch(old(items), equal.value);
        var o := Searched(old(items), equal.value, slot.Some?, rm_if_found);
        && items == o.items && deallocated == o.deallocated
        && out == (if slot.None? then None
                   else if i < |old(items)| then Some(Some(old(items)[i].data)) else Some(None))
    {
      out, deallocated := slot, [];
      if equal.None? {
        return InvalidHandle, out, deallocated;
      }
      if tail == null {
        return UnavailableResource, out, deallocated;
      }
      var tmp := head;
      if slot.Some? {
        out := Some(None);
      }
      ghost var i, m := 0, FirstMatch(items, equal.value);
      while tmp != null && !equal.value(tmp.data)
        invariant i <= m && tmp == At(i)
        decreases m - i
      {
        assert Element(spine, items, i);
        tmp := tmp.next;
        i := i + 1;
      }
      if tmp != null {
        assert Element(spine, items, i);
        assert i == m;
        if slot.Some? {
          out := Some(Some(tmp.data));
        }
        if rm_if_found {
          Unlink(tmp, i);
          if slot.None? && tmp.dealloc {
            deallocated := [tmp.data];
          }
        }
      }
      err := Success;
    }

    method Flush() returns (err: Error, deallocated: seq<T>)
      requires Valid()
      modifies this, spine
      ensures Valid() && spine == []
      ensures err == Success && items == [] && deallocated == Flushed(old(items)).deallocated
    {
      deallocated := [];
      ghost var i, s, xs := 0, spine, items;
      while head != null
        modifies this
        invariant i <= |s| && head == (if i < |s| then s[i] else null)
        invariant Chain(s, xs)
        invariant deallocated + Kept(xs[i..], true) == Kept(xs, true)
        decreases |s| - i
      {
        assert Element(s, xs, i);
        KeptStep(xs, i);
        var tmp := head.next;
        if head.dealloc {
          deallocated := deallocated + [head.data];
        }
        head := tmp;
        i := i + 1;
      }
      tail := null;
      spine, items := [], [];
      err := Success;
    }
  }
}

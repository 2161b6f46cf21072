/** LocApiBase and LocAdapterBase as classes, each method against the registry's specification. */
module LocApi {
  import opened RegistryModel

  class LocAdapterBase {
    var evtMask: Mask
    const locApi: LocApiBase

    constructor (mask: Mask, api: LocApiBase)
      requires api.Valid()
      modifies api, api.adapters
      ensures evtMask == mask && locApi == api && api.Valid()
      ensures api.list == Added(old(api.list), this)
      ensures api.queue == old(api.queue) + if |old(api.list)| < MAX_ADAPTERS then [MsgOpen] else []
      ensures api.calls == old(api.calls)
    {
      evtMask, locApi := mask, api;
      new;
      api.AddAdapter(this);
    }

    /** The destructor. */
    method Destroy()
      requires locApi.Valid()
      modifies locApi`list, locApi`queue, locApi`calls, locApi.adapters
      ensures locApi.Valid() && locApi.list == Removed(old(locApi.list), this)
      ensures this !in locApi.list
      ensures locApi.list == [] || this !in old(locApi.list) || locApi.queue == old(locApi.queue) + [MsgOpen]
      ensures locApi.list != [] || this !in old(locApi.list) || locApi.calls == old(locApi.calls) + [Close]
    {
      locApi.RemoveAdapter(this);
      RemovedIsDifference(old(locApi.list), this);
      assert this !in SetOf(locApi.list);
    }

    method UpdateEvtMask(event: Mask, enabled: bool)
      modifies this`evtMask, locApi`queue
      ensures evtMask == Updated(old(evtMask), event, enabled)
      ensures locApi.queue == old(locApi.queue) + [MsgOpen]
    {
      evtMask := if enabled then evtMask | event else evtMask & !event;
      locApi.UpdateEvtMask();
    }
  }

  function MasksIn(list: seq<LocAdapterBase>): (m: seq<Mask>)
    reads list
    ensures |m| == |list| && forall i :: 0 <= i < |list| ==> m[i] == list[i].evtMask
  {
    if list == [] then [] else MasksIn(list[..|list| - 1]) + [list[|list| - 1].evtMask]
  }

  lemma MasksInSnoc(list: seq<LocAdapterBase>, i: nat)
    requires i < |list|
    ensures OrAll(MasksIn(list[..i + 1])) == OrAll(MasksIn(list[..i])) | list[i].evtMask
  {
    assert list[..i + 1][..i] == list[..i];
    OrAllSnoc(MasksIn(list[..i]), list[i].evtMask);
  }

  lemma OrAllSnoc(masks: seq<Mask>, mask: Mask)
    ensures OrAll(masks + [mask]) == OrAll(masks) | mask
  {
    assert (masks + [mask])[..|masks|] == masks;
  }

  lemma {:induction false} PositionIs<T>(list: seq<T>, a: T, i: nat)
    requires i < |list| && list[i] == a && a !in list[..i]
    ensures Position(list, a) == i
  {
    assert a in list;
  }

  class LocApiBase {
    const adapters: array<LocAdapterBase?>
    const excluded: Mask
    var queue: seq<Msg>
    var calls: seq<Call>
    ghost var list: seq<LocAdapterBase>

    /** The array holds the list, without holes, and nothing after it. */
    ghost predicate Valid()
      reads this, adapters
    {
      && adapters.Length == MAX_ADAPTERS && Registry(list)
      && (forall i :: 0 <= i < |list| ==> adapters[i] == list[i])
      && (forall i :: |list| <= i < MAX_ADAPTERS ==> adapters[i] == null)
    }

    constructor (excludedMask: Mask)
      ensures Valid() && fresh(adapters) && excluded == excludedMask
      ensures list == [] && queue == [] && calls == []
    {
      adapters := new LocAdapterBase?[MAX_ADAPTERS](_ => null);
      excluded, queue, calls, list := excludedMask, [], [], [];
    }

    method SendMsg(msg: Msg)
      modifies this`queue
      ensures queue == old(queue) + [msg]
    {
      queue := queue + [msg];
    }

    /** The loop of getEvtMask. */
    method OrMasks() returns (mask: Mask)
      requires Valid()
      ensures mask == OrAll(MasksIn(list))
    {
      mask := 0;
      var i := 0;
      while i < MAX_ADAPTERS && adapters[i] != null
        invariant i <= |list|
        invariant mask == OrAll(MasksIn(list[..i]))
      {
        mask := mask | adapters[i].evtMask;
        assert mask == OrAll(MasksIn(list[..i + 1])) by { MasksInSnoc(list, i); }
        i := i + 1;
      }
      assert list[..i] == list;
    }

    ghost function Wanted(): Mask
      reads this, list
    {
      Allowed(OrAll(MasksIn(list)), excluded)
    }

    method GetEvtMask() returns (mask: Mask)
      requires Valid()
      ensures mask == Wanted()
    {
      mask := OrMasks();
      mask := mask & !excluded;
    }

    method AddAdapter(adapter: LocAdapterBase)
      requires Valid()
      modifies this`list, this`queue, adapters
      ensures Valid() && list == Added(old(list), adapter)
      ensures queue == old(queue) + if Fits(old(list), adapter) then [MsgOpen] else []
    {
      var i := 0;
      while i < MAX_ADAPTERS && adapters[i] != adapter
        invariant i <= |list| && adapter !in list[..i]
        invariant Valid() && list == old(list) && queue == old(queue)
      {
        if adapters[i] == null {
          assert list[..i] == list;
          adapters[i] := adapter;
          list := list + [adapter];
          SendMsg(MsgOpen);
          break;
        }
        i := i + 1;
      }
    }

    /** Takes entry j out and moves the last entry, at i, into the hole. */
    method TakeOut(j: nat) returns (i: nat)
      requires Valid() && j < |list|
      modifies this`list, adapters
      ensures Valid() && i == |old(list)| - 1
      ensures list == old(list)[j := old(list)[i]][..i]
    {
      adapters[j] := null;
      i := j + 1;
      while i < MAX_ADAPTERS && adapters[i] != null
        invariant j < i <= |list|
      {
        i := i + 1;
      }
      i := i - 1;
      adapters[j] := adapters[i];
      adapters[i] := null;
      list := list[j := list[i]][..i];
    }

    method RemoveAdapter(adapter: LocAdapterBase)
      requires Valid()
      modifies this`list, this`queue, this`calls, adapters
      ensures Valid() && list == Removed(old(list), adapter)
      ensures queue == old(queue) + if adapter in old(list) && list != [] then [MsgOpen] else []
      ensures calls == old(calls) + if adapter in old(list) && list == [] then [Close] else []
    {
      ghost var n := |list|;
      var i := 0;
      while i < MAX_ADAPTERS && adapters[i] != null
        invariant Valid() && i <= n
        invariant adapter !in old(list)[..i] ==> list == old(list) && queue == old(queue) && calls == old(calls)
        invariant adapter in old(list)[..i] ==>
          && i == n && list == Removed(old(list), adapter)
          && queue == old(queue) + (if list != [] then [MsgOpen] else [])
          && calls == old(calls) + (if list == [] then [Close] else [])
        decreases n - i
      {
        if adapters[i] == adapter {
          PositionIs(list, adapter, i);
          i := TakeOut(i);
          if 0 == i {
            calls := calls + [Close];
          } else {
            SendMsg(MsgOpen);
          }
        }
        i := i + 1;
      }
      assert old(list)[..n] == old(list);
    }

    method UpdateEvtMask()
      modifies this`queue
      ensures queue == old(queue) + [MsgOpen]
    {
      SendMsg(MsgOpen);
    }

    /** The message thread handles one message: LocOpenMsg::proc or LocSsrMsg::proc. */
    method Proc()
      requires Valid() && queue != []
      modifies this`queue, this`calls
      ensures Valid() && queue == old(queue)[1..]
      ensures calls == old(calls) + CallsOf(old(queue)[0], old(Wanted()))
    {
      var mask := GetEvtMask();
      match queue[0] {
        case MsgSsr => calls := calls + [Close, Open(mask)];
        case MsgOpen => calls := calls + [Open(mask)];
      }
      queue := queue[1..];
    }
  }
}

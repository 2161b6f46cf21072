/** AgpsStateMachine: state and list change in place, each method proved against AgpsModel. */
module Agps {
  import opened AgpsModel

  class AgpsStateMachine {
    const enforceSingle: bool
    var stage: Stage
    var subscribers: seq<Subscriber>
    var log: seq<Event>

    ghost function View(): Machine
      reads this
    {
      Machine(enforceSingle, stage, subscribers, log)
    }

    constructor (enforceSingleSubscriber: bool)
      ensures View() == Run(enforceSingleSubscriber, [])
    {
      enforceSingle := enforceSingleSubscriber;
      stage := Released;
      subscribers, log := [], [];
    }

    /** The list search with a read-only comparison: the position of the first match. */
    method Search(to: Receiver) returns (i: nat)
      ensures i == Find(subscribers, to)
    {
      i := 0;
      while i < |subscribers| && !ForMe(subscribers[i], to)
        invariant i <= Find(subscribers, to)
      {
        i := i + 1;
      }
    }

    predicate HasSubscribers()
      reads this
    {
      subscribers != []
    }

    method HasActiveSubscribers() returns (b: bool)
      ensures b == Has(subscribers, Active)
    {
      var i := Search(Active);
      b := i < |subscribers|;
    }

    /**
     One list search with notifySubscriber as its comparison: it notifies as it goes, and stops
     at the first subscriber that is hit if the notification deletes.
     */
    method SearchNotify(n: Notification) returns (i: nat)
      modifies this`log
      ensures i <= |subscribers|
      ensures log == old(log) + AllWords(subscribers[..if i < |subscribers| then i + 1 else i], n)
      ensures n.postNotifyDelete ==> (forall j :: 0 <= j < i ==> !Hits(subscribers[j], n))
      ensures i < |subscribers| ==> n.postNotifyDelete && Hits(subscribers[i], n)
    {
      i := 0;
      assert log == old(log) + AllWords(subscribers[..0], n);
      while i < |subscribers|
        invariant i <= |subscribers|
        invariant log == old(log) + AllWords(subscribers[..i], n)
        invariant n.postNotifyDelete ==> (forall j :: 0 <= j < i ==> !Hits(subscribers[j], n))
      {
        log := log + Words(subscribers[i], n);
        WordsSnoc(subscribers[..i], subscribers[i], n);
        assert subscribers[..i + 1] == subscribers[..i] + [subscribers[i]];
        if Hits(subscribers[i], n) && n.postNotifyDelete {
          return;
        }
        i := i + 1;
      }
    }

    /** One round of the loop: search, and delete the one found. */
    method DeleteOne(n: Notification) returns (found: bool)
      requires n.postNotifyDelete
      modifies this`log, this`subscribers
      ensures log + AllWords(subscribers, n) == old(log) + AllWords(old(subscribers), n)
      ensures Spared(subscribers, n) == Spared(old(subscribers), n)
      ensures if found then |subscribers| == |old(subscribers)| - 1
              else subscribers == old(subscribers) && forall j :: 0 <= j < |subscribers| ==> !Hits(subscribers[j], n)
    {
      var i := SearchNotify(n);
      found := i < |subscribers|;
      if found {
        ghost var before, s, after := subscribers[..i], subscribers[i], subscribers[i + 1..];
        TakeHit(before, s, after, n);
        assert subscribers == before + ([s] + after) && subscribers[..i + 1] == before + [s];
        subscribers := subscribers[..i] + subscribers[i + 1..];
      } else {
        assert subscribers[..i] == subscribers;
        NoHits(subscribers, n);
      }
    }

    /** Each search that finds somebody shortens the list, so the loop ends. */
    method NotifySubscribers(n: Notification)
      modifies this`log, this`subscribers
      ensures View() == Notify(old(View()), n)
    {
      if n.postNotifyDelete {
        ghost var said := log;
        var found := true;
        while found
          invariant log + AllWords(subscribers, n) == said + AllWords(old(subscribers), n)
          invariant Spared(subscribers, n) == Spared(old(subscribers), n)
          invariant !found ==> forall j :: 0 <= j < |subscribers| ==> !Hits(subscribers[j], n)
          decreases |subscribers|, found
        {
          found := DeleteOne(n);
        }
        NoHits(subscribers, n);
      } else {
        var i := SearchNotify(n);
        assert subscribers[..i] == subscribers;
      }
    }

    method Add(id: nat, kind: Kind)
      modifies this`subscribers
      ensures View() == AddSubscriber(old(View()), id, kind)
    {
      var i := Search(Key(id));
      if i == |subscribers| {
        subscribers := [Subscriber(id, kind, false)] + subscribers;
      }
    }

    method SendRsrcRequest(release: bool)
      modifies this`log
      ensures View() == if release then SendRelease(old(View())) else SendRequest(old(View()))
    {
      var active := HasActiveSubscribers();
      if !active == release {
        log := log + [if release then Release else Request];
      }
    }

    /** setInactive for those that wait for the close, a deleting notification for the others. */
    method LeaveList(i: nat)
      requires i < |subscribers|
      modifies this`log, this`subscribers
      ensures View() == Leave(old(View()), i)
    {
      var s := subscribers[i];
      if !s.kind.ATL? {
        subscribers := subscribers[i := s.(inactive := true)];
        if s.kind.DS? {
          log := log + [Told(s.id, UNSUBSCRIBE)];
        }
      } else {
        NotifySubscribers(Notification(Key(s.id), UNSUBSCRIBE, true));
      }
    }

    method SubscribeEvent(id: nat, kind: Kind)
      modifies this
      ensures View() == OnSubscribe(old(View()), id, kind)
    {
      log := log + [Joining(id)];
      match stage
      case Released =>
        Add(id, kind);
        SendRsrcRequest(false);
        stage := Pending;
      case Pending => Add(id, kind);
      case Acquired =>
        log := log + [Told(id, GRANTED)];
        Add(id, kind);
      case Releasing => Add(id, kind);
    }

    method UnsubscribeEvent(i: nat)
      requires i < |subscribers|
      modifies this
      ensures View() == OnUnsubscribe(old(View()), i)
    {
      if stage.Released? {
        log := log + Words(subscribers[i], Notification(Key(subscribers[i].id), UNSUBSCRIBE, false));
        return;
      }
      LeaveList(i);
      if stage.Releasing? {
        if !HasSubscribers() {
          stage := Released;
        }
        return;
      }
      var active := HasActiveSubscribers();
      if !HasSubscribers() {
        stage := Released;
        SendRsrcRequest(true);
      } else if !active {
        stage := Releasing;
        SendRsrcRequest(true);
      }
    }

    method OnRsrcEvent(event: RsrcStatus)
      modifies this
      ensures View() == if IsReport(event) then OnReport(old(View()), event) else old(View())
    {
      if !IsReport(event) {
        return;
      }
      log := log + [Reported(event)];
      if stage.Pending? && event.GRANTED? {
        NotifySubscribers(Notification(Active, event, false));
        stage := Acquired;
      } else if (stage.Pending? && event.DENIED?) || (stage.Acquired? && event.RELEASED?) {
        NotifySubscribers(Notification(All, event, true));
        stage := Released;
      } else if stage.Releasing? && !event.GRANTED? {
        NotifySubscribers(Notification(Inactive, event, true));
        var active := HasActiveSubscribers();
        if active {
          stage := Pending;
          SendRsrcRequest(false);
        } else {
          stage := Released;
        }
      }
    }

    // ---------- what clients and the connectivity service call ----------

    method SubscribeRsrc(id: nat, kind: Kind)
      modifies this
      ensures View() == Do(old(View()), Subscribe(id, kind))
    {
      if enforceSingle && HasSubscribers() {
        log := log + [Told(id, DENIED)];
      } else {
        SubscribeEvent(id, kind);
      }
    }

    method UnsubscribeRsrc(id: nat) returns (found: bool)
      modifies this
      ensures View() == Do(old(View()), Unsubscribe(id))
      ensures found == Has(old(subscribers), Key(id))
    {
      var i := Search(Key(id));
      found := i < |subscribers|;
      if found {
        UnsubscribeEvent(i);
      }
    }

    method DropAllSubscribers()
      modifies this`subscribers
      ensures View() == Do(old(View()), DropAll)
    {
      subscribers := [];
    }
  }

  lemma {:induction false} WordsSnoc(subs: seq<Subscriber>, s: Subscriber, n: Notification)
    ensures AllWords(subs + [s], n) == AllWords(subs, n) + Words(s, n)
  {
    if subs == [] {
      assert subs + [s] == [s] && [s][1..] == [];
    } else {
      WordsSnoc(subs[1..], s, n);
      assert (subs + [s])[1..] == subs[1..] + [s];
    }
  }

  /** Nobody is hit: nothing is said and nobody goes. */
  lemma {:induction false} NoHits(subs: seq<Subscriber>, n: Notification)
    requires forall j :: 0 <= j < |subs| ==> !Hits(subs[j], n)
    ensures AllWords(subs, n) == [] && Spared(subs, n) == subs
  {
    if subs != [] {
      NoHits(subs[1..], n);
    }
  }

  /** Those who are not hit, before others: they say nothing and stay. */
  lemma {:induction false} QuietPrefix(before: seq<Subscriber>, rest: seq<Subscriber>, n: Notification)
    requires forall j :: 0 <= j < |before| ==> !Hits(before[j], n)
    ensures AllWords(before + rest, n) == AllWords(rest, n)
    ensures Spared(before + rest, n) == before + Spared(rest, n)
  {
    if before == [] {
      assert before + rest == rest;
    } else {
      QuietPrefix(before[1..], rest, n);
      assert (before + rest)[0] == before[0] && (before + rest)[1..] == before[1..] + rest;
    }
  }

  /** s is the first one hit: what is said up to it and after it, and who stays without it. */
  lemma TakeHit(before: seq<Subscriber>, s: Subscriber, after: seq<Subscriber>, n: Notification)
    requires Hits(s, n) && forall j :: 0 <= j < |before| ==> !Hits(before[j], n)
    ensures AllWords(before + [s], n) + AllWords(before + after, n) == AllWords(before + ([s] + after), n)
    ensures Spared(before + after, n) == Spared(before + ([s] + after), n)
  {
    QuietPrefix(before, [s], n);
    QuietPrefix(before, after, n);
    QuietPrefix(before, [s] + after, n);
    HitFirst(s, after, n);
  }

  lemma HitFirst(s: Subscriber, after: seq<Subscriber>, n: Notification)
    requires Hits(s, n)
    ensures AllWords([s] + after, n) == AllWords([s], n) + AllWords(after, n)
    ensures Spared([s] + after, n) == Spared(after, n)
  {
    assert [s][1..] == [] && ([s] + after)[1..] == after;
  }
}

/** The in-memory publish/subscribe bus of pkg/zenohutil/client.go. Handlers are known by number; the
  goroutines a publish starts are the multiset of handlers it calls, since their order is not fixed. */
module Bus {
  import opened Wrappers
  import opened Text
  import DataMule
  import Selector

  type Handler = nat

  datatype Subscription = Subscription(selector: string, handler: Handler)

  datatype BusError = BusClosed

  predicate Matches(selector: string, key: string) {
    Selector.Loop(Split(selector, '/'), Split(key, '/'))
  }

  /** The handlers subscribed under one selector, in order. */
  function Under(subscriptions: seq<Subscription>, selector: string): seq<Handler> {
    if subscriptions == [] then []
    else
      var front, last := subscriptions[..|subscriptions| - 1], subscriptions[|subscriptions| - 1];
      Under(front, selector) + if last.selector == selector then [last.handler] else []
  }

  /** Every subscription whose selector matches the key counts once. */
  function Interested(subscriptions: seq<Subscription>, key: string): multiset<Handler> {
    if subscriptions == [] then multiset{}
    else
      var front, last := subscriptions[..|subscriptions| - 1], subscriptions[|subscriptions| - 1];
      Interested(front, key) + if Matches(last.selector, key) then multiset{last.handler} else multiset{}
  }

  /** The part of them under some of the selectors. */
  ghost function InterestedUnder(subscriptions: seq<Subscription>, key: string, selectors: set<string>)
    : multiset<Handler>
  {
    if subscriptions == [] then multiset{}
    else
      var front, last := subscriptions[..|subscriptions| - 1], subscriptions[|subscriptions| - 1];
      InterestedUnder(front, key, selectors)
      + if last.selector in selectors && Matches(last.selector, key) then multiset{last.handler} else multiset{}
  }

  class MemoryBus {
    var subscribers: map<string, seq<Handler>>
    var closed: bool

    /** Every subscription accepted so far. */
    ghost var accepted: seq<Subscription>

    ghost predicate Valid()
      reads this
    {
      if closed then subscribers == map[]
      else
        && (forall s :: s in subscribers ==> subscribers[s] == Under(accepted, s))
        && (forall g :: g in accepted ==> g.selector in subscribers)
    }

    constructor ()
      ensures Valid() && !closed && accepted == []
    {
      subscribers := map[];
      closed := false;
      accepted := [];
    }

    method Subscribe(selector: string, handler: Handler) returns (err: Option<BusError>)
      requires Valid()
      modifies this
      ensures Valid() && closed == old(closed)
      ensures err == if closed then Some(BusClosed) else None
      ensures accepted == old(accepted) + if closed then [] else [Subscription(selector, handler)]
    {
      if closed {
        return Some(BusClosed);
      }
      if selector !in subscribers {
        NoneUnder(accepted, selector);
      }
      UnderAppended(accepted, Subscription(selector, handler));
      var handlers := if selector in subscribers then subscribers[selector] else [];
      subscribers := subscribers[selector := handlers + [handler]];
      accepted := accepted + [Subscription(selector, handler)];
      return None;
    }

    /** Each handler is called as often as it subscribed under a matching selector, whatever the order
        in which the table is walked; a closed bus calls none. */
    method Publish(key: string) returns (err: Option<BusError>, calls: multiset<Handler>)
      requires Valid()
      ensures err == if closed then Some(BusClosed) else None
      ensures calls == if closed then multiset{} else Interested(accepted, key)
    {
      if closed {
        return Some(BusClosed), multiset{};
      }
      calls := multiset{};
      var left := subscribers.Keys;
      ghost var done: set<string> := {};
      NoSelectors(accepted, key);
      while left != {}
        invariant done + left == subscribers.Keys && done !! left
        invariant calls == InterestedUnder(accepted, key, done)
        decreases left
      {
        var selector :| selector in left;
        var matches := Selector.MatchesSelector(selector, key);
        AddSelector(accepted, key, done, selector);
        if matches {
          calls := calls + multiset(subscribers[selector]);
        }
        left, done := left - {selector}, done + {selector};
      }
      AllSelectors(accepted, key, done);
      return None, calls;
    }

    method Close()
      requires Valid()
      modifies this
      ensures Valid() && closed && accepted == old(accepted)
    {
      closed := true;
      subscribers := map[];
    }
  }

  lemma {:induction false} NoneUnder(subscriptions: seq<Subscription>, selector: string)
    requires forall g :: g in subscriptions ==> g.selector != selector
    ensures Under(subscriptions, selector) == []
  {
    if subscriptions != [] {
      NoneUnder(subscriptions[..|subscriptions| - 1], selector);
      assert subscriptions[|subscriptions| - 1] in subscriptions;
    }
  }

  lemma UnderAppended(subscriptions: seq<Subscription>, g: Subscription)
    ensures forall s ::
      Under(subscriptions + [g], s) == Under(subscriptions, s) + if g.selector == s then [g.handler] else []
  {
    assert (subscriptions + [g])[..|subscriptions|] == subscriptions;
  }

  lemma {:induction false} NoSelectors(subscriptions: seq<Subscription>, key: string)
    ensures InterestedUnder(subscriptions, key, {}) == multiset{}
  {
    if subscriptions != [] {
      NoSelectors(subscriptions[..|subscriptions| - 1], key);
    }
  }

  lemma {:induction false} AddSelector(subscriptions: seq<Subscription>, key: string, done: set<string>,
                                       selector: string)
    requires selector !in done
    ensures
      InterestedUnder(subscriptions, key, done + {selector})
      == InterestedUnder(subscriptions, key, done)
         + if Matches(selector, key) then multiset(Under(subscriptions, selector)) else multiset{}
  {
    hide Matches;
    if subscriptions != [] {
      AddSelector(subscriptions[..|subscriptions| - 1], key, done, selector);
    }
  }

  lemma {:induction false} AllSelectors(subscriptions: seq<Subscription>, key: string, selectors: set<string>)
    requires forall g :: g in subscriptions ==> g.selector in selectors
    ensures InterestedUnder(subscriptions, key, selectors) == Interested(subscriptions, key)
  {
    hide Matches;
    if subscriptions != [] {
      AllSelectors(subscriptions[..|subscriptions| - 1], key, selectors);
      assert subscriptions[|subscriptions| - 1] in subscriptions;
    }
  }

  /** No subscriber whose selector begins with a literal chunk of its own hears what the data mule
      forwards. */
  lemma {:induction false} ForwardedCallsNobodyElse(subscriptions: seq<Subscription>, topic: string)
    requires forall g :: g in subscriptions ==>
      var first := Split(g.selector, '/')[0];
      !Selector.Wild(first) && first != "upstream"
    ensures Interested(subscriptions, DataMule.FormatUpstreamTopic(topic)) == multiset{}
  {
    hide Split, DataMule.FormatUpstreamTopic, Selector.Wild;
    if subscriptions != [] {
      var last := subscriptions[|subscriptions| - 1];
      assert last in subscriptions;
      ForwardedCallsNobodyElse(subscriptions[..|subscriptions| - 1], topic);
      DataMule.UpstreamTopicIsForeign(topic, last.selector);
    }
  }
}

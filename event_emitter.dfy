/**
 * The publish/subscribe event bus. Handlers are integer identities (two
 * registrations of the same function carry the same identity); a `once`
 * subscription registers a wrapper closure, which is a fresh identity of its
 * own (`Once(token, inner)`). Whether a handler throws is given to `Emit` as
 * the set of identities that throw.
 */
module Emitter {

  import opened Events

  datatype Handler = Plain(id: int) | Once(token: nat, inner: int)

  /** The user handler that runs when a registered entry is invoked. */
  function Target(h: Handler): int {
    match h
    case Plain(id) => id
    case Once(_, inner) => inner
  }

  /** The unsubscribe closure returned by `on` and `once`. */
  datatype Subscription = Subscription(event: string, handler: Handler)

  /** One handler call made by `emit`; `threw` says the call raised (and was caught). */
  datatype Invocation = Invocation(entry: Handler, payload: Payload, threw: bool)

  /** `list.indexOf(h)`: the first position of `h`, or -1. */
  function IndexOf(list: seq<Handler>, h: Handler): (i: int)
    ensures -1 <= i < |list|
    ensures i == -1 <==> h !in list
    ensures i >= 0 ==> list[i] == h && h !in list[..i]
  {
    if |list| == 0 then -1
    else if list[0] == h then 0
    else
      var j := IndexOf(list[1..], h);
      assert j >= 0 ==> list[..j + 1] == [list[0]] + list[1..][..j];
      if j == -1 then -1 else j + 1
  }

  /** The search `off` performs, as a loop over the list. */
  method FindIndex(list: seq<Handler>, h: Handler) returns (i: int)
    ensures -1 <= i < |list|
    ensures i == -1 <==> h !in list
    ensures i >= 0 ==> list[i] == h && h !in list[..i]
  {
    i := 0;
    while i < |list|
      invariant 0 <= i <= |list|
      invariant h !in list[..i]
    {
      if list[i] == h {
        return;
      }
      assert list[..i + 1] == list[..i] + [list[i]];
      i := i + 1;
    }
    assert list[..i] == list;
    i := -1;
  }

  function RemoveAt(list: seq<Handler>, i: nat): seq<Handler>
    requires i < |list|
  {
    list[..i] + list[i + 1..]
  }

  /** `indexOf` then `splice(index, 1)`: drop the first occurrence of `h`, if any. */
  function RemoveFirst(list: seq<Handler>, h: Handler): seq<Handler> {
    var i := IndexOf(list, h);
    if i == -1 then list else RemoveAt(list, i)
  }

  /** Removing a handler that is not registered changes nothing; otherwise exactly one copy goes. */
  lemma RemoveFirstCount(list: seq<Handler>, h: Handler)
    ensures h !in list ==> RemoveFirst(list, h) == list
    ensures h in list ==> |RemoveFirst(list, h)| == |list| - 1
    ensures h in list ==> multiset(RemoveFirst(list, h)) == multiset(list) - multiset{h}
  {
    if h in list {
      var i := IndexOf(list, h);
      assert list == list[..i] + [h] + list[i + 1..];
      calc {
        multiset(list);
        multiset(list[..i]) + multiset{h} + multiset(list[i + 1..]);
        multiset(RemoveAt(list, i)) + multiset{h};
      }
    }
  }

  /** Registering a handler twice and removing it once leaves one registration, at the end. */
  lemma {:induction false} SubscribeTwiceOffOnce(list: seq<Handler>, h: Handler)
    requires h !in list
    ensures RemoveFirst(list + [h] + [h], h) == list + [h]
  {
    var l2 := list + [h] + [h];
    assert l2[|list|] == h;
    assert l2[..|list|] == list;
    var i := IndexOf(l2, h);
    assert i == |list|;
    assert l2[i + 1..] == [h];
  }

  /** What a single `emit` leaves behind: the live list afterwards and the calls it made. */
  datatype Delivery = Delivery(remaining: seq<Handler>, calls: seq<Invocation>)

  /**
   * `handlers.forEach(...)` over the LIVE array: positions k .. n-1 are
   * visited, n being the length when the loop began; a position at or past
   * the current length is skipped. A once-wrapper splices itself out before
   * running its handler, so the entry behind it moves into the slot just
   * visited and is not called in this emit.
   */
  function Deliver(live: seq<Handler>, k: nat, n: nat, payload: Payload, throwing: set<int>): Delivery
    decreases n - k
  {
    if k >= n then Delivery(live, [])
    else if k >= |live| then Deliver(live, k + 1, n, payload, throwing)
    else
      var h := live[k];
      var next := if h.Once? then RemoveFirst(live, h) else live;
      var rest := Deliver(next, k + 1, n, payload, throwing);
      Delivery(rest.remaining, [Invocation(h, payload, Target(h) in throwing)] + rest.calls)
  }

  predicate NoOnce(list: seq<Handler>) {
    forall i :: 0 <= i < |list| ==> list[i].Plain?
  }

  /**
   * With no once-wrapper registered, an emit calls every handler exactly once,
   * in registration order, with the same payload — including the handlers
   * after one that throws — and leaves the registrations as they were.
   */
  lemma {:induction false} DeliverPlain(live: seq<Handler>, k: nat, payload: Payload, throwing: set<int>)
    requires NoOnce(live) && k <= |live|
    ensures Deliver(live, k, |live|, payload, throwing).remaining == live
    ensures |Deliver(live, k, |live|, payload, throwing).calls| == |live| - k
    ensures forall i :: 0 <= i < |live| - k ==>
      Deliver(live, k, |live|, payload, throwing).calls[i]
        == Invocation(live[k + i], payload, live[k + i].id in throwing)
    decreases |live| - k
  {
    if k < |live| {
      DeliverPlain(live, k + 1, payload, throwing);
      var rest := Deliver(live, k + 1, |live|, payload, throwing);
      assert Deliver(live, k, |live|, payload, throwing).calls
        == [Invocation(live[k], payload, live[k].id in throwing)] + rest.calls;
    }
  }

  /** An emit on an empty list calls nothing. */
  lemma DeliverEmpty(payload: Payload, throwing: set<int>)
    ensures Deliver([], 0, 0, payload, throwing) == Delivery([], [])
  {
  }

  /** The handler registered right after a once-wrapper is skipped by the emit that fires the wrapper. */
  lemma OnceSkipsNext(a: int, b: int, payload: Payload)
    ensures Deliver([Once(0, a), Plain(b)], 0, 2, payload, {})
      == Delivery([Plain(b)], [Invocation(Once(0, a), payload, false)])
  {
    var live := [Once(0, a), Plain(b)];
    assert IndexOf(live, Once(0, a)) == 0;
    assert RemoveFirst(live, Once(0, a)) == [Plain(b)];
    assert Deliver([Plain(b)], 1, 2, payload, {}) == Deliver([Plain(b)], 2, 2, payload, {});
  }

  /** Each once-token occurs at most once in the whole registry. */
  ghost predicate UniqueTokens(m: map<string, seq<Handler>>) {
    forall e1, i, e2, j ::
      e1 in m && e2 in m && 0 <= i < |m[e1]| && 0 <= j < |m[e2]|
      && m[e1][i].Once? && m[e2][j].Once? && m[e1][i].token == m[e2][j].token
      ==> e1 == e2 && i == j
  }

  /** No registered once-wrapper carries token `t`. */
  ghost predicate TokenAbsent(m: map<string, seq<Handler>>, t: nat) {
    forall e, j :: e in m && 0 <= j < |m[e]| && m[e][j].Once? ==> m[e][j].token != t
  }

  /** The once-tokens an emit fired. */
  ghost function FiredTokens(calls: seq<Invocation>): set<nat> {
    set i | 0 <= i < |calls| && calls[i].entry.Once? :: calls[i].entry.token
  }

  lemma FiredTokensAppend(calls: seq<Invocation>, c: Invocation)
    ensures FiredTokens(calls + [c]) == FiredTokens(calls) + (if c.entry.Once? then {c.entry.token} else {})
  {
    var all := calls + [c];
    assert forall i :: 0 <= i < |calls| ==> all[i] == calls[i];
    assert all[|calls|] == c;
  }

  lemma UniqueAfterRemove(m: map<string, seq<Handler>>, e: string, k: nat)
    requires UniqueTokens(m) && e in m && k < |m[e]|
    ensures UniqueTokens(m[e := RemoveAt(m[e], k)])
    ensures m[e][k].Once? ==> TokenAbsent(m[e := RemoveAt(m[e], k)], m[e][k].token)
  {
    var m' := m[e := RemoveAt(m[e], k)];
    forall e1, i | e1 in m' && 0 <= i < |m'[e1]|
      ensures m'[e1][i] == m[e1][if e1 == e && i >= k then i + 1 else i]
    {
    }
  }

  lemma UniqueAfterAppend(m: map<string, seq<Handler>>, e: string, h: Handler)
    requires UniqueTokens(m)
    requires h.Once? ==> TokenAbsent(m, h.token)
    ensures UniqueTokens(m[e := (if e in m then m[e] else []) + [h]])
  {
    var m' := m[e := (if e in m then m[e] else []) + [h]];
    forall e1, i | e1 in m' && 0 <= i < |m'[e1]|
      ensures (e1 == e && i == |m'[e1]| - 1 && m'[e1][i] == h) || (e1 in m && i < |m[e1]| && m'[e1][i] == m[e1][i])
    {
    }
  }

  /** Two registries that differ at most in the list for `event`. */
  ghost predicate SameExcept(m1: map<string, seq<Handler>>, m2: map<string, seq<Handler>>, event: string) {
    m1.Keys == m2.Keys && forall e :: e in m1 && e != event ==> m1[e] == m2[e]
  }

  /** The calls made so far, followed by what the remaining visits do, are the whole delivery. */
  ghost predicate DeliveredSoFar(total: Delivery, live: seq<Handler>, k: nat, n: nat,
                                 payload: Payload, throwing: set<int>, calls: seq<Invocation>)
  {
    var d := Deliver(live, k, n, payload, throwing);
    total == Delivery(d.remaining, calls + d.calls)
  }

  /** The calls so far carry the payload, fire fresh and distinct tokens, and account for `fired`. */
  ghost predicate CallsSoFar(calls: seq<Invocation>, payload: Payload, fired0: set<nat>, fired: set<nat>) {
    && (forall i :: 0 <= i < |calls| ==> calls[i].payload == payload)
    && (forall i :: 0 <= i < |calls| && calls[i].entry.Once? ==> calls[i].entry.token !in fired0)
    && (forall i, j :: 0 <= i < j < |calls| && calls[i].entry.Once? && calls[j].entry.Once? ==>
          calls[i].entry.token != calls[j].entry.token)
    && fired == fired0 + FiredTokens(calls)
  }

  lemma DeliveredStep(total: Delivery, live: seq<Handler>, k: nat, n: nat,
                      payload: Payload, throwing: set<int>, calls: seq<Invocation>)
    requires k < n && k < |live| && DeliveredSoFar(total, live, k, n, payload, throwing, calls)
    ensures var h := live[k];
      DeliveredSoFar(total, if h.Once? then RemoveFirst(live, h) else live, k + 1, n, payload, throwing,
                     calls + [Invocation(h, payload, Target(h) in throwing)])
  {
    var h := live[k];
    var call := Invocation(h, payload, Target(h) in throwing);
    var next := if h.Once? then RemoveFirst(live, h) else live;
    var rest := Deliver(next, k + 1, n, payload, throwing);
    var d := Deliver(live, k, n, payload, throwing);
    assert total == Delivery(d.remaining, calls + d.calls);
    assert d == Delivery(rest.remaining, [call] + rest.calls);
    assert calls + d.calls == (calls + [call]) + rest.calls;
  }

  lemma CallsStep(calls: seq<Invocation>, payload: Payload, fired0: set<nat>, fired: set<nat>, call: Invocation)
    requires CallsSoFar(calls, payload, fired0, fired) && call.payload == payload
    requires call.entry.Once? ==> call.entry.token !in fired
    ensures CallsSoFar(calls + [call], payload, fired0, fired + (if call.entry.Once? then {call.entry.token} else {}))
  {
    FiredTokensAppend(calls, call);
    if call.entry.Once? {
      forall i | 0 <= i < |calls| && calls[i].entry.Once?
        ensures calls[i].entry.token != call.entry.token
      {
        assert calls[i].entry.token in FiredTokens(calls);
      }
    }
  }

  class EventEmitter {
    /** `handlers`: event name to the ordered list of registered entries. */
    var handlers: map<string, seq<Handler>>
    /** Source of fresh identities for once-wrappers. */
    var nextToken: nat
    /** The once-wrappers that have already run. */
    ghost var fired: set<nat>

    ghost predicate Valid()
      reads this
    {
      && (forall t :: t in fired ==> t < nextToken)
      && (forall e, i :: e in handlers && 0 <= i < |handlers[e]| && handlers[e][i].Once?
            ==> handlers[e][i].token < nextToken && handlers[e][i].token !in fired)
      && UniqueTokens(handlers)
    }

    constructor ()
      ensures Valid() && handlers == map[] && fired == {}
    {
      handlers := map[];
      nextToken := 0;
      fired := {};
    }

    /** `on(event, handler)`: append, creating the list when absent; return the unsubscribe closure. */
    method On(event: string, id: int) returns (unsubscribe: Subscription)
      requires Valid()
      modifies this
      ensures Valid()
      ensures handlers == old(handlers)[event := (if event in old(handlers) then old(handlers)[event] else []) + [Plain(id)]]
      ensures unsubscribe == Subscription(event, Plain(id))
      ensures nextToken == old(nextToken) && fired == old(fired)
    {
      UniqueAfterAppend(handlers, event, Plain(id));
      var list := if event in handlers then handlers[event] else [];
      handlers := handlers[event := list + [Plain(id)]];
      unsubscribe := Subscription(event, Plain(id));
    }

    /** `off(event, handler)`: splice out the first registration of `handler`, if any. */
    method Off(event: string, h: Handler)
      requires Valid()
      modifies this
      ensures Valid()
      ensures handlers == if event in old(handlers) then old(handlers)[event := RemoveFirst(old(handlers)[event], h)] else old(handlers)
      ensures nextToken == old(nextToken) && fired == old(fired)
    {
      if event !in handlers {
        return;
      }
      var index := FindIndex(handlers[event], h);
      if index != -1 {
        UniqueAfterRemove(handlers, event, index);
        handlers := handlers[event := RemoveAt(handlers[event], index)];
      }
    }

    /** Calling the closure returned by `on` or `once`. */
    method Unsubscribe(s: Subscription)
      requires Valid()
      modifies this
      ensures Valid()
      ensures handlers == if s.event in old(handlers) then old(handlers)[s.event := RemoveFirst(old(handlers)[s.event], s.handler)] else old(handlers)
      ensures nextToken == old(nextToken) && fired == old(fired)
    {
      Off(s.event, s.handler);
    }

    /** `once(event, handler)`: register a fresh wrapper that removes itself before calling `handler`. */
    method OnceOn(event: string, id: int) returns (unsubscribe: Subscription)
      requires Valid()
      modifies this
      ensures Valid()
      ensures unsubscribe.event == event && unsubscribe.handler == Once(old(nextToken), id)
      ensures old(nextToken) !in fired
      ensures handlers == old(handlers)[event := (if event in old(handlers) then old(handlers)[event] else []) + [unsubscribe.handler]]
      ensures fired == old(fired)
    {
      var wrapper := Once(nextToken, id);
      UniqueAfterAppend(handlers, event, wrapper);
      var list := if event in handlers then handlers[event] else [];
      handlers := handlers[event := list + [wrapper]];
      nextToken := nextToken + 1;
      unsubscribe := Subscription(event, wrapper);
    }

    /**
     * One visit of `emit`'s loop at position `k` of the live list: a
     * once-wrapper first removes itself (its `off` call), then the handler runs.
     */
    method Visit(event: string, k: nat, payload: Payload, throwing: set<int>) returns (call: Invocation)
      requires Valid() && event in handlers && k < |handlers[event]|
      modifies this
      ensures Valid() && nextToken == old(nextToken)
      ensures call == Invocation(old(handlers)[event][k], payload, Target(old(handlers)[event][k]) in throwing)
      ensures var h := old(handlers)[event][k];
        handlers == old(handlers)[event := if h.Once? then RemoveFirst(old(handlers)[event], h) else old(handlers)[event]]
      ensures call.entry.Once? ==> call.entry.token !in old(fired) && fired == old(fired) + {call.entry.token}
      ensures call.entry.Plain? ==> fired == old(fired)
    {
      var live := handlers[event];
      var h := live[k];
      call := Invocation(h, payload, Target(h) in throwing);
      if h.Once? {
        assert IndexOf(live, h) == k by {
          var i := IndexOf(live, h);
          assert live[i].token == live[k].token;
        }
        UniqueAfterRemove(handlers, event, k);
        Off(event, h);
        fired := fired + {h.token};
      }
    }

    /**
     * What `emit` has done after visiting positions 0 .. k-1, starting from
     * registry `h0` and fired set `fired0`.
     */
    ghost predicate EmitProgress(event: string, h0: map<string, seq<Handler>>, fired0: set<nat>,
                                 k: nat, n: nat, payload: Payload, throwing: set<int>, calls: seq<Invocation>)
      reads this
    {
      && event in h0 && n == |h0[event]| && k <= n
      && event in handlers && SameExcept(handlers, h0, event)
      && DeliveredSoFar(Deliver(h0[event], 0, n, payload, throwing), handlers[event], k, n, payload, throwing, calls)
      && CallsSoFar(calls, payload, fired0, fired)
    }

    /** One iteration of `emit`'s loop. */
    method Step(event: string, ghost h0: map<string, seq<Handler>>, ghost fired0: set<nat>,
                k: nat, n: nat, payload: Payload, throwing: set<int>, calls: seq<Invocation>)
      returns (calls': seq<Invocation>)
      requires Valid() && k < n && EmitProgress(event, h0, fired0, k, n, payload, throwing, calls)
      modifies this
      ensures Valid() && nextToken == old(nextToken)
      ensures EmitProgress(event, h0, fired0, k + 1, n, payload, throwing, calls')
    {
      calls' := calls;
      ghost var live := handlers[event];
      if k < |handlers[event]| {
        ghost var firedBefore := fired;
        ghost var before := handlers;
        var call := Visit(event, k, payload, throwing);
        assert SameExcept(handlers, before, event);
        DeliveredStep(Deliver(h0[event], 0, n, payload, throwing), live, k, n, payload, throwing, calls);
        CallsStep(calls, payload, fired0, firedBefore, call);
        calls' := calls + [call];
      }
    }

    /**
     * `emit(event, payload)`: call the registered entries through the live
     * list; a throwing handler is caught and the loop goes on. A once-wrapper
     * that runs is recorded in `fired` and is never registered again.
     */
    method Emit(event: string, payload: Payload, throwing: set<int>) returns (calls: seq<Invocation>)
      requires Valid()
      modifies this
      ensures Valid()
      ensures event !in old(handlers) ==> handlers == old(handlers) && calls == []
      ensures event in old(handlers) ==>
        var d := Deliver(old(handlers)[event], 0, |old(handlers)[event]|, payload, throwing);
        handlers == old(handlers)[event := d.remaining] && calls == d.calls
      ensures forall i :: 0 <= i < |calls| ==> calls[i].payload == payload
      ensures forall i :: 0 <= i < |calls| && calls[i].entry.Once? ==> calls[i].entry.token !in old(fired)
      ensures forall i, j :: 0 <= i < j < |calls| && calls[i].entry.Once? && calls[j].entry.Once? ==>
        calls[i].entry.token != calls[j].entry.token
      ensures fired == old(fired) + FiredTokens(calls)
      ensures nextToken == old(nextToken)
    {
      calls := [];
      if event !in handlers || |handlers[event]| == 0 {
        return;
      }
      var n := |handlers[event]|;
      var k := 0;
      assert FiredTokens([]) == {};
      ghost var total := Deliver(handlers[event], 0, n, payload, throwing);
      assert [] + total.calls == total.calls;
      while k < n
        invariant 0 <= k <= n
        invariant Valid() && nextToken == old(nextToken)
        invariant EmitProgress(event, old(handlers), old(fired), k, n, payload, throwing, calls)
      {
        calls := Step(event, old(handlers), old(fired), k, n, payload, throwing, calls);
        k := k + 1;
      }
      assert Deliver(handlers[event], n, n, payload, throwing) == Delivery(handlers[event], []);
      assert calls + [] == calls;
      assert handlers == old(handlers)[event := handlers[event]];
    }
  }
}

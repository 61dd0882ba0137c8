// PromiseDomain: Promise<S>, promises allocated from a fixed arena of S
// slots and run from a ready list of S entries.  The class holds the static
// state (the arena's free list and used flags, the promise objects in the
// arena's slots, the ready list) and the callbacks called so far; each
// operation's effect on that state is given by a function on a snapshot of
// it, and the properties are lemmas about those functions.
//
// Callbacks and contexts are numbers: a user callback is User(fn), called
// with its context; the callbacks that then(ChainedCallback), all() and
// any() install are the constructors Chain, AllCount and AnyResolve, whose
// context is a promise slot.
module PromiseDomain {
  import opened Wrappers

  /** The size of PromiseDefault. */
  const DefaultSize: nat := 200

  datatype Callback = NoCallback | User(fn: nat) | Chain | AllCount | AnyResolve

  /** The fields of one promise object; a chainedCallback of 0 is null. */
  datatype Slot = Slot(resolved: bool, callback: Callback, context: nat, chainedCallback: nat,
                       chainedContext: nat, counter: int, next: Option<nat>)

  /** A call of a user callback, or of a user chained callback. */
  datatype Call = Called(fn: nat, context: nat) | ChainCalled(fn: nat, context: nat)

  /** A snapshot of the static state: the arena's free list (oldest first)
      and used slots, the promise objects, the ready list (oldest first) and
      the calls made so far; `handed` are the promises the user's chained
      callbacks hand back, one per call, in the order they are called. */
  datatype Sys = Sys(free: seq<nat>, used: set<nat>, slots: seq<Slot>, ready: seq<nat>, calls: seq<Call>,
                     handed: seq<nat>)

  /** A promise object as the arena hands it out before first use. */
  const BlankSlot := Slot(false, NoCallback, 0, 0, 0, 0, None)

  /** The callbacks that carry a promise as their context point into the arena. */
  predicate Linked(slot: Slot, n: nat)
  {
    (!slot.callback.NoCallback? && !slot.callback.User? ==> slot.context < n)
    && (slot.next.Some? ==> slot.next.value < n)
  }

  /** The arena and ready-list invariant. */
  predicate Good(s: Sys)
  {
    (forall i :: 0 <= i < |s.free| ==> s.free[i] < |s.slots| && s.free[i] !in s.used)
    && (forall i, j :: 0 <= i < j < |s.free| ==> s.free[i] != s.free[j])
    && (forall k :: k in s.used ==> k < |s.slots|)
    && |s.ready| <= |s.slots|
    && (forall i :: 0 <= i < |s.ready| ==> s.ready[i] < |s.slots|)
    && (forall k :: 0 <= k < |s.slots| ==> Linked(s.slots[k], |s.slots|))
    && (forall i :: 0 <= i < |s.handed| ==> s.handed[i] < |s.slots|)
  }

  /** The ready list's push: refused, with nothing changed, when S entries
      are queued. */
  function Enqueued(s: Sys, p: nat): (r: Sys)
    requires Good(s) && p < |s.slots|
    ensures Good(r) && r.slots == s.slots && r.free == s.free && r.used == s.used && r.calls == s.calls
    ensures r.ready == (if |s.ready| < |s.slots| then s.ready + [p] else s.ready)
  {
    if |s.ready| < |s.slots| then s.(ready := s.ready + [p]) else s
  }

  /** inscribe: no promise when the arena is exhausted; otherwise the oldest
      free slot, now used, unresolved and without a callback. */
  function Inscribed(s: Sys): (r: (Sys, Option<nat>))
    requires Good(s)
    ensures Good(r.0) && r.0.ready == s.ready && r.0.calls == s.calls && |r.0.slots| == |s.slots|
    ensures r.1.None? <==> s.free == []
    ensures r.1.None? ==> r.0 == s
    ensures r.1.Some? ==>
              var p := r.1.value;
              p == s.free[0] && p !in s.used && r.0.used == s.used + {p} && r.0.free == s.free[1..]
              && !r.0.slots[p].resolved && r.0.slots[p].callback == NoCallback
              && forall k :: 0 <= k < |s.slots| && k != p ==> r.0.slots[k] == s.slots[k]
  {
    if s.free == [] then (s, None)
    else
      var p := s.free[0];
      var slot := s.slots[p].(resolved := false, callback := NoCallback, context := 0);
      (s.(free := s.free[1..], used := s.used + {p}, slots := s.slots[p := slot]), Some(p))
  }

  /** The arena's release: refused for a slot outside the arena or not in
      use; otherwise the slot goes to the back of the free list. */
  function Released(s: Sys, p: nat): (r: (Sys, bool))
    requires Good(s)
    ensures Good(r.0) && r.0.slots == s.slots && r.0.ready == s.ready && r.0.calls == s.calls
    ensures r.1 <==> p < |s.slots| && p in s.used
    ensures r.1 ==> r.0.free == s.free + [p] && r.0.used == s.used - {p}
    ensures !r.1 ==> r.0 == s
  {
    if p >= |s.slots| || p !in s.used then (s, false)
    else (s.(free := s.free + [p], used := s.used - {p}), true)
  }

  /** then(Callback): the callback and context are set; an already resolved
      promise is queued at once.  The callback may be any promise's, as when
      the chaining callback hands one on. */
  function WithCallback(s: Sys, p: nat, cb: Callback, ctx: nat): (r: Sys)
    requires Good(s) && p < |s.slots|
    requires cb.Chain? || cb.AllCount? || cb.AnyResolve? ==> ctx < |s.slots|
    ensures Good(r) && r.free == s.free && r.used == s.used && r.calls == s.calls && r.handed == s.handed
    ensures r.slots == s.slots[p := s.slots[p].(callback := cb, context := ctx)]
    ensures r.ready == (if s.slots[p].resolved && |s.ready| < |s.slots| then s.ready + [p] else s.ready)
  {
    var t := s.(slots := s.slots[p := s.slots[p].(callback := cb, context := ctx)]);
    if s.slots[p].resolved then Enqueued(t, p) else t
  }

  /** then(ChainedCallback): the next promise is inscribed first and kept
      whatever the outcome; only when it exists are the chained callback, its
      context and the chaining callback installed, the promise itself being
      that callback's context. */
  function WithChain(s: Sys, p: nat, fn: nat, ctx: nat): (r: (Sys, Option<nat>))
    requires Good(s) && p < |s.slots|
    ensures Good(r.0) && |r.0.slots| == |s.slots| && r.1 == Inscribed(s).1 && r.0.slots[p].next == r.1
    ensures r.1.None? ==> r.0.slots[p].callback == s.slots[p].callback
    ensures r.1.Some? ==> r.0.slots[p].callback == Chain && r.0.slots[p].context == p
                          && r.0.slots[p].chainedCallback == fn && r.0.slots[p].chainedContext == ctx
  {
    var (t, n) := Inscribed(s);
    var u := t.(slots := t.slots[p := t.slots[p].(next := n)]);
    if n.None? then (u, None) else (InstallChain(u, p, fn, ctx), n)
  }

  /** The second half of then(ChainedCallback), once the next promise exists. */
  function InstallChain(s: Sys, p: nat, fn: nat, ctx: nat): (r: Sys)
    requires Good(s) && p < |s.slots|
    ensures Good(r) && |r.slots| == |s.slots|
    ensures r.slots[p] == s.slots[p].(chainedCallback := fn, chainedContext := ctx, context := p, callback := Chain)
  {
    var slot := s.slots[p].(chainedCallback := fn, chainedContext := ctx, context := p, callback := Chain);
    var t := s.(slots := s.slots[p := slot]);
    if slot.resolved then Enqueued(t, p) else t
  }

  /** resolve: nothing for a resolved promise; otherwise it becomes resolved
      and is queued when it has a callback. */
  function Resolved(s: Sys, p: nat): (r: Sys)
    requires Good(s) && p < |s.slots|
    ensures Good(r) && r.free == s.free && r.used == s.used && r.calls == s.calls
    ensures r.slots == s.slots[p := s.slots[p].(resolved := true)]
    ensures r.ready == (if !s.slots[p].resolved && !s.slots[p].callback.NoCallback? && |s.ready| < |s.slots|
                        then s.ready + [p] else s.ready)
  {
    if s.slots[p].resolved then
      assert s.slots[p := s.slots[p].(resolved := true)] == s.slots;
      s
    else
      var t := s.(slots := s.slots[p := s.slots[p].(resolved := true)]);
      if !s.slots[p].callback.NoCallback? then Enqueued(t, p) else t
  }

  /** Calls promise p's callback with its context: a user callback is
      recorded; all()'s callback counts its promise down; any()'s resolves
      its promise; the chaining callback calls the user chained callback,
      hands the next promise's callback on and releases the next promise.
      A null callback is never queued by resolve; calling one is left as
      doing nothing. */
  function RunCallback(s: Sys, p: nat): (r: Sys)
    requires Good(s) && p < |s.slots|
    ensures Good(r) && |r.slots| == |s.slots|
    ensures !s.slots[p].callback.Chain? ==> r.handed == s.handed
    ensures !s.slots[p].callback.Chain? ==>
              forall k :: 0 <= k < |s.slots| ==>
                r.slots[k].callback == s.slots[k].callback && r.slots[k].context == s.slots[k].context
  {
    var slot := s.slots[p];
    match slot.callback
    case NoCallback => s
    case User(fn) => s.(calls := s.calls + [Called(fn, slot.context)])
    case AllCount => CountDown(s, slot.context)
    case AnyResolve => Resolved(s, slot.context)
    case Chain => RunChain(s, slot.context)
  }

  /** all()'s callback: the counter of promise c goes down by one, and c is
      resolved when it reaches zero, so c becomes resolved exactly when the
      counter was at one. */
  function CountDown(s: Sys, c: nat): (r: Sys)
    requires Good(s) && c < |s.slots|
    ensures Good(r) && |r.slots| == |s.slots|
    ensures forall k :: 0 <= k < |s.slots| && k != c ==> r.slots[k] == s.slots[k]
    ensures r.slots[c] == s.slots[c].(counter := s.slots[c].counter - 1,
                                      resolved := s.slots[c].resolved || s.slots[c].counter == 1)
  {
    var t := s.(slots := s.slots[c := s.slots[c].(counter := s.slots[c].counter - 1)]);
    if t.slots[c].counter == 0 then Resolved(t, c) else t
  }

  /** The chaining callback with promise q as its context: the user chained
      callback is called and returns the promise handed[0]; that promise
      gets the callback and context of q's next promise, through then(), and
      the next promise is released.  With no returned promise left, nothing
      is handed on. */
  function RunChain(s: Sys, q: nat): (r: Sys)
    requires Good(s) && q < |s.slots|
    ensures Good(r) && |r.slots| == |s.slots|
    ensures r.calls == s.calls + [ChainCalled(s.slots[q].chainedCallback, s.slots[q].chainedContext)]
    ensures r.handed == (if s.handed == [] then [] else s.handed[1..])
  {
    var slot := s.slots[q];
    var t := s.(calls := s.calls + [ChainCalled(slot.chainedCallback, slot.chainedContext)],
                handed := if s.handed == [] then [] else s.handed[1..]);
    var u := if s.handed != [] && slot.next.Some? then HandOn(t, s.handed[0], slot.next.value) else t;
    if slot.next.Some? then Released(u, slot.next.value).0 else u
  }

  /** The chaining callback hands the callback registered on q's next
      promise, with its context, to the promise the chained callback
      returned; no other promise object changes, the returned promise is
      queued when already resolved, and the next promise goes back to the
      arena. */
  lemma ChainHandsOn(s: Sys, q: nat)
    requires Good(s) && q < |s.slots| && s.slots[q].next.Some? && s.handed != []
    ensures var r := RunChain(s, q);
            var c := s.handed[0];
            var n := s.slots[q].next.value;
            r.slots[c].callback == s.slots[n].callback && r.slots[c].context == s.slots[n].context
            && (forall k :: 0 <= k < |s.slots| && k != c ==> r.slots[k] == s.slots[k])
            && r.ready == (if s.slots[c].resolved && |s.ready| < |s.slots| then s.ready + [c] else s.ready)
            && (n in s.used ==> r.used == s.used - {n} && r.free == s.free + [n])
  {
  }

  /** then(f)->then(g): once the first promise's chaining callback has run,
      the promise f returned carries g, and running its callback calls g
      with g's context. */
  lemma SecondCallbackFollows(s: Sys, q: nat, g: nat)
    requires Good(s) && q < |s.slots| && s.slots[q].next.Some? && s.handed != []
    requires s.slots[s.slots[q].next.value].callback == User(g)
    ensures var t := RunChain(s, q);
            RunCallback(t, s.handed[0]).calls
              == s.calls + [ChainCalled(s.slots[q].chainedCallback, s.slots[q].chainedContext),
                            Called(g, s.slots[s.slots[q].next.value].context)]
  {
    ChainHandsOn(s, q);
  }

  /** chained->then(next->callback, next->context). */
  function HandOn(s: Sys, c: nat, n: nat): (r: Sys)
    requires Good(s) && c < |s.slots| && n < |s.slots|
    ensures Good(r)
  {
    WithCallback(s, c, s.slots[n].callback, s.slots[n].context)
  }

  /** One round of update(): the oldest queued promise is taken off the
      ready list, its callback called and the promise released. */
  function Step(s: Sys): (r: Sys)
    requires Good(s) && s.ready != []
    ensures Good(r)
  {
    var p := s.ready[0];
    var t := s.(ready := s.ready[1..]);
    Released(RunCallback(t, p), p).0
  }

  /** The number of unresolved promise objects. */
  function Unresolved(slots: seq<Slot>): nat
  {
    if |slots| == 0 then 0
    else Unresolved(slots[..|slots| - 1]) + (if slots[|slots| - 1].resolved then 0 else 1)
  }

  /** Each round of update() takes one entry off the ready list and queues at
      most one more, and only by resolving a promise. */
  function Measure(s: Sys): nat
  {
    |s.ready| + 2 * Unresolved(s.slots) + |s.handed|
  }

  lemma {:induction false} UnresolvedSet(slots: seq<Slot>, k: nat, v: Slot)
    requires k < |slots|
    ensures Unresolved(slots[k := v]) + (if slots[k].resolved then 0 else 1)
            == Unresolved(slots) + (if v.resolved then 0 else 1)
    decreases |slots|
  {
    var n := |slots| - 1;
    if k == n {
      assert slots[k := v][..n] == slots[..n];
    } else {
      assert slots[k := v][..n] == slots[..n][k := v];
      UnresolvedSet(slots[..n], k, v);
    }
  }

  lemma ResolveMeasure(s: Sys, p: nat)
    requires Good(s) && p < |s.slots|
    ensures Measure(Resolved(s, p)) <= Measure(s)
  {
    UnresolvedSet(s.slots, p, s.slots[p].(resolved := true));
  }

  lemma RunCallbackMeasure(s: Sys, p: nat)
    requires Good(s) && p < |s.slots|
    ensures Measure(RunCallback(s, p)) <= Measure(s)
  {
    var slot := s.slots[p];
    if slot.callback.AllCount? {
      CountDownMeasure(s, slot.context);
    } else if slot.callback.AnyResolve? {
      ResolveMeasure(s, slot.context);
    } else if slot.callback.Chain? {
      ChainMeasure(s, slot.context);
    }
  }

  /** A hand-on queues at most one promise and uses up one returned one. */
  lemma ChainMeasure(s: Sys, q: nat)
    requires Good(s) && q < |s.slots|
    ensures Measure(RunChain(s, q)) <= Measure(s)
  {
    var slot := s.slots[q];
    if s.handed != [] && slot.next.Some? {
      var c := s.handed[0];
      var n := s.slots[slot.next.value];
      UnresolvedSet(s.slots, c, s.slots[c].(callback := n.callback, context := n.context));
    }
  }

  lemma CountDownMeasure(s: Sys, c: nat)
    requires Good(s) && c < |s.slots|
    ensures Measure(CountDown(s, c)) <= Measure(s)
  {
    var t := s.(slots := s.slots[c := s.slots[c].(counter := s.slots[c].counter - 1)]);
    UnresolvedSet(s.slots, c, s.slots[c].(counter := s.slots[c].counter - 1));
    if t.slots[c].counter == 0 {
      ResolveMeasure(t, c);
    }
  }

  lemma StepDecreases(s: Sys)
    requires Good(s) && s.ready != []
    ensures Measure(Step(s)) < Measure(s)
  {
    RunCallbackMeasure(s.(ready := s.ready[1..]), s.ready[0]);
  }

  /** update(): rounds until the ready list is empty, callbacks queued on the
      way included. */
  ghost function Drain(s: Sys): (r: Sys)
    requires Good(s)
    ensures Good(r) && r.ready == []
    decreases Measure(s)
  {
    if s.ready == [] then s
    else
      StepDecreases(s);
      Drain(Step(s))
  }

  /** A promise without a callback or chained callback, as all() and any()
      require of their inputs. */
  predicate Clean(slot: Slot)
  {
    slot.callback.NoCallback? && slot.chainedCallback == 0
  }

  /** The inputs ps[i..] of all() or any(), whose own promise is c: each one
      in turn gets the callback cb with context c, until one already has a
      callback or a chained callback; then c is released, and so is every
      input before the first occurrence of that one, and there is no result. */
  function Attach(s: Sys, ps: seq<nat>, c: nat, cb: Callback, i: nat): (r: (Sys, Option<nat>))
    requires Good(s) && c < |s.slots| && (cb.AllCount? || cb.AnyResolve?) && i <= |ps|
    requires forall k :: 0 <= k < |ps| ==> ps[k] < |s.slots|
    ensures Good(r.0) && |r.0.slots| == |s.slots|
    ensures r.1.Some? ==> r.1.value == c
    decreases |ps| - i
  {
    if i == |ps| then (s, Some(c))
    else
      var p := ps[i];
      if !Clean(s.slots[p]) then (ReleaseUntil(Released(s, c).0, ps, p, 0), None)
      else Attach(WithCallback(s, p, cb, c), ps, c, cb, i + 1)
  }

  /** One step of Attach on an input without callbacks. */
  lemma AttachNext(s: Sys, ps: seq<nat>, c: nat, cb: Callback, i: nat)
    requires Good(s) && c < |s.slots| && (cb.AllCount? || cb.AnyResolve?) && i < |ps|
    requires forall k :: 0 <= k < |ps| ==> ps[k] < |s.slots|
    requires Clean(s.slots[ps[i]])
    ensures Attach(s, ps, c, cb, i) == Attach(WithCallback(s, ps[i], cb, c), ps, c, cb, i + 1)
  {
  }

  /** Releases ps[j], ps[j + 1], ... up to the first occurrence of p. */
  function ReleaseUntil(s: Sys, ps: seq<nat>, p: nat, j: nat): (r: Sys)
    requires Good(s) && j <= |ps|
    ensures Good(r) && |r.slots| == |s.slots|
    decreases |ps| - j
  {
    if j == |ps| || ps[j] == p then s
    else ReleaseUntil(Released(s, ps[j]).0, ps, p, j + 1)
  }

  /** all(): a promise whose counter starts at the number of inputs, each
      input counting it down when its callback runs.  The arena being
      exhausted gives no promise. */
  function AllOf(s: Sys, ps: seq<nat>): (r: (Sys, Option<nat>))
    requires Good(s) && forall k :: 0 <= k < |ps| ==> ps[k] < |s.slots|
    ensures Good(r.0)
  {
    var (t, c) := Inscribed(s);
    if c.None? then (t, None)
    else
      var u := t.(slots := t.slots[c.value := t.slots[c.value].(counter := |ps|)]);
      Attach(u, ps, c.value, AllCount, 0)
  }

  /** any(): a promise that each input resolves when its callback runs. */
  function AnyOf(s: Sys, ps: seq<nat>): (r: (Sys, Option<nat>))
    requires Good(s) && forall k :: 0 <= k < |ps| ==> ps[k] < |s.slots|
    ensures Good(r.0)
  {
    var (t, c) := Inscribed(s);
    if c.None? then (t, None) else Attach(t, ps, c.value, AnyResolve, 0)
  }

  /** A promise inscribed and then released goes back to the end of the free
      list, and the arena's used slots are as before. */
  lemma InscribeRelease(s: Sys)
    requires Good(s) && s.free != []
    ensures var (t, p) := Inscribed(s);
            var (u, ok) := Released(t, p.value);
            ok && u.used == s.used && u.free == s.free[1..] + [s.free[0]]
  {
  }

  /** resolve is idempotent. */
  lemma ResolveIdempotent(s: Sys, p: nat)
    requires Good(s) && p < |s.slots|
    ensures Resolved(Resolved(s, p), p) == Resolved(s, p)
  {
  }

  /** Every queued promise has a user callback. */
  predicate UserQueue(s: Sys)
  {
    forall i :: 0 <= i < |s.ready| ==> s.ready[i] < |s.slots| && s.slots[s.ready[i]].callback.User?
  }

  /** The calls of the user callbacks of the promises q, in order. */
  function UserCalls(slots: seq<Slot>, q: seq<nat>): (r: seq<Call>)
    requires forall i :: 0 <= i < |q| ==> q[i] < |slots| && slots[q[i]].callback.User?
    ensures |r| == |q|
  {
    if q == [] then []
    else [Called(slots[q[0]].callback.fn, slots[q[0]].context)] + UserCalls(slots, q[1..])
  }

  /** update() calls the queued user callbacks once each, oldest first, and
      changes no promise object. */
  lemma {:induction false} DrainCallsInOrder(s: Sys)
    requires Good(s) && UserQueue(s)
    ensures Drain(s).calls == s.calls + UserCalls(s.slots, s.ready) && Drain(s).slots == s.slots
    decreases |s.ready|
  {
    if s.ready != [] {
      var p := s.ready[0];
      var t := Step(s);
      StepUser(s);
      DrainStep(s);
      DrainCallsInOrder(t);
      var first := Called(s.slots[p].callback.fn, s.slots[p].context);
      var rest := UserCalls(s.slots, s.ready[1..]);
      assert UserCalls(s.slots, s.ready) == [first] + rest;
      AppendAssoc(s.calls, [first], rest);
    }
  }

  lemma AppendAssoc<T>(a: seq<T>, b: seq<T>, c: seq<T>)
    ensures (a + b) + c == a + (b + c)
  {
  }

  lemma MoveHead<T>(a: seq<T>, q: seq<T>)
    requires q != []
    ensures (a + [q[0]]) + q[1..] == a + q
  {
    assert q == [q[0]] + q[1..];
  }

  lemma DrainStep(s: Sys)
    requires Good(s) && s.ready != []
    ensures Drain(s) == Drain(Step(s))
  {
  }

  /** One round of update() on a promise with a user callback. */
  lemma StepUser(s: Sys)
    requires Good(s) && UserQueue(s) && s.ready != []
    ensures var p := s.ready[0];
            var t := Step(s);
            t.slots == s.slots && t.ready == s.ready[1..] && UserQueue(t)
            && t.calls == s.calls + [Called(s.slots[p].callback.fn, s.slots[p].context)]
            && t.free == (if p in s.used then s.free + [p] else s.free) && t.used == s.used - {p}
  {
  }

  /** ... and releases them in the same order. */
  lemma {:induction false} DrainReleasesInOrder(s: Sys)
    requires Good(s) && UserQueue(s)
    requires forall i, j :: 0 <= i < j < |s.ready| ==> s.ready[i] != s.ready[j]
    requires forall i :: 0 <= i < |s.ready| ==> s.ready[i] in s.used
    ensures Drain(s).free == s.free + s.ready
    ensures forall i :: 0 <= i < |s.ready| ==> s.ready[i] !in Drain(s).used
    decreases |s.ready|
  {
    if s.ready != [] {
      var p := s.ready[0];
      var t := Step(s);
      StepUser(s);
      DrainStep(s);
      TailReleased(s.ready, s.used);
      DrainReleasesInOrder(t);
      MoveHead(s.free, s.ready);
      DrainKeepsReleased(t, p);
    }
  }

  /** Distinct entries all in used: the tail's entries are distinct and in
      used once the head is taken out. */
  lemma TailReleased(q: seq<nat>, used: set<nat>)
    requires q != [] && forall i, j :: 0 <= i < j < |q| ==> q[i] != q[j]
    requires forall i :: 0 <= i < |q| ==> q[i] in used
    ensures forall i, j :: 0 <= i < j < |q[1..]| ==> q[1..][i] != q[1..][j]
    ensures forall i :: 0 <= i < |q[1..]| ==> q[1..][i] in used - {q[0]}
  {
    forall i | 0 <= i < |q[1..]|
      ensures q[1..][i] in used - {q[0]}
    {
      assert q[1..][i] == q[i + 1];
    }
  }

  /** A slot not in use stays out of use through update() while no callback
      inscribes. */
  lemma {:induction false} DrainKeepsReleased(s: Sys, p: nat)
    requires Good(s) && UserQueue(s) && p !in s.used
    ensures p !in Drain(s).used
    decreases |s.ready|
  {
    if s.ready != [] {
      StepUser(s);
      DrainStep(s);
      DrainKeepsReleased(Step(s), p);
    }
  }

  /** The callbacks of the promises runs called in order. */
  function RunAll(s: Sys, runs: seq<nat>): (r: Sys)
    requires Good(s) && forall i :: 0 <= i < |runs| ==> runs[i] < |s.slots|
    ensures Good(r) && |r.slots| == |s.slots|
    decreases |runs|
  {
    if runs == [] then s else RunAll(RunCallback(s, runs[0]), runs[1..])
  }

  /** all()'s counting: when the callbacks of promises counting down c run,
      c's counter drops by one per call, and c is resolved after them exactly
      when it was already, or when its counter was at least one and at most
      the number of calls.  A counter starting at zero never resolves c. */
  lemma {:induction false} CountDowns(s: Sys, c: nat, runs: seq<nat>)
    requires Good(s) && c < |s.slots|
    requires forall i :: 0 <= i < |runs| ==> runs[i] < |s.slots| && s.slots[runs[i]].callback == AllCount
                                             && s.slots[runs[i]].context == c
    ensures RunAll(s, runs).slots[c].counter == s.slots[c].counter - |runs|
    ensures RunAll(s, runs).slots[c].resolved <==> s.slots[c].resolved || 1 <= s.slots[c].counter <= |runs|
    decreases |runs|
  {
    if runs != [] {
      var t := RunCallback(s, runs[0]);
      assert t == CountDown(s, c);
      CountDowns(t, c, runs[1..]);
    }
  }

  /** Inputs ps[i..] each without a callback or chained callback and not
      occurring earlier in ps. */
  predicate Unclaimed(slots: seq<Slot>, ps: seq<nat>, i: nat)
    requires forall k :: 0 <= k < |ps| ==> ps[k] < |slots|
  {
    forall k :: i <= k < |ps| ==> Clean(slots[ps[k]]) && ps[k] !in ps[..k]
  }

  lemma UnclaimedStep(slots: seq<Slot>, ps: seq<nat>, i: nat)
    requires i < |ps| && forall k :: 0 <= k < |ps| ==> ps[k] < |slots|
    ensures Unclaimed(slots, ps, i) <==> Clean(slots[ps[i]]) && ps[i] !in ps[..i] && Unclaimed(slots, ps, i + 1)
  {
  }

  /** Attach reaches the end exactly when every remaining input has no
      callback and no chained callback and none of them occurs earlier. */
  lemma {:induction false} AttachOutcome(s: Sys, ps: seq<nat>, c: nat, cb: Callback, i: nat)
    requires Good(s) && c < |s.slots| && (cb.AllCount? || cb.AnyResolve?) && i <= |ps|
    requires forall k :: 0 <= k < |ps| ==> ps[k] < |s.slots| && ps[k] != c
    requires forall k :: 0 <= k < i ==> !Clean(s.slots[ps[k]])
    ensures Attach(s, ps, c, cb, i).1.Some? <==> Unclaimed(s.slots, ps, i)
    decreases |ps| - i
  {
    if i < |ps| {
      UnclaimedStep(s.slots, ps, i);
      if Clean(s.slots[ps[i]]) {
        var p := ps[i];
        var v := s.slots[p].(callback := cb, context := c);
        var t := WithCallback(s, p, cb, c);
        assert t.slots == s.slots[p := v];
        NotEarlier(s.slots, ps, i);
        ClaimedSlot(s.slots, ps, i, v);
        AttachNext(s, ps, c, cb, i);
        AttachOutcome(t, ps, c, cb, i + 1);
      }
    }
  }

  /** An input still without callbacks does not occur among the inputs
      before it, which all have one. */
  lemma NotEarlier(slots: seq<Slot>, ps: seq<nat>, i: nat)
    requires i < |ps| && forall k :: 0 <= k < |ps| ==> ps[k] < |slots|
    requires forall k :: 0 <= k < i ==> !Clean(slots[ps[k]])
    requires Clean(slots[ps[i]])
    ensures ps[i] !in ps[..i]
  {
  }

  /** Giving input ps[i] a callback leaves the later inputs' standing as it
      was: a later occurrence of ps[i] fails either way. */
  lemma ClaimedSlot(slots: seq<Slot>, ps: seq<nat>, i: nat, v: Slot)
    requires i < |ps| && forall k :: 0 <= k < |ps| ==> ps[k] < |slots|
    requires !Clean(v) && forall k :: 0 <= k < i ==> !Clean(slots[ps[k]])
    ensures forall k :: 0 <= k <= i ==> !Clean(slots[ps[i] := v][ps[k]])
    ensures Unclaimed(slots[ps[i] := v], ps, i + 1) <==> Unclaimed(slots, ps, i + 1)
  {
    forall k | i < k < |ps|
      ensures (Clean(slots[ps[i] := v][ps[k]]) && ps[k] !in ps[..k]) <==> (Clean(slots[ps[k]]) && ps[k] !in ps[..k])
    {
      if ps[k] == ps[i] {
        assert ps[..k][i] == ps[i];
      }
    }
  }

  /** When Attach succeeds every input has the callback cb with context c,
      and c's own promise object is untouched. */
  lemma {:induction false} AttachSets(s: Sys, ps: seq<nat>, c: nat, cb: Callback, i: nat)
    requires Good(s) && c < |s.slots| && (cb.AllCount? || cb.AnyResolve?) && i <= |ps|
    requires forall k :: 0 <= k < |ps| ==> ps[k] < |s.slots| && ps[k] != c
    requires forall k :: 0 <= k < i ==> s.slots[ps[k]].callback == cb && s.slots[ps[k]].context == c
    ensures var r := Attach(s, ps, c, cb, i);
            r.1.Some? ==> r.0.slots[c] == s.slots[c]
                          && forall k :: 0 <= k < |ps| ==> r.0.slots[ps[k]].callback == cb && r.0.slots[ps[k]].context == c
    decreases |ps| - i
  {
    if i < |ps| && Clean(s.slots[ps[i]]) {
      AttachSets(WithCallback(s, ps[i], cb, c), ps, c, cb, i + 1);
    }
  }

  /** all() gives a promise exactly when the arena has a free slot and every
      input (a promise in use) has no callback or chained callback and occurs
      once. */
  lemma AllOutcome(s: Sys, ps: seq<nat>)
    requires Good(s) && forall k :: 0 <= k < |ps| ==> ps[k] in s.used
    ensures AllOf(s, ps).1.Some? <==>
            s.free != [] && Unclaimed(s.slots, ps, 0)
  {
    if s.free != [] {
      var (t, c) := Inscribed(s);
      var u := t.(slots := t.slots[c.value := t.slots[c.value].(counter := |ps|)]);
      AttachOutcome(u, ps, c.value, AllCount, 0);
    }
  }

  /** The promise all() gives is unresolved, counts from the number of
      inputs, and every input counts it down. */
  lemma AllSetsUp(s: Sys, ps: seq<nat>)
    requires Good(s) && forall k :: 0 <= k < |ps| ==> ps[k] in s.used
    ensures var (t, c) := AllOf(s, ps);
            c.Some? ==> !t.slots[c.value].resolved && t.slots[c.value].counter == |ps|
                        && (forall k :: 0 <= k < |ps| ==> t.slots[ps[k]].callback == AllCount
                                                          && t.slots[ps[k]].context == c.value)
  {
    if s.free != [] {
      var (t, c) := Inscribed(s);
      var u := t.(slots := t.slots[c.value := t.slots[c.value].(counter := |ps|)]);
      AttachSets(u, ps, c.value, AllCount, 0);
    }
  }

  /** any() gives a promise under the same conditions as all(). */
  lemma AnyOutcome(s: Sys, ps: seq<nat>)
    requires Good(s) && forall k :: 0 <= k < |ps| ==> ps[k] in s.used
    ensures AnyOf(s, ps).1.Some? <==>
            s.free != [] && Unclaimed(s.slots, ps, 0)
  {
    if s.free != [] {
      var (t, c) := Inscribed(s);
      AttachOutcome(t, ps, c.value, AnyResolve, 0);
    }
  }

  /** The promise any() gives is unresolved, and the callback of any one of
      its inputs resolves it. */
  lemma AnyResolvesOnFirst(s: Sys, ps: seq<nat>, k: nat)
    requires Good(s) && forall k :: 0 <= k < |ps| ==> ps[k] in s.used
    requires k < |ps|
    ensures var (t, c) := AnyOf(s, ps);
            c.Some? ==> !t.slots[c.value].resolved && RunCallback(t, ps[k]).slots[c.value].resolved
  {
    if s.free != [] {
      var (t, c) := Inscribed(s);
      AttachSets(t, ps, c.value, AnyResolve, 0);
    }
  }

  /** The static state of Promise<S>: the arena's free list and used slots,
      the promise objects, the ready list, and the calls made so far.  Each
      method changes it as the function of the same name above says. */
  class Promises {
    const size: nat
    var free: seq<nat>
    var used: set<nat>
    var slots: seq<Slot>
    var ready: seq<nat>
    var calls: seq<Call>

    function State(): Sys
      reads this
    {
      Sys(free, used, slots, ready, calls, [])
    }

    ghost predicate Valid()
      reads this
    {
      Good(State()) && |slots| == size
    }

    /** Every slot free, oldest first from slot 0, and nothing queued. */
    constructor(size: nat)
      ensures Valid() && this.size == size
      ensures free == seq(size, i => i) && used == {} && ready == [] && calls == []
      ensures forall k :: 0 <= k < size ==> slots[k] == BlankSlot
    {
      this.size := size;
      free := seq(size, i => i);
      used := {};
      slots := seq(size, i => BlankSlot);
      ready := [];
      calls := [];
    }

    method Push(p: nat)
      requires Valid() && p < size
      modifies this
      ensures Valid() && State() == Enqueued(old(State()), p)
    {
      if |ready| < size {
        ready := ready + [p];
      }
    }

    method Inscribe() returns (p: Option<nat>)
      requires Valid()
      modifies this
      ensures Valid() && (State(), p) == Inscribed(old(State()))
    {
      if free == [] {
        return None;
      }
      var q := free[0];
      free := free[1..];
      used := used + {q};
      slots := slots[q := slots[q].(resolved := false, callback := NoCallback, context := 0)];
      p := Some(q);
    }

    method Release(p: nat) returns (ok: bool)
      requires Valid()
      modifies this
      ensures Valid() && (State(), ok) == Released(old(State()), p)
    {
      if p >= size || p !in used {
        return false;
      }
      free := free + [p];
      used := used - {p};
      ok := true;
    }

    method Then(p: nat, cb: Callback, ctx: nat)
      requires Valid() && p < size && !cb.Chain?
      requires cb.AllCount? || cb.AnyResolve? ==> ctx < size
      modifies this
      ensures Valid() && State() == WithCallback(old(State()), p, cb, ctx)
    {
      slots := slots[p := slots[p].(callback := cb, context := ctx)];
      if slots[p].resolved {
        Push(p);
      }
    }

    method ThenChained(p: nat, fn: nat, ctx: nat) returns (n: Option<nat>)
      requires Valid() && p < size
      modifies this
      ensures Valid() && (State(), n) == WithChain(old(State()), p, fn, ctx)
    {
      n := Inscribe();
      slots := slots[p := slots[p].(next := n)];
      if n.Some? {
        InstallChained(p, fn, ctx);
      }
    }

    /** The second half of then(ChainedCallback). */
    method InstallChained(p: nat, fn: nat, ctx: nat)
      requires Valid() && p < size
      modifies this
      ensures Valid() && State() == InstallChain(old(State()), p, fn, ctx)
    {
      slots := slots[p := slots[p].(chainedCallback := fn, chainedContext := ctx, context := p, callback := Chain)];
      if slots[p].resolved {
        Push(p);
      }
    }

    method Resolve(p: nat)
      requires Valid() && p < size
      modifies this
      ensures Valid() && State() == Resolved(old(State()), p)
    {
      if slots[p].resolved {
        return;
      }
      slots := slots[p := slots[p].(resolved := true)];
      if !slots[p].callback.NoCallback? {
        Push(p);
      }
    }

    /** update(): pops, calls and releases queued promises until none is
        left; `handed` are the promises the chained callbacks it calls
        return, in call order. */
    method Update(handed: seq<nat>)
      requires Valid() && forall i :: 0 <= i < |handed| ==> handed[i] < size
      modifies this
      ensures Valid() && State() == Drain(old(State()).(handed := handed)).(handed := [])
    {
      var s := State().(handed := handed);
      while s.ready != []
        invariant Good(s) && |s.slots| == size && Drain(s) == Drain(old(State()).(handed := handed))
        decreases Measure(s)
      {
        DrainStep(s);
        StepDecreases(s);
        var p := s.ready[0];
        s := s.(ready := s.ready[1..]);
        s := RunCallback(s, p);
        var (t, _) := Released(s, p);
        s := t;
      }
      Store(s);
    }

    /** Sets the whole state to s. */
    method Store(s: Sys)
      requires Good(s) && |s.slots| == size
      modifies this
      ensures Valid() && State() == s.(handed := [])
    {
      free, used, slots, ready, calls := s.free, s.used, s.slots, s.ready, s.calls;
    }

    /** Releases ps[j], ps[j + 1], ... up to the first occurrence of p. */
    method ReleaseInputs(ps: seq<nat>, p: nat)
      requires Valid()
      modifies this
      ensures Valid() && State() == ReleaseUntil(old(State()), ps, p, 0)
    {
      var j := 0;
      while j < |ps| && ps[j] != p
        invariant Valid() && j <= |ps|
        invariant ReleaseUntil(State(), ps, p, j) == ReleaseUntil(old(State()), ps, p, 0)
        decreases |ps| - j
      {
        var _ := Release(ps[j]);
        j := j + 1;
      }
    }

    /** all() and any() giving up: their own promise c is released, and so
        is every input before the first occurrence of p. */
    method Abandon(ps: seq<nat>, c: nat, p: nat)
      requires Valid()
      modifies this
      ensures Valid() && State() == ReleaseUntil(Released(old(State()), c).0, ps, p, 0)
    {
      var _ := Release(c);
      ReleaseInputs(ps, p);
    }

    /** Gives each input the callback cb with context c, or releases c and
        the inputs before the first one that already has a callback. */
    method AttachInputs(ps: seq<nat>, c: nat, cb: Callback) returns (r: Option<nat>)
      requires Valid() && c < size && (cb.AllCount? || cb.AnyResolve?)
      requires forall k :: 0 <= k < |ps| ==> ps[k] < size
      modifies this
      ensures Valid() && (State(), r) == Attach(old(State()), ps, c, cb, 0)
    {
      for i := 0 to |ps|
        invariant Valid()
        invariant Attach(State(), ps, c, cb, i) == Attach(old(State()), ps, c, cb, 0)
      {
        var p := ps[i];
        if !Clean(slots[p]) {
          Abandon(ps, c, p);
          return None;
        }
        AttachNext(State(), ps, c, cb, i);
        Then(p, cb, c);
      }
      r := Some(c);
    }

    method All(ps: seq<nat>) returns (c: Option<nat>)
      requires Valid() && forall k :: 0 <= k < |ps| ==> ps[k] < size
      modifies this
      ensures Valid() && (State(), c) == AllOf(old(State()), ps)
    {
      c := Inscribe();
      if c.None? {
        return;
      }
      slots := slots[c.value := slots[c.value].(counter := |ps|)];
      c := AttachInputs(ps, c.value, AllCount);
    }

    method Any(ps: seq<nat>) returns (c: Option<nat>)
      requires Valid() && forall k :: 0 <= k < |ps| ==> ps[k] < size
      modifies this
      ensures Valid() && (State(), c) == AnyOf(old(State()), ps)
    {
      c := Inscribe();
      if c.None? {
        return;
      }
      c := AttachInputs(ps, c.value, AnyResolve);
    }
  }
}

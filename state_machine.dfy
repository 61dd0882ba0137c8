// StateMachineDomain: the table-driven state machine.  States are given in
// any order; the constructor sorts them by their enum value, insists that the
// values are exactly 0..n-1 and flattens every state's transitions into one
// list indexed by (start, count) per state.  check_transitions fires the first
// transition of the current state whose guard holds, then checks the nested
// machine registered for the (new) current state.
//
// Callbacks, guards and nested machines are identified by numbers; calling
// them is recorded in an event log instead of being performed.
module StateMachineDomain {
  import opened Wrappers

  /** Callback number 0 stands for a null function pointer. */
  const NullCallback: nat := 0
  /** Scheduler::INVALID_ID, also the id of a timed action never registered. */
  const InvalidId: nat := 0xFF
  const ContiguousError := "States Enum must be contiguous and start from 0"
  const NestedTwiceError := "Only one Nested State Machine can be added per state, tried to add to state: %d"
  const CapacityError := "StaticVector capacity exceeded"
  const RegisterError := "Failed to register timed action"
  const StateMissingError := "Error: The state is not added to the state machine"

  datatype Precision = Milliseconds | Microseconds

  /** A cyclic action: callback, period in its own unit, scheduler id, on flag. */
  datatype TimedAction = TimedAction(action: nat, period: nat, precision: Precision, id: nat, isOn: bool)

  datatype Transition = Transition(target: nat, guard: nat)

  /** One State: its enum value, transitions, cyclic actions and the enter and
      exit callbacks, as the constructor receives it. */
  datatype StateSpec = StateSpec(state: nat, transitions: seq<Transition>, cyclic: seq<TimedAction>,
                                 onEnter: seq<nat>, onExit: seq<nat>)

  /** Where a state's transitions sit in the flattened list. */
  datatype Span = Span(start: nat, count: nat)

  /** A nested machine registered for a state. */
  datatype NestedPair = NestedPair(state: nat, machine: nat)

  /** What the machine asks of the outside world, in order. */
  datatype Event =
    | Called(callback: nat)
    | Registered(periodUs: nat, action: nat)
    | Unregistered(id: nat)
    | NestedChecked(machine: nat)
    | Failed(message: string)
      /** ErrorHandler with a format string and its one %d argument. */
    | FailedAt(message: string, arg: nat)

  // ---------------------------------------------------------------------
  // Sorting the states and checking that they are 0..n-1
  // ---------------------------------------------------------------------

  predicate SortedByState(s: seq<StateSpec>)
  {
    forall p, q :: 0 <= p < q < |s| ==> s[p].state <= s[q].state
  }

  /** After some bubble passes: s[m..] is sorted and no element before m is
      larger than an element from m on. */
  predicate Settled(s: seq<StateSpec>, m: nat)
  {
    m <= |s|
    && (forall p, q :: m <= p < q < |s| ==> s[p].state <= s[q].state)
    && (forall p, q :: 0 <= p < m <= q < |s| ==> s[p].state <= s[q].state)
  }

  /** s[j] is at least every element before it. */
  predicate MaxAt(s: seq<StateSpec>, j: nat)
  {
    j < |s| && forall k :: 0 <= k <= j ==> s[k].state <= s[j].state
  }

  /** The bubble sort of the constructor: n passes over all adjacent pairs,
      swapping those out of order. */
  method SortStates(a: array<StateSpec>)
    modifies a
    ensures SortedByState(a[..])
    ensures multiset(a[..]) == multiset(old(a[..]))
  {
    var n := a.Length;
    for i := 0 to n
      invariant multiset(a[..]) == multiset(old(a[..]))
      invariant Settled(a[..], n - i)
    {
      BubblePass(a, n - i);
    }
  }

  /** One pass j = 0 .. n-2; it moves the largest unsettled element to m-1. */
  method BubblePass(a: array<StateSpec>, m: nat)
    requires 1 <= m <= a.Length && Settled(a[..], m)
    modifies a
    ensures multiset(a[..]) == multiset(old(a[..]))
    ensures Settled(a[..], m - 1)
  {
    var n := a.Length;
    for j := 0 to n - 1
      invariant multiset(a[..]) == multiset(old(a[..]))
      invariant Settled(a[..], m)
      invariant MaxAt(a[..], Top(j, m))
    {
      if a[j].state > a[j + 1].state {
        ghost var s := a[..];
        SwapStep(s, j, m);
        a[j], a[j + 1] := a[j + 1], a[j];
        assert a[..] == Swapped(s, j);
      } else {
        KeepStep(a[..], j, m);
      }
    }
    SettleOne(a[..], m);
  }

  /** The index that holds the running maximum during a pass. */
  function Top(j: nat, m: nat): nat
    requires 1 <= m
  {
    if j < m then j else m - 1
  }

  function Swapped(s: seq<StateSpec>, j: nat): (r: seq<StateSpec>)
    requires j + 1 < |s|
    ensures multiset(r) == multiset(s)
  {
    s[j := s[j + 1]][j + 1 := s[j]]
  }

  lemma SwapStep(s: seq<StateSpec>, j: nat, m: nat)
    requires 1 <= m && j + 1 < |s| && Settled(s, m) && MaxAt(s, Top(j, m))
    requires s[j].state > s[j + 1].state
    ensures j + 1 < m
    ensures Settled(Swapped(s, j), m)
    ensures MaxAt(Swapped(s, j), j + 1)
  {
  }

  lemma KeepStep(s: seq<StateSpec>, j: nat, m: nat)
    requires 1 <= m && j + 1 < |s| && Settled(s, m) && MaxAt(s, Top(j, m))
    requires s[j].state <= s[j + 1].state
    ensures MaxAt(s, Top(j + 1, m))
  {
  }

  lemma SettleOne(s: seq<StateSpec>, m: nat)
    requires 1 <= m <= |s| && Settled(s, m) && MaxAt(s, m - 1)
    ensures Settled(s, m - 1)
  {
  }

  /** The constructor's second loop: every sorted state must equal its index. */
  method CheckContiguous(s: seq<StateSpec>) returns (ok: bool, errors: seq<Event>)
    ensures ok <==> Contiguous(s)
    ensures ok <==> errors == []
  {
    ok := true;
    errors := [];
    for i := 0 to |s|
      invariant ok <==> forall k :: 0 <= k < i ==> s[k].state == k
      invariant ok <==> errors == []
    {
      if s[i].state != i {
        errors := errors + [Failed(ContiguousError)];
        ok := false;
      }
    }
  }

  predicate Contiguous(s: seq<StateSpec>)
  {
    forall i :: 0 <= i < |s| ==> s[i].state == i
  }

  /** No two states share an enum value. */
  predicate DistinctStates(s: seq<StateSpec>)
  {
    forall p, q :: 0 <= p < q < |s| ==> s[p].state != s[q].state
  }

  /** Once sorted, the states are 0..n-1 exactly when the given states have
      distinct enum values, all below n. */
  lemma ContiguousIffExact(input: seq<StateSpec>, sorted: seq<StateSpec>)
    requires multiset(sorted) == multiset(input) && SortedByState(sorted)
    ensures Contiguous(sorted) <==> DistinctStates(input) && forall x :: x in input ==> x.state < |input|
  {
    assert |sorted| == |multiset(sorted)| == |multiset(input)| == |input|;
    forall x | x in input ensures x in sorted {
      assert x in multiset(input);
    }
    forall x | x in sorted ensures x in input {
      assert x in multiset(sorted);
    }
    if Contiguous(sorted) {
      DistinctTransfer(sorted, input);
    }
    if DistinctStates(input) && forall x :: x in input ==> x.state < |input| {
      DistinctTransfer(input, sorted);
      StrictBelow(sorted, 0);
      StrictAbove(sorted, |sorted|);
    }
  }

  /** Distinct enum values carry over to any permutation. */
  lemma DistinctTransfer(s: seq<StateSpec>, t: seq<StateSpec>)
    requires multiset(s) == multiset(t) && DistinctStates(s)
    ensures DistinctStates(t)
  {
    forall p, q | 0 <= p < q < |t| ensures t[p].state != t[q].state {
      if t[p] == t[q] {
        DupCount(t, p, q);
        DupWitness(s, t[p]);
        assert false;
      } else {
        assert t[p] in multiset(s) && t[q] in multiset(s);
        var a :| 0 <= a < |s| && s[a] == t[p];
        var b :| 0 <= b < |s| && s[b] == t[q];
        assert s[a].state != s[b].state;
      }
    }
  }

  lemma DupCount(s: seq<StateSpec>, p: nat, q: nat)
    requires p < q < |s| && s[p] == s[q]
    ensures multiset(s)[s[p]] >= 2
  {
    assert s == s[..p] + [s[p]] + s[p + 1..q] + [s[q]] + s[q + 1..];
  }

  /** An element counted twice sits at two different positions. */
  lemma DupWitness(s: seq<StateSpec>, e: StateSpec)
    requires multiset(s)[e] >= 2
    ensures exists p, q :: 0 <= p < q < |s| && s[p] == e && s[q] == e
  {
    assert e in multiset(s);
    var p :| 0 <= p < |s| && s[p] == e;
    assert s == s[..p] + [e] + s[p + 1..];
    assert multiset(s) == multiset(s[..p]) + multiset{e} + multiset(s[p + 1..]);
    if e in s[..p] {
      var q :| 0 <= q < p && s[q] == e;
      assert s[q] == e && s[p] == e;
    } else {
      assert multiset(s[..p])[e] == 0;
      assert e in multiset(s[p + 1..]);
      var q :| 0 <= q < |s[p + 1..]| && s[p + 1..][q] == e;
      assert s[p] == e && s[p + 1 + q] == e;
    }
  }

  /** Sorted and distinct values from i on are at most n-|s|+k at index k. */
  lemma {:induction false} StrictBelow(s: seq<StateSpec>, i: nat)
    requires SortedByState(s) && DistinctStates(s) && i <= |s|
    requires forall x :: x in s ==> x.state < |s|
    ensures forall k :: i <= k < |s| ==> s[k].state <= k
    decreases |s| - i
  {
    if i < |s| {
      StrictBelow(s, i + 1);
      if i + 1 < |s| {
        assert s[i].state < s[i + 1].state;
      } else {
        assert s[i] in s;
      }
    }
  }

  /** Sorted and distinct values from 0 are at least k at index k. */
  lemma {:induction false} StrictAbove(s: seq<StateSpec>, i: nat)
    requires SortedByState(s) && DistinctStates(s) && i <= |s|
    ensures forall k :: 0 <= k < i ==> s[k].state >= k
    decreases i
  {
    if i > 0 {
      StrictAbove(s, i - 1);
      if i > 1 {
        assert s[i - 2].state < s[i - 1].state;
      }
    }
  }

  // ---------------------------------------------------------------------
  // Flattening the transitions (process_state)
  // ---------------------------------------------------------------------

  /** The transitions of every state, concatenated in state order. */
  function Flatten(table: seq<seq<Transition>>): seq<Transition>
  {
    if |table| == 0 then [] else Flatten(table[..|table| - 1]) + table[|table| - 1]
  }

  /** (start, count) of every state's transitions in Flatten(table). */
  function Spans(table: seq<seq<Transition>>): (r: seq<Span>)
    ensures |r| == |table|
  {
    if |table| == 0 then []
    else
      var init := table[..|table| - 1];
      Spans(init) + [Span(|Flatten(init)|, |table[|table| - 1]|)]
  }

  /** Every span cuts out exactly its state's transitions. */
  lemma {:induction false} SpansSlice(table: seq<seq<Transition>>, k: nat)
    requires k < |table|
    ensures Spans(table)[k].start + Spans(table)[k].count <= |Flatten(table)|
    ensures Flatten(table)[Spans(table)[k].start..Spans(table)[k].start + Spans(table)[k].count] == table[k]
    decreases |table|
  {
    var init := table[..|table| - 1];
    if k < |table| - 1 {
      SpansSlice(init, k);
      assert table[k] == init[k];
      assert Spans(table)[k] == Spans(init)[k];
      var sp := Spans(init)[k];
      assert Flatten(table)[sp.start..sp.start + sp.count] == Flatten(init)[sp.start..sp.start + sp.count];
    }
  }

  /** The transitions of a state-ordered list of specs. */
  function TransitionTable(specs: seq<StateSpec>): (r: seq<seq<Transition>>)
    ensures |r| == |specs| && forall k :: 0 <= k < |specs| ==> r[k] == specs[k].transitions
  {
    if |specs| == 0 then [] else TransitionTable(specs[..|specs| - 1]) + [specs[|specs| - 1].transitions]
  }

  /** The constructor's last loop: process_state over the sorted states, each
      appending its transitions and recording (start, count) at its own enum
      value. */
  method ProcessStates(sorted: seq<StateSpec>) returns (transitions: seq<Transition>, assoc: seq<Span>)
    requires Contiguous(sorted)
    ensures transitions == Flatten(TransitionTable(sorted))
    ensures assoc == Spans(TransitionTable(sorted))
  {
    var table := TransitionTable(sorted);
    transitions := [];
    assoc := seq(|sorted|, _ => Span(0, 0));
    var offset := 0;
    for k := 0 to |sorted|
      invariant |assoc| == |sorted|
      invariant transitions == Flatten(table[..k]) && offset == |transitions|
      invariant assoc[..k] == Spans(table[..k])
    {
      assert table[..k + 1][..k] == table[..k];
      transitions := ProcessState(transitions, sorted[k].transitions);
      assoc := assoc[sorted[k].state := Span(offset, |sorted[k].transitions|)];
      offset := offset + |sorted[k].transitions|;
    }
    assert table[..|sorted|] == table;
  }

  /** process_state's loop: push every transition of one state. */
  method ProcessState(transitions: seq<Transition>, ts: seq<Transition>) returns (r: seq<Transition>)
    ensures r == transitions + ts
  {
    r := transitions;
    for i := 0 to |ts|
      invariant r == transitions + ts[..i]
    {
      assert ts[..i + 1] == ts[..i] + [ts[i]];
      r := r + [ts[i]];
    }
    assert ts[..|ts|] == ts;
  }

  // ---------------------------------------------------------------------
  // Timed-action bookkeeping of a State
  // ---------------------------------------------------------------------

  /** The period handed to Scheduler::register_task, in microseconds: a
      millisecond action is scaled by 1000 in 32-bit arithmetic. */
  function PeriodUs(a: TimedAction): (r: nat)
    ensures r < 0x1_0000_0000 || a.precision == Microseconds
    ensures a.precision == Microseconds ==> r == a.period
  {
    match a.precision
    case Milliseconds => (a.period * 1000) % 0x1_0000_0000
    case Microseconds => a.period
  }

  /** The actions after a pass, and what the pass asked of the scheduler. */
  datatype Pass = Pass(actions: seq<TimedAction>, events: seq<Event>)

  /** register_all_timed_actions from index i on: every non-null action is
      registered and gets the id grants[i]; an INVALID_ID answer reports an
      error and stops the pass. */
  function RegisterFrom(acts: seq<TimedAction>, grants: seq<nat>, i: nat): (r: Pass)
    requires i <= |acts| <= |grants|
    ensures |r.actions| == |acts|
    decreases |acts| - i
  {
    if i == |acts| then Pass(acts, [])
    else if acts[i].action == NullCallback then RegisterFrom(acts, grants, i + 1)
    else
      var request := Registered(PeriodUs(acts[i]), acts[i].action);
      if grants[i] == InvalidId then
        Pass(acts[i := acts[i].(id := InvalidId)], [request, Failed(RegisterError)])
      else
        var rest := RegisterFrom(acts[i := acts[i].(id := grants[i], isOn := true)], grants, i + 1);
        Pass(rest.actions, [request] + rest.events)
  }

  /** unregister_all_timed_actions from index i on: every non-null action that
      is on is unregistered by its id and switched off. */
  function UnregisterFrom(acts: seq<TimedAction>, i: nat): (r: Pass)
    requires i <= |acts|
    ensures |r.actions| == |acts|
    decreases |acts| - i
  {
    if i == |acts| then Pass(acts, [])
    else if acts[i].action == NullCallback || !acts[i].isOn then UnregisterFrom(acts, i + 1)
    else
      var rest := UnregisterFrom(acts[i := acts[i].(isOn := false)], i + 1);
      Pass(rest.actions, [Unregistered(acts[i].id)] + rest.events)
  }

  /** The loop of register_all_timed_actions. */
  method RegisterAll(acts: seq<TimedAction>, grants: seq<nat>) returns (r: Pass)
    requires |acts| <= |grants|
    ensures r == RegisterFrom(acts, grants, 0)
  {
    var cur := acts;
    var events := [];
    var i := 0;
    while i < |cur|
      invariant i <= |cur| == |acts|
      invariant Pass(RegisterFrom(cur, grants, i).actions, events + RegisterFrom(cur, grants, i).events)
                == RegisterFrom(acts, grants, 0)
      decreases |cur| - i
    {
      if cur[i].action != NullCallback {
        var request := Registered(PeriodUs(cur[i]), cur[i].action);
        if grants[i] == InvalidId {
          cur := cur[i := cur[i].(id := InvalidId)];
          events := events + [request, Failed(RegisterError)];
          assert events == events[..|events| - 2] + [request, Failed(RegisterError)];
          return Pass(cur, events);
        }
        cur := cur[i := cur[i].(id := grants[i], isOn := true)];
        events := events + [request];
      }
      i := i + 1;
    }
    r := Pass(cur, events);
  }

  /** The loop of unregister_all_timed_actions. */
  method UnregisterAll(acts: seq<TimedAction>) returns (r: Pass)
    ensures r == UnregisterFrom(acts, 0)
  {
    var cur := acts;
    var events := [];
    for i := 0 to |acts|
      invariant |cur| == |acts|
      invariant Pass(UnregisterFrom(cur, i).actions, events + UnregisterFrom(cur, i).events)
                == UnregisterFrom(acts, 0)
    {
      if cur[i].action != NullCallback && cur[i].isOn {
        events := events + [Unregistered(cur[i].id)];
        cur := cur[i := cur[i].(isOn := false)];
      }
    }
    r := Pass(cur, events);
  }

  /** The non-null callbacks of a list, each called once, in order. */
  function Calls(cbs: seq<nat>): (r: seq<Event>)
    ensures |r| <= |cbs|
  {
    if |cbs| == 0 then []
    else if cbs[|cbs| - 1] == NullCallback then Calls(cbs[..|cbs| - 1])
    else Calls(cbs[..|cbs| - 1]) + [Called(cbs[|cbs| - 1])]
  }

  /** The enter/exit callback loop: call every non-null callback. */
  method RunCallbacks(cbs: seq<nat>) returns (events: seq<Event>)
    ensures events == Calls(cbs)
  {
    events := [];
    for i := 0 to |cbs|
      invariant events == Calls(cbs[..i])
    {
      assert cbs[..i + 1][..i] == cbs[..i];
      if cbs[i] != NullCallback {
        events := events + [Called(cbs[i])];
      }
    }
    assert cbs[..|cbs|] == cbs;
  }

  /** Indices from i on whose action is not null, in order. */
  function Live(acts: seq<TimedAction>, i: nat): (r: seq<nat>)
    requires i <= |acts|
    ensures forall k :: 0 <= k < |r| ==> i <= r[k] < |acts| && acts[r[k]].action != NullCallback
    decreases |acts| - i
  {
    if i == |acts| then []
    else if acts[i].action == NullCallback then Live(acts, i + 1)
    else [i] + Live(acts, i + 1)
  }

  /** Indices from i on whose action is not null and is on, in order. */
  function LiveOn(acts: seq<TimedAction>, i: nat): (r: seq<nat>)
    requires i <= |acts|
    ensures forall k :: 0 <= k < |r| ==> i <= r[k] < |acts|
    decreases |acts| - i
  {
    if i == |acts| then []
    else if acts[i].action == NullCallback || !acts[i].isOn then LiveOn(acts, i + 1)
    else [i] + LiveOn(acts, i + 1)
  }

  /** The registration requests for the actions at js. */
  function Requests(acts: seq<TimedAction>, js: seq<nat>): (r: seq<Event>)
    requires forall k :: 0 <= k < |js| ==> js[k] < |acts|
    ensures |r| == |js|
  {
    if |js| == 0 then []
    else [Registered(PeriodUs(acts[js[0]]), acts[js[0]].action)] + Requests(acts, js[1..])
  }

  /** The unregistrations for the actions at js, by the ids given. */
  function Releases(ids: seq<nat>, js: seq<nat>): (r: seq<Event>)
    requires forall k :: 0 <= k < |js| ==> js[k] < |ids|
    ensures |r| == |js|
  {
    if |js| == 0 then [] else [Unregistered(ids[js[0]])] + Releases(ids, js[1..])
  }

  function Ids(acts: seq<TimedAction>): (r: seq<nat>)
    ensures |r| == |acts| && forall j :: 0 <= j < |acts| ==> r[j] == acts[j].id
  {
    seq(|acts|, j requires 0 <= j < |acts| => acts[j].id)
  }

  /** acts with every non-null action from i on registered under its grant. */
  function GrantedFrom(acts: seq<TimedAction>, grants: seq<nat>, i: nat): (r: seq<TimedAction>)
    requires |acts| <= |grants|
    ensures |r| == |acts|
  {
    seq(|acts|, j requires 0 <= j < |acts| =>
      if j < i || acts[j].action == NullCallback then acts[j] else acts[j].(id := grants[j], isOn := true))
  }

  /** acts with every non-null action from i on switched off. */
  function OffFrom(acts: seq<TimedAction>, i: nat): (r: seq<TimedAction>)
    ensures |r| == |acts|
  {
    seq(|acts|, j requires 0 <= j < |acts| =>
      if j < i || acts[j].action == NullCallback then acts[j] else acts[j].(isOn := false))
  }

  /** Two action lists that ask the scheduler for the same things. */
  predicate SameRequests(a: seq<TimedAction>, b: seq<TimedAction>)
  {
    |a| == |b|
    && forall j :: 0 <= j < |a| ==>
         a[j].action == b[j].action && a[j].period == b[j].period && a[j].precision == b[j].precision
  }

  lemma {:induction false} LiveSame(a: seq<TimedAction>, b: seq<TimedAction>, i: nat)
    requires SameRequests(a, b) && i <= |a|
    ensures Live(a, i) == Live(b, i)
    decreases |a| - i
  {
    if i < |a| {
      LiveSame(a, b, i + 1);
    }
  }

  lemma {:induction false} RequestsSame(a: seq<TimedAction>, b: seq<TimedAction>, js: seq<nat>)
    requires SameRequests(a, b) && forall k :: 0 <= k < |js| ==> js[k] < |a|
    ensures Requests(a, js) == Requests(b, js)
  {
    if |js| > 0 {
      RequestsSame(a, b, js[1..]);
    }
  }

  lemma {:induction false} LiveOnFrame(a: seq<TimedAction>, b: seq<TimedAction>, i: nat)
    requires |a| == |b| && i <= |a|
    requires forall j :: i <= j < |a| ==> a[j].action == b[j].action && a[j].isOn == b[j].isOn
    ensures LiveOn(a, i) == LiveOn(b, i)
    decreases |a| - i
  {
    if i < |a| {
      LiveOnFrame(a, b, i + 1);
    }
  }

  lemma {:induction false} ReleasesFrame(a: seq<nat>, b: seq<nat>, js: seq<nat>)
    requires |a| == |b| && forall k :: 0 <= k < |js| ==> js[k] < |a| && a[js[k]] == b[js[k]]
    ensures Releases(a, js) == Releases(b, js)
  {
    if |js| > 0 {
      ReleasesFrame(a, b, js[1..]);
    }
  }

  /** When the scheduler grants every request, registration switches on every
      non-null action under its grant and asks for exactly one registration
      per such action, in order, with its period in microseconds. */
  lemma {:induction false} RegisterSucceeds(acts: seq<TimedAction>, grants: seq<nat>, i: nat)
    requires i <= |acts| <= |grants|
    requires forall j :: i <= j < |acts| && acts[j].action != NullCallback ==> grants[j] != InvalidId
    ensures RegisterFrom(acts, grants, i).actions == GrantedFrom(acts, grants, i)
    ensures RegisterFrom(acts, grants, i).events == Requests(acts, Live(acts, i))
    decreases |acts| - i
  {
    if i == |acts| {
      assert GrantedFrom(acts, grants, i) == acts;
    } else if acts[i].action == NullCallback {
      RegisterSucceeds(acts, grants, i + 1);
      assert GrantedFrom(acts, grants, i + 1) == GrantedFrom(acts, grants, i);
    } else {
      var next := acts[i := acts[i].(id := grants[i], isOn := true)];
      RegisterSucceeds(next, grants, i + 1);
      assert GrantedFrom(next, grants, i + 1) == GrantedFrom(acts, grants, i);
      LiveSame(next, acts, i + 1);
      RequestsSame(next, acts, Live(acts, i + 1));
      assert ([i] + Live(acts, i + 1))[1..] == Live(acts, i + 1);
    }
  }

  /** The first refused request stops registration: the actions after it are
      untouched and the last event reports the error. */
  lemma {:induction false} RegisterStops(acts: seq<TimedAction>, grants: seq<nat>, i: nat, f: nat)
    requires i <= f < |acts| <= |grants|
    requires acts[f].action != NullCallback && grants[f] == InvalidId
    ensures forall j :: f < j < |acts| ==> RegisterFrom(acts, grants, i).actions[j] == acts[j]
    ensures |RegisterFrom(acts, grants, i).events| > 0
    ensures RegisterFrom(acts, grants, i).events[|RegisterFrom(acts, grants, i).events| - 1] == Failed(RegisterError)
    decreases |acts| - i
  {
    if acts[i].action == NullCallback {
      RegisterStops(acts, grants, i + 1, f);
    } else if grants[i] != InvalidId {
      var next := acts[i := acts[i].(id := grants[i], isOn := true)];
      RegisterStops(next, grants, i + 1, f);
    }
  }

  /** Unregistering switches off every non-null action that was on, releasing
      each by its id, in order. */
  lemma {:induction false} UnregisterReleases(acts: seq<TimedAction>, i: nat)
    requires i <= |acts|
    ensures UnregisterFrom(acts, i).actions == OffFrom(acts, i)
    ensures UnregisterFrom(acts, i).events == Releases(Ids(acts), LiveOn(acts, i))
    decreases |acts| - i
  {
    if i == |acts| {
      assert OffFrom(acts, i) == acts;
    } else if acts[i].action == NullCallback || !acts[i].isOn {
      UnregisterReleases(acts, i + 1);
      assert OffFrom(acts, i + 1) == OffFrom(acts, i);
    } else {
      var next := acts[i := acts[i].(isOn := false)];
      UnregisterReleases(next, i + 1);
      assert OffFrom(next, i + 1) == OffFrom(acts, i);
      LiveOnFrame(next, acts, i + 1);
      ReleasesFrame(Ids(next), Ids(acts), LiveOn(acts, i + 1));
      assert ([i] + LiveOn(acts, i + 1))[1..] == LiveOn(acts, i + 1);
    }
  }

  /** Leaving a state undoes entering it: once every request was granted,
      the exit releases exactly the granted ids, one per registration and in
      the same order, and leaves every action off. */
  lemma ExitUndoesEnter(acts: seq<TimedAction>, grants: seq<nat>)
    requires |acts| <= |grants|
    requires forall j :: 0 <= j < |acts| ==> !acts[j].isOn
    requires forall j :: 0 <= j < |acts| && acts[j].action != NullCallback ==> grants[j] != InvalidId
    ensures var on := RegisterFrom(acts, grants, 0);
            var off := UnregisterFrom(on.actions, 0);
            |off.events| == |on.events| == |Live(acts, 0)|
            && off.events == Releases(grants, Live(acts, 0))
            && on.events == Requests(acts, Live(acts, 0))
            && forall j :: 0 <= j < |acts| ==> !off.actions[j].isOn
  {
    RegisterSucceeds(acts, grants, 0);
    var on := GrantedFrom(acts, grants, 0);
    UnregisterReleases(on, 0);
    LiveOnGranted(acts, grants, 0);
    ReleasesFrame(Ids(on), grants[..|on|], Live(acts, 0));
    ReleasesPrefix(grants, |on|, Live(acts, 0));
  }

  lemma {:induction false} LiveOnGranted(acts: seq<TimedAction>, grants: seq<nat>, i: nat)
    requires i <= |acts| <= |grants|
    requires forall j :: 0 <= j < |acts| ==> !acts[j].isOn
    ensures LiveOn(GrantedFrom(acts, grants, 0), i) == Live(acts, i)
    decreases |acts| - i
  {
    if i < |acts| {
      LiveOnGranted(acts, grants, i + 1);
    }
  }

  lemma {:induction false} ReleasesPrefix(ids: seq<nat>, n: nat, js: seq<nat>)
    requires n <= |ids| && forall k :: 0 <= k < |js| ==> js[k] < n
    ensures Releases(ids[..n], js) == Releases(ids, js)
  {
    if |js| > 0 {
      ReleasesPrefix(ids, n, js[1..]);
    }
  }

  /** A freshly added cyclic action: null id, off. */
  function NewAction(action: nat, period: nat, precision: Precision): TimedAction
  {
    TimedAction(action, period, precision, InvalidId, false)
  }

  /** What remove_cyclic_action leaves in the slot: a default TimedAction. */
  const EmptyAction := TimedAction(NullCallback, 0, Milliseconds, InvalidId, false)

  /** Capacity of the per-state action lists (NUMBER_OF_ACTIONS). */
  const ActionCapacity: nat := 20

  // ---------------------------------------------------------------------
  // Dispatch
  // ---------------------------------------------------------------------

  /** The first transition, in declaration order, whose guard holds. */
  function FirstFiring(ts: seq<Transition>, holds: set<nat>): (r: Option<nat>)
    ensures r.Some? ==> r.value < |ts| && ts[r.value].guard in holds
                        && forall k :: 0 <= k < r.value ==> ts[k].guard !in holds
    ensures r.None? ==> forall k :: 0 <= k < |ts| ==> ts[k].guard !in holds
  {
    if |ts| == 0 then None
    else if ts[0].guard in holds then Some(0)
    else match FirstFiring(ts[1..], holds)
      case Some(k) => Some(k + 1)
      case None => None
  }

  /** The machine registered for state s, the first such if several. */
  function NestedFor(nested: seq<NestedPair>, s: nat): (r: Option<nat>)
    ensures r.None? <==> forall k :: 0 <= k < |nested| ==> nested[k].state != s
    ensures r.Some? ==> exists k :: 0 <= k < |nested| && nested[k] == NestedPair(s, r.value)
  {
    if |nested| == 0 then None
    else if nested[0].state == s then Some(nested[0].machine)
    else
      var r := NestedFor(nested[1..], s);
      assert r.Some? ==> nested[1..][0..|nested| - 1] == nested[1..];
      r
  }

  /** At most one nested machine per state. */
  predicate NestedDistinct(nested: seq<NestedPair>)
  {
    forall p, q :: 0 <= p < q < |nested| ==> nested[p].state != nested[q].state
  }

  /** The loop of check_transitions over the current state's span. */
  method FindFiring(transitions: seq<Transition>, span: Span, holds: set<nat>) returns (r: Option<nat>)
    requires span.start + span.count <= |transitions|
    ensures r == FirstFiring(transitions[span.start..span.start + span.count], holds)
  {
    ghost var ts := transitions[span.start..span.start + span.count];
    var index := span.start;
    while index < span.start + span.count
      invariant span.start <= index <= span.start + span.count
      invariant forall k :: 0 <= k < index - span.start ==> ts[k].guard !in holds
    {
      if transitions[index].guard in holds {
        assert ts[index - span.start] == transitions[index];
        FirstFiringIs(ts, holds, index - span.start);
        return Some(index - span.start);
      }
      index := index + 1;
    }
    FirstFiringNone(ts, holds);
    r := None;
  }

  lemma {:induction false} FirstFiringIs(ts: seq<Transition>, holds: set<nat>, i: nat)
    requires i < |ts| && ts[i].guard in holds && forall k :: 0 <= k < i ==> ts[k].guard !in holds
    ensures FirstFiring(ts, holds) == Some(i)
  {
    if i > 0 {
      FirstFiringIs(ts[1..], holds, i - 1);
    }
  }

  lemma {:induction false} FirstFiringNone(ts: seq<Transition>, holds: set<nat>)
    requires forall k :: 0 <= k < |ts| ==> ts[k].guard !in holds
    ensures FirstFiring(ts, holds) == None
  {
    if |ts| > 0 {
      FirstFiringNone(ts[1..], holds);
    }
  }

  /** The nested-machine loop of check_transitions. */
  method FindNested(nested: seq<NestedPair>, s: nat) returns (r: Option<nat>)
    ensures r == NestedFor(nested, s)
  {
    for k := 0 to |nested|
      invariant NestedFor(nested, s) == NestedFor(nested[k..], s)
    {
      assert nested[k..][1..] == nested[k + 1..];
      if nested[k].state == s {
        return Some(nested[k].machine);
      }
    }
    r := None;
  }

  /** The runtime state machine. States are 0..n-1; per state it keeps the
      transitions, the cyclic actions and the enter and exit callbacks. */
  class StateMachine {
    var current: nat
    var isOn: bool
    var table: seq<seq<Transition>>
    var cyclic: seq<seq<TimedAction>>
    var onEnter: seq<seq<nat>>
    var onExit: seq<seq<nat>>
    var transitions: seq<Transition>
    var assoc: seq<Span>
    var nested: seq<NestedPair>
    var log: seq<Event>

    ghost predicate Valid()
      reads this
    {
      |table| == |cyclic| == |onEnter| == |onExit| == |assoc|
      && current < |table|
      && transitions == Flatten(table) && assoc == Spans(table)
      && (forall t :: t in transitions ==> t.target < |table|)
      && |nested| <= |table| && NestedDistinct(nested)
    }

    /** The parts that only construction sets. */
    ghost function Layout(): (seq<seq<Transition>>, seq<Transition>, seq<Span>)
      reads this
    {
      (table, transitions, assoc)
    }

    /** Builds the machine from states already sorted to 0..n-1. */
    constructor (initial: nat, sorted: seq<StateSpec>)
      requires Contiguous(sorted) && initial < |sorted|
      requires forall k, t :: 0 <= k < |sorted| && t in sorted[k].transitions ==> t.target < |sorted|
      ensures Valid() && current == initial && isOn && nested == [] && log == []
      ensures table == TransitionTable(sorted)
      ensures forall k :: 0 <= k < |sorted| ==>
                cyclic[k] == sorted[k].cyclic && onEnter[k] == sorted[k].onEnter && onExit[k] == sorted[k].onExit
    {
      var ts, spans := ProcessStates(sorted);
      current := initial;
      isOn := true;
      table := TransitionTable(sorted);
      cyclic := seq(|sorted|, k requires 0 <= k < |sorted| => sorted[k].cyclic);
      onEnter := seq(|sorted|, k requires 0 <= k < |sorted| => sorted[k].onEnter);
      onExit := seq(|sorted|, k requires 0 <= k < |sorted| => sorted[k].onExit);
      transitions := ts;
      assoc := spans;
      nested := [];
      log := [];
      new;
      forall t | t in transitions ensures t.target < |table| {
        FlattenTargets(table, t);
      }
    }

    /** enter(): the enter callbacks, then every timed action registered. */
    method Enter(grants: seq<nat>)
      requires Valid() && |cyclic[current]| <= |grants|
      modifies this
      ensures Valid() && Layout() == old(Layout())
      ensures current == old(current) && isOn == old(isOn) && nested == old(nested)
      ensures onEnter == old(onEnter) && onExit == old(onExit)
      ensures cyclic == old(cyclic)[current := RegisterFrom(old(cyclic[current]), grants, 0).actions]
      ensures log == old(log) + Calls(onEnter[current]) + RegisterFrom(old(cyclic[current]), grants, 0).events
    {
      var called := RunCallbacks(onEnter[current]);
      var pass := RegisterAll(cyclic[current], grants);
      cyclic := cyclic[current := pass.actions];
      log := log + called + pass.events;
    }

    /** exit(): every timed action unregistered, then the exit callbacks. */
    method Exit()
      requires Valid()
      modifies this
      ensures Valid() && Layout() == old(Layout())
      ensures current == old(current) && isOn == old(isOn) && nested == old(nested)
      ensures onEnter == old(onEnter) && onExit == old(onExit)
      ensures cyclic == old(cyclic)[current := UnregisterFrom(old(cyclic[current]), 0).actions]
      ensures log == old(log) + UnregisterFrom(old(cyclic[current]), 0).events + Calls(onExit[current])
    {
      var pass := UnregisterAll(cyclic[current]);
      var called := RunCallbacks(onExit[current]);
      cyclic := cyclic[current := pass.actions];
      log := log + pass.events + called;
    }

    /** start(): enter the initial state. */
    method Start(grants: seq<nat>)
      requires Valid() && |cyclic[current]| <= |grants|
      modifies this
      ensures Valid() && Layout() == old(Layout()) && current == old(current)
      ensures isOn == old(isOn) && nested == old(nested) && onEnter == old(onEnter) && onExit == old(onExit)
      ensures cyclic == old(cyclic)[current := RegisterFrom(old(cyclic[current]), grants, 0).actions]
      ensures log == old(log) + Calls(onEnter[current]) + RegisterFrom(old(cyclic[current]), grants, 0).events
    {
      Enter(grants);
    }

    method SetOn(on: bool)
      modifies this
      ensures isOn == on && current == old(current) && log == old(log) && Layout() == old(Layout())
      ensures cyclic == old(cyclic) && nested == old(nested) && onEnter == old(onEnter) && onExit == old(onExit)
    {
      isOn := on;
    }

    /** force_change_state: nothing happens for the current state; otherwise
        exit the current state, switch, and enter the new one. */
    method ForceChangeState(s: nat, grants: seq<nat>)
      requires Valid() && s < |table| && |cyclic[s]| <= |grants|
      modifies this
      ensures Valid() && Layout() == old(Layout()) && nested == old(nested)
      ensures isOn == old(isOn) && onEnter == old(onEnter) && onExit == old(onExit)
      ensures s == old(current) ==> unchanged(this)
      ensures s != old(current) ==>
                current == s
                && log == old(log) + UnregisterFrom(old(cyclic[current]), 0).events + Calls(old(onExit[current]))
                          + Calls(onEnter[s]) + RegisterFrom(old(cyclic[s]), grants, 0).events
                && cyclic == old(cyclic)[old(current) := UnregisterFrom(old(cyclic[current]), 0).actions]
                                        [s := RegisterFrom(old(cyclic[s]), grants, 0).actions]
    {
      if current == s {
        return;
      }
      Exit();
      current := s;
      Enter(grants);
    }

    /** check_transitions: fire the first transition of the current state
        whose guard holds (exit, switch, enter -- even when the target is the
        current state), then check the nested machine of the resulting state. */
    method CheckTransitions(holds: set<nat>, grants: seq<nat>) returns (fired: Option<nat>, checked: Option<nat>)
      requires Valid() && forall k :: 0 <= k < |cyclic| ==> |cyclic[k]| <= |grants|
      modifies this
      ensures Valid() && Layout() == old(Layout()) && nested == old(nested)
      ensures fired == FirstFiring(table[old(current)], holds)
      ensures isOn == old(isOn) && onEnter == old(onEnter) && onExit == old(onExit)
      ensures fired.None? ==> current == old(current) && cyclic == old(cyclic)
      ensures fired.Some? ==> current == table[old(current)][fired.value].target
      ensures cyclic == FiredCyclic(old(current), old(cyclic), fired, grants)
      ensures checked == NestedFor(nested, current)
      ensures checked.None? ==> log == Fired(old(log), old(current), old(cyclic), fired, grants)
      ensures checked.Some? ==> log == Fired(old(log), old(current), old(cyclic), fired, grants) + [NestedChecked(checked.value)]
    {
      fired := TransitionStep(holds, grants);
      checked := FindNested(nested, current);
      if checked.Some? {
        log := log + [NestedChecked(checked.value)];
      }
    }

    /** The first half of check_transitions: at most one transition fires. */
    method TransitionStep(holds: set<nat>, grants: seq<nat>) returns (fired: Option<nat>)
      requires Valid() && forall k :: 0 <= k < |cyclic| ==> |cyclic[k]| <= |grants|
      modifies this
      ensures Valid() && Layout() == old(Layout()) && nested == old(nested)
      ensures forall k :: 0 <= k < |cyclic| ==> |cyclic[k]| <= |grants|
      ensures fired == FirstFiring(table[old(current)], holds)
      ensures isOn == old(isOn) && onEnter == old(onEnter) && onExit == old(onExit)
      ensures fired.None? ==> current == old(current) && cyclic == old(cyclic)
      ensures fired.Some? ==> current == table[old(current)][fired.value].target
      ensures cyclic == FiredCyclic(old(current), old(cyclic), fired, grants)
      ensures log == Fired(old(log), old(current), old(cyclic), fired, grants)
    {
      SpansSlice(table, current);
      fired := FindFiring(transitions, assoc[current], holds);
      if fired.Some? {
        var t := transitions[assoc[current].start + fired.value];
        assert t in transitions;
        Exit();
        current := t.target;
        Enter(grants);
      }
    }

    /** The log after the transition step of check_transitions. */
    ghost function Fired(log0: seq<Event>, c: nat, cyc0: seq<seq<TimedAction>>, fired: Option<nat>, grants: seq<nat>): seq<Event>
      reads this
      requires Valid() && c < |table| && |cyc0| == |table|
      requires fired.Some? ==> fired.value < |table[c]| && table[c][fired.value].target < |table|
      requires fired.Some? ==> |cyc0[table[c][fired.value].target]| <= |grants|
    {
      if fired.None? then log0
      else
        var t := table[c][fired.value].target;
        var cyc1 := cyc0[c := UnregisterFrom(cyc0[c], 0).actions];
        log0 + UnregisterFrom(cyc0[c], 0).events + Calls(onExit[c]) + Calls(onEnter[t])
          + RegisterFrom(cyc1[t], grants, 0).events
    }

    /** The cyclic actions after the transition step: the old state's are
        unregistered, then the target's registered (the target may be the
        old state itself). */
    ghost function FiredCyclic(c: nat, cyc0: seq<seq<TimedAction>>, fired: Option<nat>, grants: seq<nat>): seq<seq<TimedAction>>
      reads this
      requires Valid() && c < |table| && |cyc0| == |table|
      requires fired.Some? ==> fired.value < |table[c]| && table[c][fired.value].target < |table|
      requires fired.Some? ==> |cyc0[table[c][fired.value].target]| <= |grants|
    {
      if fired.None? then cyc0
      else
        var t := table[c][fired.value].target;
        var cyc1 := cyc0[c := UnregisterFrom(cyc0[c], 0).actions];
        cyc1[t := RegisterFrom(cyc1[t], grants, 0).actions]
    }

    /** add_state_machine: a second nested machine for the same state is an
        error, as is a full list; otherwise the pair is appended. */
    method AddStateMachine(machine: nat, s: nat) returns (ok: bool)
      requires Valid()
      modifies this
      ensures Valid() && Layout() == old(Layout()) && current == old(current) && cyclic == old(cyclic)
      ensures isOn == old(isOn) && onEnter == old(onEnter) && onExit == old(onExit)
      ensures ok <==> NestedFor(old(nested), s).None? && |old(nested)| < |table|
      ensures ok ==> nested == old(nested) + [NestedPair(s, machine)] && log == old(log)
      ensures !ok ==> nested == old(nested)
      ensures NestedFor(old(nested), s).Some? ==> log == old(log) + [FailedAt(NestedTwiceError, s)]
      ensures NestedFor(old(nested), s).None? && |old(nested)| >= |table| ==> log == old(log) + [Failed(CapacityError)]
    {
      var existing := FindNested(nested, s);
      if existing.Some? {
        log := log + [FailedAt(NestedTwiceError, s)];
        return false;
      }
      if |nested| >= |table| {
        log := log + [Failed(CapacityError)];
        return false;
      }
      nested := nested + [NestedPair(s, machine)];
      ok := true;
    }

    /** add_cyclic_action: a new, unregistered action at the end of state s's
        list.  The answer is the slot the source hands back a pointer to. */
    method AddCyclicAction(s: nat, action: nat, period: nat, precision: Precision) returns (slot: Option<nat>)
      requires Valid()
      modifies this
      ensures Valid() && Layout() == old(Layout()) && current == old(current) && nested == old(nested)
      ensures isOn == old(isOn)
      ensures onEnter == old(onEnter) && onExit == old(onExit)
      ensures s >= |table| ==> slot.None? && cyclic == old(cyclic) && log == old(log) + [Failed(StateMissingError)]
      ensures s < |table| && |old(cyclic[s])| < ActionCapacity ==>
                cyclic == old(cyclic)[s := old(cyclic[s]) + [NewAction(action, period, precision)]]
                && log == old(log) && slot == Some(|old(cyclic[s])|)
      ensures s < |table| && |old(cyclic[s])| >= ActionCapacity ==>
                cyclic == old(cyclic) && log == old(log) + [Failed(CapacityError)]
                && slot == Some(|old(cyclic[s])| - 1)
    {
      if s >= |cyclic| {
        log := log + [Failed(StateMissingError)];
        return None;
      }
      if |cyclic[s]| >= ActionCapacity {
        log := log + [Failed(CapacityError)];
        return Some(|cyclic[s]| - 1);
      }
      slot := Some(|cyclic[s]|);
      cyclic := cyclic[s := cyclic[s] + [NewAction(action, period, precision)]];
    }

    /** remove_cyclic_action: unregister the action if it is on, then reset
        its slot to a default action; the list keeps its length. */
    method RemoveCyclicAction(s: nat, k: nat)
      requires Valid()
      modifies this
      ensures Valid() && Layout() == old(Layout()) && current == old(current) && nested == old(nested)
      ensures isOn == old(isOn)
      ensures onEnter == old(onEnter) && onExit == old(onExit)
      ensures s >= |table| ==> cyclic == old(cyclic) && log == old(log) + [Failed(StateMissingError)]
      ensures s < |table| && k < |old(cyclic[s])| ==>
                cyclic == old(cyclic)[s := old(cyclic[s])[k := EmptyAction]]
                && log == old(log) + (if old(cyclic[s][k]).isOn then [Unregistered(old(cyclic[s][k]).id)] else [])
      ensures s < |table| && k >= |old(cyclic[s])| ==> cyclic == old(cyclic) && log == old(log)
    {
      if s >= |cyclic| {
        log := log + [Failed(StateMissingError)];
        return;
      }
      if k < |cyclic[s]| {
        if cyclic[s][k].isOn {
          log := log + [Unregistered(cyclic[s][k].id)];
        }
        cyclic := cyclic[s := cyclic[s][k := EmptyAction]];
      }
    }

    /** add_enter_action: append a callback to state s's enter list. */
    method AddEnterAction(s: nat, cb: nat)
      requires Valid()
      modifies this
      ensures Valid() && Layout() == old(Layout()) && current == old(current) && nested == old(nested)
      ensures isOn == old(isOn)
      ensures cyclic == old(cyclic) && onExit == old(onExit)
      ensures s >= |table| ==> onEnter == old(onEnter) && log == old(log) + [Failed(StateMissingError)]
      ensures s < |table| ==> (onEnter, log) == Pushed(old(onEnter), s, cb, old(log))
    {
      if s >= |onEnter| {
        log := log + [Failed(StateMissingError)];
        return;
      }
      onEnter, log := Pushed(onEnter, s, cb, log).0, Pushed(onEnter, s, cb, log).1;
    }

    /** add_exit_action: append a callback to state s's exit list. */
    method AddExitAction(s: nat, cb: nat)
      requires Valid()
      modifies this
      ensures Valid() && Layout() == old(Layout()) && current == old(current) && nested == old(nested)
      ensures isOn == old(isOn)
      ensures cyclic == old(cyclic) && onEnter == old(onEnter)
      ensures s >= |table| ==> onExit == old(onExit) && log == old(log) + [Failed(StateMissingError)]
      ensures s < |table| ==> (onExit, log) == Pushed(old(onExit), s, cb, old(log))
    {
      if s >= |onExit| {
        log := log + [Failed(StateMissingError)];
        return;
      }
      onExit, log := Pushed(onExit, s, cb, log).0, Pushed(onExit, s, cb, log).1;
    }
  }

  /** push_back of a callback onto list s: appended below the capacity,
      otherwise refused with an error. */
  function Pushed(lists: seq<seq<nat>>, s: nat, cb: nat, log: seq<Event>): (r: (seq<seq<nat>>, seq<Event>))
    requires s < |lists|
    ensures |r.0| == |lists| && forall k :: 0 <= k < |lists| && k != s ==> r.0[k] == lists[k]
    ensures |lists[s]| < ActionCapacity ==> r.0[s] == lists[s] + [cb] && r.1 == log
    ensures |lists[s]| >= ActionCapacity ==> r.0 == lists && r.1 == log + [Failed(CapacityError)]
  {
    if |lists[s]| >= ActionCapacity then (lists, log + [Failed(CapacityError)])
    else (lists[s := lists[s] + [cb]], log)
  }

  /** make_state_machine: sort the given states by enum value, check that they
      are 0..n-1, and build the machine; no machine when the check fails. */
  method Make(initial: nat, given: seq<StateSpec>) returns (m: StateMachine?, errors: seq<Event>)
    requires initial < |given|
    requires forall k, t :: 0 <= k < |given| && t in given[k].transitions ==> t.target < |given|
    ensures m != null <==> DistinctStates(given) && forall x :: x in given ==> x.state < |given|
    ensures m != null <==> errors == []
    ensures m != null ==> fresh(m) && m.Valid() && m.current == initial && m.nested == [] && m.log == []
    ensures m != null ==> TableFrom(given, m.table)
  {
    var sorted := SortCopy(given);
    ContiguousIffExact(given, sorted);
    var ok;
    ok, errors := CheckContiguous(sorted);
    if !ok {
      return null, errors;
    }
    SortedKeepsTargets(given, sorted);
    m := new StateMachine(initial, sorted);
    SortedOrigins(given, sorted, m.table);
  }

  /** The constructor's local array: a copy of the given states, sorted. */
  method SortCopy(given: seq<StateSpec>) returns (sorted: seq<StateSpec>)
    ensures SortedByState(sorted) && multiset(sorted) == multiset(given) && |sorted| == |given|
  {
    var a := new StateSpec[|given|](i requires 0 <= i < |given| => given[i]);
    assert a[..] == given;
    SortStates(a);
    sorted := a[..];
  }

  lemma SortedKeepsTargets(given: seq<StateSpec>, sorted: seq<StateSpec>)
    requires multiset(sorted) == multiset(given)
    requires forall k, t :: 0 <= k < |given| && t in given[k].transitions ==> t.target < |given|
    ensures forall k, t :: 0 <= k < |sorted| && t in sorted[k].transitions ==> t.target < |sorted|
  {
    assert |sorted| == |multiset(sorted)| == |given|;
    forall k, t | 0 <= k < |sorted| && t in sorted[k].transitions ensures t.target < |sorted| {
      assert sorted[k] in multiset(given);
    }
  }

  /** Entry k of the table holds the transitions of the given state whose
      enum value is k. */
  predicate TableFrom(given: seq<StateSpec>, table: seq<seq<Transition>>)
  {
    |table| == |given|
    && forall k :: 0 <= k < |given| ==> OriginIn(given, table, k)
  }

  predicate OriginIn(given: seq<StateSpec>, table: seq<seq<Transition>>, k: nat)
    requires k < |table|
  {
    exists j :: 0 <= j < |given| && given[j].state == k && table[k] == given[j].transitions
  }

  lemma SortedOrigins(given: seq<StateSpec>, sorted: seq<StateSpec>, table: seq<seq<Transition>>)
    requires multiset(sorted) == multiset(given) && Contiguous(sorted) && table == TransitionTable(sorted)
    ensures TableFrom(given, table)
  {
    assert |sorted| == |multiset(sorted)| == |given|;
    forall k | 0 <= k < |given| ensures OriginIn(given, table, k) {
      var j := OriginOf(given, sorted, k);
      assert given[j].state == k && table[k] == given[j].transitions;
    }
  }

  /** Where the k-th sorted state came from. */
  lemma OriginOf(given: seq<StateSpec>, sorted: seq<StateSpec>, k: nat) returns (j: nat)
    requires multiset(sorted) == multiset(given) && k < |sorted|
    ensures j < |given| && given[j] == sorted[k]
  {
    assert sorted[k] in multiset(given);
    j :| 0 <= j < |given| && given[j] == sorted[k];
  }

  /** Every flattened transition comes from some state's list. */
  lemma {:induction false} FlattenTargets(table: seq<seq<Transition>>, t: Transition)
    requires t in Flatten(table)
    ensures exists k :: 0 <= k < |table| && t in table[k]
  {
    var init := table[..|table| - 1];
    if t in Flatten(init) {
      FlattenTargets(init, t);
      var k :| 0 <= k < |init| && t in init[k];
      assert table[k] == init[k];
    } else {
      assert t in table[|table| - 1];
    }
  }
}

/** Convergence of the reconciler and the meaning of the state it converges to. */
module Reconcile {
  import opened Names
  import opened Graph
  import opened Contexts
  import opened Bindings
  import opened Kernel
  import opened Coherence

  ghost predicate Clean(k: State) {
    forall l :: !Unsound(k, States(k), l)
  }

  /** The pass skips a definition whose current activation failed or is still
      being withdrawn. */
  predicate Stuck(k: State, l: Name) {
    l in States(k) && Withdrawn(States(k)[l].state) && States(k)[l].state != Disposed
  }

  ghost function StuckSet(k: State): set<Name> {
    set l | l in k.defs && Stuck(k, l)
  }

  ghost function ActiveSet(k: State): set<Name> {
    set l | l in k.defs && IsActive(States(k), l)
  }

  /** An activation pass visiting `l` would change nothing. */
  ghost predicate Settled(k: State, l: Name) {
    ActivateOne(k, States(k), l) == (k, false)
  }

  ghost predicate DeepSettled(k: State, l: Name) {
    Settled(k, l) && forall m :: Reaches(EdgesOf(k.defs), l, m) ==> Settled(k, m)
  }

  ghost function SettledSet(k: State): set<Name> {
    set l | l in k.defs && DeepSettled(k, l)
  }

  /** Strictly falls with every pass that changes something. */
  ghost function Measure(k: State): int {
    if Clean(k) then |k.defs| - |SettledSet(k)| else |k.defs| + |ActiveSet(k)|
  }

  lemma MeasureBounds(k: State)
    ensures 0 <= Measure(k) <= 2 * |k.defs|
    ensures Clean(k) ==> Measure(k) <= |k.defs|
  {
    assert |k.defs| == |k.defs.Keys|;
    SubsetCardinality(SettledSet(k), k.defs.Keys);
    SubsetCardinality(ActiveSet(k), k.defs.Keys);
  }

  lemma SameActive(a: State, b: State, m: Name)
    requires SameAt(a, b, m)
    ensures m in States(a) <==> m in States(b)
    ensures m in States(a) ==> States(a)[m] == States(b)[m]
    ensures StoredBindings(a, m) == StoredBindings(b, m)
  {
  }

  // ---- withdrawing ----

  /** After the definitions in `done` have been handled against the snapshot
      `states`, the unsound ones among them wait and nothing else moved. */
  ghost predicate Swept(k: State, states: map<Name, Record>, b: State, done: set<Name>) {
    && Coherent(b) && b.defs == k.defs && b.busy == k.busy && Later(k.table, b.table)
    && (forall m :: !(m in done && Unsound(k, states, m)) ==> SameAt(k, b, m))
    && (forall m :: m in done && Unsound(k, states, m) ==> NowWaiting(b, m))
  }

  lemma WithdrawOneSweeps(k: State, states: map<Name, Record>, l: Name)
    requires Coherent(k) && (IsActive(states, l) ==> IsActive(States(k), l))
    ensures Swept(k, states, WithdrawOne(k, states, l).0, {l})
    ensures WithdrawOne(k, states, l).1 == Unsound(k, states, l)
    ensures !Unsound(k, states, l) ==> WithdrawOne(k, states, l).0 == k
  {
    if Unsound(k, states, l) {
      var reason := match Resolve(k.defs, states, l) case Err(e) => Render(e) case Ok(_) => REBIND;
      WithdrawOk(k, l, reason);
    }
  }

  lemma SweepsCompose(k: State, states: map<Name, Record>, b: State, l: Name, c: State, rest: set<Name>)
    requires Swept(k, states, b, {l}) && Swept(b, states, c, rest) && l !in rest
    ensures Swept(k, states, c, rest + {l})
    ensures forall m :: m in rest ==> Unsound(b, states, m) == Unsound(k, states, m)
  {
    LaterTransitive(k.table, b.table, c.table);
    forall m | m != l ensures Unsound(b, states, m) == Unsound(k, states, m) { SameActive(k, b, m); }
    forall m | !(m in rest + {l} && Unsound(k, states, m)) ensures SameAt(k, c, m) {
      assert SameAt(k, b, m) && SameAt(b, c, m);
    }
    forall m | m in rest + {l} && Unsound(k, states, m) ensures NowWaiting(c, m) {
      if m == l { assert SameAt(b, c, m) && NowWaiting(b, m); }
    }
  }

  lemma NothingSwept(k: State, states: map<Name, Record>)
    requires Coherent(k)
    ensures Swept(k, states, k, {})
  {
  }

  lemma {:induction false} WithdrawAllSweeps(k: State, states: map<Name, Record>, order: seq<Name>, i: nat)
    requires Coherent(k) && NoDup(order) && i <= |order|
    requires forall m :: m in Elems(order[..i]) && IsActive(states, m) ==> IsActive(States(k), m)
    ensures Swept(k, states, WithdrawAll(k, states, order, i).0, Elems(order[..i]))
    ensures WithdrawAll(k, states, order, i).1 <==> exists m :: m in Elems(order[..i]) && Unsound(k, states, m)
    ensures !WithdrawAll(k, states, order, i).1 ==> WithdrawAll(k, states, order, i).0 == k
    decreases i
  {
    hide Coherent, Later, SameAt, Resolve, Stale, WithdrawOne, NowWaiting;
    if i > 0 {
      var l := order[i - 1];
      var rest := Elems(order[..i - 1]);
      assert Elems(order[..i]) == rest + {l};
      assert l !in rest;
      var b := WithdrawOne(k, states, l).0;
      WithdrawOneSweeps(k, states, l);
      forall m | m in rest && IsActive(states, m) ensures IsActive(States(b), m) {
        assert SameAt(k, b, m);
        SameActive(k, b, m);
      }
      WithdrawAllSweeps(b, states, order, i - 1);
      SweepsCompose(k, states, b, l, WithdrawAll(b, states, order, i - 1).0, rest);
    } else {
      NothingSwept(k, states);
      assert Elems(order[..0]) == {};
    }
  }

  lemma DefinitionsAreNodes(defs: Definitions, order: seq<Name>, l: Name)
    requires IsTopological(EdgesOf(defs), order) && l in defs
    ensures l in Elems(order[..|order|])
  {
    assert order[..|order|] == order;
  }

  lemma SweptAt(k: State, states: map<Name, Record>, b: State, done: set<Name>, m: Name)
    requires Coherent(k) && Swept(k, states, b, done) && states == States(k)
    requires m in k.defs ==> m in done
    ensures m in ActiveSet(b) <==> m in ActiveSet(k) && !Unsound(k, states, m)
    ensures m in StuckSet(b) <==> m in StuckSet(k)
  {
    hide Coherent, SameAt, Later, Resolve, Stale;
    if Unsound(k, states, m) {
      assert NowWaiting(b, m);
      CoherentCurrent(b, m);
    } else {
      assert SameAt(k, b, m);
      SameActive(k, b, m);
    }
  }

  lemma SweptShrinks(k: State, b: State, done: set<Name>)
    requires Coherent(k) && Swept(k, States(k), b, done) && k.defs.Keys <= done && !Clean(k)
    ensures ActiveSet(b) < ActiveSet(k) && StuckSet(b) == StuckSet(k)
  {
    hide Coherent, Swept, Resolve, Stale, Stuck;
    forall m
      ensures m in ActiveSet(b) <==> m in ActiveSet(k) && !Unsound(k, States(k), m)
      ensures m in StuckSet(b) <==> m in StuckSet(k)
    {
      SweptAt(k, States(k), b, done, m);
    }
    var u :| Unsound(k, States(k), u);
    assert u in ActiveSet(k) && u !in ActiveSet(b);
  }

  /** A pass over an unsound state withdraws exactly the unsound definitions. */
  lemma WithdrawPass(k: State, order: seq<Name>)
    requires Coherent(k) && IsTopological(EdgesOf(k.defs), order) && !Clean(k)
    ensures var (b, c) := OrderedPass(k, order);
      && c && Coherent(b) && b.defs == k.defs && Later(k.table, b.table)
      && ActiveSet(b) < ActiveSet(k) && StuckSet(b) == StuckSet(k)
  {
    var done := Elems(order[..|order|]);
    assert k.defs.Keys <= done by {
      forall m | m in k.defs ensures m in done { DefinitionsAreNodes(k.defs, order, m); }
    }
    WithdrawAllSweeps(k, States(k), order, |order|);
    var u :| Unsound(k, States(k), u);
    assert u in done;
    SweptShrinks(k, WithdrawAll(k, States(k), order, |order|).0, done);
  }

  lemma CleanWithdrawsNothing(k: State, order: seq<Name>)
    requires Coherent(k) && NoDup(order) && Clean(k)
    ensures OrderedPass(k, order) == ActivateFrom(k, States(k), order, 0)
  {
    WithdrawAllSweeps(k, States(k), order, |order|);
  }

  // ---- activating ----

  /** Waiting with exactly the reason the resolution gives. */
  ghost predicate WaitsFor(k: State, l: Name, e: ResolveError) {
    NowWaiting(k, l) && Current(k.table, l).value.cause == Some(Render(e))
  }

  /** The outcome of visiting `l`, with everything the later steps need. */
  ghost predicate Visited(k: State, b: State, l: Name) {
    && Coherent(k) && Clean(k) && l in k.defs && !IsActive(States(k), l) && !Stuck(k, l)
    && Touches(k, b, l)
    && match Resolve(k.defs, States(k), l) {
         case Ok(bs) => NowActive(b, l, bs)
         case Err(e) => WaitsFor(b, l, e)
       }
  }

  ghost predicate NothingToDo(k: State, l: Name) {
    || IsActive(States(k), l)
    || Stuck(k, l)
    || (Resolve(k.defs, States(k), l).Err? && WaitsFor(k, l, Resolve(k.defs, States(k), l).error))
  }

  lemma VisitIdle(k: State, l: Name)
    requires Coherent(k) && Clean(k) && l in k.defs
    requires IsActive(States(k), l) || Stuck(k, l)
    ensures ActivateOne(k, States(k), l) == (k, false)
  {
    assert !Unsound(k, States(k), l);
  }

  lemma VisitUnresolved(k: State, l: Name, e: ResolveError)
    requires Coherent(k) && Clean(k) && l in k.defs && !IsActive(States(k), l) && !Stuck(k, l)
    requires Resolve(k.defs, States(k), l) == Err(e)
    ensures WaitsFor(k, l, e) ==> ActivateOne(k, States(k), l) == (k, false)
    ensures !WaitsFor(k, l, e) ==> ActivateOne(k, States(k), l).1 && Visited(k, ActivateOne(k, States(k), l).0, l)
  {
    hide BoundOk, TableOk, ClaimsOk, Later, SameAt, Resolve, Render;
    CoherentCurrent(k, l);
    assert PluginOk(k, l);
    assert ActivateOne(k, States(k), l) == EnsureWaiting(k, l, Render(e));
    EnsureWaitingOk(k, l, Render(e));
  }

  lemma VisitResolved(k: State, l: Name)
    requires Coherent(k) && Clean(k) && l in k.defs && !IsActive(States(k), l) && !Stuck(k, l)
    requires Resolve(k.defs, States(k), l).Ok?
    ensures ActivateOne(k, States(k), l).1 && Visited(k, ActivateOne(k, States(k), l).0, l)
  {
    hide Coherent, Later, SameAt, Resolve, Render;
    CoherentCurrent(k, l);
    if l in States(k) && Pending(States(k)[l].state) { PromoteOk(k, l); } else { CreateActiveOk(k, l); }
  }

  /** A visit changes nothing exactly when there is nothing to do; otherwise it
      reports the change it made. */
  lemma VisitOutcome(k: State, l: Name)
    requires Coherent(k) && Clean(k) && l in k.defs
    ensures NothingToDo(k, l) ==> ActivateOne(k, States(k), l) == (k, false)
    ensures !NothingToDo(k, l) ==> ActivateOne(k, States(k), l).1 && Visited(k, ActivateOne(k, States(k), l).0, l)
  {
    if IsActive(States(k), l) || Stuck(k, l) {
      VisitIdle(k, l);
    } else {
      match Resolve(k.defs, States(k), l)
      case Err(e) => VisitUnresolved(k, l, e);
      case Ok(bs) => VisitResolved(k, l);
    }
  }

  lemma SettledIff(k: State, l: Name)
    requires Coherent(k) && Clean(k) && l in k.defs
    ensures Settled(k, l) <==> NothingToDo(k, l)
  {
    VisitOutcome(k, l);
  }

  ghost predicate Decided(k: State, l: Name) {
    var (b, c) := ActivateOne(k, States(k), l);
    if c then l in k.defs else b == k
  }

  lemma AlwaysDecided(k: State, l: Name)
    requires Coherent(k) && Clean(k)
    ensures Decided(k, l)
  {
    if l in k.defs { VisitOutcome(k, l); }
  }

  /** The activation loop ends at the first unsettled definition, if any. */
  lemma {:induction false} ActivateFromFirst(k: State, order: seq<Name>, i: nat) returns (j: nat)
    requires i <= |order| && forall m :: 0 <= m < |order| ==> Decided(k, order[m])
    ensures i <= j <= |order|
    ensures forall m :: i <= m < j ==> Settled(k, order[m])
    ensures j == |order| ==> ActivateFrom(k, States(k), order, i) == (k, false)
    ensures j < |order| ==> order[j] in k.defs && ActivateOne(k, States(k), order[j]).1
    ensures j < |order| ==> ActivateFrom(k, States(k), order, i) == ActivateOne(k, States(k), order[j])
    decreases |order| - i
  {
    hide Kernel.ActivateOne;
    j := i;
    if i < |order| {
      assert Decided(k, order[i]);
      if !ActivateOne(k, States(k), order[i]).1 {
        assert Settled(k, order[i]);
        j := ActivateFromFirst(k, order, i + 1);
      }
    }
  }

  ghost predicate Independent(k: State, l: Name, x: Name) {
    x in k.defs ==> l !in Referred(k.defs, k.defs[x].needs)
  }

  /** Resolution of `x` does not see a change at `l` it does not refer to. */
  lemma ResolveKept(k: State, b: State, l: Name, x: Name)
    requires Touches(k, b, l) && x in k.defs && Independent(k, l, x)
    ensures Resolve(b.defs, States(b), x) == Resolve(k.defs, States(k), x)
  {
    forall p | p in Referred(k.defs, k.defs[x].needs)
      ensures (p in States(k) <==> p in States(b)) && (p in States(k) ==> States(k)[p] == States(b)[p])
    {
      assert SameAt(k, b, p);
      SameActive(k, b, p);
    }
    ResolveAllFrame(k.defs, States(k), States(b), k.defs[x].needs);
  }

  /** A sound Active definition refers to nothing that is not Active. */
  lemma ActiveRefersToActive(k: State, l: Name, x: Name)
    requires Clean(k) && x in k.defs && IsActive(States(k), x) && !IsActive(States(k), l)
    ensures Independent(k, l, x)
  {
    assert !Unsound(k, States(k), x);
    if l in Referred(k.defs, k.defs[x].needs) { ResolvedMentionsActive(k.defs, States(k), x, l); }
  }

  lemma StaleKept(k: State, b: State, l: Name, x: Name)
    requires Touches(k, b, l) && x != l && !IsActive(States(k), l)
    requires !Stale(StoredBindings(k, x), States(k))
    ensures !Stale(StoredBindings(b, x), States(b))
  {
    assert SameAt(k, b, x);
    SameActive(k, b, x);
    forall bd | bd in StoredBindings(b, x) ensures Live(States(b), bd) {
      assert Live(States(k), bd);
      assert SameAt(k, b, bd.provider);
      SameActive(k, b, bd.provider);
    }
  }

  /** Activation makes no Active definition unsound: no withdrawal follows it. */
  lemma StaysClean(k: State, b: State, l: Name)
    requires Visited(k, b, l) && Independent(k, l, l)
    ensures Clean(b)
  {
    forall x ensures !Unsound(b, States(b), x) {
      if x in b.defs && IsActive(States(b), x) {
        CurrentIs(b.table, l);
        if x == l {
          ResolveKept(k, b, l, l);
          ResolvedNotStale(b.defs, States(b), l);
        } else {
          assert SameAt(k, b, x);
          SameActive(k, b, x);
          assert !Unsound(k, States(k), x);
          ActiveRefersToActive(k, l, x);
          ResolveKept(k, b, l, x);
          StaleKept(k, b, l, x);
        }
      }
    }
  }

  lemma BecomesSettled(k: State, b: State, l: Name)
    requires Visited(k, b, l) && Independent(k, l, l)
    ensures Settled(b, l)
  {
    StaysClean(k, b, l);
    ResolveKept(k, b, l, l);
    SettledIff(b, l);
    CurrentIs(b.table, l);
  }

  lemma StaysSettled(k: State, b: State, l: Name, x: Name)
    requires Visited(k, b, l) && Independent(k, l, l) && Independent(k, l, x)
    requires x != l && Settled(k, x)
    ensures Settled(b, x)
  {
    if x in k.defs {
      hide Coherent, Clean, Later, Resolve, ActivateOne, SameAt;
      StaysClean(k, b, l);
      SettledIff(k, x);
      SettledIff(b, x);
      ResolveKept(k, b, l, x);
      assert SameAt(k, b, x);
      SameActive(k, b, x);
    }
  }

  lemma ReferredIsEdge(k: State, x: Name, l: Name)
    requires x in k.defs && !Independent(k, l, x)
    ensures Edge(EdgesOf(k.defs), x, l)
  {
    EdgesRefer(k.defs, x, l);
  }

  lemma NoSelfReach(e: Edges, l: Name)
    requires Acyclic(e)
    ensures !Reaches(e, l, l)
  {
    if Reaches(e, l, l) {
      var p :| IsWalk(e, p) && |p| >= 2 && p[0] == l && p[|p| - 1] == l;
      assert IsCycle(e, p);
      assert false;
    }
  }

  lemma NoSelfReference(k: State, l: Name)
    requires Acyclic(EdgesOf(k.defs))
    ensures Independent(k, l, l)
  {
    if !Independent(k, l, l) {
      ReferredIsEdge(k, l, l);
      ReachesStep(EdgesOf(k.defs), l, l);
      NoSelfReach(EdgesOf(k.defs), l);
    }
  }

  lemma OldStaysDeep(k: State, b: State, l: Name, x: Name)
    requires Visited(k, b, l) && Acyclic(EdgesOf(k.defs)) && !Settled(k, l)
    requires x in k.defs && DeepSettled(k, x)
    ensures DeepSettled(b, x)
  {
    var e := EdgesOf(k.defs);
    NoSelfReference(k, l);
    if !Independent(k, l, x) {
      ReferredIsEdge(k, x, l);
      ReachesStep(e, x, l);
      assert false;
    }
    StaysSettled(k, b, l, x);
    forall y | Reaches(e, x, y) ensures Settled(b, y) {
      if !Independent(k, l, y) {
        ReferredIsEdge(k, y, l);
        ReachesSnoc(e, x, y, l);
        assert false;
      }
      StaysSettled(k, b, l, y);
    }
  }

  lemma NewIsDeep(k: State, b: State, l: Name, order: seq<Name>, j: nat)
    requires Visited(k, b, l) && IsTopological(EdgesOf(k.defs), order)
    requires j < |order| && order[j] == l && forall m :: 0 <= m < j ==> Settled(k, order[m])
    ensures DeepSettled(b, l)
  {
    var e := EdgesOf(k.defs);
    TopologicalIsAcyclic(e, order);
    NoSelfReference(k, l);
    BecomesSettled(k, b, l);
    forall y | Reaches(e, l, y) ensures Settled(b, y) {
      var p :| IsWalk(e, p) && |p| >= 2 && p[0] == l && p[|p| - 1] == y;
      WalkDescends(e, order, p, j);
      var m :| 0 <= m < j && order[m] == y;
      if !Independent(k, l, y) {
        ReferredIsEdge(k, y, l);
        ReachesSnoc(e, l, y, l);
        NoSelfReach(e, l);
      }
      StaysSettled(k, b, l, y);
    }
  }

  /** A pass over a sound state either changes nothing, and then every definition
      is settled, or settles one more definition and leaves the state sound. */
  lemma ActivationPass(k: State, order: seq<Name>)
    requires Coherent(k) && IsTopological(EdgesOf(k.defs), order) && Clean(k)
    ensures var (b, c) := OrderedPass(k, order);
      && Coherent(b) && b.defs == k.defs && Later(k.table, b.table) && Clean(b)
      && ActiveSet(k) <= ActiveSet(b) && StuckSet(b) == StuckSet(k)
      && (c ==> SettledSet(k) < SettledSet(b))
      && (!c ==> b == k && forall l :: l in k.defs ==> Settled(k, l))
  {
    var (b, c) := OrderedPass(k, order);
    CleanWithdrawsNothing(k, order);
    forall m | 0 <= m < |order| ensures Decided(k, order[m]) { AlwaysDecided(k, order[m]); }
    var j := ActivateFromFirst(k, order, 0);
    if j == |order| {
      forall l | l in k.defs ensures Settled(k, l) {
        DefinitionsAreNodes(k.defs, order, l);
        var m :| 0 <= m < |order| && order[m] == l;
      }
    } else {
      var l := order[j];
      VisitOutcome(k, l);
      TopologicalIsAcyclic(EdgesOf(k.defs), order);
      NoSelfReference(k, l);
      StaysClean(k, b, l);
      VisitKeepsSets(k, b, l);
      NewIsDeep(k, b, l, order, j);
      forall x | x in SettledSet(k) ensures x in SettledSet(b) { OldStaysDeep(k, b, l, x); }
      assert l in SettledSet(b) && l !in SettledSet(k);
    }
  }

  lemma VisitKeepsSets(k: State, b: State, l: Name)
    requires Visited(k, b, l)
    ensures ActiveSet(k) <= ActiveSet(b) && StuckSet(b) == StuckSet(k)
  {
    hide Coherent, Clean, Resolve, SameAt, Later;
    CoherentCurrent(b, l);
    forall x | x != l ensures IsActive(States(k), x) == IsActive(States(b), x) && Stuck(k, x) == Stuck(b, x) {
      assert SameAt(k, b, x);
      SameActive(k, b, x);
    }
  }

  // ---- convergence ----

  lemma PassDecreases(k: State, order: seq<Name>)
    requires Coherent(k) && IsTopological(EdgesOf(k.defs), order)
    ensures var (b, c) := OrderedPass(k, order);
      && Coherent(b) && b.defs == k.defs && Later(k.table, b.table) && StuckSet(b) == StuckSet(k)
      && (c ==> Measure(b) < Measure(k))
      && (!c ==> b == k && Clean(k) && forall l :: l in k.defs ==> Settled(k, l))
  {
    var (b, c) := OrderedPass(k, order);
    if Clean(k) {
      ActivationPass(k, order);
      if c { ProperSubsetCardinality(SettledSet(k), SettledSet(b)); }
    } else {
      WithdrawPass(k, order);
      MeasureBounds(b);
      ProperSubsetCardinality(ActiveSet(b), ActiveSet(k));
    }
  }

  /** A pass leaves what is stuck exactly as it is. */
  lemma StuckIsLeft(k: State, order: seq<Name>, m: Name)
    requires Coherent(k) && IsTopological(EdgesOf(k.defs), order) && Stuck(k, m)
    ensures SameAt(k, OrderedPass(k, order).0, m)
  {
    hide Coherent, Resolve, Stale, SameAt, EdgesOf, ProvidersFirst;
    WithdrawAllSweeps(k, States(k), order, |order|);
    if Clean(k) {
      CleanWithdrawsNothing(k, order);
      forall i | 0 <= i < |order| ensures Decided(k, order[i]) { AlwaysDecided(k, order[i]); }
      var j := ActivateFromFirst(k, order, 0);
      if j < |order| {
        VisitOutcome(k, order[j]);
        assert Visited(k, OrderedPass(k, order).0, order[j]) && m != order[j];
      } else {
        SameReflexive(k, m);
      }
    } else {
      var u :| Unsound(k, States(k), u);
      DefinitionsAreNodes(k.defs, order, u);
      assert order[..|order|] == order && u in Elems(order);
    }
  }

  lemma SameReflexive(k: State, m: Name)
    ensures SameAt(k, k, m)
  {}

  lemma ProperSubsetCardinality<T>(a: set<T>, b: set<T>)
    requires a < b
    ensures |a| < |b|
  {
    SubsetCardinality(a, b);
  }

  /** `ks` are the states between consecutive passes, each of which changed
      something; every pass may use its own provider-first order. */
  ghost predicate ChangingPasses(ks: seq<State>, orders: seq<seq<Name>>) {
    && |ks| == |orders| + 1
    && forall i :: 0 <= i < |orders| ==>
         IsTopological(EdgesOf(ks[i].defs), orders[i]) && OrderedPass(ks[i], orders[i]) == (ks[i + 1], true)
  }

  lemma {:induction false} PassesSpendMeasure(ks: seq<State>, orders: seq<seq<Name>>)
    requires ChangingPasses(ks, orders) && Coherent(ks[0])
    ensures Coherent(ks[|orders|]) && ks[|orders|].defs == ks[0].defs && StuckSet(ks[|orders|]) == StuckSet(ks[0])
    ensures |orders| + Measure(ks[|orders|]) <= Measure(ks[0])
  {
    if orders != [] {
      var n := |orders| - 1;
      PassesSpendMeasure(ks[..n + 1], orders[..n]);
      assert ks[..n + 1][n] == ks[n];
      PassDecreases(ks[n], orders[n]);
    }
  }

  /** However the passes order ties, at most 2n of them change anything, so the
      budget of 2n + 4 always reaches a pass that changes nothing. */
  lemma ReconcileConverges(ks: seq<State>, orders: seq<seq<Name>>)
    requires ChangingPasses(ks, orders) && Coherent(ks[0])
    ensures |orders| <= 2 * |ks[0].defs|
    ensures Clean(ks[0]) ==> |orders| <= |ks[0].defs|
  {
    PassesSpendMeasure(ks, orders);
    MeasureBounds(ks[0]);
    MeasureBounds(ks[|orders|]);
  }

  // ---- the fixpoint ----

  /** No pass changes the state any more. */
  ghost predicate Converged(k: State) {
    Coherent(k) && Clean(k) && forall l :: l in k.defs ==> Settled(k, l)
  }

  lemma ConvergedIsQuiet(k: State, order: seq<Name>)
    requires Converged(k) && IsTopological(EdgesOf(k.defs), order)
    ensures OrderedPass(k, order) == (k, false)
  {
    CleanWithdrawsNothing(k, order);
    forall m | 0 <= m < |order| ensures Decided(k, order[m]) { AlwaysDecided(k, order[m]); }
    var j := ActivateFromFirst(k, order, 0);
    if j < |order| { assert Settled(k, order[j]); }
  }

  /** Some provider in `up` is the one the requirement settles on. */
  ghost predicate Met(defs: Definitions, up: set<Name>, r: Requirement) {
    exists p :: p in up && Settles(defs, r, p)
  }

  ghost predicate Supported(defs: Definitions, up: set<Name>, l: Name) {
    l in defs && forall r :: r in defs[l].needs ==> Met(defs, up, r)
  }

  lemma SupportedResolves(k: State, l: Name)
    requires l in k.defs
    ensures Supported(k.defs, ActiveSet(k), l) <==> Resolve(k.defs, States(k), l).Ok?
  {
    ResolveAllOk(k.defs, States(k), k.defs[l].needs);
    forall r | r in k.defs[l].needs
      ensures ResolveOne(k.defs, States(k), r).Ok? <==> Met(k.defs, ActiveSet(k), r)
    {
      forall p ensures Settles(k.defs, r, p) <==> Target(k.defs, r) == Ok(p) { SettlesIff(k.defs, r, p); }
    }
  }

  /** Active exactly when not stuck and supported by Active providers. */
  lemma ConvergedActive(k: State, l: Name)
    requires Converged(k) && l in k.defs
    ensures l in ActiveSet(k) <==> l !in StuckSet(k) && Supported(k.defs, ActiveSet(k), l)
  {
    SettledIff(k, l);
    SupportedResolves(k, l);
    assert !Unsound(k, States(k), l);
    CurrentIs(k.table, l);
  }

  /** The bindings of an Active definition name, requirement by requirement, the
      provider it settles on and that provider's current activation. */
  lemma ConvergedBindings(k: State, l: Name, i: nat)
    requires Converged(k) && l in ActiveSet(k) && i < |k.defs[l].needs|
    ensures l in k.plugins && |k.plugins[l].bindings| == |k.defs[l].needs|
    ensures var req, b := k.defs[l].needs[i], k.plugins[l].bindings[i];
      && Settles(k.defs, req, b.provider) && b.provider in ActiveSet(k)
      && var p := States(k)[b.provider]; b == Binding(req.face, b.provider, p.instance, p.generation)
  {
    var req := k.defs[l].needs[i];
    assert BoundOk(k, l) && !Unsound(k, States(k), l);
    var b := k.plugins[l].bindings[i];
    assert BindingOk(k, req, b);
    ConvergedActive(k, l);
    assert b in StoredBindings(k, l);
    assert Live(States(k), b);
    CurrentIs(k.table, b.provider);
    SupportedResolves(k, l);
    ResolveAllOk(k.defs, States(k), k.defs[l].needs);
    SoleProviderIsTarget(k.defs, req, b.provider);
    SettlesIff(k.defs, req, b.provider);
  }

  /** A definition that is neither Active nor stuck waits, showing the first
      requirement that nothing answers. */
  lemma ConvergedWaits(k: State, l: Name) returns (e: ResolveError, i: nat)
    requires Converged(k) && l in k.defs && l !in ActiveSet(k) && l !in StuckSet(k)
    ensures FirstFailure(k.defs, States(k), k.defs[l].needs, e, i)
    ensures l in States(k) && States(k)[l].state == Waiting && States(k)[l].cause == Some(Render(e))
    ensures l in k.plugins && k.plugins[l].state == Waiting && k.plugins[l].waitCause == Some(Render(e))
  {
    hide Explains, Answered, Render;
    SettledIff(k, l);
    ResolveMeans(k.defs, States(k), l);
    e := Resolve(k.defs, States(k), l).error;
    i :| FirstFailure(k.defs, States(k), k.defs[l].needs, e, i);
    CurrentIs(k.table, l);
    assert PluginOk(k, l);
  }

  ghost predicate Fixpoint(defs: Definitions, stuck: set<Name>, up: set<Name>) {
    up <= defs.Keys && forall l :: l in defs ==> (l in up <==> l !in stuck && Supported(defs, up, l))
  }

  lemma ProviderIsEarlier(defs: Definitions, order: seq<Name>, i: nat, r: Requirement, p: Name) returns (j: nat)
    requires IsTopological(EdgesOf(defs), order) && i < |order| && order[i] in defs
    requires r in defs[order[i]].needs && Settles(defs, r, p)
    ensures j < i && order[j] == p
  {
    SettlesIff(defs, r, p);
    hide Target, Settles;
    TargetMentioned(defs, r);
    EdgesRefer(defs, order[i], p);
    assert Edge(EdgesOf(defs), order[i], p);
    assert p in order[..i];
    j :| 0 <= j < i && order[j] == p;
  }

  lemma {:induction false} FixpointsAgreeUpTo(defs: Definitions, stuck: set<Name>, a: set<Name>, b: set<Name>,
                                              order: seq<Name>, i: nat)
    requires Fixpoint(defs, stuck, a) && Fixpoint(defs, stuck, b)
    requires IsTopological(EdgesOf(defs), order) && i <= |order|
    ensures forall j :: 0 <= j < i ==> (order[j] in a <==> order[j] in b)
    decreases i
  {
    hide Settles, EdgesOf;
    if i > 0 {
      FixpointsAgreeUpTo(defs, stuck, a, b, order, i - 1);
      var l := order[i - 1];
      if l in defs {
        forall r, p | r in defs[l].needs && Settles(defs, r, p) ensures p in a <==> p in b {
          var j := ProviderIsEarlier(defs, order, i - 1, r, p);
        }
        assert forall r :: r in defs[l].needs ==> (Met(defs, a, r) <==> Met(defs, b, r));
        assert Supported(defs, a, l) <==> Supported(defs, b, l);
      }
    }
  }

  /** On an acyclic definition set the definitions and the stuck set determine
      which definitions are up. */
  lemma FixpointUnique(defs: Definitions, stuck: set<Name>, a: set<Name>, b: set<Name>, order: seq<Name>)
    requires Fixpoint(defs, stuck, a) && Fixpoint(defs, stuck, b)
    requires IsTopological(EdgesOf(defs), order)
    ensures a == b
  {
    FixpointsAgreeUpTo(defs, stuck, a, b, order, |order|);
    forall l | l in defs ensures l in a <==> l in b {
      DefinitionsAreNodes(defs, order, l);
      var j :| 0 <= j < |order| && order[j] == l;
    }
  }

  lemma ConvergedIsFixpoint(k: State)
    requires Converged(k)
    ensures Fixpoint(k.defs, StuckSet(k), ActiveSet(k))
  {
    forall l | l in k.defs
      ensures l in ActiveSet(k) <==> l !in StuckSet(k) && Supported(k.defs, ActiveSet(k), l)
    {
      ConvergedActive(k, l);
    }
  }

  /** Two kernels with the same definitions and the same stuck activations end
      with the same definitions Active, whatever happened before. */
  lemma HistoryDoesNotMatter(ks: seq<State>, orders: seq<seq<Name>>,
                             js: seq<State>, orders': seq<seq<Name>>, order: seq<Name>)
    requires ChangingPasses(ks, orders) && ChangingPasses(js, orders')
    requires Coherent(ks[0]) && Coherent(js[0])
    requires ks[0].defs == js[0].defs && StuckSet(ks[0]) == StuckSet(js[0])
    requires IsTopological(EdgesOf(ks[0].defs), order)
    requires !OrderedPass(ks[|orders|], order).1 && !OrderedPass(js[|orders'|], order).1
    ensures ActiveSet(ks[|orders|]) == ActiveSet(js[|orders'|])
  {
    PassesSpendMeasure(ks, orders);
    PassesSpendMeasure(js, orders');
    PassDecreases(ks[|orders|], order);
    PassDecreases(js[|orders'|], order);
    ConvergedIsFixpoint(ks[|orders|]);
    ConvergedIsFixpoint(js[|orders'|]);
    FixpointUnique(ks[0].defs, StuckSet(ks[0]), ActiveSet(ks[|orders|]), ActiveSet(js[|orders'|]), order);
  }
}

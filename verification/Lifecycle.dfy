/** Whole runs of the kernel: operator commands, faults, finalizations and
    reconciler passes in any order. */
module Lifecycle {
  import opened Names
  import opened Graph
  import opened Contexts
  import opened Bindings
  import opened Kernel
  import opened Coherence
  import opened Reconcile

  datatype Op =
    | LoadManifest(l: Name, def: Definition)
    | DisposePlugin(l: Name)
    | DisposeInstance(inst: nat)
    | FinalizeInstance(inst: nat)
    | Fault(l: Name, cause: string)
    | CallsMove(busy: map<nat, string>)
    | AcyclicPass(order: seq<Name>)
    | CyclicPass(path: seq<Name>)

  function CycleReason(path: seq<Name>): string {
    Render(CyclePath(path))
  }

  ghost predicate Enabled(k: State, op: Op) {
    match op
    case AcyclicPass(order) => IsTopological(EdgesOf(k.defs), order)
    case CyclicPass(path) => IsCycle(EdgesOf(k.defs), path)
    case _ => true
  }

  function Apply(k: State, op: Op): State {
    match op
    case LoadManifest(l, def) => Load(k, l, def)
    case DisposePlugin(l) => Remove(k, l)
    case DisposeInstance(inst) => Dispose(k, inst)
    case FinalizeInstance(inst) => Finalize(k, inst)
    case Fault(l, cause) => Fail(k, l, cause)
    case CallsMove(busy) => k.(busy := busy)
    case AcyclicPass(order) => OrderedPass(k, order).0
    case CyclicPass(path) => CyclePass(k, Ordered(Elems(path)), CycleReason(path)).0
  }

  // ---- what a pass over a cyclic definition set does ----

  /** The current activation of `m` waits, for this reason, and its entry shows it. */
  ghost predicate Shows(b: State, m: Name, reason: string) {
    && Current(b.table, m).Some? && m in b.plugins
    && var r := Current(b.table, m).value;
       && r.logical == m && r.state == Waiting && r.cause == Some(reason)
       && b.plugins[m].instance == r.instance && b.plugins[m].state == Waiting
       && b.plugins[m].waitCause == Some(reason)
  }

  /** If `m` was in service, that activation is out: parked while it has calls or a
      resource that refuses, disposed otherwise. */
  ghost predicate TookOut(k: State, b: State, m: Name) {
    Current(k.table, m).Some? && Current(k.table, m).value.state == Active ==>
      var i := Current(k.table, m).value.instance;
      i in b.table.byInstance && b.table.byInstance[i].state == if i in k.busy then CleanupPending else Disposed
  }

  /** Every member that is not already on its way out waits with the reason and is
      out of service; everything else is as before. */
  ghost predicate AllWait(k: State, b: State, members: set<Name>, reason: string) {
    forall m :: WaitsIn(k, b, members, reason, m)
  }

  ghost predicate WaitsIn(k: State, b: State, members: set<Name>, reason: string, m: Name) {
    if m in members && m in k.defs && !Stuck(k, m) then Shows(b, m, reason) && TookOut(k, b, m) else SameAt(k, b, m)
  }

  /** The activations of the other logical ids are the records they were. */
  ghost predicate RecordsKept(k: State, b: State, members: set<Name>) {
    forall i :: i in k.table.byInstance && k.table.byInstance[i].logical !in members ==>
      i in b.table.byInstance && b.table.byInstance[i] == k.table.byInstance[i]
  }

  lemma DisposedRecord(k: State, inst: nat)
    requires inst in k.table.byInstance && !Withdrawn(k.table.byInstance[inst].state)
    ensures var b := Dispose(k, inst);
      && inst in b.table.byInstance
      && b.table.byInstance[inst].state == (if inst in k.busy then CleanupPending else Disposed)
      && b.table.byInstance[inst].instance == k.table.byInstance[inst].instance
      && b.table.nextInstance == k.table.nextInstance
      && b.table.current == k.table.current && b.table.generations == k.table.generations
      && forall i :: i in k.table.byInstance && i != inst ==>
           i in b.table.byInstance && b.table.byInstance[i] == k.table.byInstance[i]
  {
  }

  lemma FreshId(k: State)
    requires Coherent(k)
    ensures forall i :: i in k.table.byInstance ==> i < k.table.nextInstance
  {
    forall i | i in k.table.byInstance ensures i < k.table.nextInstance { assert RecordOk(k.table, i); }
  }

  lemma WithdrawTakesOut(k: State, l: Name, reason: string)
    requires Coherent(k) && IsActive(States(k), l) && l in k.defs
    ensures TookOut(k, Withdraw(k, l, reason).0, l) && RecordsKept(k, Withdraw(k, l, reason).0, {l})
    ensures Current(Withdraw(k, l, reason).0.table, l).Some?
    ensures Current(Withdraw(k, l, reason).0.table, l).value.cause == Some(reason)
    ensures !SameAt(k, Withdraw(k, l, reason).0, l)
  {
    hide Dispose, Coherent;
    CoherentCurrent(k, l);
    FreshId(k);
    var i := k.table.current[l];
    DisposedRecord(k, i);
    assert Withdraw(k, l, reason).0 == CreateWaiting(Dispose(k, i), l, reason);
  }

  lemma WaitRecords(k: State, l: Name, reason: string)
    requires Coherent(k)
    ensures RecordsKept(k, EnsureWaiting(k, l, reason).0, {l})
    ensures EnsureWaiting(k, l, reason).1 ==> !SameAt(k, EnsureWaiting(k, l, reason).0, l)
  {
    hide Coherent;
    CoherentCurrent(k, l);
    FreshId(k);
    EntryOk(k, l);
  }

  lemma EntryOk(k: State, l: Name)
    requires Coherent(k)
    ensures PluginOk(k, l)
  {
  }

  lemma NowShows(b: State, l: Name, reason: string)
    requires Coherent(b) && NowWaiting(b, l) && Current(b.table, l).value.cause == Some(reason)
    ensures Shows(b, l, reason)
  {
    CoherentCurrent(b, l);
    EntryOk(b, l);
  }

  lemma WithdrawIdle(k: State, l: Name, reason: string)
    requires Coherent(k) && l in k.defs && !Stuck(k, l) && !IsActive(States(k), l)
    ensures Withdraw(k, l, reason) == EnsureWaiting(k, l, reason)
  {
    CoherentCurrent(k, l);
  }

  lemma StaysSame(k: State)
    ensures RecordsKept(k, k, {}) && Later(k.table, k.table) && forall m :: SameAt(k, k, m)
  {
  }

  lemma WithdrawWaits(k: State, l: Name, reason: string)
    requires Coherent(k)
    ensures var (b, c) := Withdraw(k, l, reason);
      && AllWait(k, b, {l}, reason) && RecordsKept(k, b, {l})
      && if c then !SameAt(k, b, l) else b == k
  {
    hide Coherent, EnsureWaiting, CreateWaiting, Dispose, Later, SameAt, RecordsKept;
    var b := Withdraw(k, l, reason).0;
    WithdrawOk(k, l, reason);
    CoherentCurrent(k, l);
    if l in k.defs && !Stuck(k, l) {
      if IsActive(States(k), l) {
        WithdrawTakesOut(k, l, reason);
      } else {
        EnsureWaitingOk(k, l, reason);
        WaitRecords(k, l, reason);
        WithdrawIdle(k, l, reason);
      }
      NowShows(b, l, reason);
    } else {
      assert Withdraw(k, l, reason) == (k, false);
      StaysSame(k);
      NoneLess(k, k, {l});
    }
  }

  lemma NoneLess(k: State, b: State, members: set<Name>)
    requires RecordsKept(k, b, {})
    ensures RecordsKept(k, b, members)
  {
  }

  lemma OthersKept(k: State, b: State, members: set<Name>, reason: string, m: Name)
    requires AllWait(k, b, members, reason) && m !in members
    ensures SameAt(k, b, m)
  {
    assert WaitsIn(k, b, members, reason, m);
  }

  lemma SameThen(k: State, k1: State, b: State, m: Name)
    ensures SameAt(k, k1, m) ==> (SameAt(k, b, m) <==> SameAt(k1, b, m))
    ensures SameAt(k1, b, m) ==> (SameAt(k, b, m) <==> SameAt(k, k1, m))
  {
  }

  lemma TookOutThen(k: State, k1: State, b: State, m: Name, rest: set<Name>)
    requires Coherent(k) && RecordsKept(k1, b, rest) && m !in rest && TookOut(k, k1, m) && Later(k.table, k1.table)
    ensures TookOut(k, b, m)
  {
    CoherentCurrent(k, m);
    if IsActive(States(k), m) {
      var i := k.table.current[m];
      assert RecordLater(k.table.byInstance[i], k1.table.byInstance[i]);
    }
  }

  lemma WaitsThen(k: State, k1: State, b: State, m: Name, rest: set<Name>, reason: string, x: Name)
    requires m !in rest && k1.defs == k.defs && k1.busy == k.busy
    requires WaitsIn(k, k1, {m}, reason, x) && WaitsIn(k1, b, rest, reason, x)
    requires RecordsKept(k1, b, rest) && Coherent(k) && Coherent(k1) && Later(k.table, k1.table)
    ensures WaitsIn(k, b, {m} + rest, reason, x)
  {
    hide Coherent, Later, RecordsKept;
    CoherentCurrent(k, x);
    CoherentCurrent(k1, x);
    if x == m && x in k.defs && !Stuck(k, x) { TookOutThen(k, k1, b, x, rest); }
  }

  /** One more member handled after the others. */
  lemma AllWaitCons(k: State, k1: State, b: State, m: Name, rest: set<Name>, reason: string)
    requires m !in rest && k1.defs == k.defs && k1.busy == k.busy
    requires AllWait(k, k1, {m}, reason) && AllWait(k1, b, rest, reason)
    requires RecordsKept(k1, b, rest) && RecordsKept(k, k1, {m})
    requires Coherent(k) && Coherent(k1) && Later(k.table, k1.table)
    ensures AllWait(k, b, {m} + rest, reason) && RecordsKept(k, b, {m} + rest)
  {
    hide WaitsIn, Coherent, Later;
    forall x ensures WaitsIn(k, b, {m} + rest, reason, x) {
      assert WaitsIn(k, k1, {m}, reason, x) && WaitsIn(k1, b, rest, reason, x);
      WaitsThen(k, k1, b, m, rest, reason, x);
    }
  }

  lemma NoMembers(k: State, reason: string)
    ensures AllWait(k, k, {}, reason)
  {
  }

  lemma {:induction false} CyclePassOk(k: State, members: seq<Name>, reason: string)
    requires Coherent(k) && NoDup(members)
    ensures var (b, c) := CyclePass(k, members, reason);
      && Coherent(b) && Later(k.table, b.table) && b.defs == k.defs && b.busy == k.busy
      && AllWait(k, b, Elems(members), reason) && RecordsKept(k, b, Elems(members))
      && if c then exists m :: m in members && !SameAt(k, b, m) else b == k
    decreases |members|
  {
    hide Coherent, Later, AllWait, RecordsKept, Withdraw, SameAt;
    if members == [] {
      assert Elems(members) == {};
      StaysSame(k);
      NoMembers(k, reason);
    } else {
      var (k1, c1) := Withdraw(k, members[0], reason);
      WithdrawOk(k, members[0], reason);
      WithdrawWaits(k, members[0], reason);
      var (b, c2) := CyclePass(k1, members[1..], reason);
      CyclePassOk(k1, members[1..], reason);
      LaterTransitive(k.table, k1.table, b.table);
      assert Elems(members) == {members[0]} + Elems(members[1..]);
      AllWaitCons(k, k1, b, members[0], Elems(members[1..]), reason);
      assert SameAt(k1, b, members[0]) by { OthersKept(k1, b, Elems(members[1..]), reason, members[0]); }
      SameThen(k, k1, b, members[0]);
      if c2 {
        var m :| m in members[1..] && !SameAt(k1, b, m);
        OthersKept(k, k1, {members[0]}, reason, m);
        SameThen(k, k1, b, m);
        assert m in members && !SameAt(k, b, m);
      }
    }
  }

  /** Active members of the cycle leave, waiting ones show the path, disposed ones
      wait again; nothing else moves, and a change is reported when there is one. */
  lemma CycleMembersWait(k: State, path: seq<Name>)
    requires Coherent(k)
    ensures var (b, c) := CyclePass(k, Ordered(Elems(path)), CycleReason(path));
      && b == Apply(k, CyclicPass(path))
      && Coherent(b) && Later(k.table, b.table) && b.defs == k.defs && b.busy == k.busy
      && AllWait(k, b, Elems(path), "cycle: " + Join(path, " -> ")) && RecordsKept(k, b, Elems(path))
      && if c then exists m :: m in path && !SameAt(k, b, m) else b == k
  {
    hide Coherent, Later, AllWait, CyclePass;
    OrderedSorted(Elems(path));
    CyclePassOk(k, Ordered(Elems(path)), CycleReason(path));
    assert forall m :: m in Ordered(Elems(path)) <==> m in Elems(Ordered(Elems(path)));
  }

  lemma ApplyOk(k: State, op: Op)
    requires Coherent(k) && Enabled(k, op)
    ensures Coherent(Apply(k, op)) && Later(k.table, Apply(k, op).table)
  {
    match op
    case LoadManifest(l, def) => LoadOk(k, l, def);
    case DisposePlugin(l) => RemoveOk(k, l);
    case DisposeInstance(inst) => DisposeOk(k, inst);
    case FinalizeInstance(inst) => FinalizeOk(k, inst);
    case Fault(l, cause) => FailOk(k, l, cause);
    case CallsMove(busy) => BusyOk(k, busy);
    case AcyclicPass(order) => PassDecreases(k, order);
    case CyclicPass(path) => CycleMembersWait(k, path);
  }

  // ---- reconciling a cyclic definition set ----

  ghost predicate OnCycle(defs: Definitions, m: Name) {
    exists path :: IsCycle(EdgesOf(defs), path) && m in path
  }

  /** Only members of cycles that were not on their way out have moved; what waited
      waits, and nothing is newly on its way out. */
  ghost predicate Deferred(k: State, b: State) {
    && (forall m :: !OnCycle(k.defs, m) || Stuck(k, m) ==> SameAt(k, b, m))
    && (forall m :: Stuck(b, m) ==> Stuck(k, m))
    && (forall m :: NowWaiting(k, m) ==> NowWaiting(b, m))
  }

  /** The members of the cycle wait and show it, except those on their way out. */
  ghost predicate CycleShown(k: State, b: State, path: seq<Name>) {
    && IsCycle(EdgesOf(k.defs), path)
    && forall m :: m in path && !Stuck(k, m) ==> Shows(b, m, "cycle: " + Join(path, " -> "))
  }

  lemma CycleInDefs(defs: Definitions, path: seq<Name>, m: Name)
    requires IsCycle(EdgesOf(defs), path) && m in path
    ensures m in defs
  {
    var i :| 0 <= i < |path| && path[i] == m;
    var j := if i == |path| - 1 then 0 else i;
    assert Edge(EdgesOf(defs), path[j], path[j + 1]);
  }

  lemma DeferredReflexive(k: State)
    ensures Deferred(k, k)
  {
  }

  lemma DeferAt(k: State, a: State, b: State, path: seq<Name>, reason: string, m: Name)
    requires Deferred(k, a) && a.defs == k.defs && IsCycle(EdgesOf(k.defs), path)
    requires WaitsIn(a, b, Elems(path), reason, m)
    ensures !OnCycle(k.defs, m) || Stuck(k, m) ==> SameAt(k, b, m)
    ensures Stuck(b, m) ==> Stuck(k, m)
    ensures NowWaiting(k, m) ==> NowWaiting(b, m)
    ensures m in path && !Stuck(k, m) ==> Shows(b, m, reason)
  {
    hide IsCycle, EdgesOf;
    if m in path { CycleInDefs(k.defs, path, m); }
  }

  lemma DeferStep(k: State, a: State, b: State, path: seq<Name>)
    requires Deferred(k, a) && a.defs == k.defs && IsCycle(EdgesOf(k.defs), path)
    requires AllWait(a, b, Elems(path), "cycle: " + Join(path, " -> "))
    ensures Deferred(k, b) && CycleShown(k, b, path)
  {
    hide IsCycle, EdgesOf, WaitsIn, Stuck, SameAt, Shows, OnCycle;
    var reason := "cycle: " + Join(path, " -> ");
    forall m
      ensures !OnCycle(k.defs, m) || Stuck(k, m) ==> SameAt(k, b, m)
      ensures Stuck(b, m) ==> Stuck(k, m)
      ensures NowWaiting(k, m) ==> NowWaiting(b, m)
      ensures m in path && !Stuck(k, m) ==> Shows(b, m, reason)
    {
      assert WaitsIn(a, b, Elems(path), reason, m);
      DeferAt(k, a, b, path, reason, m);
    }
  }

  /** Where reconciling from `k` stands after some passes. */
  ghost predicate Progress(k: State, b: State, passes: nat) {
    && Coherent(b) && Later(k.table, b.table) && b.defs == k.defs
    && if Acyclic(EdgesOf(k.defs)) then StuckSet(b) == StuckSet(k) && passes + Measure(b) <= Measure(k)
       else Deferred(k, b) && (passes > 0 ==> exists path :: CycleShown(k, b, path))
  }

  lemma ProgressStarts(k: State)
    requires Coherent(k)
    ensures Progress(k, k, 0) && Measure(k) <= 2 * |k.defs|
  {
    DeferredReflexive(k);
    MeasureBounds(k);
    StaysSame(k);
  }

  /** A pass that changes something advances; the first that changes nothing has
      converged, or shows the cycle it found. */
  lemma ProgressStep(k: State, a: State, b: State, passes: nat, op: Op, changed: bool)
    requires Coherent(a) && Progress(k, a, passes) && Enabled(a, op) && b == Apply(a, op)
    requires Acyclic(EdgesOf(a.defs)) <==> op.AcyclicPass?
    requires if op.AcyclicPass? then (b, changed) == OrderedPass(a, op.order) else op.CyclicPass?
    ensures changed ==> Progress(k, b, passes + 1)
    ensures !changed ==> Coherent(b) && Later(k.table, b.table) && b.defs == k.defs
    ensures !changed && op.AcyclicPass? ==> Converged(b) && StuckSet(b) == StuckSet(k)
    ensures op.CyclicPass? ==> Deferred(k, b) && CycleShown(k, b, op.path)
  {
    hide Coherent, Measure, StuckSet, EdgesOf, Acyclic, Deferred, CycleShown, AllWait, RecordsKept, IsCycle,
      IsTopological, OrderedPass, CyclePass, Later;
    if op.AcyclicPass? {
      PassDecreases(a, op.order);
    } else {
      CycleMembersWait(a, op.path);
      DeferStep(k, a, b, op.path);
    }
    LaterTransitive(k.table, a.table, b.table);
  }

  // ---- commands touch their own plugin ----

  lemma DisposeElsewhere(k: State, l: Name, m: Name)
    requires Coherent(k) && Current(k.table, l).Some? && m != l
    ensures SameAt(k, Dispose(k, Current(k.table, l).value.instance), m)
  {
    hide Coherent, Dispose;
    DisposeCurrentOrNone(k, l);
  }

  lemma LoadElsewhere(k: State, l: Name, def: Definition, m: Name)
    requires Coherent(k) && m != l
    ensures SameAt(k, Load(k, l, def), m)
  {
    hide Coherent, Dispose, SameAt;
    var defs, cur, d := k.defs[l := def], Current(k.table, l), k;
    SameReflexive(k, m);
    if cur.Some? && cur.value.state != Disposed && cur.value.state != Failed && cur.value.state != CleanupPending {
      d := Dispose(k, cur.value.instance);
      DisposeOk(k, cur.value.instance);
      DisposeElsewhere(k, l, m);
      DisposeIgnoresDefs(k, cur.value.instance, defs);
    }
    RedefinedSame(k, d, d.(defs := defs), l, m);
  }

  lemma RedefinedSame(k: State, d: State, b: State, l: Name, m: Name)
    requires Coherent(d) && m != l && SameAt(k, d, m) && b == d.(defs := b.defs)
    ensures SameAt(k, b, m) && SameAt(k, CreateWaiting(b, l, "reload: awaiting activation"), m)
  {
    FreshId(d);
    CoherentCurrent(d, m);
  }

  lemma RemoveElsewhere(k: State, l: Name, m: Name)
    requires Coherent(k) && m != l
    ensures SameAt(k, Remove(k, l), m)
  {
    hide Coherent, Dispose;
    if Current(k.table, l).Some? {
      DisposeElsewhere(k, l, m);
      DisposeIgnoresDefs(k, Current(k.table, l).value.instance, k.defs - {l});
    }
  }

  /** Removing a plugin takes its activation out of service: parked while it has calls
      or a resource that refuses, disposed otherwise. */
  lemma RemoveTakesOut(k: State, l: Name)
    requires Coherent(k) && Current(k.table, l).Some?
    ensures Current(Remove(k, l).table, l).Some?
    ensures var was, now := Current(k.table, l).value, Current(Remove(k, l).table, l).value;
      && now.instance == was.instance
      && now.state == if Withdrawn(was.state) then was.state
                      else if was.instance in k.busy then CleanupPending else Disposed
  {
    hide Coherent, Dispose;
    CoherentCurrent(k, l);
    var k0, i := k.(defs := k.defs - {l}), k.table.current[l];
    if Withdrawn(k.table.byInstance[i].state) {
      DisposeIs(k0, i);
    } else {
      DisposedRecord(k0, i);
    }
  }

  // ---- reloading ----

  /** The activation a reload finds leaves work behind: parked already, or in
      service with calls or a resource that refuses. */
  ghost predicate LeavesWork(k: State, l: Name) {
    && Current(k.table, l).Some?
    && var cur := Current(k.table, l).value;
       cur.state == CleanupPending || (!Withdrawn(cur.state) && cur.instance in k.busy)
  }

  /** What the first half of a reload leaves of the activation it finds. */
  lemma RedefineFinds(k: State, l: Name, def: Definition)
    requires Coherent(k)
    ensures var b, cur := Redefine(k, l, def), Current(k.table, l);
      && Generation(b.table, l) == Generation(k.table, l)
      && match cur {
           case None => Current(b.table, l) == None
           case Some(r) =>
             if r.state == Failed || r.state == Quiescing then SameAt(k, b, l)
             else
               && Current(b.table, l).Some?
               && Current(b.table, l).value.state == (if LeavesWork(k, l) then CleanupPending else Disposed)
         }
  {
    hide Coherent, Dispose;
    CoherentCurrent(k, l);
    var k0 := k.(defs := k.defs[l := def]);
    if Current(k.table, l).Some? {
      var i := k.table.current[l];
      if Withdrawn(k.table.byInstance[i].state) { DisposeIs(k0, i); } else { DisposedRecord(k0, i); }
    }
  }

  /** A reload replaces whatever it finds, except a failed activation and one that
      another thread is disposing: these stay as they are. Where work is left
      behind, a waiting successor stands in at once. */
  lemma LoadReplaces(k: State, l: Name, def: Definition)
    requires Coherent(k)
    ensures var b, cur := Load(k, l, def), Current(k.table, l);
      && (if cur.Some? && (cur.value.state == Failed || cur.value.state == Quiescing)
          then SameAt(k, b, l) else !Stuck(b, l) && !IsActive(States(b), l))
      && (LeavesWork(k, l) ==> Shows(b, l, "reload: awaiting activation")
                               && Current(b.table, l).value.generation > cur.value.generation)
  {
    hide Coherent, Redefine, LeavesWork, Shows;
    RedefineFinds(k, l, def);
    LoadOk(k, l, def);
    assert LeavesWork(k, l) ==> Current(k.table, l).Some? && Current(k.table, l).value.state != Failed
                                && Current(k.table, l).value.state != Quiescing by { WorkIsLeft(k, l); }
    if LeavesWork(k, l) {
      CurrentGeneration(k, l);
      NowShows(Load(k, l, def), l, "reload: awaiting activation");
    }
  }

  lemma WorkIsLeft(k: State, l: Name)
    ensures LeavesWork(k, l) ==> Current(k.table, l).Some? && Current(k.table, l).value.state != Failed
                                 && Current(k.table, l).value.state != Quiescing
  {
  }

  /** A reload and the reconciliation after it: nothing is stuck that was not
      failed or being disposed, and where work was left behind a successor of a
      later generation waits or is Active. */
  ghost predicate Reloaded(k: State, b: State, l: Name) {
    var cur, now := Current(k.table, l), Current(b.table, l);
    && (Stuck(b, l) ==> cur.Some? && (cur.value.state == Failed || cur.value.state == Quiescing))
    && (LeavesWork(k, l) ==>
          && now.Some? && now.value.generation > cur.value.generation
          && (now.value.state == Active || now.value.state == Waiting))
  }

  lemma ConvergedWaiting(a: State, b: State, l: Name)
    requires Coherent(a) && Converged(b) && StuckSet(b) == StuckSet(a) && l in a.defs && b.defs == a.defs
    ensures Stuck(b, l) ==> Stuck(a, l)
    ensures !Stuck(a, l) ==> l in States(b) && (States(b)[l].state == Active || States(b)[l].state == Waiting)
  {
    hide Converged, Coherent, FirstFailure, Render;
    assert Stuck(b, l) <==> l in StuckSet(b);
    assert Stuck(a, l) <==> l in StuckSet(a);
    if !Stuck(b, l) && !IsActive(States(b), l) { var e, i := ConvergedWaits(b, l); }
  }

  /** Reconciling makes nothing stuck and keeps what waits waiting, or activates it. */
  lemma StaysReloaded(a: State, b: State, l: Name)
    requires Coherent(a) && Coherent(b) && Later(a.table, b.table) && l in a.defs && b.defs == a.defs
    requires if Acyclic(EdgesOf(a.defs)) then Converged(b) && StuckSet(b) == StuckSet(a) else Deferred(a, b)
    ensures Stuck(b, l) ==> Stuck(a, l)
    ensures NowWaiting(a, l) ==>
      && Current(b.table, l).Some? && Current(b.table, l).value.generation >= Current(a.table, l).value.generation
      && (Current(b.table, l).value.state == Active || Current(b.table, l).value.state == Waiting)
  {
    hide Coherent, Converged, StuckSet, EdgesOf, Acyclic, OnCycle, SameAt;
    if Acyclic(EdgesOf(a.defs)) { ConvergedWaiting(a, b, l); }
    if NowWaiting(a, l) {
      CurrentGeneration(a, l);
      CurrentGeneration(b, l);
    }
  }

  lemma ReloadedIs(k: State, b: State, l: Name, def: Definition)
    requires Coherent(k) && Coherent(b) && Later(Load(k, l, def).table, b.table)
    requires var a := Load(k, l, def);
      && l in a.defs && b.defs == a.defs
      && if Acyclic(EdgesOf(a.defs)) then Converged(b) && StuckSet(b) == StuckSet(a) else Deferred(a, b)
    ensures Reloaded(k, b, l)
  {
    hide Coherent, Converged, StuckSet, Load, EdgesOf, Acyclic, Deferred, Stuck, SameAt, LeavesWork, Later;
    var a := Load(k, l, def);
    LoadOk(k, l, def);
    LoadReplaces(k, l, def);
    WorkIsLeft(k, l);
    StaysReloaded(a, b, l);
  }

  lemma CurrentGeneration(k: State, l: Name)
    requires Coherent(k) && Current(k.table, l).Some?
    ensures Current(k.table, l).value.generation == Generation(k.table, l)
  {
    assert CurrentOk(k.table, l);
  }

  // ---- faults ----

  ghost predicate IsFailed(k: State, l: Name, inst: nat) {
    && Current(k.table, l).Some? && Current(k.table, l).value.state == Failed
    && Current(k.table, l).value.instance == inst
  }

  /** When the fault budget is spent the current activation is Failed with the cause,
      and nothing else changes. */
  lemma FaultFails(k: State, l: Name, cause: string, m: Name)
    requires Coherent(k) && Current(k.table, l).Some?
    ensures var b := Fail(k, l, cause);
      && IsFailed(b, l, Current(k.table, l).value.instance) && Current(b.table, l).value.cause == Some(cause)
      && (m != l ==> SameAt(k, b, m))
  {
    CoherentCurrent(k, l);
    CoherentCurrent(k, m);
    EntryOk(k, l);
  }

  /** A parked activation with nothing left to wait for is disposed, and only that. */
  lemma FinalizeMoves(k: State, inst: nat, m: Name)
    requires Coherent(k) && Current(k.table, m).Some?
    ensures var r := Current(k.table, m).value;
      Current(Finalize(k, inst).table, m) ==
        Some(if r.instance == inst && r.state == CleanupPending && inst !in k.busy
             then r.(state := Disposed, cause := None) else r)
  {
    CoherentCurrent(k, m);
  }

  lemma DisposeMisses(k: State, inst: nat, l: Name)
    requires Coherent(k) && Current(k.table, l).Some? && Withdrawn(Current(k.table, l).value.state)
    ensures SameAt(k, Dispose(k, inst), l)
  {
    hide Coherent, Dispose;
    CoherentCurrent(k, l);
    SameReflexive(k, l);
    DisposeIs(k, inst);
    DisposeOk(k, inst);
  }

  lemma StaysFailed(k: State, op: Op, l: Name, inst: nat)
    requires Coherent(k) && Enabled(k, op) && IsFailed(k, l, inst)
    ensures IsFailed(Apply(k, op), l, inst)
  {
    hide Coherent, Load, Remove, Dispose, Finalize, Fail, OrderedPass, CyclePass, AllWait, RecordsKept, EdgesOf,
      IsCycle, IsTopological;
    match op
    case LoadManifest(m, def) =>
      if m == l { LoadReplaces(k, l, def); } else { LoadElsewhere(k, m, def, l); }
    case DisposePlugin(m) =>
      if m == l { RemoveMisses(k, l); } else { RemoveElsewhere(k, m, l); }
    case DisposeInstance(i) => DisposeMisses(k, i, l);
    case FinalizeInstance(i) => FinalizeMoves(k, i, l);
    case Fault(m, cause) =>
      if Current(k.table, m).Some? { FaultFails(k, m, cause, l); } else { FaultMisses(k, m, cause); }
    case CallsMove(_) =>
    case AcyclicPass(order) => StuckIsLeft(k, order, l);
    case CyclicPass(path) =>
      CycleMembersWait(k, path);
      StuckStays(k, Apply(k, op), Elems(path), "cycle: " + Join(path, " -> "), l);
  }

  lemma RemoveMisses(k: State, l: Name)
    requires Coherent(k) && Current(k.table, l).Some? && Withdrawn(Current(k.table, l).value.state)
    ensures SameAt(k, Remove(k, l), l)
  {
    hide Coherent, Dispose;
    DisposeMisses(k, Current(k.table, l).value.instance, l);
    DisposeIgnoresDefs(k, Current(k.table, l).value.instance, k.defs - {l});
  }

  lemma FaultMisses(k: State, m: Name, cause: string)
    requires Current(k.table, m).None?
    ensures Fail(k, m, cause) == k
  {}

  lemma StuckStays(k: State, b: State, members: set<Name>, reason: string, m: Name)
    requires AllWait(k, b, members, reason) && Stuck(k, m)
    ensures SameAt(k, b, m)
  {
    assert WaitsIn(k, b, members, reason, m);
  }

  lemma BusyOk(k: State, busy: map<nat, string>)
    requires Coherent(k)
    ensures Coherent(k.(busy := busy))
  {
    var b := k.(busy := busy);
    forall l ensures PluginOk(b, l) { assert PluginOk(k, l); }
    ShrinksReflexive(k);
    ShrinkKeeps(k, b);
  }

  ghost predicate Run(ks: seq<State>, ops: seq<Op>) {
    && |ks| == |ops| + 1 && ks[0] == INIT
    && forall i :: 0 <= i < |ops| ==> Enabled(ks[i], ops[i]) && ks[i + 1] == Apply(ks[i], ops[i])
  }

  lemma InitCoherent()
    ensures Coherent(INIT)
  {
  }

  /** Every reachable state is coherent, and so a legitimate start for the
      convergence results. */
  lemma {:induction false} ReachableIsCoherent(ks: seq<State>, ops: seq<Op>, i: nat)
    requires Run(ks, ops) && i < |ks|
    ensures Coherent(ks[i])
    decreases i
  {
    hide Coherent, Apply, Enabled;
    if i == 0 {
      InitCoherent();
    } else {
      ReachableIsCoherent(ks, ops, i - 1);
      ApplyOk(ks[i - 1], ops[i - 1]);
    }
  }

  lemma {:induction false} RunIsMonotone(ks: seq<State>, ops: seq<Op>, i: nat, j: nat)
    requires Run(ks, ops) && i <= j < |ks|
    ensures Later(ks[i].table, ks[j].table)
    decreases j
  {
    hide Coherent, Apply, Enabled, Later;
    StaysSame(ks[i]);
    if i < j {
      RunIsMonotone(ks, ops, i, j - 1);
      ReachableIsCoherent(ks, ops, j - 1);
      ApplyOk(ks[j - 1], ops[j - 1]);
      LaterTransitive(ks[i].table, ks[j - 1].table, ks[j].table);
    }
  }

  /** In every reachable state a logical id has at most one Active activation:
      the current one, with the highest generation. */
  lemma AtMostOneActive(ks: seq<State>, ops: seq<Op>, n: nat, i: nat, j: nat)
    requires Run(ks, ops) && n < |ks|
    requires i in ks[n].table.byInstance && j in ks[n].table.byInstance && i != j
    requires ks[n].table.byInstance[i].logical == ks[n].table.byInstance[j].logical
    requires ks[n].table.byInstance[i].state == Active
    ensures var t := ks[n].table;
      && Current(t, t.byInstance[i].logical) == Some(t.byInstance[i])
      && t.byInstance[j].state != Active && t.byInstance[j].generation < t.byInstance[i].generation
  {
    ReachableIsCoherent(ks, ops, n);
    OneActive(ks[n].table, i);
  }

  /** An activation that has left Active is never Active again, and keeps its
      identity for ever. */
  lemma NoReentry(ks: seq<State>, ops: seq<Op>, a: nat, b: nat, c: nat, i: nat)
    requires Run(ks, ops) && a <= b <= c < |ks|
    requires i in ks[a].table.byInstance && ks[a].table.byInstance[i].state == Active
    requires i in ks[b].table.byInstance && ks[b].table.byInstance[i].state != Active
    ensures i in ks[c].table.byInstance && ks[c].table.byInstance[i].state != Active
    ensures var x, y := ks[a].table.byInstance[i], ks[c].table.byInstance[i];
            x.logical == y.logical && x.generation == y.generation && x.context == y.context
  {
    RunIsMonotone(ks, ops, a, b);
    RunIsMonotone(ks, ops, b, c);
    assert RecordLater(ks[a].table.byInstance[i], ks[b].table.byInstance[i]);
    assert RecordLater(ks[b].table.byInstance[i], ks[c].table.byInstance[i]);
  }

  /** A logical id whose current activation has failed keeps it, failed, for the rest of
      every run: no command, reload, dispose or pass brings it back. */
  lemma {:induction false} FailedForGood(ks: seq<State>, ops: seq<Op>, i: nat, j: nat, l: Name, inst: nat)
    requires Run(ks, ops) && i <= j < |ks| && IsFailed(ks[i], l, inst)
    ensures IsFailed(ks[j], l, inst)
    decreases j
  {
    hide IsFailed, Coherent, Apply, Enabled;
    if i < j {
      FailedForGood(ks, ops, i, j - 1, l, inst);
      ReachableIsCoherent(ks, ops, j - 1);
      StaysFailed(ks[j - 1], ops[j - 1], l, inst);
    }
  }

  lemma FirstPass(k: State, l: Name)
    requires k == Load(INIT, l, Definition([], []))
    ensures IsTopological(EdgesOf(k.defs), [l])
    ensures OrderedPass(k, [l]).0 == CreateActive(k, l, [])
  {
    var e := EdgesOf(k.defs);
    assert Referred(k.defs, []) == {};
    assert e == map[l := []];
    assert Nodes(e) == {l} == Elems([l]);
    var states := States(k);
    assert WithdrawAll(k, states, [l], 0) == (k, false);
    assert WithdrawAll(k, states, [l], 1) == (k, false);
    assert ActivateOne(k, states, l) == (CreateActive(k, l, []), true);
  }

  /** Such a run: loaded, activated, failed; a reload leaves it failed. */
  lemma FailedRun(l: Name) returns (ks: seq<State>, ops: seq<Op>)
    ensures Run(ks, ops) && |ops| == 4 && ops[3].LoadManifest? && ops[3].l == l
    ensures IsActive(States(ks[2]), l) && IsFailed(ks[3], l, 1) && IsFailed(ks[4], l, 1)
  {
    hide Load, CreateActive, Fail, OrderedPass, IsFailed, EdgesOf, IsTopological, CurrentAll;
    var def := Definition([], []);
    var a := Load(INIT, l, def);
    FirstPass(a, l);
    FirstFault(l);
    var b := CreateActive(a, l, []);
    var c := Fail(b, l, "fault");
    ks := [INIT, a, b, c, Load(c, l, def)];
    ops := [LoadManifest(l, def), AcyclicPass([l]), Fault(l, "fault"), LoadManifest(l, def)];
    assert Run(ks, ops);
    FailedForGood(ks, ops, 3, 4, l, 1);
  }

  lemma FirstFault(l: Name)
    ensures var b := CreateActive(Load(INIT, l, Definition([], [])), l, []);
      IsActive(States(b), l) && IsFailed(Fail(b, l, "fault"), l, 1)
  {}

  /** Instance and context ids are handed out once: an id that appears later was
      unused before. */
  lemma IdsNeverReused(ks: seq<State>, ops: seq<Op>, a: nat, b: nat, i: nat, j: nat)
    requires Run(ks, ops) && a <= b < |ks|
    requires i in ks[a].table.byInstance && j in ks[b].table.byInstance && j !in ks[a].table.byInstance
    ensures i < j && ks[a].table.byInstance[i].context < ks[b].table.byInstance[j].context
  {
    ReachableIsCoherent(ks, ops, a);
    RunIsMonotone(ks, ops, a, b);
    assert RecordOk(ks[a].table, i);
  }

  /** Over a whole run no activation is claimed for disposal twice. */
  lemma ClaimedAtMostOnce(ks: seq<State>, ops: seq<Op>, n: nat)
    requires Run(ks, ops) && n < |ks|
    ensures NoDup(ks[n].claims)
  {
    ReachableIsCoherent(ks, ops, n);
  }

  /** Every dispose that finds the activation in service is logged as a claim,
      so the log is the list of fresh claims. */
  lemma FreshIsLogged(k: State, inst: nat)
    ensures Dispose(k, inst).claims == if ClaimDispose(k.table, inst).1 == Fresh then k.claims + [inst] else k.claims
  {
    DisposeIs(k, inst);
  }
}

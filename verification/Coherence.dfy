/** The invariant tying definitions, contexts, plugin entries, bindings and dispose
    claims together, and its preservation by every transition. */
module Coherence {
  import opened Names
  import opened Contexts
  import opened Bindings
  import opened Kernel

  /** The plugin entry describes the current activation. */
  ghost predicate PluginOk(k: State, l: Name) {
    Current(k.table, l).Some? ==>
      var r := Current(k.table, l).value;
      && l in k.plugins
      && k.plugins[l].instance == r.instance && k.plugins[l].generation == r.generation
      && k.plugins[l].state == r.state
      && (r.state == Waiting ==> k.plugins[l].waitCause == r.cause)
  }

  /** The binding answers the requirement: it names an activation of the right
      provider that has been Active, and if that activation is still Active its
      definition still provides. */
  ghost predicate BindingOk(k: State, req: Requirement, b: Binding) {
    && b.face == req.face
    && (req.provider.Some? ==> b.provider == req.provider.value)
    && b.instance in k.table.byInstance
    && var r := k.table.byInstance[b.instance];
       && r.logical == b.provider && r.generation == b.generation
       && (r.state == Active || Withdrawn(r.state))
       && (r.state == Active ==> b.provider in k.defs && Provides(k.defs[b.provider], req))
  }

  ghost predicate BoundOk(k: State, l: Name) {
    IsActive(States(k), l) ==>
      && l in k.defs && l in k.plugins
      && |k.plugins[l].bindings| == |k.defs[l].needs|
      && forall i :: 0 <= i < |k.defs[l].needs| ==> BindingOk(k, k.defs[l].needs[i], k.plugins[l].bindings[i])
  }

  ghost predicate ClaimsOk(k: State) {
    && NoDup(k.claims)
    && forall i :: i in k.claims ==> i in k.table.byInstance && Withdrawn(k.table.byInstance[i].state)
  }

  ghost predicate Coherent(k: State) {
    && TableOk(k.table)
    && (forall l :: PluginOk(k, l))
    && (forall l :: BoundOk(k, l))
    && ClaimsOk(k)
  }

  /** `b` activates nothing that `a` did not, and keeps the definition and the
      bindings of whatever stays Active. */
  ghost predicate Shrinks(a: State, b: State) {
    && Later(a.table, b.table)
    && (forall i :: i in b.table.byInstance && b.table.byInstance[i].state == Active ==>
          i in a.table.byInstance && a.table.byInstance[i].state == Active)
    && (forall l :: IsActive(States(b), l) ==>
          && l in a.defs && l in b.defs && b.defs[l] == a.defs[l]
          && l in a.plugins && l in b.plugins && b.plugins[l].bindings == a.plugins[l].bindings)
  }

  lemma CurrentIs(t: Table, l: Name)
    requires TableOk(t)
    ensures l in CurrentAll(t) <==> l in t.current
    ensures l in CurrentAll(t) ==> Current(t, l) == Some(CurrentAll(t)[l]) && CurrentAll(t)[l].logical == l
    ensures l in t.current ==> t.current[l] in t.byInstance && CurrentAll(t)[l] == t.byInstance[t.current[l]]
    ensures l in t.current ==> CurrentAll(t)[l].instance == t.current[l]
  {
    assert CurrentOk(t, l);
    if l in t.current { assert RecordOk(t, t.current[l]); }
  }

  lemma CoherentCurrent(k: State, l: Name)
    requires Coherent(k)
    ensures l in States(k) <==> l in k.table.current
    ensures Current(k.table, l) == if l in States(k) then Some(States(k)[l]) else None
    ensures l in States(k) ==> States(k)[l].logical == l && States(k)[l].instance == k.table.current[l]
    ensures l in States(k) ==> States(k)[l].state != Registered && States(k)[l].state != Preparing
  {
    CurrentIs(k.table, l);
    if l in k.table.current { assert RecordOk(k.table, k.table.current[l]); }
  }

  lemma ShrinkKeepsBound(a: State, b: State, l: Name)
    requires TableOk(a.table) && TableOk(b.table) && BoundOk(a, l) && Shrinks(a, b)
    ensures BoundOk(b, l)
  {
    if IsActive(States(b), l) {
      CurrentIs(a.table, l);
      CurrentIs(b.table, l);
      var i := b.table.current[l];
      assert RecordLater(a.table.byInstance[i], b.table.byInstance[i]);
      assert RecordOk(a.table, i);
      assert IsActive(States(a), l);
      forall j | 0 <= j < |b.defs[l].needs| ensures BindingOk(b, b.defs[l].needs[j], b.plugins[l].bindings[j]) {
        var bd := a.plugins[l].bindings[j];
        assert BindingOk(a, a.defs[l].needs[j], bd);
        assert RecordLater(a.table.byInstance[bd.instance], b.table.byInstance[bd.instance]);
        if b.table.byInstance[bd.instance].state == Active {
          assert RecordOk(b.table, bd.instance);
          CurrentIs(b.table, bd.provider);
          assert IsActive(States(b), bd.provider);
        }
      }
    }
  }

  lemma ShrinkKeeps(a: State, b: State)
    requires Coherent(a) && TableOk(b.table) && Shrinks(a, b)
    requires forall l :: PluginOk(b, l)
    requires ClaimsOk(b)
    ensures Coherent(b)
  {
    forall l ensures BoundOk(b, l) { ShrinkKeepsBound(a, b, l); }
  }

  lemma ShrinksLater(a: State, b: State)
    requires Shrinks(a, b)
    ensures Later(a.table, b.table)
  {
  }

  lemma ClaimsKept(a: State, b: State)
    requires ClaimsOk(a) && Later(a.table, b.table) && b.claims == a.claims
    ensures ClaimsOk(b)
  {
    forall i | i in b.claims ensures i in b.table.byInstance && Withdrawn(b.table.byInstance[i].state) {
      assert RecordLater(a.table.byInstance[i], b.table.byInstance[i]);
    }
  }

  /** Nothing about `m` changed. */
  ghost predicate SameAt(a: State, b: State, m: Name) {
    && Current(a.table, m) == Current(b.table, m)
    && (m in a.plugins <==> m in b.plugins) && (m in a.plugins ==> a.plugins[m] == b.plugins[m])
  }

  // ---- transitions that activate nothing ----

  /** `b` follows `k` and differs from it at `l` only. */
  ghost predicate Touches(k: State, b: State, l: Name) {
    && Coherent(b) && b.defs == k.defs && b.busy == k.busy && Later(k.table, b.table)
    && forall m :: m != l ==> SameAt(k, b, m)
  }

  ghost predicate NowWaiting(b: State, l: Name) {
    Current(b.table, l).Some? && Current(b.table, l).value.state == Waiting
  }

  lemma TouchesTwice(k: State, d: State, b: State, l: Name)
    requires Touches(k, d, l) && Touches(d, b, l)
    ensures Touches(k, b, l)
  {
    LaterTransitive(k.table, d.table, b.table);
    forall m | m != l ensures SameAt(k, b, m) { assert SameAt(k, d, m) && SameAt(d, b, m); }
  }

  lemma TouchesReflexive(k: State, l: Name)
    requires Coherent(k)
    ensures Touches(k, k, l)
  {
  }

  /** A new waiting activation of `l` leaves the other logical ids alone. */
  lemma CreateWaitingFrame(k: State, l: Name, reason: string, m: Name)
    requires Coherent(k) && !IsActive(States(k), l)
    ensures var b := CreateWaiting(k, l, reason);
      && (m != l ==> SameAt(k, b, m)) && PluginOk(b, m)
      && (IsActive(States(b), m) ==>
            m in k.defs && m in k.plugins && m in b.plugins && b.plugins[m].bindings == k.plugins[m].bindings)
  {
    CurrentIs(k.table, m);
    assert PluginOk(k, m) && BoundOk(k, m);
    if m in k.table.current { assert RecordOk(k.table, k.table.current[m]); }
  }

  lemma CreateWaitingShrinks(k: State, l: Name, reason: string)
    requires Coherent(k) && !IsActive(States(k), l)
    ensures Shrinks(k, CreateWaiting(k, l, reason))
  {
    hide PluginOk, BoundOk, SameAt, RecordOk, CurrentOk, Later;
    var b := CreateWaiting(k, l, reason);
    CreateInLater(k.table, l, Waiting, Some(reason));
    forall m | IsActive(States(b), m)
      ensures m in k.defs && m in k.plugins && m in b.plugins && b.plugins[m].bindings == k.plugins[m].bindings
    {
      CreateWaitingFrame(k, l, reason, m);
    }
  }

  lemma CreateWaitingOk(k: State, l: Name, reason: string)
    requires Coherent(k) && !IsActive(States(k), l)
    ensures Touches(k, CreateWaiting(k, l, reason), l)
    ensures Current(CreateWaiting(k, l, reason).table, l) == Some(NewRecord(k.table, l, Waiting, Some(reason)))
  {
    hide PluginOk, BoundOk, SameAt, RecordOk, CurrentOk, Later, Shrinks, TableOk, ClaimsOk, IsActive;
    var b := CreateWaiting(k, l, reason);
    CoherentCurrent(k, l);
    IdleIsReplaceable(k, l);
    CreateInOk(k.table, l, Waiting, Some(reason));
    forall m ensures (m != l ==> SameAt(k, b, m)) && PluginOk(b, m) { CreateWaitingFrame(k, l, reason, m); }
    CreateWaitingShrinks(k, l, reason);
    ClaimsKept(k, b);
    ShrinkKeeps(k, b);
  }

  lemma IdleIsReplaceable(k: State, l: Name)
    requires Coherent(k) && !IsActive(States(k), l)
    ensures ReplacesIdle(k.table, l, Waiting) && ReplacesIdle(k.table, l, Active)
  {
    CurrentIs(k.table, l);
  }

  ghost predicate IsCurrent(k: State, inst: nat, l: Name) {
    l in k.table.current && k.table.current[l] == inst
  }

  /** What moving one record (and its plugin entry) to a withdrawn state leaves alone. */
  lemma RetireFrame(k: State, inst: nat, s: Fsm, cause: Option<string>, b: State, m: Name)
    requires Coherent(k) && inst in k.table.byInstance && Withdrawn(s)
    requires b.table == SetState(k.table, inst, s, cause)
    requires b.plugins == SetPlugin(k, k.table.byInstance[inst].logical, inst, s).plugins
    ensures !IsCurrent(k, inst, m) ==> SameAt(k, b, m)
    ensures IsCurrent(k, inst, m) ==> !IsActive(States(b), m)
    ensures PluginOk(b, m)
    ensures m in k.plugins ==> m in b.plugins && b.plugins[m].bindings == k.plugins[m].bindings
  {
    hide BoundOk, ClaimsOk, Increasing;
    CurrentIs(k.table, m);
    assert RecordOk(k.table, inst) && PluginOk(k, m);
    assert CurrentOk(k.table, m);
  }

  lemma RetireTable(k: State, inst: nat, s: Fsm, cause: Option<string>)
    requires Coherent(k) && inst in k.table.byInstance && Withdrawn(s)
    ensures TableOk(SetState(k.table, inst, s, cause)) && Later(k.table, SetState(k.table, inst, s, cause))
  {
    SetStateOk(k.table, inst, s, cause);
  }

  lemma RetireActive(k: State, inst: nat, s: Fsm, cause: Option<string>, b: State, m: Name)
    requires Coherent(k) && inst in k.table.byInstance && Withdrawn(s)
    requires b.table == SetState(k.table, inst, s, cause)
    requires b.plugins == SetPlugin(k, k.table.byInstance[inst].logical, inst, s).plugins
    requires IsActive(States(b), m)
    ensures m in k.defs && m in k.plugins && m in b.plugins && b.plugins[m].bindings == k.plugins[m].bindings
  {
    hide PluginOk, TableOk, ClaimsOk;
    RetireFrame(k, inst, s, cause, b, m);
    assert SameAt(k, b, m) && BoundOk(k, m);
    CoherentCurrent(k, m);
  }

  lemma RetireOk(k: State, inst: nat, s: Fsm, cause: Option<string>, b: State)
    requires Coherent(k) && inst in k.table.byInstance && Withdrawn(s)
    requires b.table == SetState(k.table, inst, s, cause) && b.defs == k.defs
    requires b.plugins == SetPlugin(k, k.table.byInstance[inst].logical, inst, s).plugins
    requires ClaimsOk(b)
    ensures Coherent(b) && Shrinks(k, b)
  {
    hide PluginOk, BoundOk, SameAt, TableOk, Later, ClaimsOk;
    RetireTable(k, inst, s, cause);
    forall m ensures PluginOk(b, m) { RetireFrame(k, inst, s, cause, b, m); }
    forall m | IsActive(States(b), m)
      ensures m in k.defs && m in k.plugins && m in b.plugins && b.plugins[m].bindings == k.plugins[m].bindings
    {
      RetireActive(k, inst, s, cause, b, m);
    }
    ShrinkKeeps(k, b);
  }

  lemma DisposeIs(k: State, inst: nat)
    ensures ClaimDispose(k.table, inst).1 != Fresh ==> Dispose(k, inst) == k
    ensures ClaimDispose(k.table, inst).1 == Fresh ==>
              && inst in k.table.byInstance && !Withdrawn(k.table.byInstance[inst].state)
              && exists s, cause ::
                   && Withdrawn(s) && Dispose(k, inst).table == SetState(k.table, inst, s, cause)
                   && Dispose(k, inst).plugins == SetPlugin(k, k.table.byInstance[inst].logical, inst, s).plugins
                   && Dispose(k, inst).claims == k.claims + [inst] && Dispose(k, inst).defs == k.defs
  {
    if ClaimDispose(k.table, inst).1 == Fresh {
      var s := if inst in k.busy then CleanupPending else Disposed;
      var cause := if inst in k.busy then Some(k.busy[inst]) else None;
      var t := ClaimDispose(k.table, inst).0;
      assert SetState(t, inst, s, cause) == SetState(k.table, inst, s, cause);
      assert Withdrawn(s) && Dispose(k, inst).table == SetState(k.table, inst, s, cause);
    }
  }

  lemma DisposeOk(k: State, inst: nat)
    requires Coherent(k)
    ensures Coherent(Dispose(k, inst)) && Shrinks(k, Dispose(k, inst)) && Dispose(k, inst).defs == k.defs
    ensures forall m :: !IsCurrent(k, inst, m) ==> SameAt(k, Dispose(k, inst), m)
    ensures forall m :: IsCurrent(k, inst, m) ==> !IsActive(States(Dispose(k, inst)), m)
  {
    var b := Dispose(k, inst);
    DisposeIs(k, inst);
    if ClaimDispose(k.table, inst).1 == Fresh {
      var s, cause :| Withdrawn(s) && b.table == SetState(k.table, inst, s, cause)
        && b.plugins == SetPlugin(k, k.table.byInstance[inst].logical, inst, s).plugins
        && b.claims == k.claims + [inst] && b.defs == k.defs;
      assert ClaimsOk(b);
      RetireOk(k, inst, s, cause, b);
      forall m
        ensures !IsCurrent(k, inst, m) ==> SameAt(k, b, m)
        ensures IsCurrent(k, inst, m) ==> !IsActive(States(b), m)
      {
        RetireFrame(k, inst, s, cause, b, m);
      }
    } else {
      forall m ensures IsCurrent(k, inst, m) ==> !IsActive(States(b), m) { CurrentIs(k.table, m); }
      forall l | IsActive(States(k), l) ensures l in k.defs && l in k.plugins { assert BoundOk(k, l); }
    }
  }

  lemma ShrinksReflexive(k: State)
    requires Coherent(k)
    ensures Shrinks(k, k)
  {
    forall l | IsActive(States(k), l) ensures l in k.defs && l in k.plugins { assert BoundOk(k, l); }
  }

  /** Rewriting the reason of a waiting activation touches nothing else. */
  lemma RewaitFrame(k: State, l: Name, reason: string, b: State, m: Name)
    requires Coherent(k) && Current(k.table, l).Some? && Current(k.table, l).value.state == Waiting
    requires b.table == SetState(k.table, Current(k.table, l).value.instance, Waiting, Some(reason))
    requires l in k.plugins
    requires b.plugins == k.plugins[l := k.plugins[l].(state := Waiting, waitCause := Some(reason))]
    ensures m != l ==> SameAt(k, b, m)
    ensures m == l ==> Current(b.table, m) == Some(Current(k.table, l).value.(cause := Some(reason)))
    ensures PluginOk(b, m)
    ensures IsActive(States(b), m) ==> m in k.defs && m in k.plugins && m in b.plugins
    ensures IsActive(States(b), m) ==> b.plugins[m].bindings == k.plugins[m].bindings
  {
    CurrentIs(k.table, l);
    CurrentIs(k.table, m);
    assert PluginOk(k, m) && BoundOk(k, m);
  }

  lemma RewaitShrinks(k: State, l: Name, reason: string, b: State)
    requires Coherent(k) && Current(k.table, l).Some? && Current(k.table, l).value.state == Waiting
    requires b.table == SetState(k.table, Current(k.table, l).value.instance, Waiting, Some(reason)) && b.defs == k.defs
    requires l in k.plugins
    requires b.plugins == k.plugins[l := k.plugins[l].(state := Waiting, waitCause := Some(reason))]
    ensures TableOk(b.table) && Later(k.table, b.table) && Shrinks(k, b)
  {
    hide PluginOk, BoundOk, SameAt, TableOk, Later, ClaimsOk;
    CoherentCurrent(k, l);
    SetStateOk(k.table, Current(k.table, l).value.instance, Waiting, Some(reason));
    forall m | IsActive(States(b), m)
      ensures m in k.defs && m in k.plugins && m in b.plugins && b.plugins[m].bindings == k.plugins[m].bindings
    {
      RewaitFrame(k, l, reason, b, m);
    }
  }

  /** Only the waiting text of `l` changes. */
  lemma RewaitOk(k: State, l: Name, reason: string)
    requires Coherent(k) && Current(k.table, l).Some? && Current(k.table, l).value.state == Waiting
    ensures var b := EnsureWaiting(k, l, reason).0;
      && Touches(k, b, l)
      && Current(b.table, l).Some? && Current(b.table, l).value.state == Waiting
      && (l in k.defs ==> Current(b.table, l).value.cause == Some(reason))
  {
    hide BoundOk, SameAt, RecordOk, CurrentOk, Later, Shrinks, TableOk, ClaimsOk;
    var b := EnsureWaiting(k, l, reason).0;
    var st := Current(k.table, l).value;
    CoherentCurrent(k, l);
    assert PluginOk(k, l);
    if b == k {
      TouchesReflexive(k, l);
    } else {
      RewaitShrinks(k, l, reason, b);
      forall m ensures (m != l ==> SameAt(k, b, m)) && PluginOk(b, m) { RewaitFrame(k, l, reason, b, m); }
      RewaitFrame(k, l, reason, b, l);
      ClaimsKept(k, b);
      ShrinkKeeps(k, b);
    }
  }

  /** No activation yet, one not started, or one disposed. */
  predicate OutOfService(cur: Option<Record>) {
    cur.None? || Pending(cur.value.state) || cur.value.state == Disposed
  }

  lemma EnsureWaitingOk(k: State, l: Name, reason: string)
    requires Coherent(k)
    ensures var (b, c) := EnsureWaiting(k, l, reason);
      && Touches(k, b, l) && (!c ==> b == k)
      && (l in k.defs && OutOfService(Current(k.table, l)) ==>
            && Current(b.table, l).Some? && Current(b.table, l).value.state == Waiting
            && Current(b.table, l).value.cause == Some(reason))
      && (Current(k.table, l).Some? && Current(k.table, l).value.state == Active ==> b == k)
  {
    hide Coherent, SameAt, Later, Shrinks;
    CoherentCurrent(k, l);
    TouchesReflexive(k, l);
    if l in k.defs {
      if Current(k.table, l).None? || Current(k.table, l).value.state == Disposed {
        CreateWaitingOk(k, l, reason);
      } else if Current(k.table, l).value.state == Waiting {
        RewaitOk(k, l, reason);
      }
    }
  }

  /** A change is reported exactly when something changed. */
  lemma EnsureWaitingReports(k: State, l: Name, reason: string)
    requires Coherent(k)
    ensures var (b, c) := EnsureWaiting(k, l, reason);
      c <==> b != k
  {
    hide PluginOk, BoundOk, ClaimsOk, TableOk, CreateWaiting;
    CoherentCurrent(k, l);
    CreateWaitingMoves(k, l, reason);
    var (b, c) := EnsureWaiting(k, l, reason);
    var cur := Current(k.table, l);
    if c && cur.Some? && Pending(cur.value.state) && cur.value.cause != Some(reason) {
      assert b.table.byInstance[cur.value.instance].cause == Some(reason);
    }
  }

  lemma CreateWaitingMoves(k: State, l: Name, reason: string)
    ensures CreateWaiting(k, l, reason) != k
  {
    assert CreateWaiting(k, l, reason).table.nextInstance == k.table.nextInstance + 1;
  }

  lemma DisposeCurrent(k: State, l: Name, inst: nat)
    requires Coherent(k) && IsCurrent(k, inst, l)
    ensures Touches(k, Dispose(k, inst), l) && !IsActive(States(Dispose(k, inst)), l)
  {
    hide Coherent, SameAt, Later, IsActive;
    DisposeOk(k, inst);
    CoherentCurrent(k, l);
    assert Dispose(k, inst).busy == k.busy;
    assert Later(k.table, Dispose(k, inst).table) by { ShrinksLater(k, Dispose(k, inst)); }
    forall m | m != l ensures SameAt(k, Dispose(k, inst), m) {
      CoherentCurrent(k, m);
      assert !IsCurrent(k, inst, m);
    }
  }

  /** Disposing the current activation and creating a waiting successor. */
  lemma ReplaceOk(k: State, l: Name, inst: nat, reason: string)
    requires Coherent(k) && IsCurrent(k, inst, l)
    ensures Touches(k, CreateWaiting(Dispose(k, inst), l, reason), l)
    ensures NowWaiting(CreateWaiting(Dispose(k, inst), l, reason), l)
  {
    DisposeCurrent(k, l, inst);
    CreateWaitingOk(Dispose(k, inst), l, reason);
    TouchesTwice(k, Dispose(k, inst), CreateWaiting(Dispose(k, inst), l, reason), l);
  }

  /** An Active activation is replaced by a waiting one; anything else behaves as
      `EnsureWaiting`. */
  lemma WithdrawOk(k: State, l: Name, reason: string)
    requires Coherent(k)
    ensures Touches(k, Withdraw(k, l, reason).0, l)
    ensures l in k.defs && IsActive(States(k), l) ==>
      Withdraw(k, l, reason).1 && NowWaiting(Withdraw(k, l, reason).0, l)
  {
    CurrentIs(k.table, l);
    if l !in k.defs {
    } else if Current(k.table, l).None? {
      CreateWaitingOk(k, l, reason);
    } else {
      var st := Current(k.table, l).value;
      assert RecordOk(k.table, st.instance);
      match st.state {
        case Active => ReplaceOk(k, l, st.instance, reason);
        case Disposed => CreateWaitingOk(k, l, reason);
        case Waiting => EnsureWaitingOk(k, l, reason);
        case _ =>
      }
    }
  }

  // ---- transitions that activate ----

  /** Bindings just resolved are sound: they name the current Active activations. */
  lemma ResolvedBindingOk(k: State, l: Name, i: nat, b: State)
    requires Coherent(k) && l in k.defs && Resolve(k.defs, States(k), l).Ok?
    requires b.defs == k.defs && Later(k.table, b.table) && TableOk(b.table)
    requires forall j :: j in k.table.byInstance && k.table.byInstance[j].state == Active ==>
      b.table.byInstance[j].state == Active
    requires i < |k.defs[l].needs|
    ensures |Resolve(k.defs, States(k), l).value| == |k.defs[l].needs|
    ensures BindingOk(b, k.defs[l].needs[i], Resolve(k.defs, States(k), l).value[i])
  {
    var needs := k.defs[l].needs;
    ResolveAllOk(k.defs, States(k), needs);
    var bd := Resolve(k.defs, States(k), l).value[i];
    assert ResolveOne(k.defs, States(k), needs[i]) == Ok(bd);
    TargetMentioned(k.defs, needs[i]);
    CurrentIs(k.table, bd.provider);
    assert RecordLater(k.table.byInstance[bd.instance], b.table.byInstance[bd.instance]);
  }

  lemma GrowKeepsBinding(k: State, b: State, inst: nat, req: Requirement, bd: Binding)
    requires b.defs == k.defs && Later(k.table, b.table) && BindingOk(k, req, bd)
    requires forall j :: j in b.table.byInstance && j != inst ==>
      j in k.table.byInstance && k.table.byInstance[j].state == b.table.byInstance[j].state
    requires inst in k.table.byInstance ==> Pending(k.table.byInstance[inst].state)
    ensures BindingOk(b, req, bd)
  {
    assert RecordLater(k.table.byInstance[bd.instance], b.table.byInstance[bd.instance]);
  }

  /** Bindings of the others stay sound when one waiting (or new) activation of
      `l` goes Active: none of them names it. */
  lemma GrowKeepsBound(k: State, b: State, l: Name, inst: nat, m: Name)
    requires Coherent(k) && TableOk(b.table) && b.defs == k.defs && Later(k.table, b.table)
    requires forall j :: j in b.table.byInstance && j != inst ==>
      j in k.table.byInstance && k.table.byInstance[j].state == b.table.byInstance[j].state
    requires inst in k.table.byInstance ==> Pending(k.table.byInstance[inst].state)
    requires m != l && SameAt(k, b, m)
    ensures BoundOk(b, m)
  {
    hide RecordOk, CurrentOk, PluginOk, ClaimsOk, Increasing, BindingOk;
    if IsActive(States(b), m) {
      assert BoundOk(k, m);
      forall i | 0 <= i < |b.defs[m].needs| ensures BindingOk(b, b.defs[m].needs[i], b.plugins[m].bindings[i]) {
        GrowKeepsBinding(k, b, inst, k.defs[m].needs[i], k.plugins[m].bindings[i]);
      }
    }
  }

  ghost predicate NowActive(b: State, l: Name, bs: seq<Binding>) {
    && Current(b.table, l).Some? && Current(b.table, l).value.state == Active
    && l in b.plugins && b.plugins[l].bindings == bs
  }

  /** One activation of `l`, waiting or brand new, goes Active with resolved bindings. */
  lemma GrowOk(k: State, b: State, l: Name, inst: nat)
    requires Coherent(k) && l in k.defs && Resolve(k.defs, States(k), l).Ok?
    requires TableOk(b.table) && b.defs == k.defs && Later(k.table, b.table) && b.claims == k.claims
    requires forall j :: j in b.table.byInstance && j != inst ==>
               j in k.table.byInstance && k.table.byInstance[j].state == b.table.byInstance[j].state
    requires inst in k.table.byInstance ==> Pending(k.table.byInstance[inst].state)
    requires forall m :: m != l ==> SameAt(k, b, m)
    requires PluginOk(b, l) && NowActive(b, l, Resolve(k.defs, States(k), l).value)
    ensures Coherent(b)
  {
    hide TableOk, ClaimsOk, BindingOk, ResolveAll;
    forall m ensures PluginOk(b, m) { if m != l { assert SameAt(k, b, m) && PluginOk(k, m); } }
    forall m ensures BoundOk(b, m) {
      if m != l {
        GrowKeepsBound(k, b, l, inst, m);
      } else {
        forall i | 0 <= i < |k.defs[l].needs|
          ensures |b.plugins[l].bindings| == |k.defs[l].needs|
          ensures BindingOk(b, b.defs[l].needs[i], b.plugins[l].bindings[i])
        {
          ResolvedBindingOk(k, l, i, b);
        }
        ResolveAllOk(k.defs, States(k), k.defs[l].needs);
      }
    }
    ClaimsKept(k, b);
  }

  lemma PromoteOk(k: State, l: Name)
    requires Coherent(k) && l in k.defs && Resolve(k.defs, States(k), l).Ok?
    requires Current(k.table, l).Some? && Current(k.table, l).value.state == Waiting
    ensures Promote(k, l).1 && Touches(k, Promote(k, l).0, l)
    ensures NowActive(Promote(k, l).0, l, Resolve(k.defs, States(k), l).value)
  {
    hide BoundOk, TableOk, ClaimsOk, Later, ResolveAll;
    var b := Promote(k, l).0;
    var st := Current(k.table, l).value;
    CoherentCurrent(k, l);
    assert PluginOk(k, l);
    SetStateOk(k.table, st.instance, Active, None);
    forall m | m != l ensures SameAt(k, b, m) { CoherentCurrent(k, m); }
    GrowOk(k, b, l, st.instance);
  }

  lemma CreateActiveFrame(k: State, l: Name, bs: seq<Binding>)
    requires Coherent(k)
    ensures PluginOk(CreateActive(k, l, bs), l)
    ensures forall m :: m != l ==> SameAt(k, CreateActive(k, l, bs), m)
  {
    hide PluginOk, BoundOk, ClaimsOk, TableOk, SameAt, CreateActive;
    forall m | m != l ensures SameAt(k, CreateActive(k, l, bs), m) { CreateActiveElsewhere(k, l, bs, m); }
    CreateActivePlugin(k, l, bs);
  }

  lemma CreateActiveElsewhere(k: State, l: Name, bs: seq<Binding>, m: Name)
    requires TableOk(k.table) && m != l
    ensures SameAt(k, CreateActive(k, l, bs), m)
  {
    CurrentIs(k.table, m);
    if m in k.table.current { assert RecordOk(k.table, k.table.current[m]); }
  }

  lemma CreateActivePlugin(k: State, l: Name, bs: seq<Binding>)
    ensures PluginOk(CreateActive(k, l, bs), l)
  {
  }

  lemma CreateActiveOk(k: State, l: Name)
    requires Coherent(k) && l in k.defs && Resolve(k.defs, States(k), l).Ok?
    requires !IsActive(States(k), l)
    ensures Touches(k, CreateActive(k, l, Resolve(k.defs, States(k), l).value), l)
    ensures NowActive(CreateActive(k, l, Resolve(k.defs, States(k), l).value), l, Resolve(k.defs, States(k), l).value)
  {
    hide BoundOk, CurrentOk, ClaimsOk, Later, PluginOk, IsActive, ResolveAll, Increasing, SameAt;
    var b := CreateActive(k, l, Resolve(k.defs, States(k), l).value);
    CoherentCurrent(k, l);
    IdleIsReplaceable(k, l);
    CreateInOk(k.table, l, Active, None);
    assert RecordOk(k.table, k.table.nextInstance);
    CreateActiveFrame(k, l, Resolve(k.defs, States(k), l).value);
    GrowOk(k, b, l, k.table.nextInstance);
  }

  // ---- operator commands ----

  /** The definition of something that is not Active may change freely. */
  lemma RedefineOk(k: State, l: Name, defs: Definitions)
    requires Coherent(k) && !IsActive(States(k), l)
    requires forall m :: m != l && m in k.defs ==> m in defs && defs[m] == k.defs[m]
    ensures Coherent(k.(defs := defs)) && Later(k.table, k.table)
  {
    var b := k.(defs := defs);
    forall m ensures PluginOk(b, m) { assert PluginOk(k, m); }
    forall m | IsActive(States(b), m) ensures m in k.defs && m in defs && defs[m] == k.defs[m] && m in k.plugins {
      assert BoundOk(k, m);
    }
    ShrinkKeeps(k, b);
  }

  lemma DisposeCurrentOrNone(k: State, l: Name)
    requires Coherent(k) && Current(k.table, l).Some?
    ensures var b := Dispose(k, Current(k.table, l).value.instance);
            Touches(k, b, l) && !IsActive(States(b), l)
  {
    CurrentIs(k.table, l);
    DisposeCurrent(k, l, Current(k.table, l).value.instance);
  }

  lemma DisposeIgnoresDefs(k: State, inst: nat, defs: Definitions)
    ensures Dispose(k.(defs := defs), inst) == Dispose(k, inst).(defs := defs)
  {
  }

  lemma LoadOk(k: State, l: Name, def: Definition)
    requires Coherent(k)
    ensures Coherent(Load(k, l, def)) && Later(k.table, Load(k, l, def).table)
  {
    var defs := k.defs[l := def];
    var cur := Current(k.table, l);
    CurrentIs(k.table, l);
    var d := k;
    if cur.Some? && cur.value.state != Disposed && cur.value.state != Failed && cur.value.state != CleanupPending {
      d := Dispose(k, cur.value.instance);
      DisposeCurrentOrNone(k, l);
      DisposeIgnoresDefs(k, cur.value.instance, defs);
    }
    CurrentIs(d.table, l);
    RedefineOk(d, l, defs);
    var k1 := d.(defs := defs);
    var now := Current(k1.table, l);
    if now.Some? && now.value.state == CleanupPending {
      CreateWaitingOk(k1, l, "reload: awaiting activation");
      LaterTransitive(k.table, k1.table, Load(k, l, def).table);
    }
  }

  lemma RemoveOk(k: State, l: Name)
    requires Coherent(k)
    ensures Coherent(Remove(k, l)) && Later(k.table, Remove(k, l).table)
  {
    var defs := k.defs - {l};
    CurrentIs(k.table, l);
    if Current(k.table, l).Some? {
      var inst := Current(k.table, l).value.instance;
      DisposeCurrentOrNone(k, l);
      DisposeIgnoresDefs(k, inst, defs);
      RedefineOk(Dispose(k, inst), l, defs);
    } else {
      RedefineOk(k, l, defs);
    }
  }

  lemma FinalizeOk(k: State, inst: nat)
    requires Coherent(k)
    ensures Coherent(Finalize(k, inst)) && Later(k.table, Finalize(k, inst).table)
  {
    hide PluginOk, BoundOk, TableOk, ClaimsOk, Later;
    var b := Finalize(k, inst);
    if b == k {
      TouchesReflexive(k, "");
    } else {
      RetireTable(k, inst, Disposed, None);
      ClaimsKept(k, b);
      RetireOk(k, inst, Disposed, None, b);
    }
  }

  lemma FailOk(k: State, l: Name, cause: string)
    requires Coherent(k)
    ensures Coherent(Fail(k, l, cause)) && Later(k.table, Fail(k, l, cause).table)
  {
    var b := Fail(k, l, cause);
    CurrentIs(k.table, l);
    if l in k.plugins && Current(k.table, l).Some? {
      var inst := Current(k.table, l).value.instance;
      assert PluginOk(k, l);
      assert b.plugins == SetPlugin(k, l, inst, Failed).plugins;
      SetStateOk(k.table, inst, Failed, Some(cause));
      ClaimsKept(k, b);
      RetireOk(k, inst, Failed, Some(cause), b);
    }
  }
}

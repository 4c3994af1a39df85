/** The kernel as the object whose methods update its maps step by step. */
module KernelObject {
  import opened Names
  import opened Graph
  import opened Contexts
  import opened Bindings
  import K = Kernel
  import opened Coherence
  import opened Reconcile
  import opened Lifecycle

  lemma EmptyIsOrdered(k: K.State)
    ensures IsTopological(EdgesOf(map[]), []) && Acyclic(EdgesOf(map[]))
    ensures K.OrderedPass(k, []) == (k, false)
  {
    assert IsTopological(EdgesOf(map[]), []);
    TopologicalIsAcyclic(EdgesOf(map[]), []);
  }

  class Kernel {
    var definitions: Definitions
    const contexts: ContextTable
    var plugins: map<Name, K.Plugin>
    /** Activations with calls in flight or a resource that refuses release. */
    var busy: map<nat, string>
    ghost var claims: seq<nat>

    ghost function View(): K.State
      reads this, contexts
    {
      K.State(definitions, contexts.View(), plugins, busy, claims)
    }

    constructor ()
      ensures fresh(contexts) && View() == K.INIT && Coherent(View())
    {
      definitions, plugins, busy, claims := map[], map[], map[], [];
      contexts := new ContextTable();
      new;
      InitCoherent();
    }

    method SetPluginState(l: Name, inst: nat, s: Fsm)
      modifies this`plugins
      ensures View() == K.SetPlugin(old(View()), l, inst, s)
    {
      if l in plugins && plugins[l].instance == inst {
        plugins := plugins[l := plugins[l].(state := s)];
      }
    }

    method Dispose(inst: nat)
      modifies this`plugins, this`claims, contexts
      ensures View() == K.Dispose(old(View()), inst)
    {
      hide SetState;
      if inst !in contexts.byInstance { return; }
      var rec := contexts.byInstance[inst];
      if rec.state == Disposed || rec.state == Failed || rec.state == CleanupPending { return; }
      if ClaimDispose(contexts.View(), inst).1 == Fresh { ClaimedRecord(contexts.View(), inst); }
      var claim := contexts.Claim(inst);
      if claim != Fresh { return; }
      claims := claims + [inst];
      SetPluginState(rec.logical, inst, Quiescing);
      if inst in busy {
        contexts.Mark(inst, CleanupPending, Some(busy[inst]));
        SetPluginState(rec.logical, inst, CleanupPending);
      } else {
        contexts.Mark(inst, Disposed, None);
        SetPluginState(rec.logical, inst, Disposed);
      }
    }

    method CreateWaitingInstance(l: Name, reason: string)
      modifies this`plugins, contexts
      ensures View() == K.CreateWaiting(old(View()), l, reason)
    {
      var ctx := contexts.Create(l, Waiting, Some(reason));
      plugins := plugins[l := K.Plugin(Waiting, ctx.instance, ctx.generation, [], Some(reason))];
    }

    method CurrentOf(l: Name) returns (r: Option<Record>)
      ensures r == Current(contexts.View(), l)
    {
      if l in contexts.current && contexts.current[l] in contexts.byInstance {
        return Some(contexts.byInstance[contexts.current[l]]);
      }
      return None;
    }

    method EnsureWaiting(l: Name, reason: string) returns (changed: bool)
      modifies this`plugins, contexts
      ensures (View(), changed) == K.EnsureWaiting(old(View()), l, reason)
    {
      if l !in definitions { return false; }
      var cur := CurrentOf(l);
      match cur
      case None =>
        CreateWaitingInstance(l, reason);
        return true;
      case Some(st) =>
        if Pending(st.state) {
          if st.cause == Some(reason) {
            changed := !(l in plugins && plugins[l].state == Waiting && plugins[l].waitCause == Some(reason));
            if changed {
              plugins := plugins[l := K.Plugin(Waiting, st.instance, st.generation, [], Some(reason))];
            }
            return;
          }
          var _ := contexts.Await(st.instance, reason);
          if l in plugins {
            plugins := plugins[l := plugins[l].(state := Waiting, waitCause := Some(reason))];
          }
          return true;
        } else if st.state == Disposed {
          CreateWaitingInstance(l, reason);
          return true;
        }
        return false;
    }

    method WithdrawToWaiting(l: Name, reason: string) returns (changed: bool)
      modifies this`plugins, this`claims, contexts
      ensures (View(), changed) == K.Withdraw(old(View()), l, reason)
    {
      if l !in definitions { return false; }
      var cur := CurrentOf(l);
      if cur.None? {
        CreateWaitingInstance(l, reason);
        return true;
      }
      match cur.value.state {
        case Active =>
          Dispose(cur.value.instance);
          CreateWaitingInstance(l, reason);
          return true;
        case Preparing =>
          Dispose(cur.value.instance);
          CreateWaitingInstance(l, reason);
          return true;
        case Registered =>
          Dispose(cur.value.instance);
          CreateWaitingInstance(l, reason);
          return true;
        case Waiting =>
          changed := EnsureWaiting(l, reason);
        case Disposed =>
          CreateWaitingInstance(l, reason);
          return true;
        case _ => return false;
      }
    }

    method PromoteWaiting(l: Name) returns (changed: bool)
      modifies this`plugins, contexts
      ensures (View(), changed) == K.Promote(old(View()), l)
    {
      var cur := CurrentOf(l);
      if cur.None? || !Pending(cur.value.state) { return false; }
      var st := cur.value;
      var fresh_ := CurrentAll(contexts.View());
      var resolved := ResolveFor(definitions, fresh_, l);
      match resolved
      case Err(e) =>
        var _ := EnsureWaiting(l, Render(e));
        return false;
      case Ok(bs) =>
        if l !in plugins || plugins[l].instance != st.instance { return false; }
        plugins := plugins[l := plugins[l].(state := Active, bindings := bs, waitCause := None)];
        changed := contexts.Activate(st.instance);
    }

    method CreateActive(l: Name, bs: seq<Binding>)
      modifies this`plugins, contexts
      ensures View() == K.CreateActive(old(View()), l, bs)
    {
      var ctx := contexts.Create(l, Active, None);
      plugins := plugins[l := K.Plugin(Active, ctx.instance, ctx.generation, bs, None)];
    }

    method WithdrawIfUnsound(l: Name, states: map<Name, Record>) returns (changed: bool)
      modifies this`plugins, this`claims, contexts
      ensures (View(), changed) == K.WithdrawOne(old(View()), states, l)
    {
      if l !in definitions || l !in states || states[l].state != Active { return false; }
      var stale := BindingsStale(if l in plugins then plugins[l].bindings else [], states);
      var resolved := ResolveFor(definitions, states, l);
      if resolved.Err? || stale {
        var reason := match resolved case Err(e) => Render(e) case Ok(_) => K.REBIND;
        changed := WithdrawToWaiting(l, reason);
      } else {
        return false;
      }
    }

    method ActivateIfPossible(l: Name, states: map<Name, Record>) returns (changed: bool)
      modifies this`plugins, this`claims, contexts
      ensures (View(), changed) == K.ActivateOne(old(View()), states, l)
    {
      hide Resolve, Render, Stale, K.Withdraw, K.EnsureWaiting, K.Promote;
      if l !in definitions { return false; }
      if l in states {
        match states[l].state {
          case Active =>
            var stale := BindingsStale(if l in plugins then plugins[l].bindings else [], states);
            if stale { changed := WithdrawToWaiting(l, K.REBIND); } else { changed := false; }
            return;
          case Failed => return false;
          case CleanupPending => return false;
          case Quiescing => return false;
          case _ =>
        }
      }
      var resolved := ResolveFor(definitions, states, l);
      match resolved
      case Ok(bs) =>
        if l in states && Pending(states[l].state) {
          changed := PromoteWaiting(l);
        } else {
          CreateActive(l, bs);
          return true;
        }
      case Err(e) =>
        changed := EnsureWaiting(l, Render(e));
    }

    method WithdrawPhase(order: seq<Name>, states: map<Name, Record>) returns (withdrew: bool)
      modifies this`plugins, this`claims, contexts
      ensures (View(), withdrew) == K.WithdrawAll(old(View()), states, order, |order|)
    {
      withdrew := false;
      var i := |order|;
      while i > 0
        invariant 0 <= i <= |order|
        invariant K.WithdrawAll(old(View()), states, order, |order|) ==
          var (k, c) := K.WithdrawAll(View(), states, order, i); (k, withdrew || c)
      {
        i := i - 1;
        var c := WithdrawIfUnsound(order[i], states);
        withdrew := withdrew || c;
      }
    }

    method ActivatePhase(order: seq<Name>, states: map<Name, Record>) returns (changed: bool)
      modifies this`plugins, this`claims, contexts
      ensures (View(), changed) == K.ActivateFrom(old(View()), states, order, 0)
    {
      for i := 0 to |order|
        invariant K.ActivateFrom(old(View()), states, order, 0) == K.ActivateFrom(View(), states, order, i)
      {
        changed := ActivateIfPossible(order[i], states);
        if changed { return; }
      }
      return false;
    }

    method CyclePhase(path: seq<Name>) returns (changed: bool)
      modifies this`plugins, this`claims, contexts
      ensures (View(), changed) == K.CyclePass(old(View()), Ordered(Elems(path)), CycleReason(path))
      ensures Coherent(old(View())) ==>
        && AllWait(old(View()), View(), Elems(path), "cycle: " + Join(path, " -> "))
        && RecordsKept(old(View()), View(), Elems(path))
        && (changed <==> View() != old(View()))
    {
      hide AllWait, RecordsKept, Coherent;
      if Coherent(View()) { CycleMembersWait(View(), path); }
      var members := SortedKeys(Elems(path));
      SortedIsOrdered(members);
      changed := false;
      for i := 0 to |members|
        invariant K.CyclePass(old(View()), members, CycleReason(path)) ==
          var (k, c) := K.CyclePass(View(), members[i..], CycleReason(path)); (k, changed || c)
      {
        assert members[i..][0] == members[i] && members[i..][1..] == members[i + 1..];
        var c := WithdrawToWaiting(members[i], CycleReason(path));
        changed := changed || c;
      }
    }

    /** One pass, over the order or the cycle it found. */
    method ReconcileStep() returns (changed: bool, ghost op: Op)
      modifies this`plugins, this`claims, contexts
      ensures Enabled(old(View()), op) && View() == Apply(old(View()), op)
      ensures Acyclic(EdgesOf(definitions)) <==> op.AcyclicPass?
      ensures op.AcyclicPass? ==> (View(), changed) == K.OrderedPass(old(View()), op.order)
      ensures op.AcyclicPass? || op.CyclicPass?
      ensures Coherent(old(View())) && op.CyclicPass? ==>
        && AllWait(old(View()), View(), Elems(op.path), "cycle: " + Join(op.path, " -> "))
        && RecordsKept(old(View()), View(), Elems(op.path))
        && (changed <==> View() != old(View()))
    {
      hide AllWait, RecordsKept, Coherent, K.CyclePass, K.WithdrawAll, K.ActivateFrom, EdgesOf, Join, IsTopological;
      if definitions == map[] {
        EmptyIsOrdered(View());
        return false, AcyclicPass([]);
      }
      var edges := GraphEdges(definitions);
      var cycle := FindCycle(edges);
      if cycle.Some? {
        changed := CyclePhase(cycle.value);
        op := CyclicPass(cycle.value);
        return;
      }
      var topo := TopoOrder(edges);
      var order := topo.value;
      op := AcyclicPass(order);
      var withdrew := WithdrawPhase(order, CurrentAll(contexts.View()));
      if withdrew { return true, op; }
      changed := ActivatePhase(order, CurrentAll(contexts.View()));
    }

    /** Runs passes until one changes nothing, within the fixed budget. On an
        acyclic definition set the budget always suffices. */
    method Reconcile()
      requires Coherent(View())
      modifies this`plugins, this`claims, contexts
      ensures Coherent(View()) && Later(old(View()).table, View().table)
      ensures Acyclic(EdgesOf(definitions)) ==> Converged(View()) && StuckSet(View()) == StuckSet(old(View()))
      ensures !Acyclic(EdgesOf(definitions)) ==>
        Deferred(old(View()), View()) && exists path :: CycleShown(old(View()), View(), path)
    {
      hide Coherent, Later, Measure, StuckSet, EdgesOf, Acyclic, Apply, Enabled, K.OrderedPass, Converged, Deferred,
        CycleShown, AllWait, RecordsKept;
      var max := |definitions| * 2 + 4;
      ghost var k0 := View();
      ProgressStarts(k0);
      for pass := 0 to max
        invariant Progress(k0, View(), pass)
      {
        ghost var before := View();
        var changed, op := ReconcileStep();
        ProgressStep(k0, before, View(), pass, op, changed);
        if !changed { break; }
      }
      MeasureBounds(View());
    }

    method LoadManifest(l: Name, def: Definition)
      requires Coherent(View())
      modifies this, contexts
      ensures Coherent(View()) && Later(old(View()).table, View().table)
      ensures definitions == old(definitions)[l := def]
      ensures Acyclic(EdgesOf(definitions)) ==> Converged(View())
      ensures Reloaded(old(View()), View(), l)
    {
      hide Coherent, Later, Converged, StuckSet, EdgesOf, Acyclic, Reloaded, Deferred, CycleShown;
      ghost var k0 := View();
      definitions := definitions[l := def];
      var cur := CurrentOf(l);
      if cur.Some? && cur.value.state != Disposed && cur.value.state != Failed && cur.value.state != CleanupPending {
        Dispose(cur.value.instance);
      }
      cur := CurrentOf(l);
      if cur.Some? && cur.value.state == CleanupPending {
        CreateWaitingInstance(l, "reload: awaiting activation");
      }
      assert View() == K.Load(k0, l, def);
      LoadOk(k0, l, def);
      ghost var k1 := View();
      Reconcile();
      ReloadedIs(k0, View(), l, def);
      LaterTransitive(k0.table, k1.table, View().table);
    }

    method DisposePlugin(l: Name)
      requires Coherent(View())
      modifies this, contexts
      ensures Coherent(View()) && Later(old(View()).table, View().table)
      ensures definitions == old(definitions) - {l}
      ensures Acyclic(EdgesOf(definitions)) ==> Converged(View())
    {
      hide Coherent, Later, Converged, StuckSet, EdgesOf, Acyclic;
      ghost var k0 := View();
      definitions := definitions - {l};
      var cur := CurrentOf(l);
      if cur.Some? { Dispose(cur.value.instance); }
      assert View() == K.Remove(k0, l);
      RemoveOk(k0, l);
      ghost var k1 := View();
      Reconcile();
      LaterTransitive(k0.table, k1.table, View().table);
    }
  }
}

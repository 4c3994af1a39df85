/** The registry, the bus and the kernel operations on resources as the objects
    that are updated in place. */
module HoldingsObject {
  import opened Names
  import opened Contexts
  import opened Resources
  import opened Holdings

  class Registry {
    var entries: map<string, Entry>

    constructor ()
      ensures entries == map[]
    {
      entries := map[];
    }

    /** The latest provider of a capability replaces the one before. */
    method ProvideInstance(name: string, r: Record)
      modifies this
      ensures entries == old(entries)[name := Entry(r.logical, r.instance, r.generation)]
    {
      entries := entries[name := Entry(r.logical, r.instance, r.generation)];
    }

    method RevokeCapIfOwned(name: string, inst: nat) returns (revoked: bool)
      modifies this
      ensures revoked <==>
        name in old(entries) && (old(entries)[name].instance == inst || old(entries)[name].instance == 0)
      ensures entries == if revoked then old(entries) - {name} else old(entries)
    {
      revoked := name in entries && (entries[name].instance == inst || entries[name].instance == 0);
      if revoked {
        entries := entries - {name};
      }
    }
  }

  class Bus {
    var subs: map<string, seq<Subscriber>>

    constructor ()
      ensures subs == map[]
    {
      subs := map[];
    }

    method SubscribeInstance(logical: Name, inst: nat, topic: string)
      modifies this
      ensures topic in subs && subs.Keys == old(subs).Keys + {topic}
      ensures var was := if topic in old(subs) then old(subs)[topic] else [];
        var s := Subscriber(logical, inst);
        subs == old(subs)[topic := if s in was then was else was + [s]]
    {
      var v := if topic in subs then subs[topic] else [];
      var s := Subscriber(logical, inst);
      if s !in v {
        v := v + [s];
      }
      subs := subs[topic := v];
    }

    method UnsubscribeTopicIfOwned(inst: nat, topic: string) returns (removed: bool)
      modifies this
      ensures subs == if topic in old(subs) then old(subs)[topic := Unowned(old(subs)[topic], inst)] else old(subs)
      ensures removed <==> topic in subs && |subs[topic]| != |old(subs)[topic]|
    {
      removed := false;
      if topic in subs {
        var before := |subs[topic]|;
        subs := subs[topic := Unowned(subs[topic], inst)];
        removed := |subs[topic]| != before;
      }
    }
  }

  class Holder {
    const contexts: ContextTable
    const resources: ResourceTable
    const caps: Registry
    const bus: Bus

    ghost function View(): World
      reads contexts, resources, caps, bus
    {
      World(contexts.View(), resources.View(), caps.entries, bus.subs)
    }

    constructor ()
      ensures View() == EMPTY_WORLD && Inv(View())
      ensures fresh(contexts) && fresh(resources) && fresh(caps) && fresh(bus)
    {
      contexts := new ContextTable();
      resources := new ResourceTable();
      caps := new Registry();
      bus := new Bus();
      new;
      EmptyOk();
    }

    method PublishKind(r: Record, k: Kind)
      modifies caps, bus
      ensures View() == Publish(old(View()), r, k)
    {
      match k {
        case Cap(name) => caps.ProvideInstance(name, r);
        case Sub(topic) => bus.SubscribeInstance(r.logical, r.instance, topic);
        case _ =>
      }
    }

    method UnpublishKind(inst: nat, k: Kind)
      modifies caps, bus
      ensures View() == Unpublish(old(View()), inst, k)
    {
      match k {
        case Cap(name) => var _ := caps.RevokeCapIfOwned(name, inst);
        case Sub(topic) => var _ := bus.UnsubscribeTopicIfOwned(inst, topic);
        case _ =>
      }
    }

    method ReleaseOne(inst: nat, h: nat) returns (r: Release)
      modifies resources, caps, bus
      ensures (View(), r) == ReleaseHandle(old(View()), inst, h)
    {
      r := resources.BeginRelease(h);
      if r.Claimed? {
        UnpublishKind(inst, r.kind);
      }
    }

    /** Releases an owner's resources, newest first; refusals are reported. */
    method ReleaseContextResources(ctx: nat, inst: nat) returns (failures: seq<string>)
      modifies resources, caps, bus
      ensures var handles := Handles(old(View()).store, ctx);
        (View(), failures) == ReleaseFrom(old(View()), ctx, inst, handles, |handles|)
    {
      hide ReleaseHandle;
      var handles := if ctx in resources.owners then resources.owners[ctx] else [];
      failures := [];
      var i := |handles|;
      ghost var start := View();
      ghost var all := ReleaseFrom(start, ctx, inst, handles, |handles|);
      assert [] + all.1 == all.1;
      while i > 0
        invariant 0 <= i <= |handles|
        invariant all.0 == ReleaseFrom(View(), ctx, inst, handles, i).0
        invariant all.1 == failures + ReleaseFrom(View(), ctx, inst, handles, i).1
      {
        var h := handles[i - 1];
        i := i - 1;
        if h in resources.records && !resources.records[h].released && resources.records[h].context == ctx {
          ghost var done := failures;
          var r := ReleaseOne(inst, h);
          if r.Refused? {
            failures := failures + [Reason(r.tag)];
          }
          AppendRefusal(done, r, ReleaseFrom(View(), ctx, inst, handles, i).1);
        }
      }
      assert failures + [] == failures;
    }

    /** Withdraws an owner's publications; its ownership records stay. */
    method RevokePublications(ctx: nat, inst: nat)
      modifies caps, bus
      ensures View() == RevokeFrom(old(View()), ctx, inst, Handles(old(View()).store, ctx), 0)
    {
      hide Unpublish;
      var handles := if ctx in resources.owners then resources.owners[ctx] else [];
      ghost var all := RevokeFrom(View(), ctx, inst, handles, 0);
      for i := 0 to |handles|
        invariant all == RevokeFrom(View(), ctx, inst, handles, i)
        invariant View().store == old(View()).store && View().table == old(View()).table
      {
        var h := handles[i];
        if h in resources.records && resources.records[h].context == ctx {
          UnpublishSame(View(), inst, resources.records[h].kind);
          UnpublishKind(inst, resources.records[h].kind);
        }
      }
    }

    method SettleInstance(inst: nat)
      requires inst in contexts.byInstance
      modifies contexts, resources, caps, bus
      ensures View() == Settle(old(View()), inst)
    {
      hide ReleaseFrom;
      var failures := ReleaseContextResources(contexts.byInstance[inst].context, inst);
      if failures == [] {
        contexts.Mark(inst, Disposed, None);
      } else {
        contexts.Mark(inst, CleanupPending, Some(Join(failures)));
      }
    }

    /** `busy` is the reason shown when calls are still in flight. */
    method DisposeInstance(inst: nat, busy: Option<string>)
      requires Inv(View())
      modifies contexts, resources, caps, bus
      ensures View() == Dispose(old(View()), inst, busy)
      ensures Inv(View()) && KeepsOthers(old(View()), View(), inst)
    {
      hide Inv, KeepsOthers, RevokeFrom, Settle;
      DisposeOk(View(), inst, busy);
      DisposeKeepsOthers(View(), inst, busy);
      var claim := contexts.Claim(inst);
      if claim == Fresh {
        var ctx := contexts.byInstance[inst].context;
        RevokePublications(ctx, inst);
        if busy.Some? {
          contexts.Mark(inst, CleanupPending, busy);
        } else {
          SettleInstance(inst);
        }
      }
    }

    method MaybeFinalize(inst: nat, inFlight: bool)
      requires Inv(View())
      modifies contexts, resources, caps, bus
      ensures View() == Finalize(old(View()), inst, inFlight) && Inv(View())
    {
      hide Inv, Settle;
      FinalizeOk(View(), inst, inFlight);
      if inst in contexts.byInstance && contexts.byInstance[inst].state == CleanupPending && !inFlight {
        SettleInstance(inst);
      }
    }

    method ObtainFor(r: Record, k: Kind, spawned: bool) returns (h: Option<nat>)
      modifies resources, caps, bus
      ensures (View(), h) == Obtain(old(View()), r, k, spawned)
    {
      h := resources.Register(r.context, r.instance, k, spawned);
      if h.Some? {
        PublishKind(r, k);
      }
    }

    /** `still` tells whether the revalidation after publishing finds the activation
        current and Active. */
    method AcquireResource(l: Name, k: Kind, spawned: bool, still: bool) returns (h: Option<nat>)
      requires Inv(View())
      modifies resources, caps, bus
      ensures (View(), h) == Acquire(old(View()), l, k, spawned, still) && Inv(View())
    {
      hide Inv, Obtain;
      AcquireOk(View(), l, k, spawned, still);
      if l !in contexts.current || contexts.current[l] !in contexts.byInstance {
        return None;
      }
      var r := contexts.byInstance[contexts.current[l]];
      if r.state != Active {
        return None;
      }
      h := ObtainFor(r, k, spawned);
      if h.Some? && !still {
        UnpublishKind(r.instance, k);
        resources.RollbackRegister(h.value);
        return None;
      }
    }

    method ReleaseResource(h: nat, pinned: bool)
      requires Inv(View())
      modifies resources, caps, bus
      ensures View() == Holdings.Release(old(View()), h, pinned) && Inv(View())
    {
      hide Inv, ReleaseHandle;
      ReleaseOk(View(), h, pinned);
      if h in resources.records && (resources.records[h].released || !pinned) {
        var _ := ReleaseOne(resources.records[h].instance, h);
      }
    }

    /** All items or none; the first that fails releases the earlier ones, newest first. */
    method AcquireBatch(l: Name, asks: seq<Ask>) returns (got: Option<seq<nat>>)
      requires Inv(View())
      modifies resources, caps, bus
      ensures (View(), got) == Batch(old(View()), l, asks, 0, []) && Inv(View())
    {
      hide Inv, Acquire, ReleaseBatch;
      BatchOk(View(), l, asks, 0, []);
      var acquired: seq<nat> := [];
      for i := 0 to |asks|
        invariant Inv(View())
        invariant Batch(View(), l, asks, i, acquired) == Batch(old(View()), l, asks, 0, [])
      {
        var h := AcquireResource(l, asks[i].kind, asks[i].spawned, true);
        if h.None? {
          ReleaseAll(acquired);
          return None;
        }
        acquired := acquired + [h.value];
      }
      return Some(acquired);
    }

    method ReleaseAll(acquired: seq<nat>)
      requires Inv(View())
      modifies resources, caps, bus
      ensures View() == ReleaseBatch(old(View()), acquired) && Inv(View())
    {
      hide Inv, Holdings.Release;
      var i := |acquired|;
      assert acquired[..i] == acquired;
      while i > 0
        invariant 0 <= i <= |acquired| && Inv(View())
        invariant ReleaseBatch(View(), acquired[..i]) == ReleaseBatch(old(View()), acquired)
      {
        i := i - 1;
        assert acquired[..i + 1][..i] == acquired[..i];
        ReleaseResource(acquired[i], false);
      }
    }

    method Rollback(inst: nat, acquired: seq<nat>)
      modifies resources, caps, bus
      ensures View() == RollbackAcquired(old(View()), inst, acquired)
    {
      hide ReleaseHandle;
      var i := |acquired|;
      assert acquired[..i] == acquired;
      while i > 0
        invariant 0 <= i <= |acquired|
        invariant RollbackAcquired(View(), inst, acquired[..i]) == RollbackAcquired(old(View()), inst, acquired)
      {
        i := i - 1;
        assert acquired[..i + 1][..i] == acquired[..i];
        var _ := ReleaseOne(inst, acquired[i]);
      }
    }

    /** A definition's resources, all or nothing. */
    method AcquireDefinition(r: Record, kinds: seq<Kind>) returns (ok: bool)
      modifies resources, caps, bus
      ensures (View(), ok) == Provision(old(View()), r, kinds, 0, [])
    {
      hide Obtain, RollbackAcquired;
      var acquired := [];
      for i := 0 to |kinds|
        invariant Provision(View(), r, kinds, i, acquired) == Provision(old(View()), r, kinds, 0, [])
      {
        var h := ObtainFor(r, kinds[i], true);
        if h.None? {
          Rollback(r.instance, acquired);
          return false;
        }
        acquired := acquired + [h.value];
      }
      return true;
    }
  }

  lemma AppendRefusal(done: seq<string>, r: Release, rest: seq<string>)
    ensures done + ((if r.Refused? then [Reason(r.tag)] else []) + rest)
         == (if r.Refused? then done + [Reason(r.tag)] else done) + rest
  {}
}

/** The three views of a withdrawal agree: the lifecycle model's single transition,
    the releases it makes, and the release step of the interleaved machine. */
module Agreement {
  import opened Names
  import opened Contexts
  import opened Resources
  import K = Kernel
  import H = Holdings
  import T = Tickets

  /** The lifecycle state that expects the outcome `u` for `inst`: busy with the cause
      shown if the activation was parked, free otherwise. */
  function Expecting(k: K.State, u: H.World, inst: nat): K.State {
    if inst in u.table.byInstance && u.table.byInstance[inst].state == CleanupPending
       && u.table.byInstance[inst].cause.Some?
    then k.(busy := k.busy[inst := u.table.byInstance[inst].cause.value])
    else k.(busy := k.busy - {inst})
  }

  lemma LifecycleTable(k: K.State, inst: nat)
    ensures var (t, claim) := ClaimDispose(k.table, inst);
      K.Dispose(k, inst).table ==
        if claim != Fresh then k.table
        else if inst in k.busy then SetState(t, inst, CleanupPending, Some(k.busy[inst]))
        else SetState(t, inst, Disposed, None)
  {
    hide SetState;
  }

  lemma HoldingsTable(w: H.World, inst: nat, busy: Option<string>) returns (s: Fsm, cause: Option<string>)
    requires ClaimDispose(w.table, inst).1 == Fresh
    ensures H.Dispose(w, inst, busy).table == SetState(ClaimDispose(w.table, inst).0, inst, s, cause)
    ensures (s == Disposed && cause.None?) || (s == CleanupPending && cause.Some?)
  {
    hide H.RevokeFrom, H.ReleaseFrom, SetState;
    var t := ClaimDispose(w.table, inst).0;
    if busy.Some? {
      s, cause := CleanupPending, busy;
    } else {
      var ctx := w.table.byInstance[inst].context;
      var w1 := H.RevokeFrom(w.(table := t), ctx, inst, Handles(w.store, ctx), 0).(table := t);
      ClaimedRecord(w.table, inst);
      assert H.Dispose(w, inst, busy) == H.Settle(w1, inst);
      var handles := Handles(w1.store, t.byInstance[inst].context);
      var failures := H.ReleaseFrom(w1, t.byInstance[inst].context, inst, handles, |handles|).1;
      if failures == [] { s, cause := Disposed, None; } else { s, cause := CleanupPending, Some(H.Join(failures)); }
    }
  }

  /** A dispose with all its releases moves the context table as the lifecycle model's
      dispose does. */
  lemma DisposeAgrees(k: K.State, w: H.World, inst: nat, busy: Option<string>)
    requires k.table == w.table
    ensures var u := H.Dispose(w, inst, busy);
      K.Dispose(Expecting(k, u, inst), inst).table == u.table
  {
    hide K.Dispose, H.Settle, H.RevokeFrom;
    var u := H.Dispose(w, inst, busy);
    LifecycleTable(Expecting(k, u, inst), inst);
    if ClaimDispose(w.table, inst).1 == Fresh {
      hide H.Dispose;
      var s, cause := HoldingsTable(w, inst, busy);
      ClaimedRecord(w.table, inst);
    }
  }

  /** A finalize that settles moves the table as the lifecycle model's does; one that
      cannot changes at most the cause shown. */
  lemma FinalizeAgrees(k: K.State, w: H.World, inst: nat, inFlight: bool)
    requires k.table == w.table && inst in w.table.byInstance && w.table.byInstance[inst].state == CleanupPending
    ensures var u := H.Finalize(w, inst, inFlight);
      var settled := u.table.byInstance[inst].state == Disposed;
      && (settled ==> K.Finalize(Expecting(k, u, inst), inst).table == u.table)
      && (!settled ==> u.table == SetState(w.table, inst, CleanupPending, u.table.byInstance[inst].cause))
  {
    hide H.ReleaseFrom;
    assert w.table.byInstance[inst := w.table.byInstance[inst]] == w.table.byInstance;
  }

  // ---- releasing ----

  function Refusing(s: Store): set<nat> {
    set h | h in s.records && s.records[h].kind.FailRelease?
  }

  /** One release claims exactly a held resource that does not refuse. */
  lemma ReleaseExactly(w: H.World, inst: nat, h: nat, x: nat)
    requires h in w.store.records && !w.store.records[h].released && x in w.store.records
    ensures var (u, r) := H.ReleaseHandle(w, inst, h);
      && x in u.store.records && u.store.records[x].kind == w.store.records[x].kind
      && u.store.records[x].context == w.store.records[x].context
      && (u.store.records[x].released <==> w.store.records[x].released || (x == h && h !in Refusing(w.store)))
      && (r.Refused? <==> h in Refusing(w.store))
      && u.store.records.Keys == w.store.records.Keys
  {}

  /** What the reverse loop leaves: exactly the refusing resources stay held, and each is
      reported. */
  lemma {:induction false} ReleasedExactly(w: H.World, ctx: nat, inst: nat, handles: seq<nat>, i: nat)
    requires i <= |handles|
    ensures var (u, failures) := H.ReleaseFrom(w, ctx, inst, handles, i);
      && u.store.records.Keys == w.store.records.Keys
      && (forall x :: x in w.store.records ==>
            && u.store.records[x].kind == w.store.records[x].kind
            && u.store.records[x].context == w.store.records[x].context
            && (u.store.records[x].released <==>
                  w.store.records[x].released
                  || (x in handles[..i] && Held(w.store, x, ctx) && x !in Refusing(w.store))))
      && (failures == [] <==>
            forall x :: x in handles[..i] && Held(w.store, x, ctx) && !w.store.records[x].released ==>
              x !in Refusing(w.store))
    decreases i
  {
    hide H.ReleaseHandle;
    if i > 0 {
      var h := handles[i - 1];
      assert handles[..i] == handles[..i - 1] + [h];
      if Held(w.store, h, ctx) && !w.store.records[h].released {
        var (w1, r) := H.ReleaseHandle(w, inst, h);
        forall x | x in w.store.records
          ensures x in w1.store.records && w1.store.records[x].kind == w.store.records[x].kind
          ensures w1.store.records[x].context == w.store.records[x].context
          ensures w1.store.records[x].released <==> w.store.records[x].released || (x == h && h !in Refusing(w.store))
        {
          ReleaseExactly(w, inst, h, x);
        }
        ReleaseExactly(w, inst, h, h);
        assert Refusing(w1.store) == Refusing(w.store);
        ReleasedExactly(w1, ctx, inst, handles, i - 1);
      } else {
        ReleasedExactly(w, ctx, inst, handles, i - 1);
      }
    }
  }

  /** Settling an activation leaves held what the interleaved machine's release leaves,
      and is Disposed exactly when that is. */
  lemma SettleAgrees(s: T.State, w: H.World, inst: nat)
    requires H.Inv(w) && inst in w.table.byInstance
    requires s.held == ActiveIn(w.store, w.table.byInstance[inst].context) && s.refusing == Refusing(w.store)
    ensures var u := H.Settle(w, inst);
      && ActiveIn(u.store, w.table.byInstance[inst].context) == T.ReleaseAll(s).held
      && (u.table.byInstance[inst].state == Disposed <==> T.ReleaseAll(s).phase == T.Disposed)
  {
    hide H.Inv, H.ReleaseFrom;
    var ctx := w.table.byInstance[inst].context;
    var handles := Handles(w.store, ctx);
    var (u, failures) := H.ReleaseFrom(w, ctx, inst, handles, |handles|);
    ReleasedExactly(w, ctx, inst, handles, |handles|);
    assert handles[..|handles|] == handles;
    InvStore(w);
    OwnerListed(w.store, ctx);
    assert ActiveIn(u.store, ctx) == s.held * s.refusing by {
      forall x ensures x in ActiveIn(u.store, ctx) <==> x in s.held * s.refusing {
        assert x in u.store.records.Keys <==> x in w.store.records.Keys;
        assert x in handles <==> Held(w.store, x, ctx);
      }
    }
    assert failures == [] <==> s.held * s.refusing == {} by {
      if failures != [] {
        var x :| x in handles && Held(w.store, x, ctx) && !w.store.records[x].released && x in Refusing(w.store);
        assert x in s.held * s.refusing;
      }
      forall x | x in s.held * s.refusing ensures failures != [] { assert x in handles <==> Held(w.store, x, ctx); }
    }
  }

  // ---- a dispose nobody interrupts ----

  /** The steps of an uninterrupted dispose, from claim to end. */
  lemma StraightDispose(s: T.State) returns (ss: seq<T.State>, steps: seq<T.Step>)
    requires s.phase == T.Active && s.disposer == T.Idle
    ensures T.Path(ss, steps) && ss[0] == s && ss[|steps|].disposer == T.Done
    ensures s.tickets != map[] ==> ss[|steps|].phase == T.CleanupPending && ss[|steps|].held == s.held
    ensures s.tickets == map[] ==>
      ss[|steps|].phase == T.ReleaseAll(s).phase && ss[|steps|].held == T.ReleaseAll(s).held
  {
    var a := T.Next(s, T.Claim);
    ss, steps := [s, a], [T.Claim];
    assert T.Path(ss, steps);
    hide T.Path;
    var mid, todo := T.SweepPath(a);
    var b := mid[|todo|];
    T.PathJoins(ss, steps, mid, todo);
    ss, steps := ss + mid[1..], steps + todo;
    T.NoTickets(s);
    T.NoTickets(b);
    var last, rest := T.FinishPath(b);
    T.PathJoins(ss, steps, last, rest);
    ss, steps := ss + last[1..], steps + rest;
  }

  lemma RevokedWorld(w: H.World, inst: nat)
    requires H.Inv(w) && ClaimDispose(w.table, inst).1 == Fresh
    ensures inst in w.table.byInstance
    ensures var t := ClaimDispose(w.table, inst).0;
      var ctx := w.table.byInstance[inst].context;
      var u := H.RevokeFrom(w.(table := t), ctx, inst, Handles(w.store, ctx), 0);
      H.Inv(u) && u.table == t && u.store == w.store && inst in t.byInstance && t.byInstance[inst].context == ctx
  {
    hide H.Inv, H.RevokeFrom;
    H.MarkOk(w, inst, Quiescing, None);
    var w1 := w.(table := ClaimDispose(w.table, inst).0);
    H.AnyNumber(w1, inst);
    var ctx := w.table.byInstance[inst].context;
    H.RevokeFromOk(w1, ctx, inst, Handles(w.store, ctx), 0);
  }

  /** A whole dispose with its releases ends in the phase, and holding what, the
      uninterrupted path of the interleaved machine ends with. */
  lemma DisposeFitsPath(s: T.State, w: H.World, inst: nat, busy: Option<string>)
      returns (ss: seq<T.State>, steps: seq<T.Step>)
    requires H.Inv(w) && ClaimDispose(w.table, inst).1 == Fresh && inst in w.table.byInstance
    requires s.phase == T.Active && s.disposer == T.Idle && (busy.Some? <==> s.tickets != map[])
    requires s.held == ActiveIn(w.store, w.table.byInstance[inst].context) && s.refusing == Refusing(w.store)
    ensures T.Path(ss, steps) && ss[0] == s && ss[|steps|].disposer == T.Done
    ensures var u := H.Dispose(w, inst, busy);
      && inst in u.table.byInstance
      && ActiveIn(u.store, w.table.byInstance[inst].context) == ss[|steps|].held
      && (u.table.byInstance[inst].state == Disposed <==> ss[|steps|].phase == T.Disposed)
      && (u.table.byInstance[inst].state == CleanupPending <==> ss[|steps|].phase == T.CleanupPending)
  {
    ss, steps := StraightDispose(s);
    hide T.Path, H.Inv, H.RevokeFrom, H.Settle;
    RevokedWorld(w, inst);
    var t := ClaimDispose(w.table, inst).0;
    var ctx := w.table.byInstance[inst].context;
    var w1 := H.RevokeFrom(w.(table := t), ctx, inst, Handles(w.store, ctx), 0);
    assert w1.(table := t) == w1;
    if busy.None? {
      SettleAgrees(s, w1, inst);
      SettledState(w1, inst);
    }
  }

  lemma SettledState(w: H.World, inst: nat)
    requires inst in w.table.byInstance
    ensures var u := H.Settle(w, inst);
      inst in u.table.byInstance
      && (u.table.byInstance[inst].state == Disposed || u.table.byInstance[inst].state == CleanupPending)
  {
    hide H.ReleaseFrom;
  }

  lemma InvStore(w: H.World)
    requires H.Inv(w)
    ensures StoreOk(w.store)
  {}
}

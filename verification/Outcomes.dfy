/** What each operation on resources comes to, in terms of the records, the
    publications and the activation's state alone. */
module Outcomes {
  import opened Names
  import opened Contexts
  import opened Resources
  import H = Holdings
  import A = Agreement

  // ---- acquiring and releasing one resource ----

  predicate Publishes(k: Kind) {
    k.Cap? || k.Sub?
  }

  lemma ObtainGives(w: H.World, r: Record, k: Kind, spawned: bool)
    requires StoreOk(w.store)
    ensures var (u, h) := H.Obtain(w, r, k, spawned);
      && (h.Some? <==> H.Registers(k, spawned))
      && (h.None? ==> u.store.records == w.store.records && u.caps == w.caps && u.subs == w.subs)
      && (h.Some? ==>
            && h.value == w.store.next && h.value !in w.store.records
            && u.store.records == w.store.records[h.value := Resource(k, r.context, r.instance, false)]
            && (Publishes(k) ==> H.Published(u, k, r.instance)))
  {
    RegisterFrame(w.store, r.context, r.instance, k, spawned);
    var (s, h) := RegisterIn(w.store, r.context, r.instance, k, spawned);
    if k.Sub? && h.Some? {
      var u := H.Obtain(w, r, k, spawned).0;
      assert H.Subscriber(r.logical, r.instance) in H.SubsOf(u, k.topic);
    }
  }

  /** An acquisition succeeds exactly when the activation is in service, the table takes
      the resource and the revalidation still finds the activation there: then there is
      one more record, held and published. Otherwise the records are as before. */
  lemma AcquireOutcome(w: H.World, l: Name, k: Kind, spawned: bool, still: bool)
    requires StoreOk(w.store)
    ensures var (u, h) := H.Acquire(w, l, k, spawned, still);
      && (h.Some? <==> H.InService(w.table, l) && H.Registers(k, spawned) && still)
      && u.table == w.table
      && (h.None? ==> u.store.records == w.store.records)
      && (h.Some? ==>
            var r := Contexts.Current(w.table, l).value;
            && h.value !in w.store.records
            && u.store.records == w.store.records[h.value := Resource(k, r.context, r.instance, false)]
            && (Publishes(k) ==> H.Published(u, k, r.instance)))
  {
    hide StoreOk, H.Registers, H.Published;
    if H.InService(w.table, l) {
      var r := Contexts.Current(w.table, l).value;
      ObtainGives(w, r, k, spawned);
      H.PublishSame(w, r, k);
      var (w1, h) := H.Obtain(w, r, k, spawned);
      TableKept(w, r, k, spawned);
      if h.Some? { UndoGives(w1, r.instance, k, h.value); }
    }
  }

  /** Whether it succeeds or is undone, an acquisition touches no publication but its own. */
  lemma AcquireElsewhere(w: H.World, l: Name, k: Kind, spawned: bool, still: bool, k2: Kind, i: nat)
    requires k2 != k && i != 0
    ensures H.Published(H.Acquire(w, l, k, spawned, still).0, k2, i) <==> H.Published(w, k2, i)
  {
    if H.InService(w.table, l) {
      var r := Contexts.Current(w.table, l).value;
      var (w1, h) := H.Obtain(w, r, k, spawned);
      assert H.Published(w1, k2, i) <==> H.Published(w, k2, i);
      H.UnpublishExactly(w1, r.instance, k, k2, i);
      if h.Some? {
        var u := H.Undo(w1, r.instance, k, h.value);
        assert H.Published(u, k2, i) <==> H.Published(H.Unpublish(w1, r.instance, k), k2, i);
      }
    }
  }

  lemma TableKept(w: H.World, r: Record, k: Kind, spawned: bool)
    ensures H.Obtain(w, r, k, spawned).0.table == w.table
  {}

  lemma UndoGives(w: H.World, inst: nat, k: Kind, h: nat)
    requires h in w.store.records && !w.store.records[h].released
    ensures H.Undo(w, inst, k, h).store.records == w.store.records - {h} && H.Undo(w, inst, k, h).table == w.table
  {}

  /** A release that is not pinned marks exactly that record, unless it refuses, and
      withdraws exactly that publication. */
  lemma ReleaseOutcome(w: H.World, h: nat, pinned: bool, k: Kind, i: nat)
    requires h in w.store.records && i != 0
    ensures var u, was := H.Release(w, h, pinned), w.store.records[h];
      var marked := !pinned && !was.released && !was.kind.FailRelease?;
      && u.table == w.table
      && u.store.records == (if marked then w.store.records[h := was.(released := true)] else w.store.records)
      && (H.Published(u, k, i) <==> H.Published(w, k, i) && !(marked && k == was.kind && i == was.instance))
  {
    var was := w.store.records[h];
    var w1 := w.(store := ReleaseIn(w.store, h).0);
    H.UnpublishExactly(w1, was.instance, was.kind, k, i);
    assert H.Published(w1, k, i) <==> H.Published(w, k, i);
    H.UnpublishSame(w1, was.instance, was.kind);
  }

  // ---- disposing ----

  /** Everything the owner holds and that does not refuse is released; nothing else is. */
  ghost predicate ReleasedAll(s: Store, t: Store, ctx: nat) {
    && t.records.Keys == s.records.Keys
    && forall x :: x in s.records ==>
         && t.records[x].kind == s.records[x].kind && t.records[x].context == s.records[x].context
         && (t.records[x].released <==>
               s.records[x].released || (s.records[x].context == ctx && !s.records[x].kind.FailRelease?))
  }

  /** Something the owner holds refuses its release. */
  ghost predicate Refuses(s: Store, ctx: nat) {
    exists x :: x in s.records && s.records[x].context == ctx && !s.records[x].released
                && s.records[x].kind.FailRelease?
  }

  lemma SettleOutcome(w: H.World, inst: nat)
    requires H.Inv(w) && inst in w.table.byInstance
    ensures var u, ctx := H.Settle(w, inst), w.table.byInstance[inst].context;
      && ReleasedAll(w.store, u.store, ctx)
      && inst in u.table.byInstance
      && u.table.byInstance[inst].state == if Refuses(w.store, ctx) then CleanupPending else Disposed
  {
    hide H.Inv, H.ReleaseFrom;
    var ctx := w.table.byInstance[inst].context;
    var handles := Handles(w.store, ctx);
    A.ReleasedExactly(w, ctx, inst, handles, |handles|);
    assert handles[..|handles|] == handles;
    A.InvStore(w);
    OwnerListed(w.store, ctx);
    var failures := H.ReleaseFrom(w, ctx, inst, handles, |handles|).1;
    if Refuses(w.store, ctx) {
      var x :| x in w.store.records && w.store.records[x].context == ctx && !w.store.records[x].released
               && w.store.records[x].kind.FailRelease?;
      assert x in handles && x in A.Refusing(w.store);
    }
    forall x | x in handles && Held(w.store, x, ctx) && !w.store.records[x].released && x in A.Refusing(w.store)
      ensures Refuses(w.store, ctx)
    {
      assert w.store.records[x].kind.FailRelease?;
    }
  }

  /** The one dispose that claims an activation withdraws all its publications. With
      calls in flight it parks the activation and releases nothing; otherwise it
      releases everything that does not refuse, and parks the activation exactly when
      something does. Every other dispose changes nothing. */
  lemma DisposeOutcome(w: H.World, inst: nat, busy: Option<string>)
    requires H.Inv(w) && inst in w.table.byInstance
    ensures var u, was := H.Dispose(w, inst, busy), w.table.byInstance[inst];
      if Withdrawn(was.state) then u == w
      else
        && inst in u.table.byInstance
        && (forall k :: !H.Published(u, k, inst))
        && (if busy.Some?
            then u.store == w.store && u.table.byInstance[inst].state == CleanupPending
                 && u.table.byInstance[inst].cause == busy
            else ReleasedAll(w.store, u.store, was.context)
                 && u.table.byInstance[inst].state ==
                    if Refuses(w.store, was.context) then CleanupPending else Disposed)
  {
    hide H.Inv, H.RevokeFrom, H.Settle, ReleasedAll, Refuses, H.Published;
    if !Withdrawn(w.table.byInstance[inst].state) {
      var t, ctx := ClaimDispose(w.table, inst).0, w.table.byInstance[inst].context;
      A.RevokedWorld(w, inst);
      var w1 := H.RevokeFrom(w.(table := t), ctx, inst, Handles(w.store, ctx), 0);
      assert w1.(table := t) == w1;
      if busy.None? { SettleOutcome(w1, inst); }
      H.DisposeOk(w, inst, busy);
      H.ParkedPublishesNothing(H.Dispose(w, inst, busy), inst);
    }
  }

  /** A parked activation without calls in flight is settled like that; any other stays. */
  lemma FinalizeOutcome(w: H.World, inst: nat, inFlight: bool)
    requires H.Inv(w) && inst in w.table.byInstance
    ensures var u, was := H.Finalize(w, inst, inFlight), w.table.byInstance[inst];
      if was.state != CleanupPending || inFlight then u == w
      else
        && inst in u.table.byInstance && ReleasedAll(w.store, u.store, was.context)
        && u.table.byInstance[inst].state == if Refuses(w.store, was.context) then CleanupPending else Disposed
  {
    hide H.Inv, H.Settle, ReleasedAll, Refuses;
    SettleOutcome(w, inst);
  }
}

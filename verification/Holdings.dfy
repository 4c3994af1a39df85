/** What activations hold and publish: the kernel's acquire, release, provision,
    dispose and finalize, over the context table, the resource table, the
    capability registry and the event bus. */
module Holdings {
  import opened Names
  import opened Contexts
  import opened Resources

  datatype Entry = Entry(logical: Name, instance: nat, generation: nat)

  datatype Subscriber = Subscriber(logical: Name, instance: nat)

  datatype World = World(table: Table, store: Store, caps: map<string, Entry>, subs: map<string, seq<Subscriber>>)

  const EMPTY_WORLD := World(EMPTY, NOTHING, map[], map[])

  function SubsOf(w: World, topic: string): seq<Subscriber> {
    if topic in w.subs then w.subs[topic] else []
  }

  /** Drops one instance's subscriptions, and the ownerless ones of instance 0. */
  function Unowned(v: seq<Subscriber>, inst: nat): seq<Subscriber> {
    if v == [] then []
    else (if v[0].instance == inst || v[0].instance == 0 then [] else [v[0]]) + Unowned(v[1..], inst)
  }

  function Publish(w: World, r: Record, k: Kind): World {
    match k
    case Cap(name) => w.(caps := w.caps[name := Entry(r.logical, r.instance, r.generation)])
    case Sub(topic) => w.(subs := w.subs[topic := WithSub(SubsOf(w, topic), Subscriber(r.logical, r.instance))])
    case _ => w
  }

  function WithSub(v: seq<Subscriber>, s: Subscriber): seq<Subscriber> {
    if s in v then v else v + [s]
  }

  function Unpublish(w: World, inst: nat, k: Kind): World {
    match k
    case Cap(name) =>
      if name in w.caps && (w.caps[name].instance == inst || w.caps[name].instance == 0)
      then w.(caps := w.caps - {name}) else w
    case Sub(topic) =>
      if topic in w.subs then w.(subs := w.subs[topic := Unowned(w.subs[topic], inst)]) else w
    case _ => w
  }

  function ReleaseHandle(w: World, inst: nat, h: nat): (World, Release) {
    var (s, r) := ReleaseIn(w.store, h);
    var w1 := w.(store := s);
    (if r.Claimed? then Unpublish(w1, inst, r.kind) else w1, r)
  }

  function Reason(tag: string): string {
    "resource '" + tag + "' refused release"
  }

  /** Newest first: the owner's first `i` handles are still to be released. */
  function ReleaseFrom(w: World, ctx: nat, inst: nat, handles: seq<nat>, i: nat): (World, seq<string>)
    requires i <= |handles|
    decreases i
  {
    if i == 0 then (w, [])
    else
      var h := handles[i - 1];
      if Held(w.store, h, ctx) && !w.store.records[h].released then
        var (w1, r) := ReleaseHandle(w, inst, h);
        var (w2, failures) := ReleaseFrom(w1, ctx, inst, handles, i - 1);
        (w2, (if r.Refused? then [Reason(r.tag)] else []) + failures)
      else ReleaseFrom(w, ctx, inst, handles, i - 1)
  }

  /** Publications of the owner's handles from position `i` on are withdrawn; the
      ownership records stay. */
  function RevokeFrom(w: World, ctx: nat, inst: nat, handles: seq<nat>, i: nat): World
    requires i <= |handles|
    decreases |handles| - i
  {
    if i == |handles| then w
    else
      var h := handles[i];
      RevokeFrom(if Held(w.store, h, ctx) then Unpublish(w, inst, w.store.records[h].kind) else w,
                 ctx, inst, handles, i + 1)
  }

  function Join(v: seq<string>): string {
    if v == [] then "" else if |v| == 1 then v[0] else v[0] + "; " + Join(v[1..])
  }

  /** Releases an activation's resources and settles its state by the outcome. */
  function Settle(w: World, inst: nat): World
    requires inst in w.table.byInstance
  {
    var ctx := w.table.byInstance[inst].context;
    var handles := Handles(w.store, ctx);
    var (w1, failures) := ReleaseFrom(w, ctx, inst, handles, |handles|);
    if failures == [] then w1.(table := SetState(w.table, inst, Disposed, None))
    else w1.(table := SetState(w.table, inst, CleanupPending, Some(Join(failures))))
  }

  /** A whole dispose; `busy` is the reason shown when calls are still in flight. */
  function Dispose(w: World, inst: nat, busy: Option<string>): World {
    var (t, claim) := ClaimDispose(w.table, inst);
    if claim != Fresh then w
    else
      var ctx := w.table.byInstance[inst].context;
      var w1 := RevokeFrom(w.(table := t), ctx, inst, Handles(w.store, ctx), 0);
      if busy.Some? then w1.(table := SetState(t, inst, CleanupPending, busy))
      else Settle(w1.(table := t), inst)
  }

  function Finalize(w: World, inst: nat, busy: bool): World {
    if inst in w.table.byInstance && w.table.byInstance[inst].state == CleanupPending && !busy
    then Settle(w, inst) else w
  }

  /** The kernel registers ownership first and publishes second. */
  function Obtain(w: World, r: Record, k: Kind, spawned: bool): (World, Option<nat>) {
    var (s, h) := RegisterIn(w.store, r.context, r.instance, k, spawned);
    if h.None? then (w.(store := s), None) else (Publish(w.(store := s), r, k), h)
  }

  /** What was just obtained is withdrawn and its record taken back. */
  function Undo(w: World, inst: nat, k: Kind, h: nat): World {
    Unpublish(w, inst, k).(store := Rollback(w.store, h))
  }

  /** `still` tells whether the activation is found current and Active again after
      the publication; if not, everything is undone. */
  function Acquire(w: World, l: Name, k: Kind, spawned: bool, still: bool): (World, Option<nat>) {
    match Contexts.Current(w.table, l)
    case None => (w, None)
    case Some(r) =>
      if r.state != Active then (w, None)
      else
        var (w1, h) := Obtain(w, r, k, spawned);
        if h.Some? && !still then (Undo(w1, r.instance, k, h.value), None) else (w1, h)
  }

  function Release(w: World, h: nat, pinned: bool): World {
    if h !in w.store.records || (!w.store.records[h].released && pinned) then w
    else ReleaseHandle(w, w.store.records[h].instance, h).0
  }

  function RollbackAcquired(w: World, inst: nat, acquired: seq<nat>): World
    decreases |acquired|
  {
    if acquired == [] then w
    else
      var n := |acquired| - 1;
      RollbackAcquired(ReleaseHandle(w, inst, acquired[n]).0, inst, acquired[..n])
  }

  /** A definition's resources from position `i` on, all or nothing. */
  function Provision(w: World, r: Record, kinds: seq<Kind>, i: nat, acquired: seq<nat>): (World, bool)
    requires i <= |kinds|
    decreases |kinds| - i
  {
    if i == |kinds| then (w, true)
    else
      var (w1, h) := Obtain(w, r, kinds[i], true);
      if h.None? then (RollbackAcquired(w1, r.instance, acquired), false)
      else Provision(w1, r, kinds, i + 1, acquired + [h.value])
  }

  // ---- the invariant ----

  predicate Published(w: World, k: Kind, inst: nat) {
    match k
    case Cap(name) => name in w.caps && w.caps[name].instance == inst
    case Sub(topic) => exists s :: s in SubsOf(w, topic) && s.instance == inst
    case _ => false
  }

  predicate Backs(s: Store, h: nat, k: Kind, inst: nat) {
    h in s.records && !s.records[h].released && s.records[h].kind == k && s.records[h].instance == inst
  }

  /** Only an activation that is not disposed or awaiting cleanup may publish. */
  predicate Visible(t: Table, inst: nat) {
    inst >= 1 && inst in t.byInstance
    && t.byInstance[inst].state != CleanupPending && t.byInstance[inst].state != Disposed
  }

  ghost predicate Backed(w: World, k: Kind, inst: nat) {
    Published(w, k, inst) ==> Visible(w.table, inst) && exists h :: Backs(w.store, h, k, inst)
  }

  predicate Owned(t: Table, s: Store, h: nat) {
    h in s.records ==>
      var r := s.records[h];
      && r.instance >= 1 && r.instance in t.byInstance && t.byInstance[r.instance].context == r.context
      && (t.byInstance[r.instance].state == Disposed ==> r.released)
  }

  ghost predicate Apart(w: World, topic: string) {
    NoDup(SubsOf(w, topic))
  }

  ghost predicate Numbered(t: Table) {
    TableOk(t) && t.nextInstance >= 1 && forall i :: i in t.byInstance ==> i >= 1
  }

  ghost predicate Inv(w: World) {
    && Numbered(w.table)
    && StoreOk(w.store)
    && (forall h :: Owned(w.table, w.store, h))
    && (forall k, inst :: Backed(w, k, inst))
    && (forall topic :: Apart(w, topic))
  }

  // ---- publishing and unpublishing ----

  lemma {:induction false} UnownedMembers(v: seq<Subscriber>, inst: nat)
    ensures forall s :: s in Unowned(v, inst) <==> s in v && s.instance != inst && s.instance != 0
  {
    if v != [] {
      UnownedMembers(v[1..], inst);
      assert forall s :: s in v <==> s == v[0] || s in v[1..];
    }
  }

  lemma {:induction false} UnownedApart(v: seq<Subscriber>, inst: nat)
    requires NoDup(v)
    ensures NoDup(Unowned(v, inst))
  {
    if v != [] {
      var rest := Unowned(v[1..], inst);
      assert NoDup(v[1..]) && v[0] !in v[1..];
      UnownedApart(v[1..], inst);
      UnownedMembers(v[1..], inst);
      if v[0].instance == inst || v[0].instance == 0 {
        assert Unowned(v, inst) == rest;
      } else {
        NoDupCons(v[0], rest);
      }
    }
  }

  lemma NoDupCons<T>(x: T, v: seq<T>)
    requires NoDup(v) && x !in v
    ensures NoDup([x] + v)
  {
    var w := [x] + v;
    forall i, j | 0 <= i < j < |w| ensures w[i] != w[j] {
      assert w[j] == v[j - 1] && v[j - 1] in v;
    }
  }

  /** Unpublishing removes exactly the one instance's entry of that kind. */
  lemma UnpublishExactly(w: World, inst: nat, k: Kind, k2: Kind, i: nat)
    requires i != 0
    ensures Published(Unpublish(w, inst, k), k2, i) <==> Published(w, k2, i) && !(k2 == k && i == inst)
  {
    if k.Sub? && k.topic in w.subs {
      UnownedMembers(w.subs[k.topic], inst);
    }
  }

  lemma PublishedThen(w: World, r: Record, k: Kind, k2: Kind, i: nat)
    requires Published(Publish(w, r, k), k2, i)
    ensures (k2 == k && i == r.instance) || Published(w, k2, i)
  {}

  lemma UnpublishZero(w: World, inst: nat, k: Kind, k2: Kind)
    requires !Published(w, k2, 0)
    ensures !Published(Unpublish(w, inst, k), k2, 0)
  {
    if k.Sub? && k.topic in w.subs {
      UnownedMembers(w.subs[k.topic], inst);
    }
  }

  lemma UnpublishApart(w: World, inst: nat, k: Kind, topic: string)
    requires Apart(w, topic)
    ensures Apart(Unpublish(w, inst, k), topic)
  {
    if k.Sub? && k.topic in w.subs && topic == k.topic {
      UnownedApart(w.subs[k.topic], inst);
    }
  }

  lemma PublishApart(w: World, r: Record, k: Kind, topic: string)
    requires Apart(w, topic)
    ensures Apart(Publish(w, r, k), topic)
  {
    if k.Sub? {
      var s := Subscriber(r.logical, r.instance);
      if s !in SubsOf(w, k.topic) && topic == k.topic {
        NoDupSnoc(SubsOf(w, topic), s);
      }
    }
  }

  lemma UnpublishOk(w: World, inst: nat, k: Kind)
    requires Inv(w)
    ensures Inv(Unpublish(w, inst, k))
    ensures Unpublish(w, inst, k).table == w.table && Unpublish(w, inst, k).store == w.store
  {
    hide StoreOk, Numbered, Apart, Published, Owned, Visible, Backs;
    var u := Unpublish(w, inst, k);
    UnpublishSame(w, inst, k);
    forall k2, i ensures Backed(u, k2, i) {
      assert Backed(w, k2, i);
      if i == 0 { NoZero(w, k2); UnpublishZero(w, inst, k, k2); } else { UnpublishExactly(w, inst, k, k2, i); }
    }
    forall t ensures Apart(u, t) { assert Apart(w, t); UnpublishApart(w, inst, k, t); }
    forall h ensures Owned(u.table, u.store, h) { assert Owned(w.table, w.store, h); }
  }

  lemma UnpublishSame(w: World, inst: nat, k: Kind)
    ensures Unpublish(w, inst, k).table == w.table && Unpublish(w, inst, k).store == w.store
  {}

  lemma NoZero(w: World, k: Kind)
    requires Backed(w, k, 0)
    ensures !Published(w, k, 0)
  {}

  // ---- registering and releasing one resource ----

  ghost predicate Serves(t: Table, r: Record) {
    && Visible(t, r.instance)
    && t.byInstance[r.instance].context == r.context
  }

  lemma RegisteredBacked(w: World, u: World, r: Record, k: Kind, k2: Kind, i: nat)
    requires Backed(w, k2, i) && Serves(w.table, r) && u.table == w.table
    requires w.store.next !in w.store.records
    requires u.store.records == w.store.records[w.store.next := Resource(k, r.context, r.instance, false)]
    ensures Backed(Publish(u.(caps := w.caps, subs := w.subs), r, k), k2, i)
  {
    hide Publish;
    var base := u.(caps := w.caps, subs := w.subs);
    var p := Publish(base, r, k);
    PublishSame(base, r, k);
    if Published(p, k2, i) {
      PublishedThen(base, r, k, k2, i);
      if k2 == k && i == r.instance {
        assert Backs(p.store, w.store.next, k2, i);
      } else {
        PublishedAlike(w, base, k2, i);
        var h :| Backs(w.store, h, k2, i);
        assert Backs(p.store, h, k2, i);
      }
    }
  }

  lemma PublishedAlike(w: World, u: World, k: Kind, i: nat)
    requires u.caps == w.caps && u.subs == w.subs
    ensures Published(u, k, i) <==> Published(w, k, i)
  {}

  lemma PublishSame(w: World, r: Record, k: Kind)
    ensures Publish(w, r, k).table == w.table && Publish(w, r, k).store == w.store
  {}

  lemma ObtainOk(w: World, r: Record, k: Kind, spawned: bool)
    requires Inv(w) && Serves(w.table, r)
    ensures var (u, h) := Obtain(w, r, k, spawned);
      && Inv(u) && u.table == w.table
      && (forall x :: x in w.store.records ==> x in u.store.records && u.store.records[x] == w.store.records[x])
      && (h.Some? ==> h.value in u.store.records)
      && (h.Some? ==> u.store.records[h.value] == Resource(k, r.context, r.instance, false))
  {
    hide StoreOk, Numbered, Apart, Published, Visible, RegisterIn, Publish;
    var (s, h) := RegisterIn(w.store, r.context, r.instance, k, spawned);
    var base := w.(store := s);
    var u := Obtain(w, r, k, spawned).0;
    RegisterFrame(w.store, r.context, r.instance, k, spawned);
    RegisterOk(w.store, r.context, r.instance, k, spawned);
    PublishSame(base, r, k);
    forall x ensures Owned(u.table, u.store, x) {
      assert Owned(w.table, w.store, x);
      ServesOwned(w.table, u.store, r, x);
    }
    forall k2, i ensures Backed(u, k2, i) {
      assert Backed(w, k2, i);
      if h.Some? { RegisteredBacked(w, base, r, k, k2, i); } else { BackedAlike(w, u, k2, i); }
    }
    forall t ensures Apart(u, t) {
      assert Apart(w, t);
      ApartAlike(w, base, t);
      PublishApart(base, r, k, t);
    }
  }

  lemma ServesOwned(t: Table, s: Store, r: Record, x: nat)
    requires Serves(t, r)
    requires x in s.records ==>
      Owned(t, s, x) || (s.records[x].instance == r.instance && s.records[x].context == r.context)
    ensures Owned(t, s, x)
  {}

  lemma ApartAlike(w: World, u: World, t: string)
    requires Apart(w, t) && u.subs == w.subs
    ensures Apart(u, t)
  {}

  lemma BackedAlike(w: World, u: World, k: Kind, i: nat)
    requires Backed(w, k, i) && u.caps == w.caps && u.subs == w.subs && u.table == w.table
    requires u.store.records == w.store.records
    ensures Backed(u, k, i)
  {
    PublishedAlike(w, u, k, i);
    if Published(w, k, i) {
      var h :| Backs(w.store, h, k, i);
      assert Backs(u.store, h, k, i);
    }
  }

  /** `t` differs from `s` at most in resources having been released. */
  predicate Fewer(s: Store, t: Store) {
    && t.records.Keys == s.records.Keys
    && t.owners == s.owners
    && (forall h :: h in s.records ==>
          t.records[h] == s.records[h] || t.records[h] == s.records[h].(released := true))
  }

  lemma ReleaseBacked(w: World, inst: nat, h: nat, k: Kind, i: nat)
    requires Backed(w, k, i)
    requires ReleaseIn(w.store, h).1.Claimed? && w.store.records[h].instance == inst
    ensures Backed(ReleaseHandle(w, inst, h).0, k, i)
  {
    hide Unpublish, Published;
    var (s, r) := ReleaseIn(w.store, h);
    var base := w.(store := s);
    var u := ReleaseHandle(w, inst, h).0;
    UnpublishSame(base, inst, r.kind);
    PublishedAlike(w, base, k, i);
    if i == 0 {
      UnpublishZero(base, inst, r.kind, k);
    } else {
      UnpublishExactly(base, inst, r.kind, k, i);
      if Published(u, k, i) {
        var x :| Backs(w.store, x, k, i);
        assert Backs(u.store, x, k, i);
      }
    }
  }

  lemma ReleaseHandleOk(w: World, inst: nat, h: nat)
    requires Inv(w) && (h in w.store.records ==> w.store.records[h].instance == inst)
    ensures var (u, r) := ReleaseHandle(w, inst, h);
      && Inv(u) && u.table == w.table && Fewer(w.store, u.store)
      && (h in w.store.records && !r.Refused? ==> IsReleased(u.store, h))
  {
    hide StoreOk, Numbered, Apart, Published, Visible, Unpublish;
    var (s, r) := ReleaseIn(w.store, h);
    var base := w.(store := s);
    var u := ReleaseHandle(w, inst, h).0;
    BeginReleaseOk(w.store, h);
    UnpublishSame(base, inst, if r.Claimed? then r.kind else Task(""));
    forall x ensures Owned(u.table, u.store, x) { assert Owned(w.table, w.store, x); }
    forall k, i ensures Backed(u, k, i) {
      assert Backed(w, k, i);
      if r.Claimed? { ReleaseBacked(w, inst, h, k, i); } else { BackedAlike(w, u, k, i); }
    }
    forall t ensures Apart(u, t) {
      assert Apart(w, t);
      ApartAlike(w, base, t);
      if r.Claimed? { UnpublishApart(base, inst, r.kind, t); }
    }
  }

  // ---- releasing everything an activation holds ----

  lemma FewerTransitive(a: Store, b: Store, c: Store)
    requires Fewer(a, b) && Fewer(b, c)
    ensures Fewer(a, c)
    ensures forall h :: IsReleased(b, h) ==> IsReleased(c, h)
  {}

  ghost predicate AllOf(s: Store, handles: seq<nat>, inst: nat) {
    forall h :: h in handles && h in s.records ==> s.records[h].instance == inst
  }

  /** The releases keep the invariant, and if none was refused nothing is left held. */
  lemma {:induction false} ReleaseFromOk(w: World, ctx: nat, inst: nat, handles: seq<nat>, i: nat)
    requires Inv(w) && i <= |handles| && AllOf(w.store, handles, inst)
    ensures var (u, failures) := ReleaseFrom(w, ctx, inst, handles, i);
      && Inv(u) && u.table == w.table && Fewer(w.store, u.store)
      && (failures == [] ==> forall j :: 0 <= j < i && Held(w.store, handles[j], ctx) ==>
          IsReleased(u.store, handles[j]))
    decreases i
  {
    hide Inv, ReleaseHandle;
    if i > 0 {
      var h := handles[i - 1];
      if Held(w.store, h, ctx) && !w.store.records[h].released {
        var (w1, r) := ReleaseHandle(w, inst, h);
        ReleaseHandleOk(w, inst, h);
        ReleaseFromOk(w1, ctx, inst, handles, i - 1);
        FewerTransitive(w.store, w1.store, ReleaseFrom(w1, ctx, inst, handles, i - 1).0.store);
      } else {
        ReleaseFromOk(w, ctx, inst, handles, i - 1);
      }
    }
  }

  lemma OwnerInstance(w: World, inst: nat, h: nat)
    requires Inv(w) && inst in w.table.byInstance
    ensures Held(w.store, h, w.table.byInstance[inst].context)
         <==> h in w.store.records && w.store.records[h].instance == inst
  {
    assert Owned(w.table, w.store, h);
  }

  /** An activation's context index names exactly the resources of that instance. */
  lemma HandlesAre(w: World, inst: nat)
    requires Inv(w) && inst in w.table.byInstance
    ensures AllOf(w.store, Handles(w.store, w.table.byInstance[inst].context), inst)
    ensures forall h :: h in w.store.records && w.store.records[h].instance == inst ==>
              h in Handles(w.store, w.table.byInstance[inst].context)
  {
    var ctx := w.table.byInstance[inst].context;
    OwnerListed(w.store, ctx);
    forall h ensures Held(w.store, h, ctx) <==> h in w.store.records && w.store.records[h].instance == inst {
      OwnerInstance(w, inst, h);
    }
  }

  // ---- the context table moves under the holdings ----

  /** The table may say `t` of instance `i` without contradicting what it holds. */
  ghost predicate Fits(w: World, t: Table, i: nat) {
    i in w.table.byInstance ==>
      && i in t.byInstance && t.byInstance[i].context == w.table.byInstance[i].context
      && (Visible(w.table, i) ==> Visible(t, i) || forall k :: !Published(w, k, i))
      && (t.byInstance[i].state == Disposed ==>
            forall h :: h in w.store.records && w.store.records[h].instance == i ==> w.store.records[h].released)
  }

  lemma Retable(w: World, t: Table)
    requires Inv(w) && Numbered(t) && forall i :: Fits(w, t, i)
    ensures Inv(w.(table := t))
  {
    hide StoreOk, Numbered, Apart, Published;
    var u := w.(table := t);
    forall h ensures Owned(t, u.store, h) {
      assert Owned(w.table, w.store, h);
      if h in w.store.records { assert Fits(w, t, w.store.records[h].instance); }
    }
    forall k, i ensures Backed(u, k, i) {
      assert Backed(w, k, i) && Fits(w, t, i);
      PublishedAlike(w, u, k, i);
    }
    forall x ensures Apart(u, x) { assert Apart(w, x); ApartAlike(w, u, x); }
  }

  lemma SameFits(w: World, t: Table, i: nat)
    requires Inv(w)
    requires i in w.table.byInstance ==> i in t.byInstance && t.byInstance[i] == w.table.byInstance[i]
    ensures Fits(w, t, i)
  {
    hide StoreOk, Numbered, Apart, Published;
    if i in w.table.byInstance {
      forall h | h in w.store.records && w.store.records[h].instance == i
        ensures t.byInstance[i].state == Disposed ==> w.store.records[h].released
      {
        assert Owned(w.table, w.store, h);
      }
    }
  }

  lemma NumberedSet(t: Table, inst: nat, s: Fsm, cause: Option<string>)
    requires Numbered(t) && MayBecome(t, inst, s, cause)
    ensures Numbered(SetState(t, inst, s, cause))
  {
    hide TableOk;
    SetStateOk(t, inst, s, cause);
  }

  /** Marking one activation, when the mark is one the table allows and the
      activation's holdings agree with it. */
  lemma MarkOk(w: World, inst: nat, s: Fsm, cause: Option<string>)
    requires Inv(w) && MayBecome(w.table, inst, s, cause)
    requires s == CleanupPending || s == Disposed ==> forall k :: !Published(w, k, inst)
    requires s == Disposed ==>
      forall h :: h in w.store.records && w.store.records[h].instance == inst ==> w.store.records[h].released
    ensures Inv(w.(table := SetState(w.table, inst, s, cause)))
  {
    hide StoreOk, Numbered, Apart, Published, TableOk;
    var t := SetState(w.table, inst, s, cause);
    NumberedSet(w.table, inst, s, cause);
    forall i ensures Fits(w, t, i) {
      HasNumber(w, i);
      if i != inst { SameFits(w, t, i); }
    }
    Retable(w, t);
  }

  lemma HasNumber(w: World, i: nat)
    requires Numbered(w.table)
    ensures i in w.table.byInstance ==> i >= 1
  {}

  lemma CreateOk(w: World, l: Name, s: Fsm, cause: Option<string>)
    requires Inv(w) && ReplacesIdle(w.table, l, s)
    ensures Inv(w.(table := CreateIn(w.table, l, s, cause)))
  {
    hide StoreOk, Apart, Published, RecordOk, CurrentOk, ReplacesIdle;
    var t := CreateIn(w.table, l, s, cause);
    CreateInOk(w.table, l, s, cause);
    NextIsFree(w.table);
    forall i ensures Fits(w, t, i) { SameFits(w, t, i); }
    Retable(w, t);
  }

  lemma NextIsFree(t: Table)
    requires TableOk(t)
    ensures t.nextInstance !in t.byInstance
  {
    assert RecordOk(t, t.nextInstance);
  }

  // ---- withdrawing publications ----

  lemma {:induction false} RevokeFromOk(w: World, ctx: nat, inst: nat, handles: seq<nat>, i: nat)
    requires Inv(w) && i <= |handles| && inst >= 1
    ensures var u := RevokeFrom(w, ctx, inst, handles, i);
      && Inv(u) && u.table == w.table && u.store == w.store
      && (forall k :: Published(u, k, inst) ==> Published(w, k, inst))
      && (forall j :: i <= j < |handles| && Held(w.store, handles[j], ctx) ==>
          !Published(u, w.store.records[handles[j]].kind, inst))
    decreases |handles| - i
  {
    hide Inv, Unpublish, Published;
    if i < |handles| {
      var h := handles[i];
      if Held(w.store, h, ctx) {
        var kind := w.store.records[h].kind;
        UnpublishOk(w, inst, kind);
        forall k ensures Published(Unpublish(w, inst, kind), k, inst) ==> Published(w, k, inst) && k != kind {
          UnpublishExactly(w, inst, kind, k, inst);
        }
        RevokeFromOk(Unpublish(w, inst, kind), ctx, inst, handles, i + 1);
      } else {
        RevokeFromOk(w, ctx, inst, handles, i + 1);
      }
    }
  }

  /** Once an owner's handles have been gone through, it publishes nothing. */
  lemma RevokedAll(w: World, inst: nat)
    requires Inv(w) && inst in w.table.byInstance
    ensures var ctx := w.table.byInstance[inst].context;
      forall k :: !Published(RevokeFrom(w, ctx, inst, Handles(w.store, ctx), 0), k, inst)
  {
    hide StoreOk, Apart, Published, RevokeFrom, TableOk;
    var ctx := w.table.byInstance[inst].context;
    var handles := Handles(w.store, ctx);
    var u := RevokeFrom(w, ctx, inst, handles, 0);
    HasNumber(w, inst);
    RevokeFromOk(w, ctx, inst, handles, 0);
    HandlesAre(w, inst);
    forall k ensures !Published(u, k, inst) {
      if Published(u, k, inst) {
        assert Backed(u, k, inst);
        var h :| Backs(w.store, h, k, inst);
        OwnerInstance(w, inst, h);
      }
    }
  }

  // ---- dispose and finalize ----

  lemma SettleOk(w: World, inst: nat)
    requires Inv(w) && inst in w.table.byInstance
    requires w.table.byInstance[inst].state == Quiescing || w.table.byInstance[inst].state == CleanupPending
    requires forall k :: !Published(w, k, inst)
    ensures Inv(Settle(w, inst))
  {
    hide Inv, Published, ReleaseFrom, Fewer;
    var ctx := w.table.byInstance[inst].context;
    var handles := Handles(w.store, ctx);
    var (u, failures) := ReleaseFrom(w, ctx, inst, handles, |handles|);
    AnyNumber(w, inst);
    HandlesAre(w, inst);
    ReleaseFromOk(w, ctx, inst, handles, |handles|);
    forall k ensures !Published(u, k, inst) { ReleasedUnpublished(w, ctx, inst, handles, |handles|, k); }
    if failures == [] {
      forall h | h in u.store.records && u.store.records[h].instance == inst ensures u.store.records[h].released {
        FewerBack(w.store, u.store, h);
        OwnerInstance(w, inst, h);
        var j :| 0 <= j < |handles| && handles[j] == h;
        assert IsReleased(u.store, handles[j]);
      }
      MarkOk(u, inst, Disposed, None);
    } else {
      MarkOk(u, inst, CleanupPending, Some(Join(failures)));
    }
  }

  lemma FewerBack(s: Store, t: Store, h: nat)
    requires Fewer(s, t) && h in t.records
    ensures h in s.records && s.records[h].instance == t.records[h].instance
  {
    assert h in t.records.Keys;
  }

  lemma ReleaseUnpublished(w: World, inst: nat, h: nat, k: Kind)
    requires inst != 0 && !Published(w, k, inst)
    ensures !Published(ReleaseHandle(w, inst, h).0, k, inst)
  {
    hide Unpublish, Published;
    var (s, r) := ReleaseIn(w.store, h);
    PublishedAlike(w, w.(store := s), k, inst);
    if r.Claimed? { UnpublishExactly(w.(store := s), inst, r.kind, k, inst); }
  }

  lemma {:induction false} ReleasedUnpublished(w: World, ctx: nat, inst: nat, handles: seq<nat>, i: nat, k: Kind)
    requires i <= |handles| && inst != 0 && !Published(w, k, inst)
    ensures !Published(ReleaseFrom(w, ctx, inst, handles, i).0, k, inst)
    decreases i
  {
    hide Published, ReleaseHandle;
    if i > 0 {
      var h := handles[i - 1];
      if Held(w.store, h, ctx) && !w.store.records[h].released {
        ReleaseUnpublished(w, inst, h, k);
        ReleasedUnpublished(ReleaseHandle(w, inst, h).0, ctx, inst, handles, i - 1, k);
      } else {
        ReleasedUnpublished(w, ctx, inst, handles, i - 1, k);
      }
    }
  }

  lemma DisposeOk(w: World, inst: nat, busy: Option<string>)
    requires Inv(w)
    ensures Inv(Dispose(w, inst, busy))
  {
    hide Inv, Published, RevokeFrom, Settle;
    var (t, claim) := ClaimDispose(w.table, inst);
    if claim == Fresh {
      MarkOk(w, inst, Quiescing, None);
      var w1 := w.(table := t);
      var ctx := w.table.byInstance[inst].context;
      var handles := Handles(w.store, ctx);
      var u := RevokeFrom(w1, ctx, inst, handles, 0);
      AnyNumber(w1, inst);
      RevokeFromOk(w1, ctx, inst, handles, 0);
      RevokedAll(w1, inst);
      if busy.Some? { MarkOk(u, inst, CleanupPending, busy); } else { SettleOk(u, inst); }
    }
  }

  lemma AnyNumber(w: World, inst: nat)
    requires Inv(w) && inst in w.table.byInstance
    ensures inst >= 1
  {}

  lemma FinalizeOk(w: World, inst: nat, busy: bool)
    requires Inv(w)
    ensures Inv(Finalize(w, inst, busy))
  {
    if inst in w.table.byInstance && w.table.byInstance[inst].state == CleanupPending && !busy {
      ParkedPublishesNothing(w, inst);
      SettleOk(w, inst);
    }
  }

  /** An activation that is disposed or awaits cleanup publishes nothing. */
  lemma ParkedPublishesNothing(w: World, inst: nat)
    requires Inv(w) && inst in w.table.byInstance
    requires w.table.byInstance[inst].state == CleanupPending || w.table.byInstance[inst].state == Disposed
    ensures forall k :: !Published(w, k, inst)
  {
    hide Published, StoreOk, Numbered;
    forall k ensures !Published(w, k, inst) { assert Backed(w, k, inst); }
  }

  /** A disposed activation holds nothing and publishes nothing. */
  lemma DisposedHoldsNothing(w: World, inst: nat)
    requires Inv(w) && inst in w.table.byInstance && w.table.byInstance[inst].state == Disposed
    ensures ActiveIn(w.store, w.table.byInstance[inst].context) == {}
    ensures forall n :: n in w.caps ==> w.caps[n].instance != inst
    ensures forall t, s :: t in w.subs && s in w.subs[t] ==> s.instance != inst
  {
    hide StoreOk;
    ParkedPublishesNothing(w, inst);
    var ctx := w.table.byInstance[inst].context;
    forall h | h in w.store.records && w.store.records[h].context == ctx ensures w.store.records[h].released {
      OwnerInstance(w, inst, h);
      assert Owned(w.table, w.store, h);
    }
    forall n | n in w.caps ensures w.caps[n].instance != inst { assert !Published(w, Cap(n), inst); }
    forall t, s | t in w.subs && s in w.subs[t] ensures s.instance != inst { assert !Published(w, Sub(t), inst); }
  }

  // ---- acquiring ----

  lemma CurrentServes(w: World, l: Name)
    requires Inv(w) && Contexts.Current(w.table, l).Some? && Contexts.Current(w.table, l).value.state == Active
    ensures Serves(w.table, Contexts.Current(w.table, l).value)
  {
    assert RecordOk(w.table, w.table.current[l]);
  }

  lemma UndoBacked(w: World, inst: nat, k: Kind, h: nat, k2: Kind, i: nat)
    requires Backed(w, k2, i) && Backs(w.store, h, k, inst)
    ensures Backed(Undo(w, inst, k, h), k2, i)
  {
    hide Unpublish, Published;
    var u := Undo(w, inst, k, h);
    var base := Unpublish(w, inst, k);
    UnpublishSame(w, inst, k);
    PublishedAlike(base, u, k2, i);
    if i == 0 {
      UnpublishZero(w, inst, k, k2);
    } else {
      UnpublishExactly(w, inst, k, k2, i);
      if Published(u, k2, i) {
        var x :| Backs(w.store, x, k2, i);
        assert Backs(u.store, x, k2, i);
      }
    }
  }

  lemma UndoOk(w: World, inst: nat, k: Kind, h: nat)
    requires Inv(w) && Backs(w.store, h, k, inst)
    ensures Inv(Undo(w, inst, k, h))
  {
    hide StoreOk, Numbered, Apart, Published, Visible, Unpublish;
    var u := Undo(w, inst, k, h);
    var base := Unpublish(w, inst, k);
    UnpublishSame(w, inst, k);
    RollbackOk(w.store, h);
    forall x ensures Owned(u.table, u.store, x) { assert Owned(w.table, w.store, x); }
    forall k2, i ensures Backed(u, k2, i) {
      assert Backed(w, k2, i);
      UndoBacked(w, inst, k, h, k2, i);
    }
    forall t ensures Apart(u, t) {
      assert Apart(w, t);
      UnpublishApart(w, inst, k, t);
      ApartAlike(base, u, t);
    }
  }

  lemma AcquireOk(w: World, l: Name, k: Kind, spawned: bool, still: bool)
    requires Inv(w)
    ensures Inv(Acquire(w, l, k, spawned, still).0)
  {
    hide Inv, Obtain, Serves, Undo;
    var cur := Contexts.Current(w.table, l);
    if cur.Some? && cur.value.state == Active {
      CurrentServes(w, l);
      ObtainOk(w, cur.value, k, spawned);
      var (w1, h) := Obtain(w, cur.value, k, spawned);
      if h.Some? { UndoOk(w1, cur.value.instance, k, h.value); }
    }
  }

  lemma {:induction false} RollbackAcquiredOk(w: World, inst: nat, acquired: seq<nat>)
    requires Inv(w) && AllOf(w.store, acquired, inst)
    ensures Inv(RollbackAcquired(w, inst, acquired)) && RollbackAcquired(w, inst, acquired).table == w.table
    decreases |acquired|
  {
    hide Inv, ReleaseHandle;
    if acquired != [] {
      var n := |acquired| - 1;
      ReleaseHandleOk(w, inst, acquired[n]);
      RollbackAcquiredOk(ReleaseHandle(w, inst, acquired[n]).0, inst, acquired[..n]);
    }
  }

  lemma {:induction false} ProvisionOk(w: World, r: Record, kinds: seq<Kind>, i: nat, acquired: seq<nat>)
    requires Inv(w) && Serves(w.table, r) && i <= |kinds| && AllOf(w.store, acquired, r.instance)
    requires forall h :: h in acquired ==> h in w.store.records
    ensures Inv(Provision(w, r, kinds, i, acquired).0)
    decreases |kinds| - i
  {
    hide Inv, Obtain, Serves, RollbackAcquired;
    if i < |kinds| {
      var (w1, h) := Obtain(w, r, kinds[i], true);
      ObtainOk(w, r, kinds[i], true);
      if h.None? {
        RollbackAcquiredOk(w1, r.instance, acquired);
      } else {
        ProvisionOk(w1, r, kinds, i + 1, acquired + [h.value]);
      }
    }
  }

  lemma ReleaseOk(w: World, h: nat, pinned: bool)
    requires Inv(w)
    ensures Inv(Release(w, h, pinned))
  {
    hide Inv, ReleaseHandle;
    if h in w.store.records {
      ReleaseHandleOk(w, w.store.records[h].instance, h);
    }
  }

  // ---- a definition's resources: all or none ----

  /** The kinds a definition asks for. */
  predicate OnlyPublications(kinds: seq<Kind>) {
    forall k :: k in kinds ==> k.Cap? || k.Sub?
  }

  function FirstBad(kinds: seq<Kind>): (m: nat)
    ensures m <= |kinds| && (m < |kinds| ==> !Acceptable(kinds[m]))
    ensures forall k :: k in kinds[..m] ==> Acceptable(k)
  {
    if kinds == [] || !Acceptable(kinds[0]) then 0 else 1 + FirstBad(kinds[1..])
  }

  function EntryAt(caps: map<string, Entry>, n: string): Option<Entry> {
    if n in caps then Some(caps[n]) else None
  }

  /** The capability entries after the kinds were registered over `caps` and those from
      position `i` on released again. */
  ghost predicate CapsAfter(caps: map<string, Entry>, r: Record, kinds: seq<Kind>, i: nat, caps': map<string, Entry>)
    requires i <= |kinds|
  {
    forall n :: EntryAt(caps', n) ==
      if Cap(n) in kinds[i..] then None
      else if Cap(n) in kinds[..i] then Some(Entry(r.logical, r.instance, r.generation))
      else EntryAt(caps, n)
  }

  function SubsAfter(v: seq<Subscriber>, r: Record, kinds: seq<Kind>, i: nat, t: string): seq<Subscriber>
    requires i <= |kinds|
  {
    if Sub(t) in kinds[i..] then Unowned(v, r.instance)
    else if Sub(t) in kinds[..i] then WithSub(v, Subscriber(r.logical, r.instance))
    else v
  }

  /** Resources that refuse release stay held. */
  ghost predicate StoreAfter(s: Store, r: Record, kinds: seq<Kind>, i: nat, s': Store) {
    && (forall h :: h in s'.records <==> h in s.records || s.next <= h < s.next + |kinds|)
    && (forall h :: h in s.records ==> s'.records[h] == s.records[h])
    && (forall h :: s.next <= h < s.next + |kinds| ==>
          s'.records[h] == Resource(kinds[h - s.next], r.context, r.instance,
                                    h - s.next >= i && !kinds[h - s.next].FailRelease?))
  }

  /** `u` is `w` after the kinds were registered and published, with those from
      position `i` on released again. */
  ghost predicate Attempt(w: World, r: Record, kinds: seq<Kind>, i: nat, u: World) {
    && i <= |kinds| && u.table == w.table
    && (forall h :: h in w.store.records ==> h < w.store.next)
    && StoreAfter(w.store, r, kinds, i, u.store)
    && CapsAfter(w.caps, r, kinds, i, u.caps)
    && (forall t :: SubsOf(u, t) == SubsAfter(SubsOf(w, t), r, kinds, i, t))
  }

  lemma SplitAt(kinds: seq<Kind>, i: nat, k: Kind)
    requires i < |kinds|
    ensures k in kinds[i..] <==> k == kinds[i] || k in kinds[i + 1..]
    ensures k in kinds[..i + 1] <==> k in kinds[..i] || k == kinds[i]
  {
    assert kinds[i..] == [kinds[i]] + kinds[i + 1..];
    assert kinds[..i + 1] == kinds[..i] + [kinds[i]];
  }

  /** The table takes a resource of this kind. */
  predicate Registers(k: Kind, spawned: bool) {
    Acceptable(k) && (k.Timer? || k.Task? ==> spawned)
  }

  lemma GrownStore(s: Store, r: Record, kinds: seq<Kind>, i: nat, s': Store, spawned: bool)
    requires i < |kinds| && StoreAfter(s, r, kinds[..i], i, s') && Registers(kinds[i], spawned)
    requires s'.next == s.next + i && forall h :: h in s.records ==> h < s.next
    ensures var (t, h) := RegisterIn(s', r.context, r.instance, kinds[i], spawned);
      h == Some(s.next + i) && t.next == s.next + i + 1 && StoreAfter(s, r, kinds[..i + 1], i + 1, t)
  {
    assert forall j :: 0 <= j < i ==> kinds[..i + 1][j] == kinds[..i][j];
  }

  lemma GrownCaps(w: World, r: Record, kinds: seq<Kind>, i: nat, u: World)
    requires i < |kinds| && CapsAfter(w.caps, r, kinds[..i], i, u.caps)
    ensures CapsAfter(w.caps, r, kinds[..i + 1], i + 1, Publish(u, r, kinds[i]).caps)
  {
    var v := Publish(u, r, kinds[i]);
    forall n
      ensures EntryAt(v.caps, n) ==
        if Cap(n) in kinds[..i + 1] then Some(Entry(r.logical, r.instance, r.generation)) else EntryAt(w.caps, n)
    {
      SplitAt(kinds, i, Cap(n));
      assert kinds[..i][i..] == [] && kinds[..i][..i] == kinds[..i];
      assert EntryAt(u.caps, n) == if Cap(n) in kinds[..i] then Some(Entry(r.logical, r.instance, r.generation))
        else EntryAt(w.caps, n);
    }
    assert kinds[..i + 1][i + 1..] == [] && kinds[..i + 1][..i + 1] == kinds[..i + 1];
  }

  lemma GrownSubs(w: World, r: Record, kinds: seq<Kind>, i: nat, u: World, t: string)
    requires i < |kinds| && SubsOf(u, t) == SubsAfter(SubsOf(w, t), r, kinds[..i], i, t)
    ensures SubsOf(Publish(u, r, kinds[i]), t) == SubsAfter(SubsOf(w, t), r, kinds[..i + 1], i + 1, t)
  {
    SplitAt(kinds, i, Sub(t));
    assert kinds[..i][i..] == [] && kinds[..i][..i] == kinds[..i];
    assert kinds[..i + 1][i + 1..] == [] && kinds[..i + 1][..i + 1] == kinds[..i + 1];
  }

  lemma AttemptGrows(w: World, r: Record, kinds: seq<Kind>, i: nat, u: World, spawned: bool)
    requires i < |kinds| && Attempt(w, r, kinds[..i], i, u) && Registers(kinds[i], spawned)
    requires u.store.next == w.store.next + i
    ensures var (v, h) := Obtain(u, r, kinds[i], spawned);
      h == Some(w.store.next + i) && v.store.next == w.store.next + i + 1 && Attempt(w, r, kinds[..i + 1], i + 1, v)
  {
    hide StoreAfter, CapsAfter, SubsAfter, RegisterIn, Publish, SubsOf, Acceptable;
    GrownStore(w.store, r, kinds, i, u.store, spawned);
    var (s, h) := RegisterIn(u.store, r.context, r.instance, kinds[i], spawned);
    var base := u.(store := s);
    PublishSame(base, r, kinds[i]);
    GrownCaps(w, r, kinds, i, base);
    forall t ensures SubsOf(Publish(base, r, kinds[i]), t) == SubsAfter(SubsOf(w, t), r, kinds[..i + 1], i + 1, t) {
      SameSubs(u, base, t);
      GrownSubs(w, r, kinds, i, base, t);
    }
  }

  lemma SameSubs(w: World, u: World, t: string)
    requires u.subs == w.subs
    ensures SubsOf(u, t) == SubsOf(w, t)
  {}

  lemma ShrunkStore(s: Store, r: Record, kinds: seq<Kind>, i: nat, s': Store)
    requires i < |kinds| && StoreAfter(s, r, kinds, i + 1, s')
    requires forall h :: h in s.records ==> h < s.next
    ensures var (t, x) := ReleaseIn(s', s.next + i);
      && StoreAfter(s, r, kinds, i, t)
      && (kinds[i].FailRelease? ==> x.Refused?)
      && (!kinds[i].FailRelease? ==> x == Claimed(kinds[i], r.context))
  {}

  lemma ShrunkCaps(w: World, r: Record, kinds: seq<Kind>, i: nat, u: World)
    requires i < |kinds| && CapsAfter(w.caps, r, kinds, i + 1, u.caps)
    ensures CapsAfter(w.caps, r, kinds, i, Unpublish(u, r.instance, kinds[i]).caps)
  {
    var v := Unpublish(u, r.instance, kinds[i]);
    forall n
      ensures EntryAt(v.caps, n) ==
        if Cap(n) in kinds[i..] then None
        else if Cap(n) in kinds[..i] then Some(Entry(r.logical, r.instance, r.generation))
        else EntryAt(w.caps, n)
    {
      SplitAt(kinds, i, Cap(n));
      assert EntryAt(u.caps, n) ==
        if Cap(n) in kinds[i + 1..] then None
        else if Cap(n) in kinds[..i + 1] then Some(Entry(r.logical, r.instance, r.generation))
        else EntryAt(w.caps, n);
    }
  }

  lemma {:induction false} UnownedWithSub(v: seq<Subscriber>, s: Subscriber)
    ensures Unowned(WithSub(v, s), s.instance) == Unowned(v, s.instance)
  {
    if s !in v { UnownedSnoc(v, s); }
  }

  lemma {:induction false} UnownedSnoc(v: seq<Subscriber>, s: Subscriber)
    ensures Unowned(v + [s], s.instance) == Unowned(v, s.instance)
  {
    if v == [] {
      assert v + [s] == [s] && [s][1..] == [];
    } else {
      assert (v + [s])[1..] == v[1..] + [s];
      UnownedSnoc(v[1..], s);
    }
  }

  lemma ShrunkSubs(w: World, r: Record, kinds: seq<Kind>, i: nat, u: World, t: string)
    requires i < |kinds| && SubsOf(u, t) == SubsAfter(SubsOf(w, t), r, kinds, i + 1, t)
    ensures SubsOf(Unpublish(u, r.instance, kinds[i]), t) == SubsAfter(SubsOf(w, t), r, kinds, i, t)
  {
    SplitAt(kinds, i, Sub(t));
    UnownedTwice(SubsOf(w, t), r.instance);
    UnownedWithSub(SubsOf(w, t), Subscriber(r.logical, r.instance));
  }

  lemma AttemptShrinks(w: World, r: Record, kinds: seq<Kind>, i: nat, u: World)
    requires i < |kinds| && Attempt(w, r, kinds, i + 1, u)
    ensures Attempt(w, r, kinds, i, ReleaseHandle(u, r.instance, w.store.next + i).0)
  {
    hide StoreAfter, CapsAfter, SubsAfter, ReleaseIn, Unpublish, SubsOf;
    ShrunkStore(w.store, r, kinds, i, u.store);
    var base := u.(store := ReleaseIn(u.store, w.store.next + i).0);
    UnpublishSame(base, r.instance, kinds[i]);
    if kinds[i].FailRelease? { UnpublishNothing(base, r.instance, kinds[i]); }
    ShrunkCaps(w, r, kinds, i, base);
    forall t ensures SubsOf(Unpublish(base, r.instance, kinds[i]), t) == SubsAfter(SubsOf(w, t), r, kinds, i, t) {
      SameSubs(u, base, t);
      ShrunkSubs(w, r, kinds, i, base, t);
    }
  }

  lemma UnpublishNothing(w: World, inst: nat, k: Kind)
    requires k.FailRelease?
    ensures Unpublish(w, inst, k) == w
  {}

  function FreshHandles(next: nat, n: nat): seq<nat> {
    seq(n, j => next + j)
  }

  lemma {:induction false} AttemptUndone(w: World, r: Record, kinds: seq<Kind>, i: nat, u: World)
    requires Attempt(w, r, kinds, i, u)
    ensures Attempt(w, r, kinds, 0, RollbackAcquired(u, r.instance, FreshHandles(w.store.next, i)))
    decreases i
  {
    hide Attempt, ReleaseHandle;
    BoundedAttempt(w, r, kinds, i, u);
    if i > 0 {
      var hs := FreshHandles(w.store.next, i);
      assert hs[..i - 1] == FreshHandles(w.store.next, i - 1);
      AttemptShrinks(w, r, kinds, i - 1, u);
      AttemptUndone(w, r, kinds, i - 1, ReleaseHandle(u, r.instance, hs[i - 1]).0);
    }
  }

  lemma BoundedAttempt(w: World, r: Record, kinds: seq<Kind>, i: nat, u: World)
    requires Attempt(w, r, kinds, i, u)
    ensures i <= |kinds|
  {}

  lemma {:induction false} ProvisionOutcome(w: World, r: Record, kinds: seq<Kind>, i: nat, u: World)
    requires i <= FirstBad(kinds) && Attempt(w, r, kinds[..i], i, u) && OnlyPublications(kinds)
    requires u.store.next == w.store.next + i
    ensures var (v, ok) := Provision(u, r, kinds, i, FreshHandles(w.store.next, i));
      && (ok <==> FirstBad(kinds) == |kinds|)
      && (ok ==> Attempt(w, r, kinds, |kinds|, v))
      && (!ok ==> Attempt(w, r, kinds[..FirstBad(kinds)], 0, v))
    decreases |kinds| - i
  {
    hide Attempt, Obtain, RollbackAcquired;
    if i == |kinds| {
      assert kinds[..i] == kinds;
    } else {
      assert kinds[i] in kinds;
      if i < FirstBad(kinds) {
        assert kinds[..FirstBad(kinds)][i] == kinds[i];
        AttemptGrows(w, r, kinds, i, u, true);
        assert FreshHandles(w.store.next, i) + [w.store.next + i] == FreshHandles(w.store.next, i + 1);
        ProvisionOutcome(w, r, kinds, i + 1, Obtain(u, r, kinds[i], true).0);
      } else {
        RefusedObtain(u, r, kinds[i]);
        AttemptUndone(w, r, kinds[..i], i, u);
      }
    }
  }

  lemma RefusedObtain(w: World, r: Record, k: Kind)
    requires !Acceptable(k)
    ensures Obtain(w, r, k, true) == (w, None)
  {}

  lemma AttemptBegins(w: World, r: Record)
    requires StoreOk(w.store)
    ensures Attempt(w, r, [], 0, w)
  {
    hide Indexed, Counted;
  }

  /** A definition's resources are acquired all or none. They are acquired exactly when
      every kind is acceptable: then each has a new resource the instance holds and
      publishes. Otherwise every resource made on the way is released again. Either way
      earlier records are as before. */
  lemma ProvisionAllOrNone(w: World, r: Record, kinds: seq<Kind>)
    requires StoreOk(w.store) && OnlyPublications(kinds)
    ensures var (u, ok) := Provision(w, r, kinds, 0, []);
      && (ok <==> forall k :: k in kinds ==> Acceptable(k))
      && (forall h :: h in w.store.records ==> h in u.store.records && u.store.records[h] == w.store.records[h])
      && (ok ==> forall h :: h in u.store.records && h !in w.store.records ==> h < w.store.next + |kinds|)
      && (ok ==> forall j :: 0 <= j < |kinds| ==>
            Backs(u.store, w.store.next + j, kinds[j], r.instance) && Published(u, kinds[j], r.instance))
      && (!ok ==> forall h :: h in u.store.records && h !in w.store.records ==> u.store.records[h].released)
  {
    hide StoreOk, Provision, Attempt, Published;
    AttemptBegins(w, r);
    assert kinds[..0] == [] && FreshHandles(w.store.next, 0) == [];
    ProvisionOutcome(w, r, kinds, 0, w);
    AllAcceptable(kinds);
    var (u, ok) := Provision(w, r, kinds, 0, []);
    if ok {
      AttemptKeeps(w, r, kinds, |kinds|, u);
      forall j | 0 <= j < |kinds|
        ensures Backs(u.store, w.store.next + j, kinds[j], r.instance) && Published(u, kinds[j], r.instance)
      {
        assert kinds[j] in kinds;
        AttemptHolds(w, r, kinds, u, j);
        AttemptPublishes(w, r, kinds, u, j);
      }
    } else {
      AttemptKeeps(w, r, kinds[..FirstBad(kinds)], 0, u);
      assert forall k :: k in kinds[..FirstBad(kinds)] ==> k in kinds;
    }
  }

  lemma AttemptKeeps(w: World, r: Record, kinds: seq<Kind>, i: nat, u: World)
    requires Attempt(w, r, kinds, i, u)
    ensures forall h :: h in u.store.records && h !in w.store.records ==> h < w.store.next + |kinds|
    ensures forall h :: h in w.store.records ==> h in u.store.records && u.store.records[h] == w.store.records[h]
    ensures i == 0 ==> forall h :: h in u.store.records && h !in w.store.records ==>
              && u.store.records[h].kind in kinds
              && (u.store.records[h].released <==> !u.store.records[h].kind.FailRelease?)
  {
    hide CapsAfter, SubsAfter, SubsOf;
  }

  lemma AttemptHolds(w: World, r: Record, kinds: seq<Kind>, u: World, j: nat)
    requires Attempt(w, r, kinds, |kinds|, u) && j < |kinds|
    ensures Backs(u.store, w.store.next + j, kinds[j], r.instance)
  {
    hide CapsAfter, SubsAfter, SubsOf;
    var h := w.store.next + j;
    assert w.store.next <= h < w.store.next + |kinds|;
  }

  lemma AllAcceptable(kinds: seq<Kind>)
    ensures FirstBad(kinds) == |kinds| <==> forall k :: k in kinds ==> Acceptable(k)
  {
    var m := FirstBad(kinds);
    if m < |kinds| { assert kinds[m] in kinds; } else { assert kinds[..m] == kinds; }
  }

  lemma AttemptPublishes(w: World, r: Record, kinds: seq<Kind>, u: World, j: nat)
    requires Attempt(w, r, kinds, |kinds|, u) && j < |kinds| && (kinds[j].Cap? || kinds[j].Sub?)
    ensures Published(u, kinds[j], r.instance)
  {
    assert kinds[j] in kinds && kinds[|kinds|..] == [] && kinds[..|kinds|] == kinds;
    match kinds[j] {
      case Cap(n) => assert EntryAt(u.caps, n) == Some(Entry(r.logical, r.instance, r.generation));
      case Sub(t) => assert Subscriber(r.logical, r.instance) in SubsOf(u, t);
    }
  }

  /** What a failed acquisition does to the publications of others: their subscriptions
      stay, but a capability entry survives exactly when its name was not among the
      kinds registered before the failing one. The rollback restores no replaced entry. */
  lemma FailedProvisionDrops(w: World, r: Record, kinds: seq<Kind>, n: string, t: string)
    requires StoreOk(w.store) && OnlyPublications(kinds) && FirstBad(kinds) < |kinds|
    ensures var u := Provision(w, r, kinds, 0, []).0;
      && (n in u.caps <==> n in w.caps && Cap(n) !in kinds[..FirstBad(kinds)])
      && (n in u.caps ==> u.caps[n] == w.caps[n])
      && Unowned(SubsOf(u, t), r.instance) == Unowned(SubsOf(w, t), r.instance)
  {
    hide StoreOk, Provision, StoreAfter, SubsOf;
    AttemptBegins(w, r);
    assert kinds[..0] == [] && FreshHandles(w.store.next, 0) == [];
    ProvisionOutcome(w, r, kinds, 0, w);
    var done := kinds[..FirstBad(kinds)];
    assert done[0..] == done && done[..0] == [];
    var u := Provision(w, r, kinds, 0, []).0;
    assert EntryAt(u.caps, n) == if Cap(n) in done then None else EntryAt(w.caps, n);
    UnownedTwice(SubsOf(w, t), r.instance);
  }

  // ---- a batch of any kinds ----

  /** One item of a batch; `spawned` tells whether its thread, if it has one, starts. */
  datatype Ask = Ask(kind: Kind, spawned: bool)

  /** What was acquired is released again, newest first. */
  function ReleaseBatch(w: World, acquired: seq<nat>): World
    decreases |acquired|
  {
    if acquired == [] then w
    else
      var n := |acquired| - 1;
      ReleaseBatch(Release(w, acquired[n], false), acquired[..n])
  }

  /** The items from position `i` on; the first that fails undoes the earlier ones. */
  function Batch(w: World, l: Name, asks: seq<Ask>, i: nat, acquired: seq<nat>): (World, Option<seq<nat>>)
    requires i <= |asks|
    decreases |asks| - i
  {
    if i == |asks| then (w, Some(acquired))
    else
      var (w1, h) := Acquire(w, l, asks[i].kind, asks[i].spawned, true);
      if h.None? then (ReleaseBatch(w1, acquired), None)
      else Batch(w1, l, asks, i + 1, acquired + [h.value])
  }

  lemma {:induction false} ReleaseBatchOk(w: World, acquired: seq<nat>)
    requires Inv(w)
    ensures Inv(ReleaseBatch(w, acquired))
    decreases |acquired|
  {
    hide Inv, Release;
    if acquired != [] {
      ReleaseOk(w, acquired[|acquired| - 1], false);
      ReleaseBatchOk(Release(w, acquired[|acquired| - 1], false), acquired[..|acquired| - 1]);
    }
  }

  lemma {:induction false} BatchOk(w: World, l: Name, asks: seq<Ask>, i: nat, acquired: seq<nat>)
    requires Inv(w) && i <= |asks|
    ensures Inv(Batch(w, l, asks, i, acquired).0)
    decreases |asks| - i
  {
    hide Inv, Acquire, ReleaseBatch;
    if i < |asks| {
      var (w1, h) := Acquire(w, l, asks[i].kind, asks[i].spawned, true);
      AcquireOk(w, l, asks[i].kind, asks[i].spawned, true);
      if h.None? { ReleaseBatchOk(w1, acquired); } else { BatchOk(w1, l, asks, i + 1, acquired + [h.value]); }
    }
  }

  function KindsOf(asks: seq<Ask>): seq<Kind> {
    seq(|asks|, i requires 0 <= i < |asks| => asks[i].kind)
  }

  /** How many items are taken before the first that is not. */
  function Taken(asks: seq<Ask>): (m: nat)
    ensures m <= |asks| && (m < |asks| ==> !Registers(asks[m].kind, asks[m].spawned))
    ensures forall i :: 0 <= i < m ==> Registers(asks[i].kind, asks[i].spawned)
  {
    if asks == [] || !Registers(asks[0].kind, asks[0].spawned) then 0 else 1 + Taken(asks[1..])
  }

  predicate InService(t: Table, l: Name) {
    Contexts.Current(t, l).Some? && Contexts.Current(t, l).value.state == Active
  }

  lemma ReleaseIsHandle(w: World, r: Record, kinds: seq<Kind>, i: nat, u: World)
    requires i < |kinds| && Attempt(w, r, kinds, i + 1, u)
    ensures Release(u, w.store.next + i, false) == ReleaseHandle(u, r.instance, w.store.next + i).0
  {
    hide CapsAfter, SubsAfter, SubsOf, ReleaseHandle;
    assert w.store.next + i in u.store.records;
  }

  lemma {:induction false} BatchUndone(w: World, r: Record, kinds: seq<Kind>, i: nat, u: World)
    requires Attempt(w, r, kinds, i, u)
    ensures Attempt(w, r, kinds, 0, ReleaseBatch(u, FreshHandles(w.store.next, i)))
    decreases i
  {
    hide Attempt, ReleaseHandle, Release;
    BoundedAttempt(w, r, kinds, i, u);
    if i > 0 {
      var hs := FreshHandles(w.store.next, i);
      assert hs[..i - 1] == FreshHandles(w.store.next, i - 1);
      AttemptShrinks(w, r, kinds, i - 1, u);
      ReleaseIsHandle(w, r, kinds, i - 1, u);
      BatchUndone(w, r, kinds, i - 1, ReleaseHandle(u, r.instance, hs[i - 1]).0);
    }
  }

  /** A kind the table does not take leaves every record and every entry as it was. */
  lemma RefusedLeaves(w: World, r: Record, kinds: seq<Kind>, i: nat, u: World, k: Kind, spawned: bool)
    requires Attempt(w, r, kinds, i, u) && !Registers(k, spawned) && StoreOk(u.store)
    ensures var (v, h) := Obtain(u, r, k, spawned);
      h.None? && Attempt(w, r, kinds, i, v)
  {
    hide StoreOk, CapsAfter, SubsAfter;
    RegisterFrame(u.store, r.context, r.instance, k, spawned);
    var v := Obtain(u, r, k, spawned).0;
    forall t ensures SubsOf(v, t) == SubsAfter(SubsOf(w, t), r, kinds, i, t) { SameSubs(u, v, t); }
  }

  lemma {:induction false} BatchOutcome(w: World, l: Name, asks: seq<Ask>, i: nat, u: World)
    requires InService(w.table, l) && i <= Taken(asks) && StoreOk(u.store)
    requires Attempt(w, Contexts.Current(w.table, l).value, KindsOf(asks[..i]), i, u)
    requires u.store.next == w.store.next + i
    ensures var (v, got) := Batch(u, l, asks, i, FreshHandles(w.store.next, i));
      var r := Contexts.Current(w.table, l).value;
      && (got == if Taken(asks) == |asks| then Some(FreshHandles(w.store.next, |asks|)) else None)
      && (got.Some? ==> Attempt(w, r, KindsOf(asks), |asks|, v))
      && (got.None? ==> Attempt(w, r, KindsOf(asks[..Taken(asks)]), 0, v))
    decreases |asks| - i
  {
    hide Attempt, StoreOk, ReleaseBatch, Obtain, Registers;
    var r := Contexts.Current(w.table, l).value;
    AttemptTable(w, r, KindsOf(asks[..i]), i, u);
    if i == |asks| {
      assert asks[..i] == asks;
    } else {
      var kinds := KindsOf(asks);
      assert KindsOf(asks[..i]) == kinds[..i];
      var Ask(k, spawned) := asks[i];
      ObtainStore(u, r, k, spawned);
      if i < Taken(asks) {
        AttemptGrows(w, r, kinds, i, u, spawned);
        assert KindsOf(asks[..i + 1]) == kinds[..i + 1];
        assert FreshHandles(w.store.next, i) + [w.store.next + i] == FreshHandles(w.store.next, i + 1);
        BatchOutcome(w, l, asks, i + 1, Obtain(u, r, k, spawned).0);
      } else {
        RefusedLeaves(w, r, kinds[..i], i, u, k, spawned);
        BatchUndone(w, r, kinds[..i], i, Obtain(u, r, k, spawned).0);
      }
    }
  }

  lemma AttemptTable(w: World, r: Record, kinds: seq<Kind>, i: nat, u: World)
    requires Attempt(w, r, kinds, i, u)
    ensures u.table == w.table
  {}

  lemma ObtainStore(w: World, r: Record, k: Kind, spawned: bool)
    requires StoreOk(w.store)
    ensures StoreOk(Obtain(w, r, k, spawned).0.store)
  {
    hide StoreOk;
    RegisterOk(w.store, r.context, r.instance, k, spawned);
    var (s, h) := RegisterIn(w.store, r.context, r.instance, k, spawned);
    PublishSame(w.(store := s), r, k);
  }

  /** An activation in service gets a whole batch exactly when every item is taken: each
      then has a new resource that is held, and published if it is a capability or a
      subscription. Otherwise every resource made on the way is released, except those
      that refuse. Earlier records are as before either way. */
  lemma BatchAllOrNone(w: World, l: Name, asks: seq<Ask>)
    requires StoreOk(w.store) && InService(w.table, l)
    ensures var (u, got) := Batch(w, l, asks, 0, []);
      var inst := Contexts.Current(w.table, l).value.instance;
      && (got.Some? <==> forall i :: 0 <= i < |asks| ==> Registers(asks[i].kind, asks[i].spawned))
      && (forall h :: h in w.store.records ==> h in u.store.records && u.store.records[h] == w.store.records[h])
      && (got.Some? ==> |got.value| == |asks| && forall i :: 0 <= i < |asks| ==>
            && Backs(u.store, got.value[i], asks[i].kind, inst)
            && (asks[i].kind.Cap? || asks[i].kind.Sub? ==> Published(u, asks[i].kind, inst)))
      && (got.None? ==> forall h :: h in u.store.records && h !in w.store.records ==>
            (u.store.records[h].released <==> !u.store.records[h].kind.FailRelease?))
  {
    hide StoreOk, Batch, Attempt, Published, Registers;
    var r := Contexts.Current(w.table, l).value;
    AttemptBegins(w, r);
    assert KindsOf(asks[..0]) == [] && FreshHandles(w.store.next, 0) == [];
    BatchOutcome(w, l, asks, 0, w);
    var (u, got) := Batch(w, l, asks, 0, []);
    if got.Some? {
      AttemptKeeps(w, r, KindsOf(asks), |asks|, u);
      forall i | 0 <= i < |asks|
        ensures Backs(u.store, got.value[i], asks[i].kind, r.instance)
        ensures asks[i].kind.Cap? || asks[i].kind.Sub? ==> Published(u, asks[i].kind, r.instance)
      {
        AttemptHolds(w, r, KindsOf(asks), u, i);
        if asks[i].kind.Cap? || asks[i].kind.Sub? { AttemptPublishes(w, r, KindsOf(asks), u, i); }
      }
    } else {
      AttemptKeeps(w, r, KindsOf(asks[..Taken(asks)]), 0, u);
    }
  }

  /** What a failed batch does to the publications of others: their subscriptions stay,
      but a capability entry survives exactly when its name was not acquired before the
      failing item. The releases restore no entry that was replaced. */
  lemma FailedBatchDrops(w: World, l: Name, asks: seq<Ask>, n: string, t: string)
    requires StoreOk(w.store) && InService(w.table, l) && Taken(asks) < |asks|
    ensures var u := Batch(w, l, asks, 0, []).0;
      var inst := Contexts.Current(w.table, l).value.instance;
      && (n in u.caps <==> n in w.caps && Cap(n) !in KindsOf(asks[..Taken(asks)]))
      && (n in u.caps ==> u.caps[n] == w.caps[n])
      && Unowned(SubsOf(u, t), inst) == Unowned(SubsOf(w, t), inst)
  {
    hide StoreOk, Batch, StoreAfter, SubsOf, Registers;
    var r := Contexts.Current(w.table, l).value;
    AttemptBegins(w, r);
    assert KindsOf(asks[..0]) == [] && FreshHandles(w.store.next, 0) == [];
    BatchOutcome(w, l, asks, 0, w);
    var done := KindsOf(asks[..Taken(asks)]);
    assert done[0..] == done && done[..0] == [];
    var u := Batch(w, l, asks, 0, []).0;
    assert EntryAt(u.caps, n) == if Cap(n) in done then None else EntryAt(w.caps, n);
    UnownedTwice(SubsOf(w, t), r.instance);
  }

  /** So a batch that takes a name another instance provides, and then fails, leaves
      nobody providing it. */
  lemma FailedBatchCanDrop(w: World, l: Name)
    requires StoreOk(w.store) && InService(w.table, l)
    ensures "x" !in Batch(w, l, [Ask(Cap("x"), true), Ask(FailAcquire("f"), true)], 0, []).0.caps
  {
    hide StoreOk, Batch;
    var asks := [Ask(Cap("x"), true), Ask(FailAcquire("f"), true)];
    assert !Blank("x") by { assert 'x' in "x"; }
    assert asks[1..] == [Ask(FailAcquire("f"), true)];
    assert Taken(asks) == 1 && KindsOf(asks[..1]) == [Cap("x")];
    FailedBatchDrops(w, l, asks, "x", "");
  }

  // ---- what disposing one activation does to the others ----

  ghost predicate Ownerless(w: World) {
    exists n :: n in w.caps && w.caps[n].instance == 0
  }

  /** Everything of other instances is as before: their capability entries, their
      subscriptions in order, their resources. Nothing new is published. */
  ghost predicate KeepsOthers(w: World, u: World, inst: nat) {
    && (forall n :: n in u.caps ==> n in w.caps && u.caps[n] == w.caps[n])
    && (forall n :: n in w.caps && w.caps[n].instance != inst ==> n in u.caps)
    && (forall t :: Unowned(SubsOf(u, t), inst) == Unowned(SubsOf(w, t), inst))
    && (forall h :: h in w.store.records && w.store.records[h].instance != inst ==>
          h in u.store.records && u.store.records[h] == w.store.records[h])
  }

  lemma KeepsTransitive(a: World, b: World, c: World, inst: nat)
    requires KeepsOthers(a, b, inst) && KeepsOthers(b, c, inst)
    ensures KeepsOthers(a, c, inst)
  {
    hide Unowned;
  }

  lemma {:induction false} UnownedTwice(v: seq<Subscriber>, inst: nat)
    ensures Unowned(Unowned(v, inst), inst) == Unowned(v, inst)
  {
    if v != [] {
      var rest := Unowned(v[1..], inst);
      UnownedTwice(v[1..], inst);
      if v[0].instance == inst || v[0].instance == 0 {
        assert Unowned(v, inst) == rest;
      } else {
        assert ([v[0]] + rest)[1..] == rest;
      }
    }
  }

  lemma UnpublishKeeps(w: World, inst: nat, k: Kind)
    requires !Ownerless(w)
    ensures KeepsOthers(w, Unpublish(w, inst, k), inst) && !Ownerless(Unpublish(w, inst, k))
  {
    if k.Sub? && k.topic in w.subs {
      UnownedTwice(w.subs[k.topic], inst);
    }
  }

  lemma ReleaseHandleKeeps(w: World, inst: nat, h: nat)
    requires !Ownerless(w) && (h in w.store.records ==> w.store.records[h].instance == inst)
    ensures KeepsOthers(w, ReleaseHandle(w, inst, h).0, inst) && !Ownerless(ReleaseHandle(w, inst, h).0)
    ensures Fewer(w.store, ReleaseHandle(w, inst, h).0.store)
  {
    var (s, r) := ReleaseIn(w.store, h);
    var base := w.(store := s);
    assert KeepsOthers(w, base, inst);
    if r.Claimed? {
      UnpublishKeeps(base, inst, r.kind);
      UnpublishSame(base, inst, r.kind);
      KeepsTransitive(w, base, Unpublish(base, inst, r.kind), inst);
    }
  }

  lemma {:induction false} ReleaseFromKeeps(w: World, ctx: nat, inst: nat, handles: seq<nat>, i: nat)
    requires !Ownerless(w) && i <= |handles| && AllOf(w.store, handles, inst)
    ensures KeepsOthers(w, ReleaseFrom(w, ctx, inst, handles, i).0, inst)
    decreases i
  {
    hide KeepsOthers, ReleaseHandle, Ownerless;
    if i == 0 {
      KeepsSelf(w, inst);
    } else {
      var h := handles[i - 1];
      if Held(w.store, h, ctx) && !w.store.records[h].released {
        var w1 := ReleaseHandle(w, inst, h).0;
        ReleaseHandleKeeps(w, inst, h);
        ReleaseFromKeeps(w1, ctx, inst, handles, i - 1);
        KeepsTransitive(w, w1, ReleaseFrom(w1, ctx, inst, handles, i - 1).0, inst);
      } else {
        ReleaseFromKeeps(w, ctx, inst, handles, i - 1);
      }
    }
  }

  lemma KeepsSelf(w: World, inst: nat)
    ensures KeepsOthers(w, w, inst)
  {}

  lemma {:induction false} RevokeFromKeeps(w: World, ctx: nat, inst: nat, handles: seq<nat>, i: nat)
    requires !Ownerless(w) && i <= |handles|
    ensures var u := RevokeFrom(w, ctx, inst, handles, i);
      KeepsOthers(w, u, inst) && !Ownerless(u) && u.store == w.store && u.table == w.table
    decreases |handles| - i
  {
    hide KeepsOthers, Unpublish, Ownerless;
    if i == |handles| {
      KeepsSelf(w, inst);
    } else {
      var h := handles[i];
      if Held(w.store, h, ctx) {
        var w1 := Unpublish(w, inst, w.store.records[h].kind);
        UnpublishKeeps(w, inst, w.store.records[h].kind);
        UnpublishSame(w, inst, w.store.records[h].kind);
        RevokeFromKeeps(w1, ctx, inst, handles, i + 1);
        KeepsTransitive(w, w1, RevokeFrom(w1, ctx, inst, handles, i + 1), inst);
      } else {
        RevokeFromKeeps(w, ctx, inst, handles, i + 1);
      }
    }
  }

  lemma KeepsRetabled(w: World, u: World, t: Table, v: Table, inst: nat)
    requires KeepsOthers(w.(table := t), u, inst)
    ensures KeepsOthers(w, u.(table := v), inst)
  {
    hide Unowned;
    forall x ensures Unowned(SubsOf(u.(table := v), x), inst) == Unowned(SubsOf(w, x), inst) {
      assert SubsOf(u.(table := v), x) == SubsOf(u, x) && SubsOf(w.(table := t), x) == SubsOf(w, x);
    }
  }

  /** Disposing an activation leaves the entries and resources of every other one
      unchanged. */
  lemma DisposeKeepsOthers(w: World, inst: nat, busy: Option<string>)
    requires Inv(w)
    ensures KeepsOthers(w, Dispose(w, inst, busy), inst)
  {
    hide KeepsOthers, RevokeFrom, ReleaseFrom, Ownerless;
    var (t, claim) := ClaimDispose(w.table, inst);
    if claim != Fresh {
      KeepsSelf(w, inst);
    } else {
      var w1 := w.(table := t);
      var ctx := w.table.byInstance[inst].context;
      var handles := Handles(w.store, ctx);
      var u := RevokeFrom(w1, ctx, inst, handles, 0);
      NoneOwnerless(w, t);
      HandlesAre(w, inst);
      RevokeFromKeeps(w1, ctx, inst, handles, 0);
      if busy.Some? {
        KeepsRetabled(w, u, t, SetState(t, inst, CleanupPending, busy), inst);
      } else {
        var (v, failures) := ReleaseFrom(u, ctx, inst, handles, |handles|);
        ReleaseFromKeeps(u, ctx, inst, handles, |handles|);
        KeepsTransitive(w1, u, v, inst);
        KeepsRetabled(w, v, t, Dispose(w, inst, busy).table, inst);
      }
    }
  }

  lemma NoneOwnerless(w: World, t: Table)
    requires Inv(w)
    ensures !Ownerless(w.(table := t))
  {
    hide StoreOk, Numbered;
    forall n | n in w.caps ensures w.caps[n].instance != 0 {
      assert Published(w, Cap(n), w.caps[n].instance) && Backed(w, Cap(n), w.caps[n].instance);
    }
  }

  // ---- every run ----

  datatype Step =
    | Create(l: Name, state: Fsm, cause: Option<string>)
    | Await(inst: nat, reason: string)
    | Activate(inst: nat)
    | Fail(l: Name, reason: string)
    | Obtains(l: Name, kind: Kind, spawned: bool, still: bool)
    | Provisions(inst: nat, caps: seq<string>, subs: seq<string>)
    | Releases(h: nat, pinned: bool)
    | Disposes(inst: nat, busy: Option<string>)
    | Finalizes(inst: nat, inFlight: bool)

  function Kinds(caps: seq<string>, subs: seq<string>): seq<Kind> {
    seq(|caps|, i requires 0 <= i < |caps| => Cap(caps[i])) + seq(|subs|, i requires 0 <= i < |subs| => Sub(subs[i]))
  }

  /** When the kernel takes a step: a new activation replaces one out of service,
      only the current activation is promoted, and a definition's resources are
      acquired for an activation that has not been withdrawn. */
  ghost predicate Enabled(w: World, s: Step) {
    match s
    case Create(l, state, _) => ReplacesIdle(w.table, l, state)
    case Activate(inst) =>
      inst in w.table.byInstance
      && Contexts.Current(w.table, w.table.byInstance[inst].logical) == Some(w.table.byInstance[inst])
    case Provisions(inst, _, _) => inst in w.table.byInstance && !Withdrawn(w.table.byInstance[inst].state)
    case _ => true
  }

  function Apply(w: World, s: Step): World {
    match s
    case Create(l, state, cause) => w.(table := CreateIn(w.table, l, state, cause))
    case Await(inst, cause) => w.(table := MarkWaiting(w.table, inst, cause).0)
    case Activate(inst) => w.(table := MarkActive(w.table, inst).0)
    case Fail(l, cause) =>
      if Contexts.Current(w.table, l).Some?
      then w.(table := SetState(w.table, Contexts.Current(w.table, l).value.instance, Failed, Some(cause))) else w
    case Obtains(l, kind, spawned, still) => Acquire(w, l, kind, spawned, still).0
    case Provisions(inst, caps, subs) =>
      if inst in w.table.byInstance then Provision(w, w.table.byInstance[inst], Kinds(caps, subs), 0, []).0 else w
    case Releases(h, pinned) => Release(w, h, pinned)
    case Disposes(inst, busy) => Dispose(w, inst, busy)
    case Finalizes(inst, busy) => Finalize(w, inst, busy)
  }

  lemma RecordAt(t: Table, inst: nat)
    requires TableOk(t) && inst in t.byInstance
    ensures t.byInstance[inst].instance == inst
    ensures t.byInstance[inst].logical in t.current && t.current[t.byInstance[inst].logical] in t.byInstance
    ensures t.byInstance[t.current[t.byInstance[inst].logical]].instance == t.current[t.byInstance[inst].logical]
  {
    assert RecordOk(t, inst);
    var l := t.byInstance[inst].logical;
    assert CurrentOk(t, l);
    assert RecordOk(t, t.current[l]);
  }

  lemma StepOk(w: World, s: Step)
    requires Inv(w) && Enabled(w, s)
    ensures Inv(Apply(w, s))
  {
    hide StoreOk, Owned, Backed, Apart, TableOk, RecordOk, CurrentOk, Published, ReplacesIdle;
    hide CreateIn, Acquire, Provision, Release, Dispose, Finalize;
    match s
    case Create(l, state, cause) => CreateOk(w, l, state, cause);
    case Await(inst, cause) =>
      if inst in w.table.byInstance && Pending(w.table.byInstance[inst].state) {
        MarkOk(w, inst, Waiting, Some(cause));
      }
    case Activate(inst) =>
      RecordAt(w.table, inst);
      if Pending(w.table.byInstance[inst].state) { MarkOk(w, inst, Active, None); }
    case Fail(l, cause) =>
      var cur := Contexts.Current(w.table, l);
      if cur.Some? {
        RecordAt(w.table, w.table.current[l]);
        MarkOk(w, cur.value.instance, Failed, Some(cause));
      }
    case Obtains(l, kind, spawned, still) => AcquireOk(w, l, kind, spawned, still);
    case Provisions(inst, caps, subs) =>
      RecordAt(w.table, inst);
      ProvisionOk(w, w.table.byInstance[inst], Kinds(caps, subs), 0, []);
    case Releases(h, pinned) => ReleaseOk(w, h, pinned);
    case Disposes(inst, busy) => DisposeOk(w, inst, busy);
    case Finalizes(inst, busy) => FinalizeOk(w, inst, busy);
  }

  ghost predicate Run(ws: seq<World>, steps: seq<Step>) {
    && |ws| == |steps| + 1 && ws[0] == EMPTY_WORLD
    && forall i :: 0 <= i < |steps| ==> Enabled(ws[i], steps[i]) && ws[i + 1] == Apply(ws[i], steps[i])
  }

  lemma EmptyOk()
    ensures Inv(EMPTY_WORLD)
  {}

  /** In every reachable state the owner index and the records agree, no handle was
      claimed twice, the release counter counts the Released records, and every
      published entry is backed by a resource its instance still holds. */
  lemma {:induction false} AlwaysHeld(ws: seq<World>, steps: seq<Step>, n: nat)
    requires Run(ws, steps) && n < |ws|
    ensures Inv(ws[n])
    decreases n
  {
    hide Inv, Enabled, Apply;
    if n == 0 {
      EmptyOk();
    } else {
      AlwaysHeld(ws, steps, n - 1);
      StepOk(ws[n - 1], steps[n - 1]);
    }
  }
}

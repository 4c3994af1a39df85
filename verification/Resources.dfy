/** The resource table: who owns what, in acquisition order, and which handles
    have been claimed for release. */
module Resources {
  import opened Names

  datatype Kind =
    | Cap(name: string)
    | Sub(topic: string)
    | Timer(tag: string, interval: nat)
    | Task(tag: string)
    | FailAcquire(tag: string)
    | FailRelease(tag: string)

  predicate IsSpace(c: char) {
    var n := c as int;
    9 <= n <= 13 || n in {0x20, 0x85, 0xA0, 0x1680, 0x2028, 0x2029, 0x202F, 0x205F, 0x3000} || 0x2000 <= n <= 0x200A
  }

  predicate Blank(s: string) {
    forall c :: c in s ==> IsSpace(c)
  }

  predicate Acceptable(k: Kind) {
    match k
    case Cap(name) => !Blank(name)
    case Sub(topic) => !Blank(topic)
    case Timer(tag, interval) => !Blank(tag) && 0 < interval <= 60_000
    case Task(tag) => !Blank(tag)
    case FailAcquire(_) => false
    case FailRelease(tag) => !Blank(tag)
  }

  datatype Resource = Resource(kind: Kind, context: nat, instance: nat, released: bool)

  /** `claims` lists the handles whose release was granted, oldest first. */
  datatype Store = Store(records: map<nat, Resource>, owners: map<nat, seq<nat>>, next: nat,
                         releases: nat, doubles: nat, claims: seq<nat>)

  const NOTHING := Store(map[], map[], 1, 0, 0, [])

  function Handles(s: Store, ctx: nat): seq<nat> {
    if ctx in s.owners then s.owners[ctx] else []
  }

  function Without(v: seq<nat>, h: nat): seq<nat> {
    if v == [] then []
    else (if v[0] == h then [] else [v[0]]) + Without(v[1..], h)
  }

  function Rollback(s: Store, h: nat): Store {
    if h in s.records && !s.records[h].released then
      var ctx := s.records[h].context;
      s.(records := s.records - {h},
         owners := if ctx in s.owners then s.owners[ctx := Without(s.owners[ctx], h)] else s.owners)
    else s
  }

  function Enroll(s: Store, ctx: nat, inst: nat, k: Kind): Store {
    s.(records := s.records[s.next := Resource(k, ctx, inst, false)],
       owners := s.owners[ctx := Handles(s, ctx) + [s.next]],
       next := s.next + 1)
  }

  /** Ownership is recorded first; a timer or task whose thread does not start is
      taken back. */
  function RegisterIn(s: Store, ctx: nat, inst: nat, k: Kind, spawned: bool): (Store, Option<nat>) {
    if !Acceptable(k) then (s, None)
    else if (k.Timer? || k.Task?) && !spawned then (Rollback(Enroll(s, ctx, inst, k), s.next), None)
    else (Enroll(s, ctx, inst, k), Some(s.next))
  }

  datatype Release = Claimed(kind: Kind, context: nat) | UnknownHandle | AlreadyReleased | Refused(tag: string)

  function ReleaseIn(s: Store, h: nat): (Store, Release) {
    if h !in s.records then (s, UnknownHandle)
    else
      var r := s.records[h];
      if r.released then (s.(doubles := s.doubles + 1), AlreadyReleased)
      else if r.kind.FailRelease? then (s, Refused(r.kind.tag))
      else (s.(records := s.records[h := r.(released := true)], releases := s.releases + 1, claims := s.claims + [h]),
            Claimed(r.kind, r.context))
  }

  // ---- what every state of the table satisfies ----

  predicate Ascending(v: seq<nat>) {
    forall i, j :: 0 <= i < j < |v| ==> v[i] < v[j]
  }

  predicate Held(s: Store, h: nat, ctx: nat) {
    h in s.records && s.records[h].context == ctx
  }

  /** The owner index lists exactly the owner's records, in acquisition order. */
  ghost predicate Indexed(s: Store, ctx: nat) {
    && Ascending(Handles(s, ctx))
    && forall h :: h in Handles(s, ctx) <==> Held(s, h, ctx)
  }

  predicate IsReleased(s: Store, h: nat) {
    h in s.records && s.records[h].released
  }

  ghost predicate Counted(s: Store) {
    && NoDup(s.claims)
    && s.releases == |s.claims|
    && forall h :: h in s.claims <==> IsReleased(s, h)
  }

  ghost predicate StoreOk(s: Store) {
    && (forall h :: h in s.records ==> h < s.next)
    && (forall ctx :: Indexed(s, ctx))
    && Counted(s)
  }

  /** The release counter counts exactly the Released records. */
  lemma ReleasesCounted(s: Store)
    requires StoreOk(s)
    ensures s.releases == |set h | h in s.records && s.records[h].released|
  {
    var gone := set h | h in s.records && s.records[h].released;
    assert Elems(s.claims) == gone by {
      forall h ensures h in Elems(s.claims) <==> h in gone {
        assert h in s.claims <==> IsReleased(s, h);
      }
    }
    NoDupCardinality(s.claims);
  }

  lemma {:induction false} WithoutMembers(v: seq<nat>, h: nat)
    ensures forall x :: x in Without(v, h) <==> x in v && x != h
  {
    if v != [] {
      WithoutMembers(v[1..], h);
      assert forall x :: x in v <==> x == v[0] || x in v[1..];
    }
  }

  lemma AscendingCons(x: nat, v: seq<nat>)
    requires Ascending(v) && forall y :: y in v ==> x < y
    ensures Ascending([x] + v)
  {
    var w := [x] + v;
    forall i, j | 0 <= i < j < |w| ensures w[i] < w[j] {
      assert w[j] == v[j - 1] && v[j - 1] in v;
    }
  }

  lemma {:induction false} WithoutAscends(v: seq<nat>, h: nat)
    requires Ascending(v)
    ensures Ascending(Without(v, h))
  {
    hide Ascending;
    if v != [] {
      var w := Without(v[1..], h);
      TailAscends(v);
      WithoutAscends(v[1..], h);
      if v[0] == h {
        assert Without(v, h) == w;
      } else {
        WithoutMembers(v[1..], h);
        AscendingCons(v[0], w);
      }
    } else {
      EmptyAscends();
    }
  }

  lemma EmptyAscends()
    ensures Ascending([])
  {}

  lemma TailAscends(v: seq<nat>)
    requires v != [] && Ascending(v)
    ensures Ascending(v[1..]) && forall y :: y in v[1..] ==> v[0] < y
  {}

  lemma EnrollIndexed(s: Store, owner: nat, inst: nat, k: Kind, ctx: nat)
    requires StoreOk(s)
    ensures Indexed(Enroll(s, owner, inst, k), ctx)
  {
    hide Counted;
    var t := Enroll(s, owner, inst, k);
    assert Indexed(s, ctx);
    if ctx == owner {
      var v := Handles(s, ctx);
      assert forall i :: 0 <= i < |v| ==> v[i] in v && Held(s, v[i], ctx);
      forall h ensures h in Handles(t, ctx) <==> Held(t, h, ctx) {
        assert h in v <==> Held(s, h, ctx);
      }
    } else {
      forall h ensures h in Handles(t, ctx) <==> Held(t, h, ctx) {
        assert h in Handles(s, ctx) <==> Held(s, h, ctx);
      }
    }
  }

  lemma SameReleased(s: Store, t: Store)
    requires Counted(s) && t.claims == s.claims && t.releases == s.releases
    requires forall h :: IsReleased(s, h) <==> IsReleased(t, h)
    ensures Counted(t)
  {}

  lemma EnrollOk(s: Store, ctx: nat, inst: nat, k: Kind)
    requires StoreOk(s)
    ensures StoreOk(Enroll(s, ctx, inst, k))
  {
    hide Indexed, Counted;
    var t := Enroll(s, ctx, inst, k);
    forall c ensures Indexed(t, c) { EnrollIndexed(s, ctx, inst, k, c); }
    SameReleased(s, t);
  }

  lemma RollbackIndexed(s: Store, h: nat, ctx: nat)
    requires StoreOk(s)
    ensures Indexed(Rollback(s, h), ctx)
  {
    hide Counted;
    var t := Rollback(s, h);
    assert Indexed(s, ctx);
    WithoutMembers(Handles(s, ctx), h);
    WithoutAscends(Handles(s, ctx), h);
    forall x ensures x in Handles(t, ctx) <==> Held(t, x, ctx) {
      assert x in Handles(s, ctx) <==> Held(s, x, ctx);
    }
  }

  lemma RollbackOk(s: Store, h: nat)
    requires StoreOk(s)
    ensures StoreOk(Rollback(s, h))
  {
    hide Indexed, Counted;
    var t := Rollback(s, h);
    forall c ensures Indexed(t, c) { RollbackIndexed(s, h, c); }
    SameReleased(s, t);
  }

  lemma RegisterOk(s: Store, ctx: nat, inst: nat, k: Kind, spawned: bool)
    requires StoreOk(s)
    ensures StoreOk(RegisterIn(s, ctx, inst, k, spawned).0)
  {
    hide StoreOk, Enroll, Rollback;
    EnrollOk(s, ctx, inst, k);
    RollbackOk(Enroll(s, ctx, inst, k), s.next);
  }

  lemma RegisterFrame(s: Store, ctx: nat, inst: nat, k: Kind, spawned: bool)
    requires StoreOk(s)
    ensures var (t, h) := RegisterIn(s, ctx, inst, k, spawned);
      && s.next <= t.next && s.next !in s.records
      && (h.None? ==> t.records == s.records)
      && (h.Some? ==> h.value == s.next)
      && (h.Some? ==> t.records == s.records[s.next := Resource(k, ctx, inst, false)])
  {
    hide Indexed, Counted;
  }

  lemma BeginReleaseOk(s: Store, h: nat)
    requires StoreOk(s)
    ensures StoreOk(ReleaseIn(s, h).0)
  {
    var t := ReleaseIn(s, h).0;
    forall ctx ensures Indexed(t, ctx) {
      assert Indexed(s, ctx);
      forall x ensures x in Handles(t, ctx) <==> Held(t, x, ctx) {
        assert x in Handles(s, ctx) <==> Held(s, x, ctx);
      }
    }
    if ReleaseIn(s, h).1.Claimed? {
      ClaimCounted(s, h);
    } else {
      SameReleased(s, t);
    }
  }

  lemma ClaimCounted(s: Store, h: nat)
    requires Counted(s) && ReleaseIn(s, h).1.Claimed?
    ensures Counted(ReleaseIn(s, h).0)
  {
    var t := ReleaseIn(s, h).0;
    assert !IsReleased(s, h);
    NoDupSnoc(s.claims, h);
    forall x ensures x in t.claims <==> IsReleased(t, x) {
      assert x in s.claims <==> IsReleased(s, x);
    }
  }

  /** A registration that is refused, or whose thread does not start, leaves nothing. */
  lemma RefusedLeaves(s: Store, ctx: nat, inst: nat, k: Kind, spawned: bool)
    requires StoreOk(s)
    ensures var (t, h) := RegisterIn(s, ctx, inst, k, spawned);
      h.None? ==> t.records == s.records && forall c :: Handles(t, c) == Handles(s, c)
  {
    var e := Enroll(s, ctx, inst, k);
    var was := Handles(s, ctx);
    OwnerListed(s, ctx);
    WithoutLast(was, s.next);
    assert e.records - {s.next} == s.records;
  }

  lemma {:induction false} WithoutLast(v: seq<nat>, h: nat)
    requires h !in v
    ensures Without(v + [h], h) == v
  {
    if v != [] {
      WithoutLast(v[1..], h);
      assert (v + [h])[1..] == v[1..] + [h];
    }
  }

  // ---- the table as the object the kernel updates ----

  class ResourceTable {
    var records: map<nat, Resource>
    var owners: map<nat, seq<nat>>
    var next: nat
    var releases: nat
    var doubles: nat
    ghost var claims: seq<nat>

    ghost function View(): Store
      reads this
    {
      Store(records, owners, next, releases, doubles, claims)
    }

    constructor ()
      ensures View() == NOTHING && StoreOk(View())
    {
      records, owners, next, releases, doubles, claims := map[], map[], 1, 0, 0, [];
    }

    method Register(ctx: nat, inst: nat, k: Kind, spawned: bool) returns (h: Option<nat>)
      modifies this
      ensures (View(), h) == RegisterIn(old(View()), ctx, inst, k, spawned)
      ensures h.Some? <==>
        match k
        case Cap(name) => !Blank(name)
        case Sub(topic) => !Blank(topic)
        case Timer(tag, interval) => !Blank(tag) && 1 <= interval <= 60_000 && spawned
        case Task(tag) => !Blank(tag) && spawned
        case FailAcquire(_) => false
        case FailRelease(tag) => !Blank(tag)
      ensures h.Some? ==>
        && h.value == old(next) && records == old(records)[h.value := Resource(k, ctx, inst, false)]
        && Handles(View(), ctx) == Handles(old(View()), ctx) + [h.value]
      ensures StoreOk(old(View())) && h.None? ==>
        records == old(records) && forall c :: Handles(View(), c) == Handles(old(View()), c)
    {
      if StoreOk(View()) { RefusedLeaves(View(), ctx, inst, k, spawned); }
      if !Acceptable(k) {
        return None;
      }
      var handle := next;
      next := next + 1;
      records := records[handle := Resource(k, ctx, inst, false)];
      owners := owners[ctx := (if ctx in owners then owners[ctx] else []) + [handle]];
      if (k.Timer? || k.Task?) && !spawned {
        RollbackRegister(handle);
        return None;
      }
      return Some(handle);
    }

    method RollbackRegister(h: nat)
      modifies this
      ensures View() == Rollback(old(View()), h)
    {
      if h !in records || records[h].released {
        return;
      }
      var ctx := records[h].context;
      records := records - {h};
      if ctx in owners {
        owners := owners[ctx := Without(owners[ctx], h)];
      }
    }

    method BeginRelease(h: nat) returns (r: Release)
      modifies this
      ensures (View(), r) == ReleaseIn(old(View()), h)
      ensures r.UnknownHandle? <==> h !in old(records)
      ensures h in old(records) ==>
        var was := old(records)[h];
        && (r.AlreadyReleased? <==> was.released)
        && (r.Claimed? <==> !was.released && !was.kind.FailRelease?)
        && (r.Claimed? ==> r.kind == was.kind && r.context == was.context)
        && records == (if r.Claimed? then old(records)[h := was.(released := true)] else old(records))
      ensures owners == old(owners) && releases == old(releases) + (if r.Claimed? then 1 else 0)
    {
      if h !in records {
        return UnknownHandle;
      }
      var rec := records[h];
      if rec.released {
        doubles := doubles + 1;
        return AlreadyReleased;
      }
      if rec.kind.FailRelease? {
        return Refused(rec.kind.tag);
      }
      records := records[h := rec.(released := true)];
      releases := releases + 1;
      claims := claims + [h];
      return Claimed(rec.kind, rec.context);
    }

    /** How many resources an owner still holds. */
    method ActiveFor(ctx: nat) returns (n: nat)
      requires StoreOk(View())
      ensures n == |ActiveIn(View(), ctx)|
    {
      hide StoreOk;
      var list := if ctx in owners then owners[ctx] else [];
      n := 0;
      for i := 0 to |list|
        invariant n == ActiveAmong(records, list, i)
      {
        if list[i] in records && !records[list[i]].released {
          n := n + 1;
        }
      }
      OwnerListed(View(), ctx);
      CountIsSet(records, list, |list|);
      assert list[..|list|] == list;
      assert ActiveIn(View(), ctx) == ActiveOf(records, list);
    }
  }

  function ActiveAmong(records: map<nat, Resource>, list: seq<nat>, i: nat): nat
    requires i <= |list|
  {
    if i == 0 then 0
    else ActiveAmong(records, list, i - 1) + if list[i - 1] in records && !records[list[i - 1]].released then 1 else 0
  }

  ghost function ActiveIn(s: Store, ctx: nat): set<nat> {
    set h | h in s.records && s.records[h].context == ctx && !s.records[h].released
  }

  lemma OwnerListed(s: Store, ctx: nat)
    requires StoreOk(s)
    ensures Ascending(Handles(s, ctx))
    ensures forall h :: h in Handles(s, ctx) <==> Held(s, h, ctx)
  {
    assert Indexed(s, ctx);
  }

  ghost function ActiveOf(records: map<nat, Resource>, list: seq<nat>): set<nat> {
    set h | h in list && h in records && !records[h].released
  }

  lemma ActiveOfSnoc(records: map<nat, Resource>, list: seq<nat>, x: nat)
    requires x !in list
    ensures |ActiveOf(records, list + [x])|
         == |ActiveOf(records, list)| + if x in records && !records[x].released then 1 else 0
  {
    var before := ActiveOf(records, list);
    if x in records && !records[x].released {
      assert ActiveOf(records, list + [x]) == before + {x};
    } else {
      assert ActiveOf(records, list + [x]) == before;
    }
  }

  lemma {:induction false} CountIsSet(records: map<nat, Resource>, list: seq<nat>, i: nat)
    requires Ascending(list) && i <= |list|
    ensures ActiveAmong(records, list, i) == |ActiveOf(records, list[..i])|
  {
    if i == 0 {
      assert ActiveOf(records, list[..0]) == {};
    } else {
      CountIsSet(records, list, i - 1);
      assert list[i - 1] !in list[..i - 1];
      assert list[..i] == list[..i - 1] + [list[i - 1]];
      ActiveOfSnoc(records, list[..i - 1], list[i - 1]);
    }
  }
}

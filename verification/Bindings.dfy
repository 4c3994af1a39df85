/** Requirements, capability matching and the resolution of a definition's
    requirements against the other definitions and their current activations. */
module Bindings {
  import opened Names
  import opened Graph
  import opened Contexts

  datatype Cap = Cap(base: string, major: Option<nat>)

  datatype Requirement = Requirement(face: string, base: string, major: Option<nat>, provider: Option<Name>)

  datatype Binding = Binding(face: string, provider: Name, instance: nat, generation: nat)

  datatype Definition = Definition(caps: seq<Cap>, needs: seq<Requirement>)

  type Definitions = map<Name, Definition>

  datatype Result<+R, +E> = Ok(value: R) | Err(error: E)

  datatype ResolveError =
    | Missing(face: string)
    | Ambiguous(face: string, providers: seq<Name>)
    | VersionMismatch(face: string, provider: Name, caps: seq<Cap>)
    | UnknownProvider(face: string, provider: Name)
    | ProviderNotActive(face: string, provider: Name, state: string)
    | CyclePath(path: seq<Name>)

  /** Same base, and the same major when the requirement names one. */
  predicate Satisfies(c: Cap, req: Requirement) {
    c.base == req.base && (req.major.Some? ==> c.major == req.major)
  }

  predicate Provides(def: Definition, req: Requirement) {
    exists c :: c in def.caps && Satisfies(c, req)
  }

  function Candidates(defs: Definitions, req: Requirement): set<Name> {
    set p | p in defs && Provides(defs[p], req)
  }

  /** The providers a requirement refers to, satisfiable or not. */
  function Mentions(defs: Definitions, req: Requirement): set<Name> {
    if req.provider.Some? then {req.provider.value} else Candidates(defs, req)
  }

  function Referred(defs: Definitions, needs: seq<Requirement>): set<Name> {
    set r, p | r in needs && p in Mentions(defs, r) :: p
  }

  /** The consumer -> provider graph of a definition set. */
  function EdgesOf(defs: Definitions): Edges {
    map l | l in defs :: Ordered(Referred(defs, defs[l].needs))
  }

  lemma EdgesRefer(defs: Definitions, l: Name, p: Name)
    ensures Edge(EdgesOf(defs), l, p) <==> l in defs && p in Referred(defs, defs[l].needs)
  {
    if l in defs {
      assert p in Ordered(Referred(defs, defs[l].needs)) <==> p in Elems(Ordered(Referred(defs, defs[l].needs)));
    }
  }

  /** What a definition has to declare to be asked for an interface: the base at
      that major, or at any version when none is asked for. */
  ghost predicate Declares(def: Definition, base: string, major: Option<nat>) {
    match major
    case Some(_) => Cap(base, major) in def.caps
    case None => exists m :: Cap(base, m) in def.caps
  }

  lemma ProvidesIff(def: Definition, req: Requirement)
    ensures Provides(def, req) <==> Declares(def, req.base, req.major)
  {
    if Provides(def, req) {
      var c :| c in def.caps && Satisfies(c, req);
      assert c == Cap(req.base, c.major);
    }
    if Declares(def, req.base, req.major) {
      var m :| Cap(req.base, m) in def.caps && (req.major.Some? ==> m == req.major);
      assert Satisfies(Cap(req.base, m), req);
    }
  }

  method ProviderCandidates(defs: Definitions, req: Requirement) returns (out: seq<Name>)
    ensures out == Ordered(Candidates(defs, req))
    ensures forall p :: p in out <==> p in defs && Declares(defs[p], req.base, req.major)
    ensures Sorted(out) && NoDup(out)
  {
    out := SortedKeys(Candidates(defs, req));
    SortedIsOrdered(out);
    forall p ensures p in out <==> p in defs && Declares(defs[p], req.base, req.major) {
      assert p in out <==> p in Elems(out);
      if p in defs { ProvidesIff(defs[p], req); }
    }
  }

  lemma ReferredSnoc(defs: Definitions, needs: seq<Requirement>, k: nat)
    requires k < |needs|
    ensures Referred(defs, needs[..k + 1]) == Referred(defs, needs[..k]) + Mentions(defs, needs[k])
  {
    assert needs[..k + 1] == needs[..k] + [needs[k]];
  }

  lemma ElemsConcat<T>(a: seq<T>, b: seq<T>)
    ensures Elems(a + b) == Elems(a) + Elems(b)
  {
  }

  /** Collects one consumer's providers, then sorts and drops repeats. */
  method ProvidersOf(defs: Definitions, needs: seq<Requirement>) returns (deps: seq<Name>)
    ensures deps == Ordered(Referred(defs, needs))
  {
    deps := [];
    for k := 0 to |needs|
      invariant Elems(deps) == Referred(defs, needs[..k])
    {
      ReferredSnoc(defs, needs, k);
      var more;
      if needs[k].provider.Some? {
        more := [needs[k].provider.value];
      } else {
        more := ProviderCandidates(defs, needs[k]);
      }
      assert Elems(more) == Mentions(defs, needs[k]);
      ElemsConcat(deps, more);
      deps := deps + more;
    }
    assert needs[..|needs|] == needs;
    DedupSortIsOrdered(deps);
    deps := Dedup(Sort(deps));
  }

  method GraphEdges(defs: Definitions) returns (edges: Edges)
    ensures edges == EdgesOf(defs)
  {
    edges := map[];
    var rest := defs.Keys;
    while rest != {}
      invariant rest <= defs.Keys && edges.Keys == defs.Keys - rest
      invariant forall l :: l in edges ==> edges[l] == Ordered(Referred(defs, defs[l].needs))
      decreases rest
    {
      var l :| l in rest;
      rest := rest - {l};
      var deps := ProvidersOf(defs, defs[l].needs);
      edges := edges[l := deps];
    }
  }

  // ---- resolution ----

  function StateName(s: Fsm): string {
    match s
    case Registered => "Registered"
    case Waiting => "Waiting"
    case Preparing => "Preparing"
    case Active => "Active"
    case Quiescing => "Quiescing"
    case CleanupPending => "CleanupPending"
    case Disposed => "Disposed"
    case Failed => "Failed"
  }

  function DescribeState(r: Record): string {
    StateName(r.state) + if r.cause.Some? then " (" + r.cause.value + ")" else ""
  }

  /** The provider a requirement settles on: the named one when it exists and
      provides, otherwise the only candidate. */
  function Target(defs: Definitions, req: Requirement): Result<Name, ResolveError> {
    match req.provider
    case Some(p) =>
      if p !in defs then Err(UnknownProvider(req.face, p))
      else if !Provides(defs[p], req) then Err(VersionMismatch(req.face, p, defs[p].caps))
      else Ok(p)
    case None =>
      var cands := Ordered(Candidates(defs, req));
      if |cands| == 0 then Err(Missing(req.face))
      else if |cands| > 1 then Err(Ambiguous(req.face, cands))
      else Ok(cands[0])
  }

  function ResolveOne(defs: Definitions, states: map<Name, Record>, req: Requirement): Result<Binding, ResolveError> {
    match Target(defs, req)
    case Err(e) => Err(e)
    case Ok(p) =>
      if p !in states then Err(ProviderNotActive(req.face, p, "unknown"))
      else if states[p].state != Active then Err(ProviderNotActive(req.face, p, DescribeState(states[p])))
      else Ok(Binding(req.face, p, states[p].instance, states[p].generation))
  }

  /** All requirements in order; the first that fails decides the error. */
  function ResolveAll(defs: Definitions, states: map<Name, Record>, needs: seq<Requirement>)
    : Result<seq<Binding>, ResolveError> {
    if needs == [] then Ok([])
    else match ResolveOne(defs, states, needs[0])
      case Err(e) => Err(e)
      case Ok(b) =>
        match ResolveAll(defs, states, needs[1..])
        case Err(e) => Err(e)
        case Ok(bs) => Ok([b] + bs)
  }

  function Resolve(defs: Definitions, states: map<Name, Record>, l: Name): Result<seq<Binding>, ResolveError> {
    if l in defs then ResolveAll(defs, states, defs[l].needs) else Err(Missing(l))
  }

  ghost predicate Live(states: map<Name, Record>, b: Binding) {
    && b.provider in states && states[b.provider].state == Active
    && states[b.provider].instance == b.instance && states[b.provider].generation == b.generation
  }

  predicate Stale(bindings: seq<Binding>, states: map<Name, Record>) {
    exists b :: b in bindings && !(
      && b.provider in states && states[b.provider].state == Active
      && states[b.provider].instance == b.instance && states[b.provider].generation == b.generation)
  }

  lemma ElemsOrderedSingle(s: set<Name>, p: Name)
    requires Ordered(s) == [p]
    ensures s == {p}
  {
    assert Elems([p]) == {p};
  }

  /** What a successful resolution hands out, requirement by requirement. */
  lemma {:induction false} ResolveAllOk(defs: Definitions, states: map<Name, Record>, needs: seq<Requirement>)
    ensures ResolveAll(defs, states, needs).Ok? <==>
              forall r :: r in needs ==> ResolveOne(defs, states, r).Ok?
    ensures ResolveAll(defs, states, needs).Ok? ==>
              var bs := ResolveAll(defs, states, needs).value;
              |bs| == |needs| && forall i :: 0 <= i < |bs| ==> ResolveOne(defs, states, needs[i]) == Ok(bs[i])
  {
    if needs != [] {
      ResolveAllOk(defs, states, needs[1..]);
      assert needs == [needs[0]] + needs[1..];
    }
  }

  /** A target is always among the providers the requirement mentions, and is the
      only one mentioned. */
  lemma TargetMentioned(defs: Definitions, req: Requirement)
    requires Target(defs, req).Ok?
    ensures Mentions(defs, req) == {Target(defs, req).value}
    ensures Target(defs, req).value in defs && Provides(defs[Target(defs, req).value], req)
  {
    if req.provider.None? {
      var cands := Ordered(Candidates(defs, req));
      assert cands == [cands[0]];
      ElemsOrderedSingle(Candidates(defs, req), cands[0]);
    }
  }

  /** A sole candidate that provides is the target. */
  lemma SoleProviderIsTarget(defs: Definitions, req: Requirement, p: Name)
    requires Target(defs, req).Ok? && p in defs && Provides(defs[p], req)
    requires req.provider.Some? ==> req.provider.value == p
    ensures Target(defs, req) == Ok(p)
  {
    TargetMentioned(defs, req);
    if req.provider.None? { assert p in Candidates(defs, req); }
  }

  /** Resolution looks only at the providers mentioned. */
  lemma {:induction false} ResolveAllFrame(defs: Definitions, a: map<Name, Record>, b: map<Name, Record>,
                                           needs: seq<Requirement>)
    requires forall p :: p in Referred(defs, needs) ==> (p in a <==> p in b) && (p in a ==> a[p] == b[p])
    ensures ResolveAll(defs, a, needs) == ResolveAll(defs, b, needs)
  {
    if needs != [] {
      assert needs[0] in needs;
      if Target(defs, needs[0]).Ok? {
        TargetMentioned(defs, needs[0]);
        assert Target(defs, needs[0]).value in Referred(defs, needs);
      }
      assert forall r :: r in needs[1..] ==> r in needs;
      assert Referred(defs, needs[1..]) <= Referred(defs, needs);
      ResolveAllFrame(defs, a, b, needs[1..]);
    }
  }

  /** A resolved definition mentions only Active providers. */
  lemma ResolvedMentionsActive(defs: Definitions, states: map<Name, Record>, l: Name, p: Name)
    requires l in defs && Resolve(defs, states, l).Ok? && p in Referred(defs, defs[l].needs)
    ensures p in states && states[p].state == Active
  {
    ResolveAllOk(defs, states, defs[l].needs);
    var r :| r in defs[l].needs && p in Mentions(defs, r);
    assert ResolveOne(defs, states, r).Ok?;
    TargetMentioned(defs, r);
  }

  lemma ResolvedNotStale(defs: Definitions, states: map<Name, Record>, l: Name)
    requires Resolve(defs, states, l).Ok?
    ensures !Stale(Resolve(defs, states, l).value, states)
  {
    ResolveAllOk(defs, states, defs[l].needs);
  }

  // ---- what resolution answers, from the definitions and the states alone ----

  /** `p` is the provider the requirement names and it declares the interface, or
      none is named and `p` is the only definition that declares it. */
  ghost predicate Settles(defs: Definitions, req: Requirement, p: Name) {
    && p in defs && Declares(defs[p], req.base, req.major)
    && (match req.provider
        case Some(named) => named == p
        case None => forall q :: q in defs && Declares(defs[q], req.base, req.major) ==> q == p)
  }

  ghost predicate Answers(defs: Definitions, states: map<Name, Record>, req: Requirement, b: Binding) {
    && Settles(defs, req, b.provider) && Live(states, b) && b.face == req.face
  }

  ghost predicate Answered(defs: Definitions, states: map<Name, Record>, req: Requirement) {
    exists b :: Answers(defs, states, req, b)
  }

  ghost predicate Explains(defs: Definitions, states: map<Name, Record>, req: Requirement, e: ResolveError) {
    match e
    case Missing(f) =>
      f == req.face && req.provider.None? && forall p :: p in defs ==> !Declares(defs[p], req.base, req.major)
    case Ambiguous(f, ps) =>
      && f == req.face && req.provider.None? && |ps| > 1 && Sorted(ps) && NoDup(ps)
      && forall p :: p in ps <==> p in defs && Declares(defs[p], req.base, req.major)
    case VersionMismatch(f, p, caps) =>
      && f == req.face && req.provider == Some(p) && p in defs
      && caps == defs[p].caps && !Declares(defs[p], req.base, req.major)
    case UnknownProvider(f, p) => f == req.face && req.provider == Some(p) && p !in defs
    case ProviderNotActive(f, p, s) =>
      && f == req.face && Settles(defs, req, p)
      && (if p in states then states[p].state != Active && s == DescribeState(states[p]) else s == "unknown")
    case CyclePath(_) => false
  }

  lemma CandidatesDeclare(defs: Definitions, req: Requirement)
    ensures forall p :: p in Candidates(defs, req) <==> p in defs && Declares(defs[p], req.base, req.major)
    ensures forall p :: p in Ordered(Candidates(defs, req)) <==> p in Candidates(defs, req)
  {
    forall p | p in defs ensures Provides(defs[p], req) <==> Declares(defs[p], req.base, req.major) {
      ProvidesIff(defs[p], req);
    }
    assert forall p :: p in Ordered(Candidates(defs, req)) <==> p in Elems(Ordered(Candidates(defs, req)));
  }

  lemma TargetMeans(defs: Definitions, states: map<Name, Record>, req: Requirement)
    ensures match Target(defs, req)
            case Ok(p) => Settles(defs, req, p)
            case Err(e) => Explains(defs, states, req, e)
  {
    CandidatesDeclare(defs, req);
    match req.provider
    case Some(p) =>
      if p in defs { ProvidesIff(defs[p], req); }
    case None =>
      var cands := Ordered(Candidates(defs, req));
      OrderedSorted(Candidates(defs, req));
      if |cands| == 1 {
        assert cands == [cands[0]];
      } else if |cands| == 0 {
        forall p | p in defs ensures !Declares(defs[p], req.base, req.major) { assert p !in cands; }
      }
  }

  lemma SettlesIff(defs: Definitions, req: Requirement, p: Name)
    ensures Settles(defs, req, p) <==> Target(defs, req) == Ok(p)
  {
    TargetMeans(defs, map[], req);
    if Settles(defs, req, p) {
      ProvidesIff(defs[p], req);
      if req.provider.None? {
        CandidatesDeclare(defs, req);
        assert Candidates(defs, req) == {p};
        SortedIsOrdered([p]);
        assert Elems([p]) == {p};
      }
    }
  }

  lemma ResolveOneMeans(defs: Definitions, states: map<Name, Record>, req: Requirement)
    ensures match ResolveOne(defs, states, req)
            case Ok(b) => Answers(defs, states, req, b)
            case Err(e) => Explains(defs, states, req, e)
  {
    TargetMeans(defs, states, req);
  }

  /** An explained failure cannot also be answered. */
  lemma ExplainedIsUnanswered(defs: Definitions, states: map<Name, Record>, req: Requirement, e: ResolveError,
                              b: Binding)
    requires Explains(defs, states, req, e)
    ensures !Answers(defs, states, req, b)
  {
    if e.Ambiguous? {
      assert e.providers[0] in e.providers && e.providers[1] in e.providers;
    }
  }

  ghost predicate FirstFailure(defs: Definitions, states: map<Name, Record>, needs: seq<Requirement>,
                               e: ResolveError, i: nat) {
    && i < |needs| && Explains(defs, states, needs[i], e)
    && forall j :: 0 <= j < i ==> Answered(defs, states, needs[j])
  }

  lemma FailsFirst(defs: Definitions, states: map<Name, Record>, needs: seq<Requirement>, e: ResolveError)
    requires needs != [] && Explains(defs, states, needs[0], e)
    ensures FirstFailure(defs, states, needs, e, 0)
  {}

  lemma FailsLater(defs: Definitions, states: map<Name, Record>, needs: seq<Requirement>, b: Binding,
                   e: ResolveError, i: nat)
    requires needs != [] && Answers(defs, states, needs[0], b) && FirstFailure(defs, states, needs[1..], e, i)
    ensures FirstFailure(defs, states, needs, e, i + 1)
  {
    hide Answers, Explains;
    forall j | 0 <= j < i + 1 ensures Answered(defs, states, needs[j]) {
      if j > 0 { assert needs[1..][j - 1] == needs[j]; }
    }
  }

  /** Resolution answers every requirement in order, or explains the first that
      nothing answers. */
  lemma {:induction false} ResolveAllMeans(defs: Definitions, states: map<Name, Record>, needs: seq<Requirement>)
      returns (i: nat)
    ensures var r := ResolveAll(defs, states, needs);
      && (r.Ok? ==>
            && |r.value| == |needs|
            && forall j :: 0 <= j < |needs| ==> Answers(defs, states, needs[j], r.value[j]))
      && (r.Err? ==> FirstFailure(defs, states, needs, r.error, i))
    decreases |needs|
  {
    hide Answers, Explains, ResolveOne, FirstFailure;
    i := 0;
    if needs != [] {
      ResolveOneMeans(defs, states, needs[0]);
      var k := ResolveAllMeans(defs, states, needs[1..]);
      var first, rest := ResolveOne(defs, states, needs[0]), ResolveAll(defs, states, needs[1..]);
      if first.Err? {
        FailsFirst(defs, states, needs, first.error);
      } else if rest.Err? {
        FailsLater(defs, states, needs, first.value, rest.error, k);
        i := k + 1;
      } else {
        forall j | 0 <= j < |needs| ensures Answers(defs, states, needs[j], ([first.value] + rest.value)[j]) {
          if j > 0 { assert needs[1..][j - 1] == needs[j]; }
        }
      }
    }
  }

  /** The answer to resolving `l`: for an unknown definition an error; otherwise a binding
      for every requirement, exactly when each can be answered, or an explanation of
      the first that cannot. */
  ghost predicate Decides(defs: Definitions, states: map<Name, Record>, l: Name,
                          r: Result<seq<Binding>, ResolveError>) {
    if l !in defs then r == Err(Missing(l))
    else
      var needs := defs[l].needs;
      && (r.Ok? <==> forall i :: 0 <= i < |needs| ==> Answered(defs, states, needs[i]))
      && (r.Ok? ==> |r.value| == |needs|
                    && forall i :: 0 <= i < |needs| ==> Answers(defs, states, needs[i], r.value[i]))
      && (r.Err? ==> exists i: nat :: FirstFailure(defs, states, needs, r.error, i))
  }

  lemma ResolveMeans(defs: Definitions, states: map<Name, Record>, l: Name)
    ensures Decides(defs, states, l, Resolve(defs, states, l))
  {
    hide Answers, Explains;
    if l in defs {
      var needs := defs[l].needs;
      var i := ResolveAllMeans(defs, states, needs);
      if Resolve(defs, states, l).Err? {
        var e := Resolve(defs, states, l).error;
        assert FirstFailure(defs, states, needs, e, i);
        forall b ensures !Answers(defs, states, needs[i], b) { ExplainedIsUnanswered(defs, states, needs[i], e, b); }
      } else {
        forall i | 0 <= i < |needs| ensures Answered(defs, states, needs[i]) {
          assert Answers(defs, states, needs[i], Resolve(defs, states, l).value[i]);
        }
      }
    }
  }

  /** The loop of `resolve_for`, which stops at the first failing requirement. */
  method ResolveFor(defs: Definitions, states: map<Name, Record>, l: Name)
    returns (r: Result<seq<Binding>, ResolveError>)
    ensures r == Resolve(defs, states, l)
    ensures Decides(defs, states, l, r)
  {
    hide Decides;
    ResolveMeans(defs, states, l);
    if l !in defs { return Err(Missing(l)); }
    var needs := defs[l].needs;
    var out: seq<Binding> := [];
    assert needs[0..] == needs;
    assert forall bs: seq<Binding> :: [] + bs == bs;
    for k := 0 to |needs|
      invariant Resolve(defs, states, l) ==
        match ResolveAll(defs, states, needs[k..]) { case Err(e) => Err(e) case Ok(bs) => Ok(out + bs) }
    {
      var req := needs[k];
      assert needs[k..][0] == req && needs[k..][1..] == needs[k + 1..];
      var pname: Name;
      if req.provider.Some? {
        pname := req.provider.value;
        if pname !in defs { return Err(UnknownProvider(req.face, pname)); }
        if !Provides(defs[pname], req) { return Err(VersionMismatch(req.face, pname, defs[pname].caps)); }
      } else {
        var cands := ProviderCandidates(defs, req);
        if |cands| == 0 { return Err(Missing(req.face)); }
        if |cands| > 1 { return Err(Ambiguous(req.face, cands)); }
        pname := cands[0];
      }
      if pname !in states { return Err(ProviderNotActive(req.face, pname, "unknown")); }
      var st := states[pname];
      if st.state != Active { return Err(ProviderNotActive(req.face, pname, DescribeState(st))); }
      var b := Binding(req.face, pname, st.instance, st.generation);
      assert forall bs: seq<Binding> :: out + ([b] + bs) == (out + [b]) + bs;
      out := out + [b];
    }
    assert needs[|needs|..] == [];
    assert out + [] == out;
    return Ok(out);
  }

  method BindingsStale(bindings: seq<Binding>, states: map<Name, Record>) returns (stale: bool)
    ensures stale == Stale(bindings, states)
  {
    for k := 0 to |bindings|
      invariant forall i :: 0 <= i < k ==> Live(states, bindings[i])
    {
      var b := bindings[k];
      if b.provider in states {
        var st := states[b.provider];
        if st.state == Active && st.instance == b.instance && st.generation == b.generation { continue; }
      }
      assert b in bindings;
      return true;
    }
    return false;
  }

  // ---- reasons shown while waiting ----

  function Join(parts: seq<Name>, sep: string): string {
    if parts == [] then "" else if |parts| == 1 then parts[0] else parts[0] + sep + Join(parts[1..], sep)
  }

  function Digits(n: nat): string {
    var d := ['0' + (n % 10) as char];
    if n < 10 then d else Digits(n / 10) + d
  }

  function NormCap(c: Cap): string {
    if c.major.Some? then c.base + "@" + Digits(c.major.value) else c.base
  }

  function Render(e: ResolveError): string {
    match e
    case Missing(f) => "dependency-unavailable: no definition provides " + f
    case Ambiguous(f, ps) => "ambiguous-provider: " + f + " provided by [" + Join(ps, ", ")
      + "]; use an explicit binding"
    case VersionMismatch(f, p, caps) =>
      "dependency-unavailable: " + f + " at " + p + " is incompatible ("
      + p + " provides [" + Join(seq(|caps|, i requires 0 <= i < |caps| => NormCap(caps[i])), ", ") + "])"
    case UnknownProvider(f, p) => "dependency-unavailable: provider '" + p + "' of " + f + " is unknown"
    case ProviderNotActive(f, p, s) => "dependency-unavailable: provider '" + p + "' of " + f + " is " + s
    case CyclePath(path) => "cycle: " + Join(path, " -> ")
  }

  /** The parts one after another, a separator between any two. */
  lemma {:induction false} JoinSnoc(parts: seq<Name>, x: Name, sep: string)
    ensures Join([x], sep) == x
    ensures parts != [] ==> Join(parts + [x], sep) == Join(parts, sep) + sep + x
  {
    if |parts| > 1 {
      JoinSnoc(parts[1..], x, sep);
      assert (parts + [x])[1..] == parts[1..] + [x];
    }
  }

  function Value(s: string): int {
    if s == "" then 0 else 10 * Value(s[..|s| - 1]) + (s[|s| - 1] as int - '0' as int)
  }

  /** A version shown is read back as the number it is. */
  lemma {:induction false} DigitsValue(n: nat)
    ensures Value(Digits(n)) == n
    ensures forall c :: c in Digits(n) ==> '0' <= c <= '9'
  {
    var d := ['0' + (n % 10) as char];
    assert Value("") == 0;
    if n < 10 {
      assert d[..0] == "";
    } else {
      DigitsValue(n / 10);
      assert (Digits(n / 10) + d)[..|Digits(n / 10)|] == Digits(n / 10);
    }
  }
}

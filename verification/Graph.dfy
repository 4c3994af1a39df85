/** The dependency graph: edges from a consumer to the providers it refers to,
    cycle search, provider-first ordering and reverse reachability. */
module Graph {
  import opened Names

  type Edges = map<Name, seq<Name>>

  ghost predicate Edge(e: Edges, a: Name, b: Name) {
    a in e && b in e[a]
  }

  function Nodes(e: Edges): set<Name> {
    e.Keys + set c, d | c in e && d in e[c] :: d
  }

  ghost predicate IsWalk(e: Edges, p: seq<Name>) {
    |p| > 0 && forall i :: 0 <= i < |p| - 1 ==> Edge(e, p[i], p[i + 1])
  }

  ghost predicate IsCycle(e: Edges, p: seq<Name>) {
    |p| >= 2 && IsWalk(e, p) && p[0] == p[|p| - 1]
  }

  ghost predicate Acyclic(e: Edges) {
    forall p :: !IsCycle(e, p)
  }

  /** Every successor of a listed node is listed before it. */
  ghost predicate ProvidersFirst(e: Edges, order: seq<Name>) {
    forall i, d :: 0 <= i < |order| && Edge(e, order[i], d) ==> d in order[..i]
  }

  /** Each node exactly once, providers before consumers. */
  ghost predicate IsTopological(e: Edges, order: seq<Name>) {
    NoDup(order) && Elems(order) == Nodes(e) && ProvidersFirst(e, order)
  }

  /** A non-empty path leads from `a` to `b`. */
  ghost predicate Reaches(e: Edges, a: Name, b: Name) {
    exists p :: IsWalk(e, p) && |p| >= 2 && p[0] == a && p[|p| - 1] == b
  }

  lemma ReachesStep(e: Edges, a: Name, b: Name)
    requires Edge(e, a, b)
    ensures Reaches(e, a, b)
  {
    assert IsWalk(e, [a, b]);
  }

  lemma ReachesCons(e: Edges, a: Name, b: Name, c: Name)
    requires Edge(e, a, b) && Reaches(e, b, c)
    ensures Reaches(e, a, c)
  {
    var p :| IsWalk(e, p) && |p| >= 2 && p[0] == b && p[|p| - 1] == c;
    var q := [a] + p;
    assert IsWalk(e, q) by {
      forall i | 0 <= i < |q| - 1 ensures Edge(e, q[i], q[i + 1]) {
        if i > 0 { assert Edge(e, p[i - 1], p[i]); }
      }
    }
  }

  lemma ReachesSnoc(e: Edges, a: Name, b: Name, c: Name)
    requires Reaches(e, a, b) && Edge(e, b, c)
    ensures Reaches(e, a, c)
  {
    var p :| IsWalk(e, p) && |p| >= 2 && p[0] == a && p[|p| - 1] == b;
    var q := p + [c];
    assert IsWalk(e, q);
  }

  // ---- what a provider-first order excludes, and what its absence implies ----

  /** Along a walk, positions in a provider-first order strictly fall. */
  lemma {:induction false} WalkDescends(e: Edges, order: seq<Name>, p: seq<Name>, at: nat)
    requires ProvidersFirst(e, order) && NoDup(order)
    requires IsWalk(e, p) && |p| >= 2
    requires at < |order| && order[at] == p[0]
    ensures p[|p| - 1] in order[..at]
  {
    assert Edge(e, p[0], p[1]);
    var j :| 0 <= j < at && order[j] == p[1];
    if |p| > 2 {
      assert IsWalk(e, p[1..]) by {
        forall i | 0 <= i < |p[1..]| - 1 ensures Edge(e, p[1..][i], p[1..][i + 1]) {
          assert Edge(e, p[i + 1], p[i + 2]);
        }
      }
      WalkDescends(e, order, p[1..], j);
    }
  }

  lemma TopologicalIsAcyclic(e: Edges, order: seq<Name>)
    requires IsTopological(e, order)
    ensures Acyclic(e)
  {
    forall p ensures !IsCycle(e, p) {
      if IsCycle(e, p) {
        assert Edge(e, p[0], p[1]);
        assert p[0] in Elems(order);
        var at :| 0 <= at < |order| && order[at] == p[0];
        WalkDescends(e, order, p, at);
        assert false;
      }
    }
  }

  ghost predicate LeadsInto(e: Edges, y: Name, r: set<Name>) {
    exists d :: d in r && Edge(e, y, d)
  }

  lemma {:induction false} WalkInside(e: Edges, r: set<Name>, x: Name, n: nat) returns (p: seq<Name>)
    requires x in r && forall y :: y in r ==> LeadsInto(e, y, r)
    ensures |p| == n + 1 && p[0] == x && IsWalk(e, p) && Elems(p) <= r
    decreases n
  {
    if n == 0 {
      p := [x];
    } else {
      assert LeadsInto(e, x, r);
      var d :| d in r && Edge(e, x, d);
      var q := WalkInside(e, r, d, n - 1);
      p := [x] + q;
      forall i | 0 <= i < |p| - 1 ensures Edge(e, p[i], p[i + 1]) {
        if i > 0 { assert Edge(e, q[i - 1], q[i]); }
      }
    }
  }

  lemma SubWalk(e: Edges, p: seq<Name>, i: nat, j: nat)
    requires IsWalk(e, p) && i < j <= |p|
    ensures IsWalk(e, p[i..j])
  {
    forall k | 0 <= k < j - i - 1 ensures Edge(e, p[i..j][k], p[i..j][k + 1]) {
      assert Edge(e, p[i + k], p[i + k + 1]);
    }
  }

  /** A non-empty set in which every node has a successor holds a cycle. */
  lemma StuckSetHasCycle(e: Edges, r: set<Name>)
    requires r != {} && forall y :: y in r ==> LeadsInto(e, y, r)
    ensures !Acyclic(e)
  {
    hide LeadsInto, Edge;
    var x :| x in r;
    var p := WalkInside(e, r, x, |r|);
    Pigeonhole(p, r);
    var i, j :| 0 <= i < j < |p| && p[i] == p[j];
    SubWalk(e, p, i, j + 1);
    assert IsCycle(e, p[i..j + 1]);
  }

  // ---- depth-first cycle search ----

  datatype Color = Grey | Black

  /** Grey nodes form the current path, black ones are finished; `done` lists
      the finished ones so that each comes after everything it leads to. */
  ghost predicate Searching(e: Edges, color: map<Name, Color>, stack: seq<Name>, done: seq<Name>) {
    && color.Keys <= Nodes(e)
    && (forall x :: x in stack <==> x in color && color[x] == Grey)
    && (forall x :: x in done <==> x in color && color[x] == Black)
    && NoDup(stack) && NoDup(done)
    && (stack == [] || IsWalk(e, stack))
    && ProvidersFirst(e, done)
  }

  function IndexOf(s: seq<Name>, x: Name): (i: nat)
    requires x in s
    ensures i < |s| && s[i] == x
  {
    if s[0] == x then 0 else 1 + IndexOf(s[1..], x)
  }

  lemma PushGrey(e: Edges, color: map<Name, Color>, stack: seq<Name>, done: seq<Name>, node: Name)
    requires Searching(e, color, stack, done)
    requires node in Nodes(e) && node !in color
    requires stack == [] || Edge(e, stack[|stack| - 1], node)
    ensures Searching(e, color[node := Grey], stack + [node], done)
  {
    var s := stack + [node];
    forall i | 0 <= i < |s| - 1 ensures Edge(e, s[i], s[i + 1]) {
      if i < |stack| - 1 { assert Edge(e, stack[i], stack[i + 1]); }
    }
    assert IsWalk(e, s);
  }

  lemma PopBlack(e: Edges, color: map<Name, Color>, stack: seq<Name>, done: seq<Name>, node: Name)
    requires Searching(e, color, stack + [node], done)
    requires forall d :: Edge(e, node, d) ==> d in done
    ensures Searching(e, color[node := Black], stack, done + [node])
  {
    hide Nodes, Edge, ProvidersFirst, IsWalk;
    var s := stack + [node];
    if stack != [] {
      SubWalk(e, s, 0, |stack|);
      assert s[0..|stack|] == stack;
    }
    AppendKeepsOrder(e, done, node);
    PopMembers(color, stack, done, node);
  }

  /** The colouring after the top of the stack is finished. */
  lemma PopMembers(color: map<Name, Color>, stack: seq<Name>, done: seq<Name>, node: Name)
    requires NoDup(stack + [node]) && NoDup(done)
    requires forall x :: x in stack + [node] <==> x in color && color[x] == Grey
    requires forall x :: x in done <==> x in color && color[x] == Black
    ensures NoDup(stack) && NoDup(done + [node])
    ensures forall x :: x in stack <==> x in color[node := Black] && color[node := Black][x] == Grey
    ensures forall x :: x in done + [node] <==> x in color[node := Black] && color[node := Black][x] == Black
    ensures node in color
  {
    var s := stack + [node];
    assert s[|stack|] == node;
    assert node in s && node !in done;
    assert forall i :: 0 <= i < |stack| ==> s[i] == stack[i];
    assert node !in stack;
    forall x ensures x in s <==> x in stack || x == node {}
    NoDupSnoc(done, node);
  }

  lemma AppendKeepsOrder(e: Edges, order: seq<Name>, n: Name)
    requires ProvidersFirst(e, order)
    requires forall d :: Edge(e, n, d) ==> d in order
    ensures ProvidersFirst(e, order + [n])
  {
    var o := order + [n];
    forall i, d | 0 <= i < |o| && Edge(e, o[i], d) ensures d in o[..i] {
      if i < |order| {
        assert d in order[..i];
        assert order[..i] == o[..i];
      } else {
        assert o[..i] == order;
      }
    }
  }

  lemma GreyClosesCycle(e: Edges, stack: seq<Name>, nx: Name, pos: nat)
    requires IsWalk(e, stack) && pos < |stack| && stack[pos] == nx
    requires Edge(e, stack[|stack| - 1], nx)
    ensures IsCycle(e, stack[pos..] + [nx])
  {
    var c := stack[pos..] + [nx];
    SubWalk(e, stack, pos, |stack|);
    forall i | 0 <= i < |c| - 1 ensures Edge(e, c[i], c[i + 1]) {
      if i < |c| - 2 { assert Edge(e, stack[pos..|stack|][i], stack[pos..|stack|][i + 1]); }
    }
  }

  ghost predicate Grown(color: map<Name, Color>, done: seq<Name>, color': map<Name, Color>, done': seq<Name>) {
    color.Keys <= color'.Keys && Elems(done) <= Elems(done')
  }

  lemma Narrower(nodes: set<Name>, color: map<Name, Color>, node: Name, done: seq<Name>,
                 color': map<Name, Color>, done': seq<Name>)
    requires node in nodes && node !in color && Grown(color[node := Grey], done, color', done')
    ensures nodes - color'.Keys < nodes - color.Keys
  {
    assert node in color[node := Grey].Keys && color.Keys <= color[node := Grey].Keys;
  }

  /** Looks along one edge out of the top of the stack. */
  method Follow(e: Edges, nx: Name, color: map<Name, Color>, stack: seq<Name>, ghost done: seq<Name>)
      returns (color': map<Name, Color>, stack': seq<Name>, cycle: Option<seq<Name>>, ghost done': seq<Name>)
    requires Searching(e, color, stack, done)
    requires stack != [] && Edge(e, stack[|stack| - 1], nx)
    ensures cycle.Some? ==> IsCycle(e, cycle.value)
    ensures cycle.None? ==> Searching(e, color', stack', done') && stack' == stack
    ensures cycle.None? ==> nx in Elems(done') && Grown(color, done, color', done')
    decreases Nodes(e) - color.Keys, 1
  {
    color', stack', done', cycle := color, stack, done, None;
    if nx in color && color[nx] == Grey {
      var pos := IndexOf(stack, nx);
      GreyClosesCycle(e, stack, nx, pos);
      cycle := Some(stack[pos..] + [nx]);
    } else if nx !in color {
      color', stack', cycle, done' := Visit(e, nx, color, stack, done);
    }
  }

  method Visit(e: Edges, node: Name, color: map<Name, Color>, stack: seq<Name>, ghost done: seq<Name>)
      returns (color': map<Name, Color>, stack': seq<Name>, cycle: Option<seq<Name>>, ghost done': seq<Name>)
    requires Searching(e, color, stack, done)
    requires node in Nodes(e) && node !in color
    requires stack == [] || Edge(e, stack[|stack| - 1], node)
    ensures cycle.Some? ==> IsCycle(e, cycle.value)
    ensures cycle.None? ==> Searching(e, color', stack', done') && stack' == stack
    ensures cycle.None? ==> node in Elems(done') && Grown(color, done, color', done')
    decreases Nodes(e) - color.Keys, 0
  {
    hide IsCycle, Searching, Nodes;
    color', stack', done', cycle := color[node := Grey], stack + [node], done, None;
    PushGrey(e, color, stack, done, node);
    var nexts := if node in e then e[node] else [];
    for k := 0 to |nexts|
      invariant Searching(e, color', stack + [node], done')
      invariant stack' == stack + [node] && cycle.None?
      invariant Grown(color[node := Grey], done, color', done')
      invariant Elems(nexts[..k]) <= Elems(done')
    {
      assert Elems(nexts[..k + 1]) == Elems(nexts[..k]) + {nexts[k]};
      Narrower(Nodes(e), color, node, done, color', done');
      color', stack', cycle, done' := Follow(e, nexts[k], color', stack', done');
      if cycle.Some? { return; }
    }
    assert nexts[..|nexts|] == nexts;
    assert forall d :: Edge(e, node, d) ==> d in Elems(nexts);
    PopBlack(e, color', stack, done', node);
    stack' := stack'[..|stack'| - 1];
    color' := color'[node := Black];
    done' := done' + [node];
    assert stack' == stack;
  }

  /** Returns a path that closes on itself exactly when the graph has one. */
  method FindCycle(e: Edges) returns (cycle: Option<seq<Name>>)
    ensures cycle.Some? ==> IsCycle(e, cycle.value)
    ensures cycle.None? <==> Acyclic(e)
  {
    var color: map<Name, Color>, stack: seq<Name> := map[], [];
    ghost var done: seq<Name> := [];
    var nodes := SortedKeys(e.Keys);
    for k := 0 to |nodes|
      invariant Searching(e, color, stack, done) && stack == []
      invariant forall m :: 0 <= m < k ==> nodes[m] in done
    {
      assert nodes[k] in Elems(nodes);
      if nodes[k] !in color {
        ghost var before := color;
        color, stack, cycle, done := Visit(e, nodes[k], color, stack, done);
        if cycle.Some? {
          assert !Acyclic(e);
          return;
        }
      }
    }
    cycle := None;
    assert IsTopological(e, done) by {
      forall x | x in Nodes(e) ensures x in done {
        if x in e {
          assert x in Elems(nodes);
        } else {
          var c :| c in e && x in e[c];
          assert c in Elems(nodes);
          assert c in done;
          var i :| 0 <= i < |done| && done[i] == c;
          assert Edge(e, done[i], x);
          assert x in done[..i];
        }
      }
    }
    TopologicalIsAcyclic(e, done);
  }

  // ---- reversed edges ----

  function Times(rev: map<Name, seq<Name>>, d: Name, c: Name): nat {
    if d in rev then multiset(rev[d])[c] else 0
  }

  ghost predicate IsReverse(e: Edges, rev: map<Name, seq<Name>>) {
    forall d, c :: Times(rev, d, c) == if c in e then multiset(e[c])[d] else 0
  }

  /** Enters one consumer's edges. */
  method AddConsumer(rev: map<Name, seq<Name>>, c: Name, deps: seq<Name>) returns (rev': map<Name, seq<Name>>)
    ensures forall d, x :: Times(rev', d, x) == Times(rev, d, x) + if x == c then multiset(deps)[d] else 0
  {
    rev' := rev;
    for j := 0 to |deps|
      invariant forall d, x ::
        Times(rev', d, x) == Times(rev, d, x) + if x == c then multiset(deps[..j])[d] else 0
    {
      var d := deps[j];
      assert deps[..j + 1] == deps[..j] + [d];
      var old' := rev';
      rev' := rev'[d := (if d in rev' then rev'[d] else []) + [c]];
      assert forall y, x :: Times(rev', y, x) == Times(old', y, x) + if y == d && x == c then 1 else 0;
    }
    assert deps[..|deps|] == deps;
  }

  /** Provider -> consumers, one entry per edge occurrence. */
  method ReverseEdges(e: Edges) returns (rev: map<Name, seq<Name>>)
    ensures IsReverse(e, rev)
  {
    rev := map[];
    var rest := e.Keys;
    while rest != {}
      invariant rest <= e.Keys
      invariant forall d, c :: Times(rev, d, c) == if c in e && c !in rest then multiset(e[c])[d] else 0
      decreases rest
    {
      var c :| c in rest;
      rest := rest - {c};
      rev := AddConsumer(rev, c, e[c]);
    }
  }

  // ---- Kahn's algorithm ----

  /** How many entries of `s` are not in `done`, repeats included. */
  function Unpaid(s: seq<Name>, done: set<Name>): nat {
    if s == [] then 0 else (if s[0] in done then 0 else 1) + Unpaid(s[1..], done)
  }

  lemma {:induction false} UnpaidSettle(s: seq<Name>, done: set<Name>, n: Name)
    requires n !in done
    ensures Unpaid(s, done) == Unpaid(s, done + {n}) + multiset(s)[n]
  {
    if s != [] {
      UnpaidSettle(s[1..], done, n);
      assert s == [s[0]] + s[1..];
    }
  }

  lemma {:induction false} UnpaidZero(s: seq<Name>, done: set<Name>)
    ensures Unpaid(s, done) == 0 <==> forall x :: x in s ==> x in done
  {
    if s != [] {
      UnpaidZero(s[1..], done);
      assert s == [s[0]] + s[1..];
    }
  }

  lemma {:induction false} UnpaidNothing(s: seq<Name>)
    ensures Unpaid(s, {}) == |s|
  {
    if s != [] { UnpaidNothing(s[1..]); }
  }

  function Degree(e: Edges, x: Name, done: set<Name>): nat {
    if x in e then Unpaid(e[x], done) else 0
  }

  /** Counters once the consumers in `seen` have been entered. */
  ghost predicate Entered(e: Edges, indeg: map<Name, nat>, seen: set<Name>) {
    && seen <= e.Keys && seen <= indeg.Keys <= Nodes(e)
    && (forall c, d :: c in seen && Edge(e, c, d) ==> d in indeg)
    && (forall x :: x in indeg ==> indeg[x] == if x in seen then |e[x]| else 0)
  }

  method EnterDegree(e: Edges, indeg: map<Name, nat>, ghost seen: set<Name>, c: Name) returns (indeg': map<Name, nat>)
    requires Entered(e, indeg, seen) && c in e && c !in seen
    ensures Entered(e, indeg', seen + {c})
  {
    indeg' := indeg[c := if c in indeg then indeg[c] else 0];
    var deps := e[c];
    for j := 0 to |deps|
      invariant c in indeg' && indeg.Keys <= indeg'.Keys <= Nodes(e)
      invariant forall m :: 0 <= m < j ==> deps[m] in indeg'
      invariant forall x :: x in indeg' ==> indeg'[x] == if x == c then j else if x in indeg then indeg[x] else 0
    {
      assert Edge(e, c, deps[j]);
      indeg' := indeg'[c := indeg'[c] + 1];
      if deps[j] !in indeg' { indeg' := indeg'[deps[j] := 0]; }
    }
  }

  /** The in-degree table before anything is emitted. */
  method Degrees(e: Edges) returns (indeg: map<Name, nat>)
    ensures indeg.Keys == Nodes(e)
    ensures forall x :: x in indeg ==> indeg[x] == Degree(e, x, {})
  {
    indeg := map[];
    var rest := e.Keys;
    while rest != {}
      invariant rest <= e.Keys && Entered(e, indeg, e.Keys - rest)
      decreases rest
    {
      var c :| c in rest;
      indeg := EnterDegree(e, indeg, e.Keys - rest, c);
      assert e.Keys - (rest - {c}) == (e.Keys - rest) + {c};
      rest := rest - {c};
    }
    assert e.Keys - {} == e.Keys;
    forall x | x in Nodes(e) ensures x in indeg {
      if x !in e {
        var c :| c in e && x in e[c];
        assert Edge(e, c, x);
      }
    }
    forall x | x in indeg ensures indeg[x] == Degree(e, x, {}) {
      if x in e { UnpaidNothing(e[x]); }
    }
  }

  /** Counters for the emitted set; a node has nothing left to wait for exactly
      when it is emitted or ready. */
  ghost predicate Frontier(e: Edges, indeg: map<Name, nat>, order: set<Name>, ready: seq<Name>) {
    && indeg.Keys == Nodes(e)
    && NoDup(ready) && order !! Elems(ready) && order + Elems(ready) <= Nodes(e)
    && (forall x :: x in indeg ==> (indeg[x] == 0 <==> x in order + Elems(ready)))
  }

  ghost predicate Counts(e: Edges, indeg: map<Name, nat>, done: set<Name>, paid: multiset<Name>) {
    forall x :: x in indeg ==> indeg[x] + paid[x] == Degree(e, x, done)
  }

  /** One decrement: in range, and the consumer becomes ready when it hits zero. */
  method Decrement(e: Edges, indeg: map<Name, nat>, ghost done: set<Name>, ready: seq<Name>, c: Name)
      returns (indeg': map<Name, nat>, ready': seq<Name>)
    requires Frontier(e, indeg, done, ready)
    requires c in indeg && indeg[c] > 0
    ensures indeg' == indeg[c := indeg[c] - 1]
    ensures Frontier(e, indeg', done, ready')
  {
    indeg', ready' := indeg[c := indeg[c] - 1], ready;
    assert c !in Elems(ready);
    if indeg'[c] == 0 {
      ready' := ready' + [c];
      assert Elems(ready') == Elems(ready) + {c};
    }
  }

  /** `consumers` lists each consumer of `n` once per edge occurrence. */
  ghost predicate OccurrencesOf(e: Edges, n: Name, consumers: seq<Name>) {
    forall c :: multiset(consumers)[c] == if c in e then multiset(e[c])[n] else 0
  }

  lemma AllPaid(e: Edges, indeg: map<Name, nat>, before: set<Name>, n: Name, consumers: seq<Name>)
    requires n !in before && OccurrencesOf(e, n, consumers)
    requires Counts(e, indeg, before, multiset(consumers))
    ensures Counts(e, indeg, before + {n}, multiset{})
  {
    forall x | x in indeg ensures indeg[x] == Degree(e, x, before + {n}) {
      if x in e { UnpaidSettle(e[x], before, n); }
    }
  }

  /** Emitting `n` lowers each consumer's counter once per edge occurrence; a
      counter never goes below zero and a consumer becomes ready exactly once. */
  method Relax(e: Edges, indeg: map<Name, nat>, ghost before: set<Name>, n: Name,
               ready: seq<Name>, consumers: seq<Name>)
      returns (indeg': map<Name, nat>, ready': seq<Name>)
    requires n !in before && Frontier(e, indeg, before + {n}, ready)
    requires Counts(e, indeg, before, multiset{})
    requires OccurrencesOf(e, n, consumers)
    ensures Frontier(e, indeg', before + {n}, ready')
    ensures Counts(e, indeg', before + {n}, multiset{})
  {
    hide Counts, OccurrencesOf, Degree, Unpaid;
    indeg', ready' := indeg, ready;
    for k := 0 to |consumers|
      invariant Frontier(e, indeg', before + {n}, ready')
      invariant Counts(e, indeg', before, multiset(consumers[..k]))
    {
      var c := consumers[k];
      assert consumers[..k + 1] == consumers[..k] + [c];
      CounterPositive(e, indeg', before, n, consumers, k);
      PayOne(e, indeg', before, multiset(consumers[..k]), c);
      assert multiset(consumers[..k + 1]) == multiset(consumers[..k]) + multiset{c};
      indeg', ready' := Decrement(e, indeg', before + {n}, ready', c);
    }
    assert consumers[..|consumers|] == consumers;
    AllPaid(e, indeg', before, n, consumers);
  }

  lemma PayOne(e: Edges, indeg: map<Name, nat>, done: set<Name>, paid: multiset<Name>, c: Name)
    requires Counts(e, indeg, done, paid) && c in indeg && indeg[c] > 0
    ensures Counts(e, indeg[c := indeg[c] - 1], done, paid + multiset{c})
  {
  }

  /** While some of a consumer's edges to `n` are unpaid, its counter is positive. */
  lemma CounterPositive(e: Edges, indeg: map<Name, nat>, before: set<Name>, n: Name, consumers: seq<Name>, k: nat)
    requires indeg.Keys == Nodes(e) && n !in before && k < |consumers|
    requires Counts(e, indeg, before, multiset(consumers[..k]))
    requires OccurrencesOf(e, n, consumers)
    ensures consumers[k] in indeg && indeg[consumers[k]] > 0
  {
    var c := consumers[k];
    assert consumers == consumers[..k] + [c] + consumers[k + 1..];
    assert multiset(consumers)[c] > 0;
    UnpaidSettle(e[c], before, n);
  }

  function Reversed(s: seq<Name>): (r: seq<Name>)
    ensures multiset(r) == multiset(s)
  {
    if s == [] then []
    else
      assert s == [s[0]] + s[1..];
      Reversed(s[1..]) + [s[0]]
  }

  /** `sort_unstable` then `reverse`, so that `pop` yields the smallest name. */
  function Descending(s: seq<Name>): (r: seq<Name>)
    ensures multiset(r) == multiset(s)
  {
    Reversed(Sort(s))
  }

  lemma DescendingKeeps(s: seq<Name>)
    requires NoDup(s)
    ensures NoDup(Descending(s)) && Elems(Descending(s)) == Elems(s)
  {
    NoDupTransfers(s, Descending(s));
    SameMembers(s, Descending(s));
  }

  method ZeroDegree(indeg: map<Name, nat>) returns (ready: seq<Name>)
    ensures NoDup(ready)
    ensures forall x :: x in ready <==> x in indeg && indeg[x] == 0
  {
    var zero := set x | x in indeg && indeg[x] == 0;
    var names := SortedKeys(zero);
    ready := Descending(names);
    DescendingKeeps(names);
    assert forall x :: x in ready <==> x in Elems(ready);
    assert forall x :: x in names <==> x in Elems(names);
  }

  ghost predicate Ordering(e: Edges, indeg: map<Name, nat>, order: seq<Name>, ready: seq<Name>) {
    && NoDup(order) && ProvidersFirst(e, order)
    && Frontier(e, indeg, Elems(order), ready)
    && Counts(e, indeg, Elems(order), multiset{})
  }

  /** Pops the smallest ready name, appends it and relaxes its consumers. */
  method Emit(e: Edges, rev: map<Name, seq<Name>>, indeg: map<Name, nat>, order: seq<Name>, ready: seq<Name>)
      returns (indeg': map<Name, nat>, order': seq<Name>, ready': seq<Name>)
    requires Ordering(e, indeg, order, ready) && ready != []
    requires IsReverse(e, rev)
    ensures Ordering(e, indeg', order', ready')
    ensures Elems(order) < Elems(order')
  {
    var n := ready[|ready| - 1];
    PopKeeps(e, indeg, Elems(order), ready, n);
    EmitKeepsOrder(e, order, n);
    order' := order + [n];
    assert Elems(order') == Elems(order) + {n};
    var consumers := if n in rev then Sort(rev[n]) else [];
    assert OccurrencesOf(e, n, consumers) by {
      assert forall c :: multiset(consumers)[c] == Times(rev, n, c);
    }
    NoDupSnoc(order, n);
    indeg', ready' := Relax(e, indeg, Elems(order), n, ready[..|ready| - 1], consumers);
    DescendingKeeps(ready');
    ready' := Descending(ready');
  }

  /** Providers before consumers over every node, or nothing when some cycle
      makes that impossible. */
  method TopoOrder(e: Edges) returns (r: Option<seq<Name>>)
    ensures r.Some? ==> IsTopological(e, r.value)
    ensures r.Some? <==> Acyclic(e)
  {
    var indeg := Degrees(e);
    var rev := ReverseEdges(e);
    var ready := ZeroDegree(indeg);
    var order: seq<Name> := [];
    assert Elems(order) == {};
    while ready != []
      invariant Ordering(e, indeg, order, ready)
      decreases Nodes(e) - Elems(order)
    {
      indeg, order, ready := Emit(e, rev, indeg, order, ready);
    }
    AllOrCycle(e, indeg, order);
    r := if |order| == |indeg| then Some(order) else None;
  }

  /** With nothing ready, either every node is out or the rest hides a cycle. */
  lemma AllOrCycle(e: Edges, indeg: map<Name, nat>, order: seq<Name>)
    requires Ordering(e, indeg, order, [])
    ensures |order| == |indeg| <==> Acyclic(e)
    ensures |order| == |indeg| ==> IsTopological(e, order)
  {
    NoDupCardinality(order);
    SubsetCardinality(Elems(order), Nodes(e));
    assert |indeg| == |indeg.Keys|;
    if |order| == |indeg| {
      TopologicalIsAcyclic(e, order);
    } else {
      assert Elems(order) <= Elems(order) + Elems<Name>([]) <= Nodes(e);
      assert |Elems(order)| != |Nodes(e)|;
      assert Elems(order) != Nodes(e);
      UnemittedHasCycle(e, indeg, Elems(order));
    }
  }

  lemma PopKeeps(e: Edges, indeg: map<Name, nat>, order: set<Name>, ready: seq<Name>, n: Name)
    requires Frontier(e, indeg, order, ready) && ready != [] && n == ready[|ready| - 1]
    ensures n !in order && n in Elems(ready) && (n in indeg ==> indeg[n] == 0)
    ensures Frontier(e, indeg, order + {n}, ready[..|ready| - 1])
    ensures Elems(ready[..|ready| - 1]) <= Elems(ready)
  {
    var rest := ready[..|ready| - 1];
    assert Elems(ready) == Elems(rest) + {n};
    assert order + Elems(ready) == order + {n} + Elems(rest);
  }

  lemma EmitKeepsOrder(e: Edges, order: seq<Name>, n: Name)
    requires ProvidersFirst(e, order)
    requires Degree(e, n, Elems(order)) == 0
    ensures ProvidersFirst(e, order + [n])
  {
    if n in e { UnpaidZero(e[n], Elems(order)); }
    AppendKeepsOrder(e, order, n);
  }

  lemma UnemittedHasCycle(e: Edges, indeg: map<Name, nat>, order: set<Name>)
    requires Frontier(e, indeg, order, []) && Counts(e, indeg, order, multiset{})
    requires order < Nodes(e)
    ensures !Acyclic(e)
  {
    var left := Nodes(e) - order;
    assert Nodes(e) == left + order;
    forall y | y in left ensures LeadsInto(e, y, left) {
      assert indeg[y] != 0;
      UnpaidZero(e[y], order);
      var d :| d in e[y] && d !in order;
      assert Edge(e, y, d);
    }
    StuckSetHasCycle(e, left);
  }

  // ---- transitive consumers ----

  ghost predicate Collected(e: Edges, target: Name, seen: set<Name>, stack: seq<Name>, found: seq<Name>) {
    && seen == {target} + Elems(found) && target !in Elems(found) && NoDup(found)
    && Elems(stack) <= seen <= Nodes(e) + {target}
    && forall x :: x in Elems(found) ==> Reaches(e, x, target)
  }

  /** Everything seen and already expanded has all its consumers seen. */
  ghost predicate Expanded(e: Edges, seen: set<Name>, open: set<Name>) {
    forall x, c :: x in seen && x !in open && Edge(e, c, x) ==> c in seen
  }

  method Discover(e: Edges, target: Name, n: Name, consumers: seq<Name>, seen: set<Name>,
                  stack: seq<Name>, found: seq<Name>)
      returns (seen': set<Name>, stack': seq<Name>, found': seq<Name>)
    requires Collected(e, target, seen, stack, found) && n in seen
    requires forall c :: c in Elems(consumers) ==> Edge(e, c, n)
    ensures Collected(e, target, seen', stack', found')
    ensures seen' == seen + Elems(consumers)
    ensures Elems(stack') == Elems(stack) + (Elems(consumers) - seen)
    ensures seen' == seen ==> stack' == stack
  {
    seen', stack', found' := seen, stack, found;
    for k := 0 to |consumers|
      invariant Collected(e, target, seen', stack', found')
      invariant seen' == seen + Elems(consumers[..k])
      invariant Elems(stack') == Elems(stack) + (Elems(consumers[..k]) - seen)
      invariant seen' == seen ==> stack' == stack
    {
      var c := consumers[k];
      assert Elems(consumers[..k + 1]) == Elems(consumers[..k]) + {c};
      assert c in Elems(consumers);
      if c !in seen' {
        if n == target { ReachesStep(e, c, n); } else { ReachesCons(e, c, n, target); }
        assert Elems(found' + [c]) == Elems(found') + {c};
        assert Elems(stack' + [c]) == Elems(stack') + {c};
        seen', found', stack' := seen' + {c}, found' + [c], stack' + [c];
      }
    }
    assert consumers[..|consumers|] == consumers;
  }

  /** Exactly the other nodes from which `target` can be reached, sorted; the
      search ends on every graph, cyclic ones included. */
  method TransitiveConsumers(e: Edges, target: Name) returns (out: seq<Name>)
    ensures forall x :: x in Elems(out) <==> x != target && Reaches(e, x, target)
    ensures Sorted(out) && NoDup(out)
  {
    hide IsReverse;
    var rev := ReverseEdges(e);
    var seen, stack, found := {target}, [target], [];
    while stack != []
      invariant Collected(e, target, seen, stack, found)
      invariant Expanded(e, seen, Elems(stack))
      decreases Nodes(e) + {target} - seen, |stack|
    {
      var n := stack[|stack| - 1];
      assert Elems(stack) == Elems(stack[..|stack| - 1]) + {n};
      stack := stack[..|stack| - 1];
      var consumers := if n in rev then Sort(rev[n]) else [];
      ConsumersOf(e, rev, n, consumers);
      seen, stack, found := Discover(e, target, n, consumers, seen, stack, found);
    }
    forall x | x != target && Reaches(e, x, target) ensures x in Elems(found) {
      var p :| IsWalk(e, p) && |p| >= 2 && p[0] == x && p[|p| - 1] == target;
      WalkBackInto(e, seen, p);
    }
    out := Sort(found);
    SortElems(found);
    SortSorted(found);
  }

  lemma ConsumersOf(e: Edges, rev: map<Name, seq<Name>>, n: Name, consumers: seq<Name>)
    requires IsReverse(e, rev)
    requires multiset(consumers) == multiset(if n in rev then rev[n] else [])
    ensures forall c :: c in Elems(consumers) <==> Edge(e, c, n)
  {
    forall c ensures c in Elems(consumers) <==> Edge(e, c, n) {
      assert multiset(consumers)[c] == Times(rev, n, c);
      assert c in Elems(consumers) <==> c in multiset(consumers);
      if c in e { assert n in e[c] <==> n in multiset(e[c]); }
    }
  }

  lemma {:induction false} WalkBackInto(e: Edges, seen: set<Name>, p: seq<Name>)
    requires IsWalk(e, p) && p[|p| - 1] in seen
    requires forall x, c :: x in seen && Edge(e, c, x) ==> c in seen
    ensures p[0] in seen
  {
    if |p| > 1 {
      assert Edge(e, p[|p| - 2], p[|p| - 1]);
      WalkBackInto(e, seen, p[..|p| - 1]);
    }
  }
}

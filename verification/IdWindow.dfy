/** Retention-bounded request-id deduplication: a map and an arrival queue that
    together remember the last `cap` ids judged new. */
module IdWindow {
  import opened Names

  datatype Verdict = New | DuplicateSame | DuplicateDivergent

  datatype Entry = Entry(id: string, hash: bv64)

  /** FNV-1a over the canonical content. */
  function HashContent(content: seq<bv8>): bv64 {
    if content == [] then 0xcbf29ce484222325
    else (HashContent(content[..|content| - 1]) ^ (content[|content| - 1] as bv64)) * 0x100000001b3
  }

  function Last<T>(s: seq<T>, n: nat): seq<T> {
    if |s| <= n then s else s[|s| - n..]
  }

  function Ids(es: seq<Entry>): seq<string> {
    seq(|es|, i requires 0 <= i < |es| => es[i].id)
  }

  /** The plain specification: look the id up among the last `cap` new ones. */
  ghost predicate Remembers(news: seq<Entry>, cap: nat, id: string) {
    id in Ids(Last(news, cap))
  }

  ghost function Judge(news: seq<Entry>, cap: nat, id: string, hash: bv64): Verdict {
    if !Remembers(news, cap, id) then New
    else if Entry(id, hash) in Last(news, cap) then DuplicateSame
    else DuplicateDivergent
  }

  lemma IdsIndex(es: seq<Entry>, id: string)
    ensures id in Ids(es) <==> exists i :: 0 <= i < |es| && es[i].id == id
  {
    if id in Ids(es) {
      var i :| 0 <= i < |Ids(es)| && Ids(es)[i] == id;
      assert es[i].id == id;
    }
    if i :| 0 <= i < |es| && es[i].id == id { assert Ids(es)[i] == id; }
  }

  /** Map and queue hold the same distinct ids, in arrival order. */
  ghost predicate Mirrors(seen: map<string, bv64>, order: seq<string>, recent: seq<Entry>) {
    && order == Ids(recent) && NoDup(order)
    && seen.Keys == Elems(order)
    && forall i :: 0 <= i < |order| ==> seen[order[i]] == recent[i].hash
  }

  lemma MirrorsLookup(seen: map<string, bv64>, order: seq<string>, recent: seq<Entry>, id: string, h: bv64)
    requires Mirrors(seen, order, recent)
    ensures id in seen <==> id in Ids(recent)
    ensures id in seen ==> (seen[id] == h <==> Entry(id, h) in recent)
  {
    if id in seen {
      var at: nat :| at < |order| && order[at] == id;
      if seen[id] == h { assert recent[at] == Entry(id, h); }
      if k :| 0 <= k < |recent| && recent[k] == Entry(id, h) { assert order[k] == id; }
    }
  }

  lemma IdsTail(es: seq<Entry>)
    requires es != []
    ensures Ids(es[1..]) == Ids(es)[1..]
  {
  }

  lemma TailDistinct(order: seq<string>)
    requires NoDup(order) && order != []
    ensures NoDup(order[1..]) && Elems(order[1..]) == Elems(order) - {order[0]}
  {
    var tail := order[1..];
    assert order == [order[0]] + tail;
    forall i | 0 <= i < |tail| ensures tail[i] != order[0] { assert order[i + 1] != order[0]; }
  }

  lemma MirrorsEvict(seen: map<string, bv64>, order: seq<string>, recent: seq<Entry>)
    requires Mirrors(seen, order, recent) && order != []
    ensures Mirrors(seen - {order[0]}, order[1..], recent[1..])
  {
    hide Ids, NoDup;
    assert |recent| == |order| by { IdsLength(recent); }
    IdsTail(recent);
    TailDistinct(order);
    var tail, rest := order[1..], seen - {order[0]};
    forall i | 0 <= i < |tail| ensures tail[i] in rest && rest[tail[i]] == recent[1..][i].hash {
      assert tail[i] in Elems(tail);
      assert tail[i] == order[i + 1];
    }
  }

  lemma IdsLength(es: seq<Entry>)
    ensures |Ids(es)| == |es|
  {
  }

  lemma MirrorsAdd(seen: map<string, bv64>, order: seq<string>, recent: seq<Entry>, id: string, h: bv64)
    requires Mirrors(seen, order, recent) && id !in seen
    ensures Mirrors(seen[id := h], order + [id], recent + [Entry(id, h)])
  {
    NoDupSnoc(order, id);
    assert Elems(order + [id]) == Elems(order) + {id};
    forall i | 0 <= i < |order| ensures seen[id := h][order[i]] == recent[i].hash { assert order[i] in Elems(order); }
  }

  class Window {
    const cap: nat
    var seen: map<string, bv64>
    var order: seq<string>
    /** Every id judged new so far, oldest first. */
    ghost var news: seq<Entry>

    ghost predicate Valid()
      reads this
    {
      cap >= 1 && Mirrors(seen, order, Last(news, cap))
    }

    constructor (capacity: nat)
      ensures Valid() && news == [] && cap == if capacity == 0 then 1 else capacity
    {
      cap := if capacity == 0 then 1 else capacity;
      seen, order, news := map[], [], [];
    }

    method Check(id: string, content: seq<bv8>) returns (v: Verdict)
      requires Valid()
      modifies this
      ensures Valid()
      ensures v == Judge(old(news), cap, id, HashContent(content))
      ensures news == if v == New then old(news) + [Entry(id, HashContent(content))] else old(news)
      ensures |seen| == |order| <= cap
      ensures v == New <==> id !in old(seen)
      ensures v == DuplicateSame <==> id in old(seen) && old(seen)[id] == HashContent(content)
    {
      var h := HashContent(content);
      hide Mirrors, HashContent;
      MirrorsLookup(seen, order, Last(news, cap), id, h);
      MirrorsSize(seen, order, Last(news, cap));
      if id in seen {
        v := if seen[id] == h then DuplicateSame else DuplicateDivergent;
      } else {
        v := New;
        LastAfter(news, cap, Entry(id, h));
        ghost var recent := Last(news, cap);
        if |order| >= cap {
          MirrorsEvict(seen, order, recent);
          recent := recent[1..];
          var oldest := order[0];
          order := order[1..];
          seen := seen - {oldest};
        }
        MirrorsAdd(seen, order, recent, id, h);
        seen := seen[id := h];
        order := order + [id];
        news := news + [Entry(id, h)];
        MirrorsSize(seen, order, Last(news, cap));
      }
    }
  }

  lemma MirrorsSize(seen: map<string, bv64>, order: seq<string>, recent: seq<Entry>)
    requires Mirrors(seen, order, recent)
    ensures |seen| == |order| == |recent|
  {
    assert |seen| == |seen.Keys|;
    NoDupCardinality(order);
  }

  lemma LastAfter(news: seq<Entry>, cap: nat, e: Entry)
    requires cap >= 1
    ensures var r := Last(news, cap);
      Last(news + [e], cap) == (if |r| >= cap then r[1..] else r) + [e]
  {
  }

  lemma InLast(news: seq<Entry>, cap: nat, i: nat)
    requires i < |news| && |news| - i <= cap
    ensures news[i].id in Ids(Last(news, cap))
  {
    var recent := Last(news, cap);
    assert recent[i - (|news| - |recent|)] == news[i];
    IdsIndex(recent, news[i].id);
  }

  // ---- whole sequences of checks ----

  datatype Query = Query(id: string, hash: bv64)

  /** The ids judged new by a sequence of checks. */
  ghost function Admitted(cap: nat, qs: seq<Query>): seq<Entry> {
    if qs == [] then []
    else
      var before := Admitted(cap, qs[..|qs| - 1]);
      var q := qs[|qs| - 1];
      if Judge(before, cap, q.id, q.hash) == New then before + [Entry(q.id, q.hash)] else before
  }

  /** Two new verdicts for the same id are more than `cap` new ids apart, so the
      window never holds an id twice. */
  lemma {:induction false} NewIdsAreApart(cap: nat, qs: seq<Query>, i: nat, j: nat)
    requires cap >= 1
    requires i < j < |Admitted(cap, qs)| && Admitted(cap, qs)[i].id == Admitted(cap, qs)[j].id
    ensures j - i > cap
  {
    var news := Admitted(cap, qs);
    var before := Admitted(cap, qs[..|qs| - 1]);
    if j < |before| {
      assert news[i] == before[i] && news[j] == before[j];
      NewIdsAreApart(cap, qs[..|qs| - 1], i, j);
    } else {
      var q := qs[|qs| - 1];
      assert j == |before| && news[j].id == q.id && !Remembers(before, cap, q.id);
      if j - i <= cap {
        InLast(before, cap, i);
        assert false;
      }
    }
  }

  lemma RememberedIff(news: seq<Entry>, cap: nat, id: string)
    ensures Remembers(news, cap, id) <==> exists i :: 0 <= i < |news| && news[i].id == id && |news| - i <= cap
  {
    hide Ids;
    var recent := Last(news, cap);
    IdsIndex(recent, id);
    if k :| 0 <= k < |recent| && recent[k].id == id { assert news[|news| - |recent| + k].id == id; }
    if i :| 0 <= i < |news| && news[i].id == id && |news| - i <= cap { InLast(news, cap, i); }
  }

  lemma AmongLast<T>(s: seq<T>, n: nat, x: T)
    ensures x in Last(s, n) <==> exists i :: 0 <= i < |s| && s[i] == x && |s| - i <= n
  {
    var drop := |s| - |Last(s, n)|;
    if x in Last(s, n) {
      var j :| 0 <= j < |Last(s, n)| && Last(s, n)[j] == x;
      assert s[j + drop] == x;
    }
    if i :| 0 <= i < |s| && s[i] == x && |s| - i <= n { assert Last(s, n)[i - drop] == x; }
  }

  /** A check is answered as a duplicate exactly when its id was judged new by an
      earlier check and fewer than `cap` other ids were judged new since, and as the
      same request exactly when that check had the same content. */
  lemma DuplicateIffRecent(cap: nat, qs: seq<Query>, q: Query)
    requires cap >= 1
    ensures Judge(Admitted(cap, qs), cap, q.id, q.hash) != New <==>
              exists i :: 0 <= i < |Admitted(cap, qs)|
                && Admitted(cap, qs)[i].id == q.id && |Admitted(cap, qs)| - i <= cap
    ensures Judge(Admitted(cap, qs), cap, q.id, q.hash) == DuplicateSame <==>
              exists i :: 0 <= i < |Admitted(cap, qs)|
                && Admitted(cap, qs)[i] == Entry(q.id, q.hash) && |Admitted(cap, qs)| - i <= cap
  {
    hide Admitted, Ids;
    var news, e := Admitted(cap, qs), Entry(q.id, q.hash);
    RememberedIff(news, cap, q.id);
    AmongLast(news, cap, e);
    if i :| 0 <= i < |news| && news[i] == e && |news| - i <= cap { assert news[i].id == q.id; }
  }
}

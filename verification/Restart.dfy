/** The restart budget of a guarded process: how many restarts a sliding window
    grants, and how long each is put off. */
module Restart {
  import opened Names

  datatype Policy = Policy(maxRestarts: nat, windowMs: nat, backoffMs: nat)

  const MAX_DELAY_MS: nat := 60000
  const U64_MAX: nat := 0xFFFF_FFFF_FFFF_FFFF

  predicate ValidPolicy(p: Policy) {
    p.windowMs != 0 && p.backoffMs != 0 && p.maxRestarts <= 100
  }

  function Since(now: nat, t: nat): nat {
    if now >= t then now - t else 0
  }

  /** Drops the attempts that have left the window. */
  function Expire(attempts: seq<nat>, now: nat, windowMs: nat): seq<nat> {
    if attempts != [] && Since(now, attempts[0]) >= windowMs then Expire(attempts[1..], now, windowMs) else attempts
  }

  function Min(a: nat, b: nat): nat {
    if a < b then a else b
  }

  function Pow2(n: nat): nat {
    if n == 0 then 1 else 2 * Pow2(n - 1)
  }

  /** A scaled backoff and a jitter, added in saturating 64-bit arithmetic. */
  function Capped(scaled: nat, jitter: nat): nat {
    Min(Min(Min(scaled, U64_MAX) + jitter, U64_MAX), MAX_DELAY_MS)
  }

  /** Exponential backoff with a deterministic jitter. */
  function Delay(held: nat, backoffMs: nat): nat
    requires backoffMs > 0
  {
    Capped(backoffMs * Pow2(Min(held, 10)), (held * 37) % backoffMs)
  }

  /** A granted reservation: when it was asked for, and when the restart may run. */
  datatype Grant = Grant(at: nat, due: nat)

  function Reservation(attempts: seq<nat>, now: nat, p: Policy): (seq<nat>, Option<Grant>) {
    if !ValidPolicy(p) then (attempts, None)
    else
      var kept := Expire(attempts, now, p.windowMs);
      if |kept| >= p.maxRestarts then (kept, None)
      else (kept + [now], Some(Grant(now, now + Delay(|kept|, p.backoffMs))))
  }

  class RestartBudget {
    var attempts: seq<nat>
    var next: Option<nat>

    constructor ()
      ensures attempts == [] && next == None
    {
      attempts, next := [], None;
    }

    method Reserve(now: nat, p: Policy) returns (due: Option<nat>)
      modifies this
      ensures var (kept, g) := Reservation(old(attempts), now, p);
        attempts == kept && due == (if g.Some? then Some(g.value.due) else None)
      ensures next == if due.Some? then due else old(next)
      ensures p.windowMs == 0 || p.backoffMs == 0 || p.maxRestarts > 100 ==> due == None && attempts == old(attempts)
    {
      if p.windowMs == 0 || p.backoffMs == 0 || p.maxRestarts > 100 { return None; }
      while attempts != [] && Since(now, attempts[0]) >= p.windowMs
        invariant next == old(next)
        invariant Expire(attempts, now, p.windowMs) == Expire(old(attempts), now, p.windowMs)
        decreases |attempts|
      {
        attempts := attempts[1..];
      }
      if |attempts| >= p.maxRestarts { return None; }
      var exp := Pow2(Min(|attempts|, 10));
      var jitter := (|attempts| * 37) % p.backoffMs;
      var delay := Min(Min(Min(p.backoffMs * exp, U64_MAX) + jitter, U64_MAX), MAX_DELAY_MS);
      due := Some(now + delay);
      attempts := attempts + [now];
      next := due;
    }
  }

  // ---- delays ----

  lemma {:induction false} Pow2Positive(n: nat)
    ensures Pow2(n) >= 1
  {
    if n > 0 { Pow2Positive(n - 1); }
  }

  lemma Scaled(b: nat, e: nat)
    requires e >= 1
    ensures b <= b * e && b * (2 * e) == b * e + b * e
  {
    assert b * e == b + b * (e - 1);
  }

  lemma CappedGrows(scaled: nat, b: nat, j: nat, j': nat)
    requires j < b <= scaled
    ensures Capped(scaled, j) <= Capped(scaled + scaled, j')
  {}

  /** The delay doubles with each held attempt up to ten, give or take less than one
      backoff, and never passes a minute. */
  lemma DelayBounds(held: nat, b: nat)
    requires b > 0
    ensures Min(b, MAX_DELAY_MS) <= Delay(held, b) <= MAX_DELAY_MS
    ensures var doubled := b * Pow2(Min(held, 10));
      Min(doubled, MAX_DELAY_MS) <= Delay(held, b) <= Min(doubled + (b - 1), MAX_DELAY_MS)
  {
    hide Pow2;
    Pow2Positive(Min(held, 10));
    Scaled(b, Pow2(Min(held, 10)));
  }

  /** Delays never shrink while the held attempts rise to ten. */
  lemma DelayGrows(held: nat, b: nat)
    requires b > 0 && held < 10
    ensures Delay(held, b) <= Delay(held + 1, b)
  {
    hide Capped;
    var e := Pow2(held);
    Pow2Positive(held);
    assert Pow2(held + 1) == 2 * e;
    Scaled(b, e);
    CappedGrows(b * e, b, (held * 37) % b, ((held + 1) * 37) % b);
  }

  // ---- sequences of reservations ----

  ghost predicate NonDecreasing(times: seq<nat>) {
    forall i, j :: 0 <= i <= j < |times| ==> times[i] <= times[j]
  }

  /** The attempts kept and the reservations granted by a sequence of failures. */
  function Replay(times: seq<nat>, p: Policy): (seq<nat>, seq<Grant>) {
    if times == [] then ([], [])
    else
      var (attempts, grants) := Replay(times[..|times| - 1], p);
      var (kept, g) := Reservation(attempts, times[|times| - 1], p);
      (kept, if g.Some? then grants + [g.value] else grants)
  }

  lemma {:induction false} ExpireKeepsTail(attempts: seq<nat>, now: nat, w: nat) returns (k: nat)
    ensures k <= |attempts| && Expire(attempts, now, w) == attempts[k..]
    ensures forall i :: 0 <= i < k ==> Since(now, attempts[i]) >= w
  {
    k := 0;
    if attempts != [] && Since(now, attempts[0]) >= w {
      var m := ExpireKeepsTail(attempts[1..], now, w);
      k := m + 1;
      assert attempts[1..][m..] == attempts[k..];
      forall i | 0 <= i < k ensures Since(now, attempts[i]) >= w {
        if i > 0 { assert attempts[i] == attempts[1..][i - 1]; }
      }
    }
  }

  function Times(grants: seq<Grant>): seq<nat> {
    seq(|grants|, i requires 0 <= i < |grants| => grants[i].at)
  }

  /** The attempts held are the latest grants; the earlier ones are a full window
      older than the last request. */
  ghost predicate Held(attempts: seq<nat>, grants: seq<Grant>, now: nat, p: Policy, k: nat) {
    && k <= |grants| && attempts == Times(grants)[k..]
    && (forall i :: 0 <= i < |grants| ==> grants[i].at <= now)
    && (forall i :: 0 <= i < k ==> grants[i].at + p.windowMs <= now)
  }

  /** Any `maxRestarts + 1` consecutive grants span at least a window. */
  ghost predicate Spaced(grants: seq<Grant>, p: Policy) {
    && (forall i :: 0 <= i && i + p.maxRestarts < |grants| ==>
          grants[i].at + p.windowMs <= grants[i + p.maxRestarts].at)
    && (forall i, j :: 0 <= i <= j < |grants| ==> grants[i].at <= grants[j].at)
  }

  lemma ExpireHeld(attempts: seq<nat>, grants: seq<Grant>, before: nat, k: nat, now: nat, p: Policy) returns (k': nat)
    requires ValidPolicy(p) && Held(attempts, grants, before, p, k) && before <= now
    ensures Held(Expire(attempts, now, p.windowMs), grants, now, p, k')
  {
    var m := ExpireKeepsTail(attempts, now, p.windowMs);
    k' := k + m;
    assert attempts[m..] == Times(grants)[k'..];
    forall i | 0 <= i < k' ensures grants[i].at + p.windowMs <= now {
      if i >= k { assert attempts[i - k] == grants[i].at; }
    }
  }

  lemma GrantKeeps(kept: seq<nat>, grants: seq<Grant>, k: nat, p: Policy, g: Grant)
    requires Held(kept, grants, g.at, p, k) && Spaced(grants, p) && |kept| < p.maxRestarts
    ensures Held(kept + [g.at], grants + [g], g.at, p, k) && Spaced(grants + [g], p)
  {
    var all := grants + [g];
    assert Times(all)[k..] == Times(grants)[k..] + [g.at];
    forall i | 0 <= i && i + p.maxRestarts < |all| ensures all[i].at + p.windowMs <= all[i + p.maxRestarts].at {
      if i + p.maxRestarts == |grants| { assert i < k; }
    }
  }

  lemma ReserveStep(attempts: seq<nat>, grants: seq<Grant>, before: nat, k: nat, now: nat, p: Policy) returns (k': nat)
    requires ValidPolicy(p) && Held(attempts, grants, before, p, k) && Spaced(grants, p) && before <= now
    ensures var (kept, g) := Reservation(attempts, now, p);
      var grants' := if g.Some? then grants + [g.value] else grants;
      Held(kept, grants', now, p, k') && Spaced(grants', p)
  {
    hide Held, Spaced, Delay, Expire;
    k' := ExpireHeld(attempts, grants, before, k, now, p);
    var (kept, g) := Reservation(attempts, now, p);
    if g.Some? { GrantKeeps(Expire(attempts, now, p.windowMs), grants, k', p, g.value); }
  }

  lemma {:induction false} ReplayHolds(times: seq<nat>, p: Policy) returns (k: nat)
    requires ValidPolicy(p) && NonDecreasing(times)
    ensures var (attempts, grants) := Replay(times, p);
      Held(attempts, grants, if times == [] then 0 else times[|times| - 1], p, k) && Spaced(grants, p)
  {
    k := 0;
    if times != [] {
      var front, now := times[..|times| - 1], times[|times| - 1];
      var j := ReplayHolds(front, p);
      var (attempts, grants) := Replay(front, p);
      k := ReserveStep(attempts, grants, if front == [] then 0 else front[|front| - 1], j, now, p);
    }
  }

  // ---- when a restart is granted ----

  /** How many grants are less than a window old. */
  function Recent(grants: seq<Grant>, now: nat, w: nat): nat {
    if grants == [] then 0
    else Recent(grants[..|grants| - 1], now, w) + if grants[|grants| - 1].at + w > now then 1 else 0
  }

  lemma {:induction false} RecentAfter(grants: seq<Grant>, now: nat, w: nat, k: nat)
    requires k <= |grants|
    requires forall i :: 0 <= i < |grants| ==> (grants[i].at + w > now <==> i >= k)
    ensures Recent(grants, now, w) == |grants| - k
  {
    if grants != [] {
      var n := |grants| - 1;
      RecentAfter(grants[..n], now, w, Min(k, n));
    }
  }

  /** What is left after expiry starts with an attempt inside the window. */
  lemma {:induction false} ExpireStops(attempts: seq<nat>, now: nat, w: nat)
    ensures var kept := Expire(attempts, now, w); kept != [] ==> Since(now, kept[0]) < w
  {
    if attempts != [] && Since(now, attempts[0]) >= w { ExpireStops(attempts[1..], now, w); }
  }

  lemma KeptAreRecent(attempts: seq<nat>, grants: seq<Grant>, before: nat, k: nat, now: nat, p: Policy)
    requires ValidPolicy(p) && Held(attempts, grants, before, p, k) && Spaced(grants, p) && before <= now
    ensures |Expire(attempts, now, p.windowMs)| == Recent(grants, now, p.windowMs)
  {
    hide Expire;
    var kept := Expire(attempts, now, p.windowMs);
    var j := ExpireHeld(attempts, grants, before, k, now, p);
    ExpireStops(attempts, now, p.windowMs);
    forall i | 0 <= i < |grants| ensures grants[i].at + p.windowMs > now <==> i >= j {
      if i >= j {
        assert kept[0] == grants[j].at && grants[j].at <= grants[i].at;
      }
    }
    RecentAfter(grants, now, p.windowMs, j);
  }

  /** A restart is granted exactly when fewer than `maxRestarts` grants are less than a
      window old, and then put off by the delay for that many. */
  lemma GrantedIff(times: seq<nat>, now: nat, p: Policy)
    requires ValidPolicy(p) && NonDecreasing(times + [now])
    ensures var before, after := Replay(times, p).1, Replay(times + [now], p).1;
      var recent := Recent(before, now, p.windowMs);
      after == if recent < p.maxRestarts then before + [Grant(now, now + Delay(recent, p.backoffMs))] else before
  {
    hide Held, Spaced, Delay, Expire;
    var all := times + [now];
    assert all[..|times|] == times;
    assert NonDecreasing(times) by {
      forall i, j | 0 <= i <= j < |times| ensures times[i] <= times[j] { assert all[i] <= all[j]; }
    }
    var k := ReplayHolds(times, p);
    var last := if times == [] then 0 else times[|times| - 1];
    assert times != [] ==> all[|times| - 1] <= all[|times|];
    KeptAreRecent(Replay(times, p).0, Replay(times, p).1, last, k, now, p);
  }

  /** How many grants fall in the half-open interval `[from, to)`. */
  function CountIn(grants: seq<Grant>, from: nat, to: nat): nat {
    if grants == [] then 0
    else CountIn(grants[..|grants| - 1], from, to) + if from <= grants[|grants| - 1].at < to then 1 else 0
  }

  lemma {:induction false} CountAfter(grants: seq<Grant>, from: nat, to: nat, m: nat)
    requires forall i, j :: 0 <= i <= j < |grants| ==> grants[i].at <= grants[j].at
    requires m <= |grants| && forall i :: 0 <= i < m ==> grants[i].at < from
    ensures CountIn(grants, from, to) <= |grants| - m
  {
    if grants != [] {
      var n := |grants| - 1;
      CountAfter(grants[..n], from, to, if m <= n then m else n);
    }
  }

  /** A grant inside the interval shuts out everything `maxRestarts` before it. */
  lemma {:induction false} CountBounded(grants: seq<Grant>, from: nat, p: Policy)
    requires ValidPolicy(p) && Spaced(grants, p)
    ensures CountIn(grants, from, from + p.windowMs) <= p.maxRestarts
  {
    if grants != [] {
      var n := |grants| - 1;
      if from <= grants[n].at < from + p.windowMs {
        var m := if |grants| >= p.maxRestarts then |grants| - p.maxRestarts else 0;
        forall i | 0 <= i < m ensures grants[i].at < from {
          assert grants[m - 1].at + p.windowMs <= grants[m - 1 + p.maxRestarts].at;
          assert grants[i].at <= grants[m - 1].at;
        }
        CountAfter(grants, from, from + p.windowMs, m);
      } else {
        SpacedPrefix(grants, p, n);
        CountBounded(grants[..n], from, p);
      }
    }
  }

  lemma SpacedPrefix(grants: seq<Grant>, p: Policy, n: nat)
    requires Spaced(grants, p) && n <= |grants|
    ensures Spaced(grants[..n], p)
  {
    var g := grants[..n];
    forall i | 0 <= i && i + p.maxRestarts < |g| ensures g[i].at + p.windowMs <= g[i + p.maxRestarts].at {
      assert g[i] == grants[i] && g[i + p.maxRestarts] == grants[i + p.maxRestarts];
    }
  }

  /** Over any non-decreasing sequence of failure times, no half-open interval as
      long as the window contains more than `maxRestarts` grants. */
  lemma WindowBound(times: seq<nat>, p: Policy, from: nat)
    requires ValidPolicy(p) && NonDecreasing(times)
    ensures CountIn(Replay(times, p).1, from, from + p.windowMs) <= p.maxRestarts
  {
    var k := ReplayHolds(times, p);
    CountBounded(Replay(times, p).1, from, p);
  }
}

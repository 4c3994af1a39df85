/** Admission against withdrawal, interleaved at lock granularity: any number of
    callers opening and ending calls on one activation while it is disposed. */
module Tickets {
  import opened Names
  import opened Calls

  datatype Phase = Active | Quiescing | CleanupPending | Disposed

  /** Where a caller of `call_open` stands. */
  datatype Opener = Checked | Registered(ticket: nat) | Refused(ticket: nat) | Finished

  /** Where the dispose that won the claim stands. While it goes through its
      snapshot, `left` are the tickets to visit with their policies (does it drain?)
      and `until` is the latest deadline set so far. */
  datatype Disposer =
    | Idle
    | Claimed
    | Scanning(left: map<nat, bool>, until: Option<nat>)
    | Waited(at: nat)
    | Swept
    | SawPending
    | Marked
    | SawNone
    | Done

  /** `owing` counts the callers that have taken a ticket out of the table and
      have not yet re-evaluated the owner. `handed` are the tickets given to their
      openers; `atClaim` and `atScan` are the table at the moment the dispose was
      claimed and when it took its snapshot. */
  datatype State = State(
    phase: Phase,
    owner: Owner,
    tickets: TicketMap,
    nextTicket: nat,
    openers: map<nat, Opener>,
    disposer: Disposer,
    owing: nat,
    held: set<nat>,
    refusing: set<nat>,
    released: bool,
    handed: set<nat>,
    atClaim: set<nat>,
    atScan: set<nat>)

  datatype Step =
    | OpenCheck(o: nat)
    | OpenAlloc(o: nat, drains: bool)
    | OpenRecheck(o: nat, bindingsFresh: bool)
    | OpenSettle(o: nat)
    | End(ticket: nat)
    | Move(ticket: nat, state: TicketState)
    | Finalize
    | Claim
    | Snapshot
    | Visit(ticket: nat, until: nat)
    | Wait(now: nat)
    | Expire(now: nat)
    | CheckPending
    | Mark
    | RecheckAfterMark
    | Release
    | Rollback(o: nat)

  predicate Init(s: State) {
    && s.phase == Active && s.tickets == map[] && s.openers == map[] && s.disposer == Idle
    && s.owing == 0 && !s.released && s.handed == {} && s.atClaim == {} && s.atScan == {}
  }

  predicate Enabled(s: State, step: Step) {
    match step
    case OpenCheck(o) => o !in s.openers && s.phase == Active
    case OpenAlloc(o, _) => o in s.openers && s.openers[o] == Checked
    case OpenRecheck(o, _) => o in s.openers && s.openers[o].Registered?
    case OpenSettle(o) => o in s.openers && s.openers[o].Refused?
    case End(t) => t in s.tickets
    case Move(_, state) => state != Admitted
    case Finalize => s.owing > 0
    case Claim => s.disposer == Idle && s.phase == Active
    case Snapshot => s.disposer == Claimed
    case Visit(t, _) => s.disposer.Scanning? && t in s.disposer.left
    case Wait(now) =>
      && s.disposer.Scanning? && s.disposer.left == map[]
      && (s.disposer.until.Some? ==> s.tickets == map[] || now >= s.disposer.until.value)
    case Expire(now) => s.disposer.Waited? && now >= s.disposer.at
    case CheckPending => s.disposer == Swept
    case Mark => s.disposer == SawPending
    case RecheckAfterMark => s.disposer == Marked
    case Release => s.disposer == SawNone
    case Rollback(o) => o in s.openers && s.openers[o].Refused?
  }

  /** Releases every resource that does not refuse. */
  function ReleaseAll(s: State): State {
    var left := s.held * s.refusing;
    s.(held := left, released := true, phase := if left == {} then Disposed else CleanupPending)
  }

  function MaybeFinalize(s: State): State {
    if s.phase == CleanupPending && s.tickets == map[] then ReleaseAll(s) else s
  }

  function Without(s: State, t: nat): State {
    s.(tickets := s.tickets - {t})
  }

  function Latest(until: Option<nat>, u: nat): Option<nat> {
    if until.Some? && until.value >= u then until else Some(u)
  }

  /** The dispose visits one ticket of its snapshot: a draining one gets a deadline,
      any other is cancelled. */
  function VisitOne(s: State, t: nat, u: nat): State
    requires s.disposer.Scanning? && t in s.disposer.left
  {
    var rest, until := s.disposer.left - {t}, s.disposer.until;
    if s.disposer.left[t]
    then s.(tickets := DrainUntil(s.tickets, t, u), disposer := Scanning(rest, Latest(until, u)))
    else s.(tickets := Leave(s.tickets, t, Cancelled), disposer := Scanning(rest, until))
  }

  function Next(s: State, step: Step): State
    requires Enabled(s, step)
  {
    match step
    case OpenCheck(o) => s.(openers := s.openers[o := Checked])
    case OpenAlloc(o, drains) =>
      s.(tickets := s.tickets[s.nextTicket := Opened(s.owner, drains)], nextTicket := s.nextTicket + 1,
         openers := s.openers[o := Registered(s.nextTicket)])
    case OpenRecheck(o, bindingsFresh) =>
      var t := s.openers[o].ticket;
      if s.phase == Active && bindingsFresh
      then s.(openers := s.openers[o := Finished], handed := s.handed + {t})
      else s.(openers := s.openers[o := Refused(t)])
    case OpenSettle(o) =>
      var t := s.openers[o].ticket;
      var s1 := s.(openers := s.openers[o := Finished]);
      if t in s.tickets then Without(s1, t).(owing := s.owing + 1) else s1
    case End(t) => Without(s, t).(owing := s.owing + 1)
    case Move(t, state) => s.(tickets := Force(s.tickets, t, state))
    case Finalize => MaybeFinalize(s).(owing := s.owing - 1)
    case Claim => s.(phase := Quiescing, disposer := Claimed, atClaim := s.tickets.Keys)
    case Snapshot =>
      s.(disposer := Scanning(map t | t in s.tickets :: s.tickets[t].drains, None), atScan := s.tickets.Keys)
    case Visit(t, u) => VisitOne(s, t, u)
    case Wait(now) => s.(disposer := Waited(now))
    case Expire(now) => s.(disposer := Swept, tickets := Calls.Marked(s.tickets, Overdue(s.tickets, now), Expired))
    case CheckPending => s.(disposer := if s.tickets != map[] then SawPending else SawNone)
    case Mark => s.(disposer := Marked, phase := CleanupPending)
    case RecheckAfterMark => MaybeFinalize(s).(disposer := Done)
    case Release => ReleaseAll(s).(disposer := Done)
    case Rollback(o) => Without(s, s.openers[o].ticket).(openers := s.openers[o := Finished])
  }

  ghost predicate Path(ss: seq<State>, steps: seq<Step>) {
    && |ss| == |steps| + 1
    && forall i :: 0 <= i < |steps| ==> Enabled(ss[i], steps[i]) && ss[i + 1] == Next(ss[i], steps[i])
  }

  ghost predicate Run(ss: seq<State>, steps: seq<Step>) {
    Path(ss, steps) && Init(ss[0])
  }

  lemma PathExtends(ss: seq<State>, steps: seq<Step>, step: Step)
    requires Path(ss, steps) && Enabled(ss[|steps|], step)
    ensures Path(ss + [Next(ss[|steps|], step)], steps + [step]) && |ss| == |steps| + 1
  {
  }

  lemma PathJoins(ss: seq<State>, steps: seq<Step>, ss': seq<State>, steps': seq<Step>)
    requires Path(ss, steps) && Path(ss', steps') && ss'[0] == ss[|steps|]
    ensures Path(ss + ss'[1..], steps + steps') && |ss| == |steps| + 1 && |ss'| == |steps'| + 1
  {
    var all, todo := ss + ss'[1..], steps + steps';
    forall i | 0 <= i < |todo| ensures Enabled(all[i], todo[i]) && all[i + 1] == Next(all[i], todo[i]) {
      if i < |steps| {
        assert todo[i] == steps[i] && all[i] == ss[i] && all[i + 1] == ss[i + 1];
      } else {
        assert todo[i] == steps'[i - |steps|];
        assert all[i] == ss'[i - |steps|] && all[i + 1] == ss'[i - |steps| + 1];
      }
    }
  }

  /** `n` is `s` with its dispose moved on and no ticket taken out. */
  ghost predicate OnlySwept(s: State, n: State) {
    n == s.(disposer := n.disposer, tickets := n.tickets, atScan := n.atScan) && n.tickets.Keys == s.tickets.Keys
  }

  /** The visits to a whole snapshot. */
  lemma VisitsPath(s: State) returns (ss: seq<State>, steps: seq<Step>)
    requires s.disposer.Scanning?
    ensures Path(ss, steps) && |ss| == |steps| + 1 && ss[0] == s
    ensures var n := ss[|steps|]; n.disposer.Scanning? && n.disposer.left == map[] && OnlySwept(s, n)
  {
    ss, steps := [s], [];
    assert Path(ss, steps);
    hide Path;
    var n := s;
    while n.disposer.left != map[]
      invariant Path(ss, steps) && |ss| == |steps| + 1 && ss[0] == s && n == ss[|steps|]
      invariant n.disposer.Scanning? && OnlySwept(s, n)
      decreases n.disposer.left.Keys
    {
      var t :| t in n.disposer.left;
      PathExtends(ss, steps, Visit(t, 0));
      var m := VisitOne(n, t, 0);
      assert m.tickets.Keys == n.tickets.Keys && m.disposer.left.Keys == n.disposer.left.Keys - {t};
      ss, steps, n := ss + [m], steps + [Visit(t, 0)], m;
    }
  }

  /** A dispose that nobody interrupts visits its whole snapshot, waits and sweeps. */
  lemma SweepPath(s: State) returns (ss: seq<State>, steps: seq<Step>)
    requires s.disposer == Claimed
    ensures Path(ss, steps) && |ss| == |steps| + 1 && ss[0] == s
    ensures ss[|steps|].disposer == Swept && OnlySwept(s, ss[|steps|])
  {
    var a := Next(s, Snapshot);
    var first, todo := [s, a], [Snapshot];
    assert Path(first, todo);
    ss, steps := VisitsPath(a);
    var b := ss[|steps|];
    PathJoins(first, todo, ss, steps);
    ss, steps := first + ss[1..], todo + steps;
    var now := if b.disposer.until.Some? then b.disposer.until.value else 0;
    var c := Next(b, Wait(now));
    var d := Next(c, Expire(now));
    assert d.tickets.Keys == c.tickets.Keys;
    var last, rest := [b, c, d], [Wait(now), Expire(now)];
    assert Path(last, rest);
    hide Path;
    PathJoins(ss, steps, last, rest);
    ss, steps := ss + last[1..], steps + rest;
  }

  /** After the sweep it parks the activation or releases its resources. */
  lemma FinishPath(s: State) returns (ss: seq<State>, steps: seq<Step>)
    requires s.disposer == Swept && s.phase == Quiescing
    ensures Path(ss, steps) && |ss| == |steps| + 1 && ss[0] == s && ss[|steps|].disposer == Done
    ensures s.tickets != map[] ==> ss[|steps|].phase == CleanupPending && ss[|steps|].held == s.held
    ensures s.tickets == map[] ==> ss[|steps|].phase == ReleaseAll(s).phase && ss[|steps|].held == ReleaseAll(s).held
  {
    var a := Next(s, CheckPending);
    if s.tickets != map[] {
      var b := Next(a, Mark);
      ss, steps := [s, a, b, Next(b, RecheckAfterMark)], [CheckPending, Mark, RecheckAfterMark];
    } else {
      ss, steps := [s, a, Next(a, Release)], [CheckPending, Release];
    }
  }

  // ---- admission safety ----

  /** Between the claim and the decision whether to park. */
  predicate UnderWay(d: Disposer) {
    d.Claimed? || d.Scanning? || d.Waited? || d.Swept? || d.SawPending? || d.SawNone?
  }

  /** A handed-out ticket that is still in the table was there at the claim, and
      once the resources are released none is left. */
  ghost predicate Safe(s: State) {
    && (s.phase == Active <==> s.disposer == Idle)
    && (UnderWay(s.disposer) ==> s.phase == Quiescing && !s.released)
    && (s.disposer in {Marked, Done} ==> s.phase == CleanupPending || s.phase == Disposed)
    && (s.phase == Active ==> !s.released)
    && (s.phase == Disposed ==> s.released && s.held == {})
    && (forall t :: t in s.tickets || t in s.handed || t in s.atClaim ==> t < s.nextTicket)
    && (forall o :: o in s.openers && (s.openers[o].Registered? || s.openers[o].Refused?) ==>
          s.openers[o].ticket < s.nextTicket)
    && (s.phase != Active ==> s.handed * s.tickets.Keys <= s.atClaim)
    && (s.disposer == SawNone || s.released ==> s.atClaim * s.tickets.Keys == {})
  }

  lemma SafeStep(s: State, step: Step)
    requires Safe(s) && Enabled(s, step)
    ensures Safe(Next(s, step))
  {
    var n := Next(s, step);
    match step
    case OpenAlloc(o, _) => assert n.tickets.Keys == s.tickets.Keys + {s.nextTicket};
    case OpenSettle(o) => assert n.tickets.Keys <= s.tickets.Keys;
    case End(t) => assert n.tickets.Keys <= s.tickets.Keys;
    case Rollback(o) => assert n.tickets.Keys <= s.tickets.Keys;
    case Move(t, _) => assert n.tickets.Keys == s.tickets.Keys;
    case Visit(_, _) => assert n.tickets.Keys == s.tickets.Keys;
    case Expire(_) => assert n.tickets.Keys == s.tickets.Keys;
    case CheckPending => assert s.tickets == map[] ==> s.tickets.Keys == {};
    case Finalize => assert s.tickets == map[] ==> s.tickets.Keys == {};
    case RecheckAfterMark => assert s.tickets == map[] ==> s.tickets.Keys == {};
    case _ =>
  }

  lemma {:induction false} AlwaysSafe(ss: seq<State>, steps: seq<Step>, i: nat)
    requires Run(ss, steps) && i < |ss|
    ensures Safe(ss[i])
    decreases i
  {
    if i > 0 {
      AlwaysSafe(ss, steps, i - 1);
      SafeStep(ss[i - 1], steps[i - 1]);
    }
  }

  /** In every interleaving, a ticket handed to its opener and still in the table
      was already there when the dispose claimed the activation; while it is there,
      no resource has been released and the activation is not Disposed. */
  lemma HandedTicketPinsResources(ss: seq<State>, steps: seq<Step>, i: nat, t: nat)
    requires Run(ss, steps) && i < |ss|
    requires t in ss[i].handed && t in ss[i].tickets
    ensures ss[i].phase != Active ==> t in ss[i].atClaim
    ensures !ss[i].released && ss[i].phase != Disposed && ss[i].held == ss[0].held
  {
    AlwaysSafe(ss, steps, i);
    var s := ss[i];
    if s.phase != Active { assert t in s.handed * s.tickets.Keys; }
    assert s.released ==> t !in s.atClaim * s.tickets.Keys;
    HeldUntilReleased(ss, steps, i);
  }

  lemma {:induction false} HeldUntilReleased(ss: seq<State>, steps: seq<Step>, i: nat)
    requires Run(ss, steps) && i < |ss|
    ensures !ss[i].released ==> ss[i].held == ss[0].held
    ensures ss[i].refusing == ss[0].refusing
    decreases i
  {
    if i > 0 {
      HeldUntilReleased(ss, steps, i - 1);
      assert Enabled(ss[i - 1], steps[i - 1]) && ss[i] == Next(ss[i - 1], steps[i - 1]);
    }
  }

  /** Until the release everything is held; after it exactly what refuses. */
  lemma {:induction false} HeldIs(ss: seq<State>, steps: seq<Step>, i: nat)
    requires Run(ss, steps) && i < |ss|
    ensures ss[i].held == if ss[i].released then ss[0].held * ss[0].refusing else ss[0].held
    ensures ss[i].phase == Disposed ==> ss[0].held * ss[0].refusing == {}
    decreases i
  {
    hide Safe;
    if i > 0 {
      HeldIs(ss, steps, i - 1);
      HeldUntilReleased(ss, steps, i - 1);
      HeldStep(ss[i - 1], steps[i - 1], ss[0].held * ss[0].refusing);
    }
  }

  lemma HeldStep(s: State, step: Step, left: set<nat>)
    requires Enabled(s, step) && s.held * s.refusing == left && (s.released ==> s.held == left)
    requires s.phase == Disposed ==> left == {}
    ensures var n := Next(s, step);
      && n.held == (if n.released then left else s.held)
      && (n.phase == Disposed ==> left == {})
  {
    hide Force, DrainUntil, Leave, Overdue;
  }

  // ---- who gets a ticket ----

  predicate Waiting(s: State, o: nat) {
    o in s.openers && (s.openers[o].Registered? || s.openers[o].Refused?)
  }

  /** A caller between registration and answer has a ticket of its own. */
  ghost predicate Apart(s: State) {
    && (forall o :: Waiting(s, o) ==> s.openers[o].ticket !in s.handed)
    && (forall o, p :: Waiting(s, o) && Waiting(s, p) && o != p ==> s.openers[o].ticket != s.openers[p].ticket)
  }

  lemma ApartStep(s: State, step: Step)
    requires Safe(s) && Apart(s) && Enabled(s, step)
    ensures Apart(Next(s, step))
  {
    var n := Next(s, step);
    forall o | Waiting(n, o)
      ensures n.openers[o].ticket !in n.handed
      ensures Waiting(s, o) || (step.OpenAlloc? && o == step.o && n.openers[o].ticket == s.nextTicket)
      ensures Waiting(s, o) ==> n.openers[o].ticket == s.openers[o].ticket
    {
    }
  }

  lemma {:induction false} AlwaysApart(ss: seq<State>, steps: seq<Step>, i: nat)
    requires Run(ss, steps) && i < |ss|
    ensures Apart(ss[i])
    ensures ss[i].phase == Active <==> forall n :: 0 <= n < i ==> !steps[n].Claim?
    decreases i
  {
    hide Safe, Apart;
    if i == 0 {
      StartsApart(ss[0]);
    } else {
      AlwaysApart(ss, steps, i - 1);
      AlwaysSafe(ss, steps, i - 1);
      ApartStep(ss[i - 1], steps[i - 1]);
      ClaimLeaves(ss[i - 1], steps[i - 1]);
      assert Enabled(ss[i - 1], steps[i - 1]) && ss[i] == Next(ss[i - 1], steps[i - 1]);
    }
  }

  lemma StartsApart(s: State)
    requires Init(s)
    ensures Apart(s)
  {}

  lemma ClaimLeaves(s: State, step: Step)
    requires Safe(s) && Enabled(s, step)
    ensures Next(s, step).phase == Active <==> s.phase == Active && !step.Claim?
  {}

  /** A caller that registered is handed its ticket exactly when its bindings still
      stand and no dispose has been claimed since the activation went into service. */
  lemma HandedIff(ss: seq<State>, steps: seq<Step>, i: nat, o: nat, bindingsFresh: bool)
    requires Run(ss, steps) && i < |steps| && steps[i] == OpenRecheck(o, bindingsFresh)
    ensures o in ss[i].openers && ss[i].openers[o].Registered?
    ensures ss[i].openers[o].ticket in ss[i + 1].handed <==>
              bindingsFresh && forall n :: 0 <= n < i ==> !steps[n].Claim?
  {
    AlwaysApart(ss, steps, i);
    assert Enabled(ss[i], steps[i]) && ss[i + 1] == Next(ss[i], steps[i]);
    assert Waiting(ss[i], o);
  }

  // ---- what becomes of the calls in flight ----

  predicate Afterwards(d: Disposer) {
    d.Swept? || d.SawPending? || d.Marked? || d.SawNone? || d.Done?
  }

  /** The deadline is set, and not later than `at`. */
  predicate DueBy(t: Ticket, at: nat) {
    t.drains && t.deadline.Some? && t.deadline.value <= at
  }

  /** Tickets of the snapshot are cancelled or draining once visited, overdue once
      the wait is over, and without authority after the sweep. Every handed-out
      ticket still in the table is in the snapshot. */
  ghost predicate Winding(s: State) {
    && (forall t :: t in s.atScan ==> t < s.nextTicket)
    && (s.disposer.Scanning? ==>
          && s.disposer.left.Keys <= s.atScan
          && (forall t :: t in s.disposer.left && t in s.tickets ==> s.tickets[t].drains == s.disposer.left[t])
          && (forall t :: t in s.atScan && t !in s.disposer.left && IsAdmitted(s.tickets, t) ==>
                s.disposer.until.Some? && DueBy(s.tickets[t], s.disposer.until.value)))
    && (s.disposer.Waited? ==>
          forall t :: t in s.atScan && IsAdmitted(s.tickets, t) ==> DueBy(s.tickets[t], s.disposer.at))
    && (Afterwards(s.disposer) ==> forall t :: t in s.atScan ==> !IsAdmitted(s.tickets, t))
    && (s.disposer != Idle && s.disposer != Claimed ==> s.handed * s.tickets.Keys <= s.atScan)
  }

  /** Where the table only loses tickets or authority, winding up goes on as before. */
  lemma WindingShrinks(s: State, n: State)
    requires Winding(s) && n.disposer == s.disposer && n.atScan == s.atScan && n.nextTicket == s.nextTicket
    requires n.handed == s.handed || s.disposer == Idle || s.disposer == Claimed
    requires forall t :: t in n.tickets ==>
      && t in s.tickets && n.tickets[t] == s.tickets[t].(state := n.tickets[t].state)
      && (n.tickets[t].state == Admitted ==> s.tickets[t].state == Admitted)
    ensures Winding(n)
  {
    assert n.tickets.Keys <= s.tickets.Keys;
  }

  lemma WindingStep(s: State, step: Step)
    requires Safe(s) && Winding(s) && Enabled(s, step)
    ensures Winding(Next(s, step))
  {
    hide Safe;
    var n := Next(s, step);
    match step
    case OpenAlloc(o, _) => AllocWinds(s, step);
    case OpenRecheck(_, _) =>
      ActiveIsIdle(s);
      WindingShrinks(s, n);
    case Snapshot => assert n.handed * n.tickets.Keys <= n.atScan; BelowNext(s);
    case Visit(t, u) => VisitWinds(s, t, u);
    case Wait(now) => assert s.tickets == map[] ==> forall t :: !IsAdmitted(s.tickets, t);
    case Expire(now) => assert n.tickets.Keys == s.tickets.Keys;
    case CheckPending =>
    case Mark =>
    case RecheckAfterMark =>
    case Release =>
    case Claim =>
    case _ => WindingShrinks(s, n);
  }

  lemma ActiveIsIdle(s: State)
    requires Safe(s)
    ensures s.phase == Active ==> s.disposer == Idle
  {}

  lemma BelowNext(s: State)
    requires Safe(s)
    ensures forall t :: t in s.tickets ==> t < s.nextTicket
  {}

  lemma AllocWinds(s: State, step: Step)
    requires Safe(s) && Winding(s) && Enabled(s, step) && step.OpenAlloc?
    ensures Winding(Next(s, step))
  {
    var n := Next(s, step);
    assert n.tickets.Keys == s.tickets.Keys + {s.nextTicket};
    assert s.nextTicket !in s.handed && s.nextTicket !in s.atScan;
  }

  lemma VisitWinds(s: State, t: nat, u: nat)
    requires Winding(s) && s.disposer.Scanning? && t in s.disposer.left
    ensures Winding(VisitOne(s, t, u))
  {
    assert VisitOne(s, t, u).tickets.Keys == s.tickets.Keys;
  }

  lemma {:induction false} AlwaysWinding(ss: seq<State>, steps: seq<Step>, i: nat)
    requires Run(ss, steps) && i < |ss|
    ensures Winding(ss[i])
    decreases i
  {
    hide Winding, Safe;
    if i == 0 {
      StartsWinding(ss[0]);
    } else {
      AlwaysWinding(ss, steps, i - 1);
      AlwaysSafe(ss, steps, i - 1);
      WindingStep(ss[i - 1], steps[i - 1]);
    }
  }

  lemma StartsWinding(s: State)
    requires Init(s)
    ensures Winding(s)
  {}

  /** When a dispose decides whether to park, releases or has ended, no call handed
      to its opener keeps the authority it had. */
  lemma AuthorityEnds(ss: seq<State>, steps: seq<Step>, i: nat, t: nat)
    requires Run(ss, steps) && i < |ss| && t in ss[i].handed && t in ss[i].tickets
    requires ss[i].disposer in {Swept, SawPending, SawNone, Marked, Done}
    ensures ss[i].tickets[t].state != Admitted
  {
    AlwaysWinding(ss, steps, i);
    assert t in ss[i].handed * ss[i].tickets.Keys;
  }

  /** The scan cancels an open call that does not drain and gives one that does a
      deadline, leaving it open; no other ticket changes. */
  lemma ScanHeedsPolicy(ss: seq<State>, steps: seq<Step>, i: nat, t: nat, u: nat, id: nat)
    requires Run(ss, steps) && i < |steps| && steps[i] == Visit(t, u) && id in ss[i].tickets
    ensures id in ss[i + 1].tickets
    ensures var before, after := ss[i].tickets[id], ss[i + 1].tickets[id];
      if id != t || before.state != Admitted then after == before
      else if before.drains then after == before.(deadline := Some(u)) && after.state == Admitted
      else after == before.(state := Cancelled)
  {
    AlwaysWinding(ss, steps, i);
    assert Enabled(ss[i], steps[i]) && ss[i + 1] == Next(ss[i], steps[i]);
  }

  /** Somebody else moved the ticket, or its drain was overdue. */
  ghost predicate MovedOrOverdue(s: State, step: Step, t: nat) {
    || (step.Move? && step.ticket == t)
    || (step.Expire? && t in s.tickets && s.tickets[t].deadline.Some? && step.now >= s.tickets[t].deadline.value)
  }

  lemma DrainingStep(ss: seq<State>, steps: seq<Step>, i: nat, t: nat)
    requires Run(ss, steps) && i < |steps| && IsAdmitted(ss[i].tickets, t) && ss[i].tickets[t].drains
    ensures t in ss[i + 1].tickets && !MovedOrOverdue(ss[i], steps[i], t) ==> ss[i + 1].tickets[t].state == Admitted
  {
    AlwaysSafe(ss, steps, i);
    AlwaysWinding(ss, steps, i);
    assert Enabled(ss[i], steps[i]) && ss[i + 1] == Next(ss[i], steps[i]);
  }

  /** Over any stretch of a run, a draining call that is still in the table has lost
      its authority only if somebody moved it or its deadline had passed: a dispose
      does not take it away before. */
  lemma {:induction false} DrainingIsKept(ss: seq<State>, steps: seq<Step>, i: nat, j: nat, t: nat)
    requires Run(ss, steps) && i <= j < |ss|
    requires IsAdmitted(ss[i].tickets, t) && ss[i].tickets[t].drains && t in ss[j].tickets
    ensures ss[j].tickets[t].drains
    ensures ss[j].tickets[t].state == Admitted || exists n :: i <= n < j && MovedOrOverdue(ss[n], steps[n], t)
    decreases j
  {
    hide MovedOrOverdue, Next, Enabled, Safe, Init;
    if i < j {
      AlwaysSafe(ss, steps, i);
      BelowNext(ss[i]);
      IdsGrow(ss, steps, i, j - 1);
      WasThere(ss, steps, j - 1, t);
      DrainingIsKept(ss, steps, i, j - 1, t);
      if ss[j - 1].tickets[t].state == Admitted {
        DrainingStep(ss, steps, j - 1, t);
      }
    }
  }

  lemma {:induction false} IdsGrow(ss: seq<State>, steps: seq<Step>, i: nat, j: nat)
    requires Run(ss, steps) && i <= j < |ss|
    ensures ss[i].nextTicket <= ss[j].nextTicket
    decreases j
  {
    if i < j {
      IdsGrow(ss, steps, i, j - 1);
      assert Enabled(ss[j - 1], steps[j - 1]) && ss[j] == Next(ss[j - 1], steps[j - 1]);
    }
  }

  /** A ticket under an id handed out before was in the table before, with the same
      policy. */
  lemma WasThere(ss: seq<State>, steps: seq<Step>, i: nat, t: nat)
    requires Run(ss, steps) && i < |steps| && t in ss[i + 1].tickets && t < ss[i].nextTicket
    ensures t in ss[i].tickets && ss[i + 1].tickets[t].drains == ss[i].tickets[t].drains
  {
    assert Enabled(ss[i], steps[i]) && ss[i + 1] == Next(ss[i], steps[i]);
  }

  // ---- no activation left behind ----

  predicate Releasable(s: State) {
    s.held * s.refusing == {}
  }

  /** A parked activation with an empty table still has somebody bound to
      re-evaluate it. */
  ghost predicate Attended(s: State) {
    s.phase == CleanupPending && s.tickets == map[] && Releasable(s) ==> s.owing > 0 || s.disposer == Marked
  }

  /** A rollback that takes the last ticket of a parked, releasable activation that
      nobody is about to re-evaluate. */
  predicate Strands(s: State, o: nat) {
    && o in s.openers && s.openers[o].Refused? && s.tickets.Keys == {s.openers[o].ticket}
    && s.phase == CleanupPending && Releasable(s) && s.owing == 0 && s.disposer != Marked
  }

  predicate IsStranding(s: State, step: Step) {
    step.Rollback? && Strands(s, step.o)
  }

  /** One step: only a stranding rollback leaves an activation unattended, and only a
      caller registering late attends to it again. */
  lemma AttendedStep(s: State, step: Step)
    requires Safe(s) && Enabled(s, step)
    ensures !Attended(Next(s, step)) <==> IsStranding(s, step) || (!Attended(s) && !step.OpenAlloc?)
  {
    var n := Next(s, step);
    NoTickets(s);
    NoTickets(n);
    match step
    case OpenAlloc(o, _) => assert s.nextTicket in n.tickets.Keys;
    case Rollback(o) =>
      var t := s.openers[o].ticket;
      assert n.tickets.Keys == s.tickets.Keys - {t};
      assert s.tickets.Keys - {t} == {} && t in s.tickets.Keys <==> s.tickets.Keys == {t};
      assert t !in s.tickets ==> n.tickets == s.tickets;
    case Visit(_, _) => assert n.tickets.Keys == s.tickets.Keys;
    case Expire(_) => assert n.tickets.Keys == s.tickets.Keys;
    case Move(_, _) => assert n.tickets.Keys == s.tickets.Keys;
    case _ =>
  }

  lemma NoTickets(s: State)
    ensures s.tickets == map[] <==> s.tickets.Keys == {}
  {
    assert s.tickets.Keys == {} ==> s.tickets == map[];
  }

  /** Step `j` is a stranding rollback, and no caller has registered since. */
  ghost predicate StrandedSince(ss: seq<State>, steps: seq<Step>, j: nat, i: nat)
    requires |ss| == |steps| + 1 && i < |ss|
  {
    j < i && IsStranding(ss[j], steps[j]) && forall k :: j < k < i ==> !steps[k].OpenAlloc?
  }

  lemma {:induction false} AttendedIff(ss: seq<State>, steps: seq<Step>, i: nat)
    requires Run(ss, steps) && i < |ss|
    ensures !Attended(ss[i]) <==> exists j: nat :: StrandedSince(ss, steps, j, i)
    decreases i
  {
    hide Attended, IsStranding, Safe;
    if i == 0 {
      StartsAttended(ss[0]);
    } else {
      var p := i - 1;
      AttendedIff(ss, steps, p);
      AlwaysSafe(ss, steps, p);
      AttendedStep(ss[p], steps[p]);
      if IsStranding(ss[p], steps[p]) {
        assert StrandedSince(ss, steps, p, i);
      }
      if exists j: nat :: StrandedSince(ss, steps, j, p) {
        var j: nat :| StrandedSince(ss, steps, j, p);
        assert !steps[p].OpenAlloc? ==> StrandedSince(ss, steps, j, i);
      }
      if exists j: nat :: StrandedSince(ss, steps, j, i) {
        var j: nat :| StrandedSince(ss, steps, j, i);
        assert j < p ==> StrandedSince(ss, steps, j, p) && !steps[p].OpenAlloc?;
      }
    }
  }

  lemma StartsAttended(s: State)
    requires Init(s)
    ensures Attended(s)
  {}

  /** Nobody is in the middle of a dispose or between removing a ticket and
      re-evaluating its owner, and nothing prevents the release. */
  predicate Settled(s: State) {
    s.owing == 0 && s.disposer == Done && s.tickets == map[] && Releasable(s)
  }

  /** Once a dispose, all closes, settles and reaps have finished and no ticket is left,
      an activation no resource of which refuses release is in CleanupPending exactly
      when some rollback stranded it and no caller registered since; otherwise it is
      Disposed and holds nothing. */
  lemma StrandedIff(ss: seq<State>, steps: seq<Step>, i: nat)
    requires Run(ss, steps) && i < |ss| && Settled(ss[i])
    ensures ss[i].phase == CleanupPending <==> exists j: nat :: StrandedSince(ss, steps, j, i)
    ensures ss[i].phase != CleanupPending ==> ss[i].phase == Disposed && ss[i].held == {}
  {
    hide Run, StrandedSince;
    AlwaysSafe(ss, steps, i);
    AttendedIff(ss, steps, i);
  }

  /** In every interleaving without a stranding rollback: once everybody has finished,
      a disposed activation with no tickets left and no resource refusing release is
      Disposed. */
  lemma NeverStranded(ss: seq<State>, steps: seq<Step>, i: nat)
    requires Run(ss, steps) && i < |ss| && Settled(ss[i])
    requires forall j :: 0 <= j < i ==> !IsStranding(ss[j], steps[j])
    ensures ss[i].phase == Disposed && ss[i].held == {}
  {
    hide Run, IsStranding;
    StrandedIff(ss, steps, i);
  }

  // ---- stranded for good ----

  /** Whatever happens from here, the activation stays parked. */
  ghost predicate ForGood(s: State) {
    forall ss: seq<State>, steps: seq<Step> :: Path(ss, steps) && ss[0] == s ==> ss[|steps|].phase == CleanupPending
  }

  /** A caller has passed the first check and has not registered yet. */
  ghost predicate CallerOnTheWay(s: State) {
    exists o :: o in s.openers && s.openers[o] == Checked
  }

  ghost predicate Forsaken(s: State) {
    Safe(s) && !Attended(s) && !CallerOnTheWay(s)
  }

  lemma ForsakenStep(s: State, step: Step)
    requires Forsaken(s) && Enabled(s, step)
    ensures Forsaken(Next(s, step))
  {
    SafeStep(s, step);
    AttendedStep(s, step);
    var n := Next(s, step);
    forall o | o in n.openers ensures n.openers[o] != Checked {
      assert o in s.openers ==> s.openers[o] != Checked;
    }
  }

  lemma {:induction false} ForsakenStays(ss: seq<State>, steps: seq<Step>, n: nat)
    requires Path(ss, steps) && Forsaken(ss[0]) && n < |ss|
    ensures Forsaken(ss[n])
    decreases n
  {
    hide Forsaken;
    if n > 0 {
      ForsakenStays(ss, steps, n - 1);
      ForsakenStep(ss[n - 1], steps[n - 1]);
    }
  }

  /** A caller on the way registers, is refused, settles and re-evaluates the owner. */
  lemma LateCallerFinalizes(s: State, o: nat) returns (ss: seq<State>, steps: seq<Step>)
    requires Safe(s) && !Attended(s) && o in s.openers && s.openers[o] == Checked
    ensures Path(ss, steps) && ss[0] == s && ss[|steps|].phase == Disposed
  {
    var a := Next(s, OpenAlloc(o, false));
    var b := Next(a, OpenRecheck(o, true));
    assert a.tickets.Keys == {s.nextTicket};
    assert b.openers[o] == Refused(s.nextTicket);
    var c := Next(b, OpenSettle(o));
    assert c.tickets.Keys == {};
    NoTickets(c);
    var d := Next(c, Finalize);
    ss, steps := [s, a, b, c, d], [OpenAlloc(o, false), OpenRecheck(o, true), OpenSettle(o), Finalize];
  }

  /** A stranded activation stays in CleanupPending for good exactly when no caller is
      between its first check and its registration. */
  lemma ForGoodIff(s: State)
    requires Safe(s) && !Attended(s)
    ensures ForGood(s) <==> !CallerOnTheWay(s)
  {
    if CallerOnTheWay(s) {
      var o :| o in s.openers && s.openers[o] == Checked;
      var ss, steps := LateCallerFinalizes(s, o);
      assert Path(ss, steps) && ss[0] == s;
    } else {
      forall ss: seq<State>, steps: seq<Step> | Path(ss, steps) && ss[0] == s
        ensures ss[|steps|].phase == CleanupPending
      {
        ForsakenStays(ss, steps, |steps|);
      }
    }
  }

  /** Over a whole run: a settled activation is in CleanupPending for good exactly when
      some rollback stranded it, no caller registered since, and none is about to. */
  lemma StrandedForGoodIff(ss: seq<State>, steps: seq<Step>, i: nat)
    requires Run(ss, steps) && i < |ss| && Settled(ss[i])
    ensures ForGood(ss[i]) <==> (exists j: nat :: StrandedSince(ss, steps, j, i)) && !CallerOnTheWay(ss[i])
  {
    hide Run, StrandedSince, CallerOnTheWay;
    AlwaysSafe(ss, steps, i);
    StrandedIff(ss, steps, i);
    if ss[i].phase == CleanupPending {
      ForGoodIff(ss[i]);
    } else {
      var here, none: seq<Step> := [ss[i]], [];
      assert Path(here, none) && here[0] == ss[i];
    }
  }

  lemma RunExtends(ss: seq<State>, steps: seq<Step>, step: Step)
    requires Run(ss, steps) && Enabled(ss[|steps|], step)
    ensures Run(ss + [Next(ss[|steps|], step)], steps + [step])
  {
  }

  /** A dispose that parks the activation on one ticket whose admission is then refused. */
  lemma ParkedOnRefusal(s0: State) returns (ss: seq<State>, steps: seq<Step>)
    requires Init(s0)
    ensures Run(ss, steps) && ss[0] == s0
    ensures var s := ss[|steps|];
      && s.phase == Quiescing && s.disposer == Swept && s.owing == 0 && s.held == s0.held && s.refusing == s0.refusing
      && s.openers == map[0 := Refused(s0.nextTicket)] && s.tickets.Keys == {s0.nextTicket}
  {
    ss, steps := [s0], [];
    RunExtends(ss, steps, OpenCheck(0));
    ss, steps := ss + [Next(s0, OpenCheck(0))], steps + [OpenCheck(0)];
    var s1 := ss[1];
    assert s1.openers == map[0 := Checked];
    RunExtends(ss, steps, OpenAlloc(0, false));
    ss, steps := ss + [Next(s1, OpenAlloc(0, false))], steps + [OpenAlloc(0, false)];
    var s2 := ss[2];
    assert s2.openers == map[0 := Registered(s0.nextTicket)] && s2.tickets.Keys == {s0.nextTicket};
    RunExtends(ss, steps, Claim);
    ss, steps := ss + [Next(s2, Claim)], steps + [Claim];
    var s3 := ss[3];
    RunExtends(ss, steps, OpenRecheck(0, true));
    ss, steps := ss + [Next(s3, OpenRecheck(0, true))], steps + [OpenRecheck(0, true)];
    var s4 := ss[4];
    assert s4.openers == map[0 := Refused(s0.nextTicket)];
    var ss', steps' := SweepPath(s4);
    PathJoins(ss, steps, ss', steps');
    ss, steps := ss + ss'[1..], steps + steps';
  }

  /** Such a run exists: the activation stays in CleanupPending for good. */
  lemma RollbackCanStrand(s0: State) returns (ss: seq<State>, steps: seq<Step>)
    requires Init(s0) && Releasable(s0)
    ensures Run(ss, steps) && ss[0] == s0
    ensures Settled(ss[|steps|]) && ForGood(ss[|steps|])
  {
    hide ForGood;
    ss, steps := ParkedOnRefusal(s0);
    var a := ss[|steps|];
    assert s0.nextTicket in a.tickets.Keys;
    RunExtends(ss, steps, CheckPending);
    var b := Next(a, CheckPending);
    ss, steps := ss + [b], steps + [CheckPending];
    RunExtends(ss, steps, Mark);
    var c := Next(b, Mark);
    ss, steps := ss + [c], steps + [Mark];
    RunExtends(ss, steps, RecheckAfterMark);
    var d := Next(c, RecheckAfterMark);
    ss, steps := ss + [d], steps + [RecheckAfterMark];
    RunExtends(ss, steps, Rollback(0));
    var e := Next(d, Rollback(0));
    assert e.tickets.Keys == {} && !CallerOnTheWay(e);
    NoTickets(e);
    ss, steps := ss + [e], steps + [Rollback(0)];
    AlwaysSafe(ss, steps, |steps|);
    ForGoodIff(e);
  }
}

/** What the admission of dependency calls enforces: the quotas of a policy in every
    interleaving, and a deadline for every open dependency call. */
module AdmissionLimits {
  import opened Names
  import opened Calls
  import opened Admission

  // ---- quotas ----

  /** Every reservation up to step `n` was made under limits no wider than `l`. */
  ghost predicate Policed(steps: seq<Step>, n: nat, l: Limits) {
    forall i :: 0 <= i < n && i < |steps| && steps[i].Reserve? ==>
      && steps[i].limits.maxSession <= l.maxSession && steps[i].limits.maxGlobal <= l.maxGlobal
      && steps[i].limits.maxChildren <= l.maxChildren
  }

  /** The admission between its reservation and its registration. */
  predicate OnTheWay(stage: Stage, parent: nat) {
    (stage.Reserved? || stage.Allocated? || stage.Timed?) && stage.dep.parent == parent
  }

  ghost predicate Within(s: State, l: Limits) {
    && (forall x :: Get(s.perSession, x) <= l.maxSession)
    && s.global <= l.maxGlobal
    && (forall p :: |OpenChildren(s.tickets, p)| + (if OnTheWay(s.stage, p) then 1 else 0) <= l.maxChildren)
  }

  lemma CountersWithin(s: State, step: Step, l: Limits)
    requires Within(s, l) && Enabled(s, step) && Policed([step], 1, l)
    ensures var t := Next(s, step);
      t.global <= l.maxGlobal && forall x :: Get(t.perSession, x) <= l.maxSession
  {
    assert step == [step][0];
    var t := Next(s, step);
    forall x ensures Get(t.perSession, x) <= l.maxSession {
      assert Get(s.perSession, x) <= l.maxSession;
    }
  }

  lemma FewerChildren(a: TicketMap, b: TicketMap, p: nat)
    requires forall id :: id in OpenChildren(b, p) ==> id in OpenChildren(a, p)
    ensures |OpenChildren(b, p)| <= |OpenChildren(a, p)|
  {
    SubsetCardinality(OpenChildren(b, p), OpenChildren(a, p));
  }

  lemma OneMoreChild(a: TicketMap, id: nat, dep: Dep, p: nat)
    requires id in a
    ensures |OpenChildren(Described(a, id, dep), p)| <= |OpenChildren(a, p)| + (if dep.parent == p then 1 else 0)
  {
    var b := Described(a, id, dep);
    if dep.parent == p {
      assert OpenChildren(b, p) <= OpenChildren(a, p) + {id};
      SubsetCardinality(OpenChildren(b, p), OpenChildren(a, p) + {id});
      if id in OpenChildren(a, p) { assert OpenChildren(a, p) + {id} == OpenChildren(a, p); }
    } else {
      FewerChildren(a, b, p);
    }
  }

  /** Only a registration adds a child. */
  lemma ChildrenStay(s: State, step: Step, p: nat, id: nat)
    requires Enabled(s, step) && !step.SetMeta? && id in OpenChildren(Next(s, step).tickets, p)
    ensures id in OpenChildren(s.tickets, p)
  {}

  lemma WayMoves(s: State, step: Step, p: nat)
    requires Enabled(s, step) && OnTheWay(Next(s, step).stage, p)
    ensures !step.SetMeta?
    ensures OnTheWay(s.stage, p) || (step.Reserve? && s.stage.dep.parent == p)
  {}

  lemma ChildrenWithin(s: State, step: Step, l: Limits, p: nat)
    requires Within(s, l) && Enabled(s, step) && Policed([step], 1, l)
    ensures var t := Next(s, step);
      |OpenChildren(t.tickets, p)| + (if OnTheWay(t.stage, p) then 1 else 0) <= l.maxChildren
  {
    assert step == [step][0];
    var t := Next(s, step);
    assert |OpenChildren(s.tickets, p)| + (if OnTheWay(s.stage, p) then 1 else 0) <= l.maxChildren;
    if OnTheWay(t.stage, p) { WayMoves(s, step, p); }
    if step.SetMeta? {
      if s.stage.id in s.tickets { OneMoreChild(s.tickets, s.stage.id, s.stage.dep, p); }
    } else {
      hide Within, Next;
      forall id | id in OpenChildren(t.tickets, p) ensures id in OpenChildren(s.tickets, p) {
        ChildrenStay(s, step, p, id);
      }
      FewerChildren(s.tickets, t.tickets, p);
    }
  }

  lemma WithinStep(s: State, step: Step, l: Limits)
    requires Within(s, l) && Enabled(s, step) && Policed([step], 1, l)
    ensures Within(Next(s, step), l)
  {
    CountersWithin(s, step, l);
    var t := Next(s, step);
    forall p ensures |OpenChildren(t.tickets, p)| + (if OnTheWay(t.stage, p) then 1 else 0) <= l.maxChildren {
      ChildrenWithin(s, step, l, p);
    }
  }

  /** In every interleaving, races included: a session never holds more than its
      quota, all sessions together never more than the global one, and no ticket ever
      has more open children than its policy allows. */
  lemma {:induction false} QuotasHold(ss: seq<State>, steps: seq<Step>, n: nat, l: Limits)
    requires Run(ss, steps) && n < |ss| && Policed(steps, n, l)
    ensures Within(ss[n], l)
    decreases n
  {
    hide Within, Enabled, Next;
    if n == 0 {
      StartsWithin(l);
    } else {
      QuotasHold(ss, steps, n - 1, l);
      assert Policed([steps[n - 1]], 1, l);
      WithinStep(ss[n - 1], steps[n - 1], l);
    }
  }

  lemma StartsWithin(l: Limits)
    ensures Within(INIT, l)
  {
    forall p ensures OpenChildren(INIT.tickets, p) == {} {}
  }

  // ---- deadlines ----

  /** `d` is the least of what the policy allows, what the caller asked for and what
      the parent has left. */
  predicate Least(d: nat, now: nat, timeout: nat, cap: nat, parent: Option<nat>) {
    && d <= now + timeout && d <= now + cap && (parent.Some? ==> d <= parent.value)
    && (d == now + timeout || d == now + cap || parent == Some(d))
  }

  /** Reservation `j` was made for `dep`, and `d` is the deadline it gives. */
  ghost predicate Gives(ss: seq<State>, steps: seq<Step>, j: nat, dep: Dep, d: nat) {
    && j < |steps| && j < |ss| && steps[j].Reserve? && ss[j].stage.Examined? && ss[j].stage.dep == dep
    && Least(d, steps[j].now, steps[j].timeout, steps[j].limits.maxDeadline, ss[j].stage.parentDeadline)
  }

  ghost predicate Given(ss: seq<State>, steps: seq<Step>, n: nat, dep: Dep, d: nat) {
    exists j: nat :: j < n && Gives(ss, steps, j, dep, d)
  }

  ghost predicate GivenOpt(ss: seq<State>, steps: seq<Step>, n: nat, dep: Dep, d: Option<nat>) {
    d.Some? ==> Given(ss, steps, n, dep, d.value)
  }

  /** The deadline the admission in progress carries, if it has one yet. */
  function Carried(s: State): Option<(Dep, nat)> {
    match s.stage
    case Reserved(dep, d) => Some((dep, d))
    case Allocated(_, dep, d) => Some((dep, d))
    case Timed(id, dep) =>
      if id in s.tickets && s.tickets[id].deadline.Some? then Some((dep, s.tickets[id].deadline.value)) else None
    case _ => None
  }

  ghost predicate Timely(ss: seq<State>, steps: seq<Step>, n: nat)
    requires n < |ss|
  {
    var s := ss[n];
    && (Carried(s).Some? ==> Given(ss, steps, n, Carried(s).value.0, Carried(s).value.1))
    && (forall id :: id in s.log ==> GivenOpt(ss, steps, n, s.log[id].dep, s.log[id].deadline))
  }

  lemma GivenLater(ss: seq<State>, steps: seq<Step>, n: nat, dep: Dep, d: nat)
    requires Given(ss, steps, n, dep, d)
    ensures Given(ss, steps, n + 1, dep, d)
  {
    var j: nat :| j < n && Gives(ss, steps, j, dep, d);
  }

  lemma ReserveGives(ss: seq<State>, steps: seq<Step>, n: nat)
    requires Run(ss, steps) && n < |steps| && steps[n].Reserve?
    ensures ss[n + 1].stage.Reserved? && Given(ss, steps, n + 1, ss[n + 1].stage.dep, ss[n + 1].stage.deadline)
  {
    assert Enabled(ss[n], steps[n]) && ss[n + 1] == Next(ss[n], steps[n]);
    assert Gives(ss, steps, n, ss[n + 1].stage.dep, ss[n + 1].stage.deadline);
  }

  /** Only a reservation brings in a deadline. */
  lemma CarriedOver(s: State, step: Step)
    requires Chained(s) && Enabled(s, step) && !step.Reserve?
    ensures Carried(Next(s, step)).Some? ==> Carried(Next(s, step)) == Carried(s)
  {
    hide Chained, DepRelease, Under;
    PlanOf(s);
    if Outside(step) {
      StageKept(s, step);
      if s.stage.Timed? { UndrainedKept(s, step, s.stage.id); }
    }
  }

  lemma PlanOf(s: State)
    requires Chained(s)
    ensures Planned(s)
  {}

  /** Only a registration adds to the log, and it logs the deadline carried. */
  lemma LoggedOver(s: State, step: Step, id: nat)
    requires Chained(s) && Enabled(s, step) && id in Next(s, step).log
    ensures var logged := Next(s, step).log[id];
      || (id in s.log && logged == s.log[id])
      || (logged.deadline.Some? ==> Carried(s) == Some((logged.dep, logged.deadline.value)))
  {
    hide Chained, DepRelease, Under;
    if !step.SetMeta? { LogKept(s, step); }
  }

  lemma LogTimely(ss: seq<State>, steps: seq<Step>, n: nat, id: nat)
    requires Run(ss, steps) && n < |steps| && Timely(ss, steps, n) && Chained(ss[n]) && id in ss[n + 1].log
    ensures GivenOpt(ss, steps, n + 1, ss[n + 1].log[id].dep, ss[n + 1].log[id].deadline)
  {
    hide Chained, Given, Carried, Next;
    var s, t := ss[n], ss[n + 1];
    assert Enabled(s, steps[n]) && t == Next(s, steps[n]);
    LoggedOver(s, steps[n], id);
    if t.log[id].deadline.Some? {
      var dep, d := t.log[id].dep, t.log[id].deadline.value;
      assert Given(ss, steps, n, dep, d) by {
        assert id in s.log ==> GivenOpt(ss, steps, n, s.log[id].dep, s.log[id].deadline);
      }
      GivenLater(ss, steps, n, dep, d);
    }
  }

  lemma {:induction false} AlwaysTimely(ss: seq<State>, steps: seq<Step>, n: nat)
    requires Run(ss, steps) && n < |ss|
    ensures Timely(ss, steps, n)
    decreases n
  {
    hide Chained, Enabled, Next, Given, Carried, GivenOpt;
    if n == 0 {
      StartsTimely(ss, steps);
    } else {
      var m := n - 1;
      AlwaysTimely(ss, steps, m);
      AlwaysChained(ss, steps, m);
      forall id | id in ss[n].log ensures GivenOpt(ss, steps, n, ss[n].log[id].dep, ss[n].log[id].deadline) {
        LogTimely(ss, steps, m, id);
      }
      if steps[m].Reserve? {
        ReserveGives(ss, steps, m);
        ReservedCarries(ss[n]);
      } else {
        CarriedOver(ss[m], steps[m]);
        if Carried(ss[m]).Some? { GivenLater(ss, steps, m, Carried(ss[m]).value.0, Carried(ss[m]).value.1); }
      }
    }
  }

  lemma StartsTimely(ss: seq<State>, steps: seq<Step>)
    requires Run(ss, steps)
    ensures Timely(ss, steps, 0)
  {}

  lemma ReservedCarries(s: State)
    requires s.stage.Reserved?
    ensures Carried(s) == Some((s.stage.dep, s.stage.deadline))
  {}

  /** Every open dependency call has a deadline, and it is the least of what its policy
      allowed, what its caller asked for and what its parent had left when it was
      admitted. */
  lemma DeadlineIsLeast(ss: seq<State>, steps: seq<Step>, n: nat, id: nat)
    requires Run(ss, steps) && n < |ss| && id in ss[n].tickets && ss[n].tickets[id].dep.Some?
    ensures ss[n].tickets[id].state == Admitted ==> ss[n].tickets[id].deadline.Some?
    ensures ss[n].tickets[id].deadline.Some? ==> exists j: nat ::
      j < n && Gives(ss, steps, j, ss[n].tickets[id].dep.value, ss[n].tickets[id].deadline.value)
  {
    AlwaysTimely(ss, steps, n);
    AlwaysChained(ss, steps, n);
    assert Mirrored(ss[n], id);
    assert GivenOpt(ss, steps, n, ss[n].log[id].dep, ss[n].log[id].deadline);
  }

  // ---- an admission nobody interrupts ----

  ghost predicate Path(ss: seq<State>, steps: seq<Step>) {
    && |ss| == |steps| + 1
    && forall i :: 0 <= i < |steps| ==> Enabled(ss[i], steps[i]) && ss[i + 1] == Next(ss[i], steps[i])
  }

  /** Under every quota, a call with an open parent that is not too deep is admitted: it
      counts once for its session and once overall, and its ticket is open with its
      metadata and the least deadline. */
  lemma AdmittedWhenFree(s: State, parent: nat, dep: Dep, owner: Owner, now: nat, timeout: nat, l: Limits)
      returns (ss: seq<State>, steps: seq<Step>)
    requires Shaped(s) && s.stage.Idle? && parent in s.tickets && s.tickets[parent].state == Admitted
    requires dep.parent == parent && dep.depth <= dep.limit && timeout > 0
    requires dep.depth == (if s.tickets[parent].dep.Some? then s.tickets[parent].dep.value.depth else 0) + 1
    requires |OpenChildren(s.tickets, parent)| < l.maxChildren
    requires Get(s.perSession, dep.session) < l.maxSession && s.global < l.maxGlobal && |s.tickets| < 256
    ensures Path(ss, steps) && ss[0] == s
    ensures var n := ss[|steps|];
      && n.stage.Idle? && s.next in n.tickets && n.tickets[s.next].dep == Some(dep)
      && n.tickets[s.next].state == Admitted && n.tickets[s.next].owner == owner
      && n.tickets[s.next].deadline.Some?
      && Least(n.tickets[s.next].deadline.value, now, timeout, l.maxDeadline, s.tickets[parent].deadline)
      && n.global == s.global + 1 && Get(n.perSession, dep.session) == Get(s.perSession, dep.session) + 1
      && n.tickets - {s.next} == s.tickets
  {
    hide Shaped, Enabled, Next, Least;
    AllBelow(s);
    var ask, d := ReservedWhenFree(s, parent, dep, now, timeout, l);
    var a := Next(s, ask);
    var b := Next(a, Reserve(now, timeout, l));
    var more, todo := RegisteredThen(b, dep, d, owner);
    ss, steps := [s, a] + more, [ask, Reserve(now, timeout, l)] + todo;
    assert ss[2] == b;
  }

  lemma ReservedWhenFree(s: State, parent: nat, dep: Dep, now: nat, timeout: nat, l: Limits)
      returns (ask: Step, d: nat)
    requires s.stage.Idle? && parent in s.tickets && s.tickets[parent].state == Admitted
    requires dep.parent == parent && dep.depth <= dep.limit && timeout > 0
    requires dep.depth == (if s.tickets[parent].dep.Some? then s.tickets[parent].dep.value.depth else 0) + 1
    requires |OpenChildren(s.tickets, parent)| < l.maxChildren
    requires Get(s.perSession, dep.session) < l.maxSession && s.global < l.maxGlobal && |s.tickets| < 256
    ensures Enabled(s, ask) && Enabled(Next(s, ask), Reserve(now, timeout, l))
    ensures Least(d, now, timeout, l.maxDeadline, s.tickets[parent].deadline)
    ensures Next(Next(s, ask), Reserve(now, timeout, l)) ==
      s.(stage := Reserved(dep, d), global := s.global + 1,
         perSession := s.perSession[dep.session := Get(s.perSession, dep.session) + 1])
  {
    ask := Examine(parent, dep.consumer, dep.session, dep.limit, dep.remote);
    assert Next(s, ask).stage.dep == dep;
    d := Next(Next(s, ask), Reserve(now, timeout, l)).stage.deadline;
  }

  lemma RegisteredThen(s: State, dep: Dep, d: nat, owner: Owner) returns (ss: seq<State>, steps: seq<Step>)
    requires s.stage == Reserved(dep, d) && s.next !in s.tickets
    ensures Path(ss, steps) && |ss| == |steps| + 1 && ss[0] == s
    ensures var n := ss[|steps|];
      && n.tickets == s.tickets[s.next := Ticket(owner, false, Admitted, Some(d), Some(dep))]
      && n.stage.Idle? && n.global == s.global && n.perSession == s.perSession
  {
    var a := Next(s, Alloc(owner));
    var b := Next(a, SetDeadline);
    var c := Next(b, SetMeta);
    ss, steps := [s, a, b, c, Next(c, Revalidate(true))], [Alloc(owner), SetDeadline, SetMeta, Revalidate(true)];
  }

  lemma AllBelow(s: State)
    requires Shaped(s)
    ensures s.next !in s.tickets
  {}
}

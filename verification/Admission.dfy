/** Admission of dependency calls: quota reservation, registration, revalidation
    and rollback, interleaved lock by lock with the ends of other tickets. One
    admission runs at a time; closes, settles and reaps do not wait for it. */
module Admission {
  import opened Names
  import opened Calls

  datatype Stage =
    | Idle
    | Examined(dep: Dep, parentDeadline: Option<nat>)
    | Reserved(dep: Dep, deadline: nat)
    | Allocated(id: nat, dep: Dep, deadline: nat)
    | Timed(id: nat, dep: Dep)
    | Registered(id: nat, session: string)
    | Undoing(session: string)

  /** What a dependency ticket was admitted with. */
  datatype Logged = Logged(dep: Dep, deadline: Option<nat>)

  /** `owed` holds the sessions of tickets removed whose quota is not yet returned;
      `log` remembers every dependency ticket there has been. */
  datatype State = State(tickets: TicketMap, next: nat, perSession: map<string, nat>, global: nat,
                         stage: Stage, owed: seq<string>, log: map<nat, Logged>)

  const INIT := State(map[], 1, map[], 0, Idle, [], map[])

  const MAX_INFLIGHT: nat := 256

  datatype Limits = Limits(maxDeadline: nat, maxChildren: nat, maxSession: nat, maxGlobal: nat)

  datatype Step =
    | Examine(parent: nat, consumer: nat, session: string, limit: nat, remote: bool)
    | Deny
    | Reserve(now: nat, timeout: nat, limits: Limits)
    | Alloc(owner: Owner)
    | SetDeadline
    | SetMeta
    | Revalidate(valid: bool)
    | ReturnReservation
    | Open(owner: Owner, drains: bool)
    | Move(id: nat, state: TicketState)
    | Sweep(who: set<nat>, to: TicketState)
    | SetDrain(id: nat, until: nat)
    | Remove(id: nat)
    | ReturnOwed(i: nat)

  function Get(m: map<string, nat>, s: string): nat {
    if s in m then m[s] else 0
  }

  function Min(a: nat, b: nat): nat { if a < b then a else b }

  ghost predicate Enabled(s: State, step: Step) {
    match step
    case Examine(parent, _, _, limit, _) =>
      && s.stage.Idle? && IsAdmitted(s.tickets, parent)
      && ParentDepth(s.tickets[parent]) + 1 <= limit
    case Deny => s.stage.Examined?
    case Reserve(_, timeout, limits) =>
      && s.stage.Examined? && timeout > 0
      && |OpenChildren(s.tickets, s.stage.dep.parent)| < limits.maxChildren
      && Get(s.perSession, s.stage.dep.session) < limits.maxSession
      && s.global < limits.maxGlobal
      && |s.tickets| < MAX_INFLIGHT
    case Alloc(_) => s.stage.Reserved?
    case SetDeadline => s.stage.Allocated?
    case SetMeta => s.stage.Timed?
    case Revalidate(_) => s.stage.Registered?
    case ReturnReservation => s.stage.Undoing?
    case Open(_, _) => true
    case Move(_, state) => state != Admitted
    case Sweep(_, to) => to != Admitted
    case SetDrain(id, _) => id in s.tickets && s.tickets[id].drains
    case Remove(id) => id in s.tickets
    case ReturnOwed(i) => i < |s.owed|
  }

  function ParentDepth(t: Ticket): nat {
    if t.dep.Some? then t.dep.value.depth else 0
  }

  /** Both subtractions are saturating, and a session at zero loses its entry. */
  function DepRelease(s: State, session: string): State {
    var n := Get(s.perSession, session);
    s.(perSession := if session !in s.perSession then s.perSession
                     else if n <= 1 then s.perSession - {session} else s.perSession[session := n - 1],
       global := if s.global == 0 then 0 else s.global - 1)
  }

  ghost function Next(s: State, step: Step): State
    requires Enabled(s, step)
  {
    match step
    case Examine(parent, consumer, session, limit, remote) =>
      var t := s.tickets[parent];
      s.(stage := Examined(Dep(parent, consumer, session, ParentDepth(t) + 1, limit, remote), t.deadline))
    case Deny => s.(stage := Idle)
    case Reserve(now, timeout, limits) =>
      var Examined(dep, parentDeadline) := s.stage;
      var own := Min(now + limits.maxDeadline, now + timeout);
      s.(perSession := s.perSession[dep.session := Get(s.perSession, dep.session) + 1],
         global := s.global + 1,
         stage := Reserved(dep, if parentDeadline.Some? then Min(own, parentDeadline.value) else own))
    case Alloc(owner) =>
      var Reserved(dep, deadline) := s.stage;
      s.(tickets := s.tickets[s.next := Opened(owner, false)], next := s.next + 1,
         stage := Allocated(s.next, dep, deadline))
    case SetDeadline =>
      var Allocated(id, dep, deadline) := s.stage;
      s.(tickets := DrainUntil(s.tickets, id, deadline), stage := Timed(id, dep))
    case SetMeta =>
      var Timed(id, dep) := s.stage;
      if id in s.tickets then
        s.(tickets := Described(s.tickets, id, dep), stage := Registered(id, dep.session),
           log := s.log[id := Logged(dep, s.tickets[id].deadline)])
      else s.(stage := Undoing(dep.session))
    case Revalidate(valid) =>
      var Registered(id, session) := s.stage;
      if valid then s.(stage := Idle) else s.(tickets := s.tickets - {id}, stage := Undoing(session))
    case ReturnReservation => DepRelease(s, s.stage.session).(stage := Idle)
    case Open(owner, drains) => s.(tickets := s.tickets[s.next := Opened(owner, drains)], next := s.next + 1)
    case Move(id, state) => s.(tickets := Force(s.tickets, id, state))
    case Sweep(who, to) => s.(tickets := Marked(s.tickets, who, to))
    case SetDrain(id, until) => s.(tickets := DrainUntil(s.tickets, id, until))
    case Remove(id) =>
      s.(tickets := s.tickets - {id},
         owed := if s.tickets[id].dep.Some? then s.owed + [s.tickets[id].dep.value.session] else s.owed)
    case ReturnOwed(i) => DepRelease(s, s.owed[i]).(owed := s.owed[..i] + s.owed[i + 1..])
  }

  ghost predicate Run(ss: seq<State>, steps: seq<Step>) {
    && |ss| == |steps| + 1 && ss[0] == INIT
    && forall i :: 0 <= i < |steps| ==> Enabled(ss[i], steps[i]) && ss[i + 1] == Next(ss[i], steps[i])
  }

  // ---- who owns the reserved quota ----

  /** Does a reservation of `session` count towards `who`? `None` counts them all. */
  function One(session: string, who: Option<string>): nat {
    if who.None? || who.value == session then 1 else 0
  }

  function TicketShare(o: Option<Dep>, who: Option<string>): nat {
    match o case None => 0 case Some(d) => One(d.session, who)
  }

  /** The dependency tickets below `n` that count towards `who`. */
  function Held(tickets: TicketMap, n: nat, who: Option<string>): nat {
    if n == 0 then 0
    else Held(tickets, n - 1, who) + (if n - 1 in tickets then TicketShare(tickets[n - 1].dep, who) else 0)
  }

  function Count(v: seq<string>, who: Option<string>): nat {
    if v == [] then 0 else One(v[0], who) + Count(v[1..], who)
  }

  function Pending(stage: Stage, who: Option<string>): nat {
    match stage
    case Reserved(dep, _) => One(dep.session, who)
    case Allocated(_, dep, _) => One(dep.session, who)
    case Timed(_, dep) => One(dep.session, who)
    case Undoing(session) => One(session, who)
    case _ => 0
  }

  /** Dependency tickets in the table, removed tickets whose quota is still to be
      returned, and the admission in progress. */
  function Owners(s: State, who: Option<string>): nat {
    Held(s.tickets, s.next, who) + Count(s.owed, who) + Pending(s.stage, who)
  }

  function Counter(s: State, who: Option<string>): nat {
    match who case None => s.global case Some(x) => Get(s.perSession, x)
  }

  /** The counters count exactly the owners; no entry is left at zero. */
  ghost predicate Balanced(s: State) {
    && (forall who :: Counter(s, who) == Owners(s, who))
    && (forall x :: x in s.perSession ==> s.perSession[x] > 0)
  }

  ghost predicate Shaped(s: State) {
    && (forall id :: id in s.tickets ==> id < s.next)
    && (s.stage.Allocated? || s.stage.Timed? ==>
          s.stage.id < s.next && (s.stage.id in s.tickets ==> s.tickets[s.stage.id].dep.None?))
    && (s.stage.Registered? ==> s.stage.id < s.next)
    && (s.stage.Registered? && s.stage.id in s.tickets ==>
          s.tickets[s.stage.id].dep.Some? && s.tickets[s.stage.id].dep.value.session == s.stage.session)
  }

  // ---- how the table's share changes ----

  lemma {:induction false} HeldSame(a: TicketMap, b: TicketMap, n: nat, who: Option<string>)
    requires forall id :: 0 <= id < n ==> (id in a <==> id in b) && (id in a ==> a[id].dep == b[id].dep)
    ensures Held(a, n, who) == Held(b, n, who)
  {
    if n > 0 { HeldSame(a, b, n - 1, who); }
  }

  lemma {:induction false} HeldSet(tickets: TicketMap, n: nat, id: nat, t: Ticket, who: Option<string>)
    requires id < n && id in tickets
    ensures Held(tickets[id := t], n, who)
         == Held(tickets, n, who) + TicketShare(t.dep, who) - TicketShare(tickets[id].dep, who)
  {
    if id == n - 1 {
      HeldSame(tickets, tickets[id := t], n - 1, who);
    } else {
      HeldSet(tickets, n - 1, id, t, who);
    }
  }

  lemma {:induction false} HeldDrop(tickets: TicketMap, n: nat, id: nat, who: Option<string>)
    requires id < n && id in tickets
    ensures Held(tickets - {id}, n, who) == Held(tickets, n, who) - TicketShare(tickets[id].dep, who)
  {
    if id == n - 1 {
      HeldSame(tickets, tickets - {id}, n - 1, who);
    } else {
      HeldDrop(tickets, n - 1, id, who);
    }
  }

  lemma HeldFresh(s: State, t: Ticket, who: Option<string>)
    requires Shaped(s) && t.dep.None?
    ensures Held(s.tickets[s.next := t], s.next + 1, who) == Held(s.tickets, s.next, who)
  {
    HeldSame(s.tickets, s.tickets[s.next := t], s.next, who);
  }

  lemma {:induction false} CountConcat(a: seq<string>, b: seq<string>, who: Option<string>)
    ensures Count(a + b, who) == Count(a, who) + Count(b, who)
  {
    if a == [] {
      assert a + b == b;
    } else {
      assert (a + b)[1..] == a[1..] + b;
      CountConcat(a[1..], b, who);
    }
  }

  lemma CountWithout(v: seq<string>, i: nat, who: Option<string>)
    requires i < |v|
    ensures Count(v[..i] + v[i + 1..], who) == Count(v, who) - One(v[i], who)
  {
    var tail := v[i..];
    assert v == v[..i] + tail && tail[1..] == v[i + 1..];
    CountConcat(v[..i], tail, who);
    CountConcat(v[..i], v[i + 1..], who);
  }

  // ---- conservation ----

  /** A rollback whose ticket is still in the table; the ticket of an admission can
      be cancelled and reaped by others before it is revalidated. */
  predicate FindsTicket(s: State, step: Step) {
    step == Revalidate(false) && s.stage.Registered? ==> s.stage.id in s.tickets
  }

  /** The session whose quota a step returns. */
  function Returned(s: State, step: Step): Option<string> {
    match step
    case ReturnReservation => if s.stage.Undoing? then Some(s.stage.session) else None
    case ReturnOwed(i) => if i < |s.owed| then Some(s.owed[i]) else None
    case _ => None
  }

  predicate Describes(step: Step) {
    step.SetMeta? || step.Revalidate? || step.Remove? || step.ReturnOwed? || step.ReturnReservation?
  }

  lemma TableMoves(s: State, step: Step, who: Option<string>)
    requires Shaped(s) && Enabled(s, step) && !Describes(step)
    ensures Held(Next(s, step).tickets, Next(s, step).next, who) == Held(s.tickets, s.next, who)
    ensures Next(s, step).owed == s.owed
    ensures Pending(Next(s, step).stage, who)
         == Pending(s.stage, who) + (if step.Reserve? then One(s.stage.dep.session, who) else 0)
  {
    hide Held;
    match step {
      case Alloc(owner) => HeldFresh(s, Opened(owner, false), who);
      case Open(owner, drains) => HeldFresh(s, Opened(owner, drains), who);
      case SetDeadline => HeldSame(s.tickets, Next(s, step).tickets, s.next, who);
      case Move(_, _) => HeldSame(s.tickets, Next(s, step).tickets, s.next, who);
      case Sweep(_, _) => HeldSame(s.tickets, Next(s, step).tickets, s.next, who);
      case SetDrain(_, _) => HeldSame(s.tickets, Next(s, step).tickets, s.next, who);
      case _ =>
    }
  }

  lemma ReleaseLeaves(s: State, session: string)
    ensures DepRelease(s, session)
         == s.(perSession := DepRelease(s, session).perSession, global := DepRelease(s, session).global)
  {}

  lemma MetaMoves(s: State, who: Option<string>)
    requires Shaped(s) && s.stage.Timed?
    ensures Owners(Next(s, SetMeta), who) == Owners(s, who)
  {
    hide Held, Count;
    var id := s.stage.id;
    if id in s.tickets { HeldSet(s.tickets, s.next, id, s.tickets[id].(dep := Some(s.stage.dep)), who); }
  }

  lemma RollbackMoves(s: State, who: Option<string>)
    requires Shaped(s) && s.stage.Registered? && s.stage.id in s.tickets
    ensures Owners(Next(s, Revalidate(false)), who) == Owners(s, who)
  {
    hide Held, Count;
    HeldDrop(s.tickets, s.next, s.stage.id, who);
  }

  lemma RemoveMoves(s: State, id: nat, who: Option<string>)
    requires Shaped(s) && id in s.tickets
    ensures Owners(Next(s, Remove(id)), who) == Owners(s, who)
  {
    hide Held, Count;
    HeldDrop(s.tickets, s.next, id, who);
    if s.tickets[id].dep.Some? { CountSnoc(s.owed, s.tickets[id].dep.value.session, who); }
  }

  lemma ReturnMoves(s: State, step: Step, who: Option<string>)
    requires Enabled(s, step) && (step.ReturnReservation? || step.ReturnOwed?)
    ensures Returned(s, step).Some?
    ensures Owners(Next(s, step), who) == Owners(s, who) - One(Returned(s, step).value, who)
  {
    hide Held, Count, DepRelease;
    var x := if step.ReturnOwed? then s.owed[step.i] else s.stage.session;
    ReleaseLeaves(s, x);
    if step.ReturnOwed? { CountWithout(s.owed, step.i, who); }
  }

  /** Every step hands ownership on, except that a reservation adds one owner and a
      return takes one away. */
  lemma OwnersMove(s: State, step: Step, who: Option<string>)
    requires Shaped(s) && Enabled(s, step) && FindsTicket(s, step)
    ensures Owners(Next(s, step), who) == Owners(s, who)
         + (if step.Reserve? then One(s.stage.dep.session, who) else 0)
         - (if Returned(s, step).Some? then One(Returned(s, step).value, who) else 0)
  {
    if !Describes(step) {
      hide Held, Count, Next, Pending;
      TableMoves(s, step, who);
    } else if step == Revalidate(true) {
      hide Held, Count;
    } else {
      hide Owners, Next;
      match step {
        case SetMeta => MetaMoves(s, who);
        case Revalidate(_) => RollbackMoves(s, who);
        case Remove(id) => RemoveMoves(s, id, who);
        case ReturnReservation => ReturnMoves(s, step, who);
        case ReturnOwed(_) => ReturnMoves(s, step, who);
      }
    }
  }

  lemma CountSnoc(v: seq<string>, x: string, who: Option<string>)
    ensures Count(v + [x], who) == Count(v, who) + One(x, who)
  {
    CountConcat(v, [x], who);
    assert Count([x], who) == One(x, who) + Count([], who);
  }

  /** With at least one owner, returning its quota takes exactly one from both
      counters: neither subtraction saturates. */
  lemma ReleaseExact(s: State, session: string, who: Option<string>)
    requires Get(s.perSession, session) >= 1 && s.global >= 1
    ensures Counter(DepRelease(s, session), who) == Counter(s, who) - One(session, who)
  {}

  lemma CountersMove(s: State, step: Step, who: Option<string>)
    requires Enabled(s, step)
    requires var r := Returned(s, step); r.Some? ==> Get(s.perSession, r.value) >= 1 && s.global >= 1
    ensures Counter(Next(s, step), who) == Counter(s, who)
         + (if step.Reserve? then One(s.stage.dep.session, who) else 0)
         - (if Returned(s, step).Some? then One(Returned(s, step).value, who) else 0)
  {
    hide DepRelease;
    match step {
      case ReturnReservation => ReleaseExact(s, s.stage.session, who);
      case ReturnOwed(i) => ReleaseExact(s, s.owed[i], who);
      case _ =>
    }
  }

  /** A step that returns quota finds both counters above zero. */
  lemma ReturnsOwned(s: State, step: Step)
    requires Shaped(s) && Balanced(s) && Enabled(s, step)
    ensures var r := Returned(s, step); r.Some? ==> Get(s.perSession, r.value) >= 1 && s.global >= 1
  {
    hide Held, Count, Next;
    var r := Returned(s, step);
    if r.Some? {
      if step.ReturnOwed? {
        CountWithout(s.owed, step.i, r);
        CountWithout(s.owed, step.i, None);
      }
      assert Counter(s, r) == Owners(s, r) && Counter(s, None) == Owners(s, None);
    }
  }

  lemma PositiveKept(s: State, step: Step)
    requires Enabled(s, step) && forall x :: x in s.perSession ==> s.perSession[x] > 0
    ensures forall x :: x in Next(s, step).perSession ==> Next(s, step).perSession[x] > 0
  {}

  lemma BalancedStep(s: State, step: Step)
    requires Shaped(s) && Balanced(s) && Enabled(s, step) && FindsTicket(s, step)
    ensures Balanced(Next(s, step))
  {
    hide Owners, Counter, Next, Enabled, Shaped, FindsTicket, Returned;
    var t := Next(s, step);
    ReturnsOwned(s, step);
    forall who ensures Counter(t, who) == Owners(t, who) {
      OwnersMove(s, step, who);
      CountersMove(s, step, who);
    }
    PositiveKept(s, step);
  }

  lemma ShapedStep(s: State, step: Step)
    requires Shaped(s) && Enabled(s, step)
    ensures Shaped(Next(s, step))
  {}

  /** Every rollback of the run finds its ticket. */
  ghost predicate Unraced(ss: seq<State>, steps: seq<Step>) {
    |ss| == |steps| + 1 && forall i :: 0 <= i < |steps| ==> FindsTicket(ss[i], steps[i])
  }

  lemma InitOk()
    ensures Shaped(INIT) && Balanced(INIT)
  {
    forall who ensures Counter(INIT, who) == Owners(INIT, who) {
      assert Held(map[], 1, who) == Held(map[], 0, who) == 0 && Count([], who) == 0;
    }
  }

  lemma {:induction false} AlwaysShaped(ss: seq<State>, steps: seq<Step>, n: nat)
    requires Run(ss, steps) && n < |ss|
    ensures Shaped(ss[n])
    decreases n
  {
    hide Shaped, Enabled, Next;
    if n == 0 {
      InitOk();
    } else {
      AlwaysShaped(ss, steps, n - 1);
      ShapedStep(ss[n - 1], steps[n - 1]);
    }
  }

  lemma {:induction false} AlwaysBalanced(ss: seq<State>, steps: seq<Step>, n: nat)
    requires Run(ss, steps) && Unraced(ss, steps) && n < |ss|
    ensures Balanced(ss[n])
    decreases n
  {
    hide Balanced, Enabled, Next, FindsTicket;
    if n == 0 {
      InitOk();
    } else {
      AlwaysBalanced(ss, steps, n - 1);
      AlwaysShaped(ss, steps, n - 1);
      BalancedStep(ss[n - 1], steps[n - 1]);
    }
  }

  // ---- the counters as sums ----

  ghost function Total(m: map<string, nat>): nat {
    if m == map[] then 0
    else
      var k :| k in m;
      m[k] + Total(m - {k})
  }

  lemma {:induction false} TotalIsSize(m: map<string, nat>, all: multiset<string>)
    requires forall x :: Get(m, x) == all[x]
    ensures Total(m) == |all|
    decreases |m|
  {
    if m == map[] {
      assert all == multiset{} by {
        forall x ensures all[x] == 0 { assert Get(m, x) == all[x]; }
      }
    } else {
      var k :| k in m && Total(m) == m[k] + Total(m - {k});
      var rest := all[k := 0];
      forall x ensures Get(m - {k}, x) == rest[x] { assert Get(m, x) == all[x]; }
      assert Get(m, k) == all[k];
      assert |m - {k}| < |m| by { assert (m - {k}).Keys == m.Keys - {k}; }
      TotalIsSize(m - {k}, rest);
    }
  }

  function PendingList(stage: Stage): seq<string> {
    match stage
    case Reserved(dep, _) => [dep.session]
    case Allocated(_, dep, _) => [dep.session]
    case Timed(_, dep) => [dep.session]
    case Undoing(session) => [session]
    case _ => []
  }

  function HeldList(tickets: TicketMap, n: nat): seq<string> {
    if n == 0 then []
    else
      var last := if n - 1 in tickets && tickets[n - 1].dep.Some? then [tickets[n - 1].dep.value.session] else [];
      HeldList(tickets, n - 1) + last
  }

  lemma {:induction false} HeldListed(tickets: TicketMap, n: nat, who: Option<string>)
    ensures Held(tickets, n, who) == Count(HeldList(tickets, n), who)
  {
    if n > 0 {
      HeldListed(tickets, n - 1, who);
      if n - 1 in tickets && tickets[n - 1].dep.Some? {
        CountSnoc(HeldList(tickets, n - 1), tickets[n - 1].dep.value.session, who);
      } else {
        assert HeldList(tickets, n) == HeldList(tickets, n - 1);
      }
    }
  }

  lemma {:induction false} CountIs(v: seq<string>)
    ensures Count(v, None) == |v|
    ensures forall x :: Count(v, Some(x)) == multiset(v)[x]
  {
    if v != [] {
      CountIs(v[1..]);
      assert v == [v[0]] + v[1..];
    }
  }

  function OwnerList(s: State): seq<string> {
    HeldList(s.tickets, s.next) + (s.owed + PendingList(s.stage))
  }

  lemma OwnersListed(s: State, who: Option<string>)
    ensures Owners(s, who) == Count(OwnerList(s), who)
  {
    hide Held, Count, HeldList;
    HeldListed(s.tickets, s.next, who);
    PendingListed(s.stage, who);
    CountConcat(HeldList(s.tickets, s.next), s.owed + PendingList(s.stage), who);
    CountConcat(s.owed, PendingList(s.stage), who);
  }

  lemma PendingListed(stage: Stage, who: Option<string>)
    ensures Pending(stage, who) == Count(PendingList(stage), who)
  {
    if PendingList(stage) != [] { assert Count(PendingList(stage)[1..], who) == 0; }
  }

  lemma GlobalIsTotal(s: State)
    requires Balanced(s)
    ensures s.global == Total(s.perSession)
  {
    hide Owners, OwnerList, Total;
    var v := OwnerList(s);
    CountIs(v);
    forall x ensures Get(s.perSession, x) == multiset(v)[x] {
      OwnersListed(s, Some(x));
      assert Counter(s, Some(x)) == Owners(s, Some(x));
    }
    TotalIsSize(s.perSession, multiset(v));
    OwnersListed(s, None);
    assert Counter(s, None) == Owners(s, None);
  }

  ghost function DepTickets(tickets: TicketMap, n: nat): set<nat> {
    set id | id in tickets && id < n && tickets[id].dep.Some?
  }

  lemma {:induction false} HeldSize(tickets: TicketMap, n: nat)
    ensures Held(tickets, n, None) == |DepTickets(tickets, n)|
  {
    if n == 0 {
      assert DepTickets(tickets, 0) == {};
    } else {
      HeldSize(tickets, n - 1);
      var below := DepTickets(tickets, n - 1);
      assert n - 1 !in below;
      if n - 1 in tickets && tickets[n - 1].dep.Some? {
        assert DepTickets(tickets, n) == below + {n - 1};
      } else {
        assert DepTickets(tickets, n) == below;
      }
    }
  }

  /** At every state of every run whose rollbacks find their ticket: the global
      counter is the sum of the session counters, both count the dependency
      tickets in the table plus the reservations not yet returned, and no session
      keeps an entry at zero. */
  lemma QuotaConserved(ss: seq<State>, steps: seq<Step>, n: nat)
    requires Run(ss, steps) && Unraced(ss, steps) && n < |ss|
    ensures ss[n].global == Total(ss[n].perSession)
    ensures ss[n].global == |DepTickets(ss[n].tickets, ss[n].next)| + |ss[n].owed| + |PendingList(ss[n].stage)|
    ensures DepTickets(ss[n].tickets, ss[n].next) == set id | id in ss[n].tickets && ss[n].tickets[id].dep.Some?
    ensures forall x :: x in ss[n].perSession ==> ss[n].perSession[x] > 0
  {
    hide Held, Run, Unraced, Count;
    AlwaysBalanced(ss, steps, n);
    AlwaysShaped(ss, steps, n);
    var s := ss[n];
    GlobalIsTotal(s);
    HeldSize(s.tickets, s.next);
    CountIs(s.owed);
    assert Counter(s, None) == Owners(s, None);
  }

  /** No return of quota in such a run finds a counter at zero. */
  lemma NeverSaturates(ss: seq<State>, steps: seq<Step>, n: nat)
    requires Run(ss, steps) && Unraced(ss, steps) && n < |steps|
    ensures var r := Returned(ss[n], steps[n]);
      r.Some? ==> Get(ss[n].perSession, r.value) >= 1 && ss[n].global >= 1
  {
    hide Balanced, Shaped;
    AlwaysBalanced(ss, steps, n);
    AlwaysShaped(ss, steps, n);
    ReturnsOwned(ss[n], steps[n]);
  }

  /** A rollback keeps the balance exactly when its ticket is still in the table:
      otherwise the quota is returned a second time. */
  lemma RollbackBalancesIff(s: State)
    requires Shaped(s) && Balanced(s) && s.stage.Registered?
    ensures Balanced(Next(s, Revalidate(false))) <==> s.stage.id in s.tickets
  {
    hide Held, Count;
    var t := Next(s, Revalidate(false));
    if s.stage.id in s.tickets {
      BalancedStep(s, Revalidate(false));
    } else {
      assert t.tickets == s.tickets;
      assert Counter(s, None) == Owners(s, None);
      assert Owners(t, None) == Owners(s, None) + 1;
      assert Counter(t, None) != Owners(t, None);
    }
  }

  /** Over a whole run: the counters are right in every state exactly when no
      rollback of the run had lost its ticket to somebody else. */
  lemma ConservedIff(ss: seq<State>, steps: seq<Step>)
    requires Run(ss, steps)
    ensures (forall n :: 0 <= n < |ss| ==> Balanced(ss[n])) <==> Unraced(ss, steps)
  {
    if Unraced(ss, steps) {
      forall n | 0 <= n < |ss| ensures Balanced(ss[n]) { AlwaysBalanced(ss, steps, n); }
    }
    if forall n :: 0 <= n < |ss| ==> Balanced(ss[n]) {
      hide Balanced, Shaped;
      forall i | 0 <= i < |steps| ensures FindsTicket(ss[i], steps[i]) {
        AlwaysShaped(ss, steps, i);
        assert Balanced(ss[i]) && Balanced(ss[i + 1]);
        if steps[i] == Revalidate(false) { RollbackBalancesIff(ss[i]); }
      }
    }
  }

  // ---- chains of dependency calls ----

  /** A child's depth and deadline fit under its parent's, as both were admitted. */
  predicate Under(log: map<nat, Logged>, dep: Dep, deadline: Option<nat>) {
    && 1 <= dep.depth <= dep.limit
    && dep.depth == (if dep.parent in log then log[dep.parent].dep.depth else 0) + 1
    && (dep.parent in log && deadline.Some? ==>
          && log[dep.parent].deadline.Some?
          && deadline.value <= log[dep.parent].deadline.value)
  }

  predicate Linked(s: State, id: nat) {
    id in s.log ==>
      && s.log[id].dep.parent < id < s.next
      && Under(s.log, s.log[id].dep, s.log[id].deadline)
  }

  /** The table and the log agree: a dependency ticket is logged with the deadline it
      has, an Admitted one has one, and any other ticket is not logged. */
  predicate Mirrored(s: State, id: nat) {
    id in s.tickets ==>
      var t := s.tickets[id];
      && (t.dep.None? ==> id !in s.log)
      && (t.dep.Some? ==> id in s.log && s.log[id] == Logged(t.dep.value, t.deadline) && !t.drains)
      && (t.dep.Some? && t.state == Admitted ==> t.deadline.Some?)
  }

  /** The ticket of the admission in progress: nothing is yet logged of it or under it. */
  ghost predicate Unborn(s: State, id: nat) {
    && id < s.next && id !in s.log
    && (forall x :: x in s.log ==> s.log[x].dep.parent != id)
    && (id in s.tickets ==> !s.tickets[id].drains)
  }

  ghost predicate Planned(s: State) {
    match s.stage
    case Examined(dep, parentDeadline) =>
      && dep.parent < s.next && Under(s.log, dep, parentDeadline)
      && (dep.parent in s.log ==> parentDeadline.Some?)
    case Reserved(dep, deadline) => dep.parent < s.next && Under(s.log, dep, Some(deadline))
    case Allocated(id, dep, deadline) =>
      && dep.parent < id && Unborn(s, id) && Under(s.log, dep, Some(deadline))
      && (id in s.tickets ==> s.tickets[id].deadline.None?)
    case Timed(id, dep) =>
      && dep.parent < id && Unborn(s, id)
      && Under(s.log, dep, if id in s.tickets then s.tickets[id].deadline else None)
      && (IsAdmitted(s.tickets, id) ==> s.tickets[id].deadline.Some?)
    case _ => true
  }

  ghost predicate Chained(s: State) {
    Shaped(s) && Planned(s) && (forall id :: Linked(s, id)) && (forall id :: Mirrored(s, id))
  }

  lemma LinkedStep(s: State, step: Step, id: nat)
    requires Chained(s) && Enabled(s, step)
    ensures Linked(Next(s, step), id)
  {
    hide DepRelease;
    assert Linked(s, id);
    if step.ReturnReservation? || step.ReturnOwed? { LogKept(s, step); }
  }

  lemma LogKept(s: State, step: Step)
    requires Enabled(s, step) && !step.SetMeta?
    ensures Next(s, step).log == s.log && Next(s, step).next >= s.next
  {}

  lemma MirroredStep(s: State, step: Step, id: nat)
    requires Chained(s) && Enabled(s, step)
    ensures Mirrored(Next(s, step), id)
  {
    hide Under;
    assert Mirrored(s, id) && Linked(s, id);
  }

  /** Steps of others leave the plan of the admission in progress alone. */
  predicate Outside(step: Step) {
    step.Open? || step.Move? || step.Sweep? || step.SetDrain? || step.Remove? || step.ReturnOwed?
  }

  lemma UndrainedKept(s: State, step: Step, id: nat)
    requires Enabled(s, step) && Outside(step) && id < s.next
    requires id in s.tickets ==> !s.tickets[id].drains
    ensures var t := Next(s, step).tickets;
      id in t ==>
        && id in s.tickets && !t[id].drains && t[id].deadline == s.tickets[id].deadline
        && (t[id].state == Admitted ==> s.tickets[id].state == Admitted)
  {}

  lemma StageKept(s: State, step: Step)
    requires Enabled(s, step) && Outside(step)
    ensures Next(s, step).stage == s.stage
  {}

  lemma PlanFramed(s: State, step: Step)
    requires Chained(s) && Enabled(s, step) && Outside(step)
    ensures Planned(Next(s, step))
  {
    hide DepRelease, Next, Enabled, Linked, Mirrored, Shaped;
    LogKept(s, step);
    StageKept(s, step);
    if s.stage.Allocated? || s.stage.Timed? { UndrainedKept(s, step, s.stage.id); }
  }

  lemma PlannedStep(s: State, step: Step)
    requires Chained(s) && Enabled(s, step)
    ensures Planned(Next(s, step))
  {
    hide DepRelease;
    if Outside(step) {
      PlanFramed(s, step);
    } else if step.Examine? {
      assert Mirrored(s, step.parent) && Linked(s, step.parent);
    } else if step.Alloc? {
      forall x | x in s.log ensures x < s.next && s.log[x].dep.parent < s.next { assert Linked(s, x); }
    }
  }

  lemma ChainedStep(s: State, step: Step)
    requires Chained(s) && Enabled(s, step)
    ensures Chained(Next(s, step))
  {
    hide Linked, Mirrored, Planned, Shaped, Enabled, Next;
    ShapedStep(s, step);
    PlannedStep(s, step);
    forall id ensures Linked(Next(s, step), id) { LinkedStep(s, step, id); }
    forall id ensures Mirrored(Next(s, step), id) { MirroredStep(s, step, id); }
  }

  lemma {:induction false} AlwaysChained(ss: seq<State>, steps: seq<Step>, n: nat)
    requires Run(ss, steps) && n < |ss|
    ensures Chained(ss[n])
    decreases n
  {
    hide Chained, Enabled, Next;
    if n == 0 {
      InitChained();
    } else {
      AlwaysChained(ss, steps, n - 1);
      ChainedStep(ss[n - 1], steps[n - 1]);
    }
  }

  lemma InitChained()
    ensures Chained(INIT)
  {}

  lemma LogGrows(s: State, step: Step, id: nat)
    requires Chained(s) && Enabled(s, step) && id in s.log
    ensures id in Next(s, step).log && Next(s, step).log[id] == s.log[id]
  {
    hide Linked, Mirrored, Under;
    if !step.SetMeta? { LogKept(s, step); }
  }

  /** What a dependency ticket was admitted with is never revised or forgotten. */
  lemma {:induction false} LogStays(ss: seq<State>, steps: seq<Step>, i: nat, j: nat, id: nat)
    requires Run(ss, steps) && i <= j < |ss| && id in ss[i].log
    ensures id in ss[j].log && ss[j].log[id] == ss[i].log[id]
    decreases j - i
  {
    hide Chained, Enabled, Next;
    if i < j {
      LogStays(ss, steps, i, j - 1, id);
      AlwaysChained(ss, steps, j - 1);
      LogGrows(ss[j - 1], steps[j - 1], id);
    }
  }

  /** A dependency ticket has the same parent, session, depth and deadline in any two
      states that hold it. */
  lemma DeadlineNeverMoves(ss: seq<State>, steps: seq<Step>, i: nat, j: nat, id: nat)
    requires Run(ss, steps) && i <= j < |ss| && id in ss[i].tickets && id in ss[j].tickets
    requires ss[i].tickets[id].dep.Some?
    ensures ss[j].tickets[id].dep == ss[i].tickets[id].dep
    ensures ss[j].tickets[id].deadline == ss[i].tickets[id].deadline
  {
    hide Run, Linked, Planned, Shaped;
    AlwaysChained(ss, steps, i);
    AlwaysChained(ss, steps, j);
    assert Mirrored(ss[i], id) && Mirrored(ss[j], id);
    LogStays(ss, steps, i, j, id);
  }

  /** Each id of `path` was admitted as a child of the next one; the last may be a
      root call. The tickets need not have been in the table together. */
  predicate IsChain(log: map<nat, Logged>, path: seq<nat>) {
    && path != []
    && forall i :: 0 <= i < |path| - 1 ==> path[i] in log && log[path[i]].dep.parent == path[i + 1]
  }

  function DepthOf(log: map<nat, Logged>, id: nat): nat {
    if id in log then log[id].dep.depth else 0
  }

  lemma {:induction false} ChainDescends(s: State, path: seq<nat>, i: nat)
    requires IsChain(s.log, path) && i < |path| && forall id :: Linked(s, id)
    ensures path[i] + i <= path[0]
    ensures DepthOf(s.log, path[0]) == DepthOf(s.log, path[i]) + i
    ensures path[0] in s.log && path[i] in s.log && s.log[path[0]].deadline.Some? ==>
      s.log[path[i]].deadline.Some? && s.log[path[0]].deadline.value <= s.log[path[i]].deadline.value
    decreases i
  {
    if i > 0 {
      ChainDescends(s, path, i - 1);
      assert path[i - 1] in s.log && s.log[path[i - 1]].dep.parent == path[i];
      assert Linked(s, path[i - 1]);
    }
  }

  /** Along every chain of dependency calls ever admitted, whether or not its tickets
      were in the table together: ids fall strictly towards the root, depth changes by
      exactly one per link and ends within the limit the child was admitted under, and
      a child's deadline is never later than that of any dependency call above it. */
  lemma ChainsBounded(ss: seq<State>, steps: seq<Step>, n: nat, path: seq<nat>, i: nat)
    requires Run(ss, steps) && n < |ss| && IsChain(ss[n].log, path) && i < |path|
    ensures path[i] + i <= path[0]
    ensures DepthOf(ss[n].log, path[0]) == DepthOf(ss[n].log, path[i]) + i
    ensures path[0] in ss[n].log ==> |path| - 1 <= ss[n].log[path[0]].dep.depth <= ss[n].log[path[0]].dep.limit
    ensures path[0] in ss[n].log && path[i] in ss[n].log && ss[n].log[path[0]].deadline.Some? ==>
      && ss[n].log[path[i]].deadline.Some?
      && ss[n].log[path[0]].deadline.value <= ss[n].log[path[i]].deadline.value
  {
    hide Run;
    AlwaysChained(ss, steps, n);
    ChainDescends(ss[n], path, i);
    ChainDescends(ss[n], path, |path| - 1);
    assert Linked(ss[n], path[0]);
  }

  /** The log is about the tickets: every dependency ticket of the table is in it as it
      is, so chains in the table are chains in the log. */
  lemma TableIsLogged(ss: seq<State>, steps: seq<Step>, n: nat, id: nat)
    requires Run(ss, steps) && n < |ss| && id in ss[n].tickets
    ensures ss[n].tickets[id].dep.Some? <==> id in ss[n].log
    ensures id in ss[n].log ==> ss[n].log[id] == Logged(ss[n].tickets[id].dep.value, ss[n].tickets[id].deadline)
  {
    hide Run;
    AlwaysChained(ss, steps, n);
    assert Mirrored(ss[n], id);
  }

  // ---- the exception, step by step ----

  /** Some run ends in `s`. */
  ghost predicate Reachable(s: State) {
    exists ss, steps :: Run(ss, steps) && ss[|steps|] == s
  }

  lemma Onward(s: State, step: Step, t: State)
    requires Reachable(s) && Enabled(s, step) && t == Next(s, step)
    ensures Reachable(t)
  {
    hide Enabled, Next;
    var ss, steps :| Run(ss, steps) && ss[|steps|] == s;
    var ss', steps' := ss + [t], steps + [step];
    assert Run(ss', steps') && ss'[|steps'|] == t;
  }

  const HOST := Owner("c", 1, 1, 1)
  const PARENT := Opened(HOST, false)
  const PLAN := Dep(1, 1, "s", 1, 4, false)
  const CHILD := PARENT.(deadline := Some(100), dep := Some(PLAN))
  const LOG := map[2 := Logged(PLAN, Some(100))]
  const REGISTERED := State(map[1 := PARENT, 2 := CHILD], 3, map["s" := 1], 1, Registered(2, "s"), [], LOG)

  const EXAMINED := State(map[1 := PARENT], 2, map[], 0, Examined(PLAN, None), [], map[])
  const RESERVED := State(map[1 := PARENT], 2, map["s" := 1], 1, Reserved(PLAN, 100), [], map[])
  const ALLOCATED := RESERVED.(tickets := map[1 := PARENT, 2 := PARENT], next := 3, stage := Allocated(2, PLAN, 100))
  const TIMED := ALLOCATED.(tickets := map[1 := PARENT, 2 := PARENT.(deadline := Some(100))], stage := Timed(2, PLAN))
  const WITHDRAWN := REGISTERED.(tickets := map[1 := PARENT, 2 := CHILD.(state := Cancelled)])
  const REAPED := REGISTERED.(tickets := map[1 := PARENT], owed := ["s"])
  const REPAID := State(map[1 := PARENT], 3, map[], 0, Registered(2, "s"), [], LOG)

  lemma ReachesReserved()
    ensures Reachable(RESERVED)
  {
    hide Reachable;
    InitReachable();
    var begun := State(map[1 := PARENT], 2, map[], 0, Idle, [], map[]);
    Onward(INIT, Open(HOST, false), begun);
    Onward(begun, Examine(1, 1, "s", 4, false), EXAMINED);
    assert OpenChildren(EXAMINED.tickets, 1) == {} && |EXAMINED.tickets| == 1;
    Onward(EXAMINED, Reserve(0, 100, Limits(1000, 8, 8, 8)), RESERVED);
  }

  lemma InitReachable()
    ensures Reachable(INIT)
  {
    var ss: seq<State>, steps: seq<Step> := [INIT], [];
    assert Run(ss, steps) && ss[|steps|] == INIT;
  }

  /** The only child of ticket 1 is registered and not yet revalidated. */
  lemma ReachesRegistered()
    ensures Reachable(REGISTERED)
  {
    hide Reachable;
    ReachesReserved();
    assert RESERVED.tickets[2 := PARENT] == ALLOCATED.tickets;
    Onward(RESERVED, Alloc(HOST), ALLOCATED);
    assert ALLOCATED.tickets[2 := PARENT.(deadline := Some(100))] == TIMED.tickets;
    Onward(ALLOCATED, SetDeadline, TIMED);
    assert TIMED.tickets[2 := CHILD] == REGISTERED.tickets;
    Onward(TIMED, SetMeta, REGISTERED);
  }

  lemma ReachesReaped()
    ensures Reachable(REAPED)
  {
    hide Reachable;
    ReachesRegistered();
    assert REGISTERED.tickets[2 := CHILD.(state := Cancelled)] == WITHDRAWN.tickets;
    Onward(REGISTERED, Move(2, Cancelled), WITHDRAWN);
    assert WITHDRAWN.tickets - {2} == REAPED.tickets;
    Onward(WITHDRAWN, Remove(2), REAPED);
  }

  lemma RepaidNext()
    ensures Next(REAPED, ReturnOwed(0)) == REPAID
  {
    assert REAPED.perSession - {"s"} == map[];
    assert ["s"][..0] + ["s"][1..] == [];
    assert DepRelease(REAPED, "s") == REAPED.(perSession := map[], global := 0);
  }

  /** A child cancelled by a withdraw and reaped while its admission is between
      registering and revalidating: its quota is already back when the rollback is
      about to return it again, and both counters are at zero. */
  lemma RacedRollbackReturnsTwice()
    ensures Reachable(State(map[1 := PARENT], 3, map[], 0, Undoing("s"), [], LOG))
  {
    hide Reachable;
    ReachesReaped();
    RepaidNext();
    Onward(REAPED, ReturnOwed(0), REPAID);
    assert REPAID.tickets - {2} == REPAID.tickets;
    Onward(REPAID, Revalidate(false), REPAID.(stage := Undoing("s")));
  }
}

/** Opening and cancelling dependency calls of one session: the dispatch workers,
    the cancel handler and every other thread that moves tickets, interleaved lock
    by lock. The cancel handler holds the session lock while it decides. */
module DepSync {
  import opened Names
  import opened Calls

  datatype Worker =
    | Admitting
    | Mapping(child: nat)
    | Aborting(child: nat)
    | Dispatched(child: nat)
    | Accepting(child: nat)
    | Marking(child: nat)
    | Accepted(child: nat)
    | Done

  datatype Lock = Free | Looking(rid: string, child: nat) | Revoking(rid: string, child: nat)

  /** `accepts` lists the children whose result was accepted; `oks` and `revoked`
      the requests answered so. */
  datatype State = State(
    seen: set<string>, pending: set<string>, wanted: set<string>, mapped: map<string, nat>,
    tickets: TicketMap, next: nat, workers: map<string, Worker>, lock: Lock,
    accepts: seq<nat>, oks: set<string>, revoked: set<string>)

  const INIT := State({}, {}, {}, map[], map[], 1, map[], Free, [], {}, {})

  datatype Step =
    | Open(rid: string)
    | Refuse(rid: string)
    | Admit(rid: string, ticket: Ticket)
    | Map(rid: string)
    | Result(rid: string)
    | CheckChain(rid: string, expired: bool, broken: bool)
    | Mark(rid: string)
    | SendOk(rid: string)
    | Fail(rid: string)
    | AcceptElsewhere(child: nat)
    | SetState(child: nat, state: TicketState)
    | SetDrain(child: nat, until: nat)
    | Sweep(who: set<nat>, to: TicketState)
    | Remove(child: nat)
    | BeginCancel(rid: string)
    | ReadState
    | Revoke

  predicate At(s: State, rid: string) {
    rid in s.workers
  }

  predicate Enabled(s: State, step: Step) {
    match step
    case Open(rid) => s.lock.Free? && rid !in s.seen
    case Refuse(rid) => s.lock.Free? && At(s, rid) && s.workers[rid].Admitting?
    case Admit(rid, ticket) => At(s, rid) && s.workers[rid].Admitting? && ticket.state == Admitted
    case Map(rid) => s.lock.Free? && At(s, rid) && s.workers[rid].Mapping?
    case Result(rid) => At(s, rid) && s.workers[rid].Dispatched?
    case CheckChain(rid, _, _) => At(s, rid) && s.workers[rid].Accepting?
    case Mark(rid) => At(s, rid) && s.workers[rid].Marking?
    case SendOk(rid) => At(s, rid) && s.workers[rid].Accepted?
    case Fail(rid) => At(s, rid) && (s.workers[rid].Aborting? || s.workers[rid].Dispatched?)
    case AcceptElsewhere(_) => true
    case SetState(_, state) => state != Admitted
    case SetDrain(_, _) => true
    case Sweep(_, to) => to != Admitted
    case Remove(_) => true
    case BeginCancel(_) => s.lock.Free?
    case ReadState => s.lock.Looking?
    case Revoke => s.lock.Revoking?
  }

  function To(s: State, rid: string, w: Worker): State {
    s.(workers := s.workers[rid := w])
  }

  /** The single terminal accept: only an Admitted ticket becomes Committed. */
  function MarkCommitted(s: State, child: nat): State {
    s.(tickets := Leave(s.tickets, child, Committed),
       accepts := if IsAdmitted(s.tickets, child) then s.accepts + [child] else s.accepts)
  }

  function Next(s: State, step: Step): State
    requires Enabled(s, step)
  {
    match step
    case Open(rid) => To(s, rid, Admitting).(seen := s.seen + {rid}, pending := s.pending + {rid})
    case Refuse(rid) => To(s, rid, Done).(pending := s.pending - {rid})
    case Admit(rid, ticket) =>
      To(s, rid, Mapping(s.next)).(tickets := s.tickets[s.next := ticket], next := s.next + 1)
    case Map(rid) =>
      var child := s.workers[rid].child;
      To(s, rid, if rid in s.wanted then Aborting(child) else Dispatched(child))
        .(mapped := s.mapped[rid := child], pending := s.pending - {rid}, wanted := s.wanted - {rid})
    case Result(rid) => To(s, rid, Accepting(s.workers[rid].child))
    case CheckChain(rid, expired, broken) =>
      var child := s.workers[rid].child;
      if child !in s.tickets then To(s, rid, Done)
      else if expired then To(s, rid, Done).(tickets := Force(s.tickets, child, Expired))
      else if broken then To(s, rid, Done)
      else To(s, rid, Marking(child))
    case Mark(rid) =>
      var child := s.workers[rid].child;
      To(MarkCommitted(s, child), rid, if IsAdmitted(s.tickets, child) then Accepted(child) else Done)
    case SendOk(rid) => To(s, rid, Done).(oks := s.oks + {rid})
    case Fail(rid) => To(s, rid, Done)
    case AcceptElsewhere(child) => MarkCommitted(s, child)
    case SetState(child, state) => s.(tickets := Force(s.tickets, child, state))
    case SetDrain(child, until) => s.(tickets := DrainUntil(s.tickets, child, until))
    case Sweep(who, to) => s.(tickets := Marked(s.tickets, who, to))
    case Remove(child) => s.(tickets := s.tickets - {child})
    case BeginCancel(rid) =>
      if rid in s.mapped then s.(lock := Looking(rid, s.mapped[rid]))
      else if rid in s.pending then s.(wanted := s.wanted + {rid}, revoked := s.revoked + {rid})
      else s
    case ReadState =>
      s.(lock := if IsAdmitted(s.tickets, s.lock.child) then Revoking(s.lock.rid, s.lock.child) else Free)
    case Revoke =>
      s.(tickets := Leave(s.tickets, s.lock.child, Cancelled), lock := Free,
         revoked := if IsAdmitted(s.tickets, s.lock.child) then s.revoked + {s.lock.rid} else s.revoked)
  }

  ghost predicate Path(ss: seq<State>, steps: seq<Step>) {
    && |ss| == |steps| + 1
    && forall i :: 0 <= i < |steps| ==> Enabled(ss[i], steps[i]) && ss[i + 1] == Next(ss[i], steps[i])
  }

  ghost predicate Run(ss: seq<State>, steps: seq<Step>) {
    Path(ss, steps) && ss[0] == INIT
  }

  // ---- tickets only leave Admitted ----

  /** The ticket has existed and is no longer Admitted. */
  predicate Left(s: State, child: nat) {
    child < s.next && !IsAdmitted(s.tickets, child)
  }

  ghost predicate Numbered(s: State) {
    forall c :: c in s.tickets ==> c < s.next
  }

  lemma LeftStep(s: State, step: Step, child: nat)
    requires Enabled(s, step) && Left(s, child)
    ensures Left(Next(s, step), child)
  {
    if !step.Admit? { TableOnlyLeaves(s, step); }
  }

  /** Whatever a step does to the tickets already there, it is one of the table's
      own moves, so none regains its authority. */
  lemma TableOnlyLeaves(s: State, step: Step)
    requires Enabled(s, step) && !step.Admit?
    ensures OnlyLeaves(s.tickets, Next(s, step).tickets) && Next(s, step).next == s.next
  {}

  lemma {:induction false} AlwaysNumbered(ss: seq<State>, steps: seq<Step>, n: nat)
    requires Run(ss, steps) && n < |ss|
    ensures Numbered(ss[n])
    decreases n
  {
    if n > 0 {
      AlwaysNumbered(ss, steps, n - 1);
      assert Enabled(ss[n - 1], steps[n - 1]) && ss[n] == Next(ss[n - 1], steps[n - 1]);
    }
  }

  /** A ticket that leaves Admitted never returns to it. */
  lemma {:induction false} NeverReadmitted(ss: seq<State>, steps: seq<Step>, i: nat, j: nat, child: nat)
    requires Run(ss, steps) && i <= j < |ss| && Left(ss[i], child)
    ensures Left(ss[j], child)
    decreases j - i
  {
    hide Enabled, Next, Left;
    if i < j {
      NeverReadmitted(ss, steps, i, j - 1, child);
      LeftStep(ss[j - 1], steps[j - 1], child);
    }
  }

  // ---- one accept per child ----

  ghost predicate AcceptedOnce(s: State) {
    NoDup(s.accepts) && forall c :: c in s.accepts ==> Left(s, c)
  }

  lemma AcceptedOnceStep(s: State, step: Step)
    requires AcceptedOnce(s) && Numbered(s) && Enabled(s, step)
    ensures AcceptedOnce(Next(s, step))
  {
    var t := Next(s, step);
    forall c | c in s.accepts ensures Left(t, c) { LeftStep(s, step, c); }
    if t.accepts != s.accepts {
      var child := t.accepts[|s.accepts|];
      assert t.accepts == s.accepts + [child];
      NoDupSnoc(s.accepts, child);
    }
  }

  /** Of all attempts to accept one child's result, at most one succeeds. */
  lemma {:induction false} AcceptedAtMostOnce(ss: seq<State>, steps: seq<Step>, n: nat)
    requires Run(ss, steps) && n < |ss|
    ensures AcceptedOnce(ss[n])
    decreases n
  {
    hide Enabled, Next, AcceptedOnce, Numbered;
    if n == 0 {
      NoneAccepted();
    } else {
      AcceptedAtMostOnce(ss, steps, n - 1);
      AlwaysNumbered(ss, steps, n - 1);
      AcceptedOnceStep(ss[n - 1], steps[n - 1]);
    }
  }

  lemma NoneAccepted()
    ensures AcceptedOnce(INIT)
  {}

  // ---- a revoked request is never answered ok ----

  predicate HasChild(w: Worker) {
    !w.Admitting? && !w.Done?
  }

  /** Where one request stands. */
  predicate Consistent(s: State, rid: string) {
    && (rid in s.pending ==> At(s, rid) && (s.workers[rid].Admitting? || s.workers[rid].Mapping?))
    && (rid in s.mapped ==> At(s, rid) && s.mapped[rid] < s.next)
    && (At(s, rid) ==> rid in s.seen)
    && (At(s, rid) && HasChild(s.workers[rid]) ==> s.workers[rid].child < s.next)
    && (At(s, rid) && (s.workers[rid].Admitting? || s.workers[rid].Mapping?) ==> rid in s.pending && rid !in s.mapped)
    && (At(s, rid) && HasChild(s.workers[rid]) && !s.workers[rid].Mapping? ==>
          rid in s.mapped && s.mapped[rid] == s.workers[rid].child)
    && (rid in s.wanted ==> At(s, rid))
  }

  /** The cancel handler looks at the child its request is mapped to. */
  predicate LockOk(s: State) {
    !s.lock.Free? ==> s.lock.rid in s.mapped && s.mapped[s.lock.rid] == s.lock.child
  }

  /** A request that got, or is about to get, an ok has lost its ticket's authority. */
  predicate Succeeds(s: State, rid: string) {
    (rid in s.oks || (At(s, rid) && s.workers[rid].Accepted?)) ==> rid in s.mapped && Left(s, s.mapped[rid])
  }

  /** A revoked request either waits to be aborted or has lost its ticket's
      authority without an accept. */
  predicate Barred(s: State, rid: string) {
    rid in s.revoked ==>
      && rid !in s.oks
      && At(s, rid)
      && (match s.workers[rid]
          case Admitting => rid in s.wanted
          case Mapping(_) => rid in s.wanted
          case Aborting(_) => true
          case Done => true
          case Accepted(_) => false
          case _ => Left(s, s.workers[rid].child))
  }

  predicate RidOk(s: State, rid: string) {
    LockOk(s) && Consistent(s, rid) && Succeeds(s, rid) && Barred(s, rid)
  }

  /** The request whose worker or marks a step touches. */
  function Touched(step: Step): Option<string> {
    match step
    case Open(rid) => Some(rid)
    case Refuse(rid) => Some(rid)
    case Admit(rid, _) => Some(rid)
    case Map(rid) => Some(rid)
    case Result(rid) => Some(rid)
    case CheckChain(rid, _, _) => Some(rid)
    case Mark(rid) => Some(rid)
    case SendOk(rid) => Some(rid)
    case Fail(rid) => Some(rid)
    case BeginCancel(rid) => Some(rid)
    case _ => None
  }

  predicate SameRid(s: State, t: State, rid: string) {
    && (At(s, rid) <==> At(t, rid)) && (At(s, rid) ==> s.workers[rid] == t.workers[rid])
    && (rid in s.mapped <==> rid in t.mapped) && (rid in s.mapped ==> s.mapped[rid] == t.mapped[rid])
    && (rid in s.pending <==> rid in t.pending) && (rid in s.wanted <==> rid in t.wanted)
    && (rid in s.seen <==> rid in t.seen) && (rid in s.oks <==> rid in t.oks)
    && s.next <= t.next
  }

  /** Steps of other requests and moves of tickets leave a request where it stands. */
  lemma OthersKeep(s: State, step: Step, rid: string)
    requires Enabled(s, step) && Touched(step) != Some(rid)
    ensures SameRid(s, Next(s, step), rid)
  {
    hide Leave, Force, DrainUntil, Marked, IsAdmitted;
  }

  lemma LockStep(s: State, step: Step)
    requires LockOk(s) && Enabled(s, step)
    ensures LockOk(Next(s, step))
  {
    hide Leave, Force, DrainUntil, Marked, IsAdmitted;
  }

  lemma OwnConsistent(s: State, step: Step, rid: string)
    requires Consistent(s, rid) && Enabled(s, step) && Touched(step) == Some(rid)
    ensures Consistent(Next(s, step), rid)
  {
    hide Leave, Force, IsAdmitted;
  }

  lemma ConsistentStep(s: State, step: Step, rid: string)
    requires Consistent(s, rid) && Enabled(s, step)
    ensures Consistent(Next(s, step), rid)
  {
    hide Next, Enabled;
    if Touched(step) == Some(rid) { OwnConsistent(s, step, rid); } else { OthersKeep(s, step, rid); }
  }

  lemma OwnSucceeds(s: State, step: Step, rid: string)
    requires Consistent(s, rid) && Succeeds(s, rid) && Enabled(s, step) && Touched(step) == Some(rid)
    requires rid in s.mapped && Left(s, s.mapped[rid]) ==> Left(Next(s, step), s.mapped[rid])
    ensures Succeeds(Next(s, step), rid)
  {}

  lemma SucceedsStep(s: State, step: Step, rid: string)
    requires Consistent(s, rid) && Succeeds(s, rid) && Enabled(s, step)
    ensures Succeeds(Next(s, step), rid)
  {
    hide Next, Enabled, Consistent, Left;
    if rid in s.mapped && Left(s, s.mapped[rid]) { LeftStep(s, step, s.mapped[rid]); }
    if Touched(step) == Some(rid) { OwnSucceeds(s, step, rid); } else { OthersKeep(s, step, rid); }
  }

  lemma OwnBarred(s: State, step: Step, rid: string)
    requires RidOk(s, rid) && Enabled(s, step) && Touched(step) == Some(rid)
    requires At(s, rid) && HasChild(s.workers[rid]) && Left(s, s.workers[rid].child) ==>
      Left(Next(s, step), s.workers[rid].child)
    ensures Barred(Next(s, step), rid)
  {}

  /** Revoking adds only the request whose child it cancelled. */
  lemma RevokedBy(s: State, step: Step, rid: string)
    requires Enabled(s, step) && Touched(step) != Some(rid) && rid in Next(s, step).revoked && rid !in s.revoked
    ensures s.lock.Revoking? && s.lock.rid == rid && IsAdmitted(s.tickets, s.lock.child)
    ensures !IsAdmitted(Next(s, step).tickets, s.lock.child)
  {}

  lemma BarredStep(s: State, step: Step, rid: string)
    requires RidOk(s, rid) && Enabled(s, step)
    ensures Barred(Next(s, step), rid)
  {
    hide Next, Enabled;
    if At(s, rid) && HasChild(s.workers[rid]) && Left(s, s.workers[rid].child) {
      LeftStep(s, step, s.workers[rid].child);
    }
    if Touched(step) == Some(rid) {
      OwnBarred(s, step, rid);
    } else {
      OthersKeep(s, step, rid);
      if rid in Next(s, step).revoked && rid !in s.revoked { RevokedBy(s, step, rid); }
    }
  }

  lemma {:induction false} AlwaysOk(ss: seq<State>, steps: seq<Step>, n: nat, rid: string)
    requires Run(ss, steps) && n < |ss|
    ensures RidOk(ss[n], rid)
    decreases n
  {
    hide Enabled, Next, Consistent, Succeeds, Barred, LockOk;
    if n == 0 {
      InitOk(rid);
    } else {
      AlwaysOk(ss, steps, n - 1, rid);
      LockStep(ss[n - 1], steps[n - 1]);
      ConsistentStep(ss[n - 1], steps[n - 1], rid);
      SucceedsStep(ss[n - 1], steps[n - 1], rid);
      BarredStep(ss[n - 1], steps[n - 1], rid);
    }
  }

  lemma InitOk(rid: string)
    ensures RidOk(INIT, rid)
  {}

  lemma AnswersGrow(s: State, step: Step)
    requires Enabled(s, step)
    ensures s.revoked <= Next(s, step).revoked && s.oks <= Next(s, step).oks
  {}

  lemma {:induction false} AnswersStay(ss: seq<State>, steps: seq<Step>, i: nat, j: nat)
    requires Run(ss, steps) && i <= j < |ss|
    ensures ss[i].revoked <= ss[j].revoked && ss[i].oks <= ss[j].oks
    decreases j - i
  {
    hide Enabled, Next;
    if i < j {
      AnswersStay(ss, steps, i, j - 1);
      AnswersGrow(ss[j - 1], steps[j - 1]);
    }
  }

  /** Whether the cancel came before or after the worker mapped the request, and
      whatever else moved the ticket: a request once answered `revoked` has had no
      ok result and never gets one. */
  lemma RevokedNeverOk(ss: seq<State>, steps: seq<Step>, i: nat, j: nat, rid: string)
    requires Run(ss, steps) && i < |ss| && j < |ss| && rid in ss[i].revoked
    ensures rid !in ss[j].oks
  {
    hide Run, Consistent, Succeeds;
    var last := |ss| - 1;
    RunLength(ss, steps);
    AnswersStay(ss, steps, i, last);
    AnswersStay(ss, steps, j, last);
    AlwaysOk(ss, steps, last, rid);
  }

  lemma RunLength(ss: seq<State>, steps: seq<Step>)
    requires Run(ss, steps)
    ensures |ss| >= 1
  {}

  /** An ok answer is never sent for a ticket that still carries authority, so a
      later cancel of that request is answered `terminal`. */
  lemma OkIsTerminal(ss: seq<State>, steps: seq<Step>, n: nat, rid: string)
    requires Run(ss, steps) && n < |ss| && rid in ss[n].oks
    ensures rid in ss[n].mapped && !IsAdmitted(ss[n].tickets, ss[n].mapped[rid])
  {
    hide Run;
    AlwaysOk(ss, steps, n, rid);
  }

  // ---- what a request can count on ----

  /** A cancel of the request has come in since it was opened. */
  ghost predicate Cancelling(ss: seq<State>, steps: seq<Step>, n: nat, rid: string) {
    exists m: nat :: m < n && m < |ss| && m < |steps| && steps[m] == BeginCancel(rid) && rid in ss[m].seen
  }

  predicate Unmapped(s: State, rid: string) {
    At(s, rid) && (s.workers[rid].Admitting? || s.workers[rid].Mapping?)
  }

  lemma WantedStep(s: State, step: Step, rid: string)
    requires RidOk(s, rid) && Enabled(s, step) && Unmapped(Next(s, step), rid)
    ensures Unmapped(s, rid) || (step == Open(rid) && rid !in Next(s, step).wanted)
    ensures Unmapped(s, rid) ==>
      (rid in Next(s, step).wanted <==> rid in s.wanted || step == BeginCancel(rid))
  {
    hide Leave, Force, DrainUntil, Marked, IsAdmitted, Succeeds, Barred, LockOk;
  }

  lemma Unseen(ss: seq<State>, steps: seq<Step>, n: nat, m: nat, rid: string)
    requires Run(ss, steps) && m <= n < |ss| && rid !in ss[n].seen
    ensures rid !in ss[m].seen
    decreases n - m
  {
    if m < n {
      assert Enabled(ss[n - 1], steps[n - 1]) && ss[n] == Next(ss[n - 1], steps[n - 1]);
      Unseen(ss, steps, n - 1, m, rid);
    }
  }

  lemma {:induction false} WantedIff(ss: seq<State>, steps: seq<Step>, n: nat, rid: string)
    requires Run(ss, steps) && n < |ss| && Unmapped(ss[n], rid)
    ensures rid in ss[n].wanted <==> Cancelling(ss, steps, n, rid)
    decreases n
  {
    hide Next, Enabled, RidOk, Unmapped;
    if n == 0 {
      NobodyStarted(rid);
    } else {
      var p := n - 1;
      AlwaysOk(ss, steps, p, rid);
      WantedStep(ss[p], steps[p], rid);
      if Unmapped(ss[p], rid) {
        WantedIff(ss, steps, p, rid);
        SeenWhen(ss[p], rid);
        CancellingSnoc(ss, steps, p, rid);
      } else {
        OpensOnce(ss[p], rid, steps[p]);
        forall m: nat | m < n ensures rid !in ss[m].seen { Unseen(ss, steps, p, m, rid); }
      }
    }
  }

  lemma NobodyStarted(rid: string)
    ensures !Unmapped(INIT, rid)
  {}

  lemma SeenWhen(s: State, rid: string)
    requires RidOk(s, rid) && Unmapped(s, rid)
    ensures rid in s.seen
  {}

  lemma OpensOnce(s: State, rid: string, step: Step)
    requires step == Open(rid) && Enabled(s, step)
    ensures rid !in s.seen
  {}

  lemma CancellingSnoc(ss: seq<State>, steps: seq<Step>, n: nat, rid: string)
    requires n < |steps| && n < |ss| && rid in ss[n].seen
    ensures Cancelling(ss, steps, n + 1, rid) <==> Cancelling(ss, steps, n, rid) || steps[n] == BeginCancel(rid)
  {
    if Cancelling(ss, steps, n, rid) {
      var m: nat :| m < n && m < |ss| && m < |steps| && steps[m] == BeginCancel(rid) && rid in ss[m].seen;
    }
  }

  /** A worker that has its ticket dispatches the call exactly when no cancel of the
      request came in since it was opened, and aborts it otherwise. */
  lemma DispatchedIff(ss: seq<State>, steps: seq<Step>, i: nat, rid: string)
    requires Run(ss, steps) && i < |steps| && steps[i] == Map(rid)
    ensures rid in ss[i + 1].workers
    ensures ss[i + 1].workers[rid].Dispatched? <==> !Cancelling(ss, steps, i, rid)
    ensures ss[i + 1].workers[rid].Aborting? <==> Cancelling(ss, steps, i, rid)
  {
    hide Cancelling;
    assert Enabled(ss[i], steps[i]) && ss[i + 1] == Next(ss[i], steps[i]);
    WantedIff(ss, steps, i, rid);
  }

  /** A dispatched call whose ticket still has its authority, whose chain stands and
      whose result comes is accepted and answered ok. */
  lemma DispatchedCanSucceed(s: State, rid: string) returns (ss: seq<State>, steps: seq<Step>)
    requires At(s, rid) && s.workers[rid].Dispatched? && IsAdmitted(s.tickets, s.workers[rid].child)
    ensures Path(ss, steps) && |ss| == |steps| + 1 && ss[0] == s
    ensures steps == [Result(rid), CheckChain(rid, false, false), Mark(rid), SendOk(rid)]
    ensures var n, child := ss[|steps|], s.workers[rid].child;
      rid in n.oks && n.accepts == s.accepts + [child] && n.tickets == Leave(s.tickets, child, Committed)
  {
    var a := Next(s, Result(rid));
    var b := Next(a, CheckChain(rid, false, false));
    var c := Next(b, Mark(rid));
    ss, steps := [s, a, b, c, Next(c, SendOk(rid))],
      [Result(rid), CheckChain(rid, false, false), Mark(rid), SendOk(rid)];
  }

  /** The accept's look at the chain: it goes on exactly when the ticket is still there,
      not overdue and its chain stands; an overdue ticket expires, and nothing else
      about the tickets changes. */
  lemma ChainDecides(ss: seq<State>, steps: seq<Step>, i: nat, rid: string, expired: bool, broken: bool)
    requires Run(ss, steps) && i < |steps| && steps[i] == CheckChain(rid, expired, broken)
    ensures rid in ss[i].workers && ss[i].workers[rid].Accepting? && rid in ss[i + 1].workers
    ensures var child, there := ss[i].workers[rid].child, ss[i].workers[rid].child in ss[i].tickets;
      && ss[i + 1].workers[rid] == (if there && !expired && !broken then Marking(child) else Done)
      && ss[i + 1].tickets ==
           if there && expired then ss[i].tickets[child := ss[i].tickets[child].(state := Expired)] else ss[i].tickets
  {
    assert Enabled(ss[i], steps[i]) && ss[i + 1] == Next(ss[i], steps[i]);
  }

  /** The chain of the request was found standing and in time. */
  ghost predicate Examined(steps: seq<Step>, n: nat, rid: string) {
    exists i :: 0 <= i < n && i < |steps| && steps[i] == CheckChain(rid, false, false)
  }

  predicate PastCheck(s: State, rid: string) {
    rid in s.oks || (At(s, rid) && (s.workers[rid].Marking? || s.workers[rid].Accepted?))
  }

  lemma PastCheckStep(s: State, step: Step, rid: string)
    requires Enabled(s, step) && PastCheck(Next(s, step), rid)
    ensures PastCheck(s, rid) || step == CheckChain(rid, false, false)
  {
    hide Leave, Force, DrainUntil, Marked;
  }

  /** No ok is ever sent for a request whose chain was not found standing and in time. */
  lemma {:induction false} OkWasExamined(ss: seq<State>, steps: seq<Step>, n: nat, rid: string)
    requires Run(ss, steps) && n < |ss| && PastCheck(ss[n], rid)
    ensures Examined(steps, n, rid)
    decreases n
  {
    hide Next, Enabled, PastCheck;
    if n == 0 {
      NonePast(rid);
    } else {
      PastCheckStep(ss[n - 1], steps[n - 1], rid);
      if PastCheck(ss[n - 1], rid) { OkWasExamined(ss, steps, n - 1, rid); }
    }
  }

  lemma NonePast(rid: string)
    ensures !PastCheck(INIT, rid)
  {}

  /** From any reachable state, a new request that nobody cancels can be answered ok. */
  lemma NewRequestCanSucceed(s: State, rid: string, ticket: Ticket) returns (ss: seq<State>, steps: seq<Step>)
    requires RidOk(s, rid) && s.lock.Free? && rid !in s.seen && ticket.state == Admitted
    ensures Path(ss, steps) && ss[0] == s && rid in ss[|steps|].oks
    ensures forall i :: 0 <= i < |steps| ==> !steps[i].BeginCancel?
  {
    var a := Next(s, Open(rid));
    var b := Next(a, Admit(rid, ticket));
    var c := Next(b, Map(rid));
    assert rid !in s.wanted && c.workers[rid] == Dispatched(s.next) && c.tickets[s.next] == ticket;
    var more, todo := DispatchedCanSucceed(c, rid);
    ss, steps := [s, a, b] + more, [Open(rid), Admit(rid, ticket), Map(rid)] + todo;
    assert ss[3] == c;
  }

  /** A cancel of a mapped request whose ticket still has its authority takes it away
      and is answered revoked. */
  lemma CancelRevokes(s: State, rid: string) returns (ss: seq<State>, steps: seq<Step>)
    requires s.lock.Free? && rid in s.mapped && IsAdmitted(s.tickets, s.mapped[rid])
    ensures Path(ss, steps) && ss[0] == s && steps == [BeginCancel(rid), ReadState, Revoke]
    ensures var n := ss[|steps|];
      rid in n.revoked && n.tickets == s.tickets[s.mapped[rid] := s.tickets[s.mapped[rid]].(state := Cancelled)]
  {
    var a := Next(s, BeginCancel(rid));
    var b := Next(a, ReadState);
    ss, steps := [s, a, b, Next(b, Revoke)], [BeginCancel(rid), ReadState, Revoke];
  }
}

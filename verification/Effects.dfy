/** Confirmed effects: which tickets may commit one, and the bounded ring that keeps
    the latest. Each kernel operation is one step; the context table may make any
    lifecycle move in between. */
module Effects {
  import opened Names
  import opened Calls
  import opened Contexts

  const MAX_EFFECTS: nat := 1024

  /** A leg whose provider runs on another host. */
  predicate IsRemote(k: Ticket) {
    k.dep.Some? && k.dep.value.remote
  }

  datatype Effect = Effect(seqno: nat, ticket: nat, logical: Name, instance: nat, generation: nat,
                           kind: string, remote: bool)

  /** `history` lists every effect ever confirmed, oldest first; `ring` is what is
      kept in memory. */
  datatype State = State(table: Table, tickets: TicketMap, nextTicket: nat, nextEffect: nat,
                         ring: seq<Effect>, history: seq<Effect>)

  const INIT := State(EMPTY, map[], 1, 1, [], [])

  /** What a commit observes besides the tables: the clock, this kernel's epoch,
      whether a child's parent, consumer and grant still stand, and whether the
      remote registration does. */
  datatype Sight = Sight(now: nat, epoch: nat, chain: bool, remote: bool)

  datatype Refusal = UnknownTicket | AlreadyCommitted | WasCancelled | DeadlineExceeded | ChainBroken
    | StaleGeneration | NotActive

  datatype Verdict = Granted | Refused(why: Refusal)

  /** A local leg commits only for the activation that is current. */
  function JudgeLocal(t: Table, k: Ticket, v: Sight): Verdict {
    if k.owner.epoch != v.epoch then Refused(StaleGeneration)
    else if k.owner.instance !in t.byInstance then Refused(StaleGeneration)
    else
      var owner := t.byInstance[k.owner.instance];
      if owner.logical != k.owner.logical || owner.generation != k.owner.generation then Refused(StaleGeneration)
      else if Current(t, k.owner.logical).Some? && Current(t, k.owner.logical).value.instance != k.owner.instance
        then Refused(StaleGeneration)
      else match owner.state
        case Active => Granted
        case Quiescing =>
          if k.drains && k.deadline.Some? && v.now <= k.deadline.value then Granted else Refused(WasCancelled)
        case _ => Refused(NotActive)
  }

  function Judge(t: Table, k: Ticket, v: Sight): Verdict {
    match k.state
    case Committed => Refused(AlreadyCommitted)
    case Cancelled => Refused(WasCancelled)
    case Expired => Refused(DeadlineExceeded)
    case Admitted =>
      if k.dep.Some? && k.deadline.Some? && v.now >= k.deadline.value then Refused(DeadlineExceeded)
      else if k.dep.Some? && !v.chain then Refused(ChainBroken)
      else if IsRemote(k) then (if v.remote then Granted else Refused(StaleGeneration))
      else JudgeLocal(t, k, v)
  }

  function Keep(ring: seq<Effect>): seq<Effect> {
    if |ring| > MAX_EFFECTS then ring[|ring| - MAX_EFFECTS..] else ring
  }

  function EffectOf(s: State, id: nat, kind: string): Effect
    requires id in s.tickets
  {
    var k := s.tickets[id];
    Effect(s.nextEffect, id, k.owner.logical, k.owner.instance, k.owner.generation, kind, IsRemote(k))
  }

  function Push(s: State, e: Effect): State {
    s.(nextEffect := s.nextEffect + 1, ring := Keep(s.ring + [e]), history := s.history + [e])
  }

  function Commit(s: State, id: nat, kind: string, v: Sight): (State, Verdict) {
    if id !in s.tickets then (s, Refused(UnknownTicket))
    else
      var k := s.tickets[id];
      var verdict := Judge(s.table, k, v);
      if verdict.Granted? then (Push(s, EffectOf(s, id, kind)).(tickets := Force(s.tickets, id, Committed)), verdict)
      else if k.state == Admitted && k.dep.Some? && k.deadline.Some? && v.now >= k.deadline.value
        then (s.(tickets := Force(s.tickets, id, Expired)), verdict)
      else (s, verdict)
  }

  datatype Step =
    | Lifecycle(table: Table)
    | Open(ticket: Ticket)
    | Move(id: nat, state: TicketState)
    | SetDrain(id: nat, until: nat)
    | Remove(id: nat)
    | CommitEffect(id: nat, kind: string, view: Sight)

  ghost predicate Enabled(s: State, step: Step) {
    match step
    case Lifecycle(t) => TableOk(t) && Later(s.table, t)
    case Open(_) => true
    case Move(_, state) => state != Admitted
    case SetDrain(_, _) => true
    case Remove(_) => true
    case CommitEffect(_, _, _) => true
  }

  ghost function Next(s: State, step: Step): State
    requires Enabled(s, step)
  {
    match step
    case Lifecycle(t) => s.(table := t)
    case Open(ticket) => s.(tickets := s.tickets[s.nextTicket := ticket], nextTicket := s.nextTicket + 1)
    case Move(id, state) => s.(tickets := Force(s.tickets, id, state))
    case SetDrain(id, until) => s.(tickets := DrainUntil(s.tickets, id, until))
    case Remove(id) => s.(tickets := s.tickets - {id})
    case CommitEffect(id, kind, view) => Commit(s, id, kind, view).0
  }

  ghost predicate Run(ss: seq<State>, steps: seq<Step>) {
    && |ss| == |steps| + 1 && ss[0] == INIT
    && forall i :: 0 <= i < |steps| ==> Enabled(ss[i], steps[i]) && ss[i + 1] == Next(ss[i], steps[i])
  }

  // ---- who commits ----

  /** A granted local commit is by the current activation of its logical id, in
      service or inside its drain, under the highest generation ever given. */
  lemma GrantedIsCurrent(t: Table, k: Ticket, v: Sight)
    requires TableOk(t) && Judge(t, k, v).Granted? && !IsRemote(k)
    ensures k.owner.instance in t.byInstance && Current(t, k.owner.logical) == Some(t.byInstance[k.owner.instance])
    ensures k.owner.generation == Generation(t, k.owner.logical)
    ensures t.byInstance[k.owner.instance].state == Active
      || (k.drains && k.deadline.Some? && v.now <= k.deadline.value)
  {
    assert RecordOk(t, k.owner.instance) && CurrentOk(t, k.owner.logical);
    assert RecordOk(t, t.current[k.owner.logical]);
  }

  /** The owner is the current activation of its logical id, under the same
      generation and epoch. */
  ghost predicate OwnerStands(t: Table, k: Ticket, v: Sight) {
    && k.owner.epoch == v.epoch
    && k.owner.logical in t.current && t.current[k.owner.logical] == k.owner.instance
    && k.owner.instance in t.byInstance
    && t.byInstance[k.owner.instance].logical == k.owner.logical
    && t.byInstance[k.owner.instance].generation == k.owner.generation
  }

  predicate InDrain(k: Ticket, v: Sight) {
    k.drains && k.deadline.Some? && v.now <= k.deadline.value
  }

  predicate DependencyOverdue(k: Ticket, v: Sight) {
    k.dep.Some? && k.deadline.Some? && v.now >= k.deadline.value
  }

  /** When a ticket has the authority to commit. */
  ghost predicate MayCommit(s: State, id: nat, v: Sight) {
    && id in s.tickets
    && var k := s.tickets[id];
       && k.state == Admitted
       && (k.dep.Some? ==> v.chain && !DependencyOverdue(k, v))
       && if k.dep.Some? && k.dep.value.remote then v.remote
          else
            && OwnerStands(s.table, k, v)
            && var owner := s.table.byInstance[k.owner.instance].state;
               owner == Active || (owner == Quiescing && InDrain(k, v))
  }

  /** What each refusal tells. */
  ghost predicate Tells(s: State, id: nat, v: Sight, why: Refusal) {
    if id !in s.tickets then why == UnknownTicket
    else
      var k := s.tickets[id];
      var owner := if OwnerStands(s.table, k, v) then Some(s.table.byInstance[k.owner.instance].state) else None;
      var remote := k.dep.Some? && k.dep.value.remote;
      match why
      case UnknownTicket => false
      case AlreadyCommitted => k.state == Committed
      case WasCancelled =>
        k.state == Cancelled || (k.state == Admitted && !remote && owner == Some(Quiescing) && !InDrain(k, v))
      case DeadlineExceeded => k.state == Expired || (k.state == Admitted && DependencyOverdue(k, v))
      case ChainBroken => k.state == Admitted && k.dep.Some? && !v.chain && !DependencyOverdue(k, v)
      case StaleGeneration => k.state == Admitted && if remote then !v.remote else owner.None?
      case NotActive =>
        k.state == Admitted && !remote && owner.Some? && owner != Some(Active) && owner != Some(Quiescing)
  }

  lemma LocalMeans(t: Table, k: Ticket, v: Sight)
    requires TableOk(t)
    ensures match JudgeLocal(t, k, v)
            case Granted =>
              && OwnerStands(t, k, v)
              && (t.byInstance[k.owner.instance].state == Active
                  || (t.byInstance[k.owner.instance].state == Quiescing && InDrain(k, v)))
            case Refused(why) =>
              if OwnerStands(t, k, v)
              then if t.byInstance[k.owner.instance].state == Quiescing then why == WasCancelled && !InDrain(k, v)
                   else why == NotActive && t.byInstance[k.owner.instance].state != Active
              else why == StaleGeneration
  {
    if k.owner.instance in t.byInstance {
      assert RecordOk(t, k.owner.instance) && CurrentOk(t, k.owner.logical);
      if k.owner.logical in t.current { assert RecordOk(t, t.current[k.owner.logical]); }
    }
  }

  /** A commit is granted exactly to a ticket with the authority; it confirms one
      effect under the ticket's owner and spends the ticket. A refusal says why and
      confirms nothing; only an overdue dependency ticket changes, it expires. */
  lemma CommitMeans(s: State, id: nat, kind: string, v: Sight)
    requires TableOk(s.table)
    ensures var (n, verdict) := Commit(s, id, kind, v);
      && (verdict.Granted? <==> MayCommit(s, id, v))
      && n.table == s.table && n.nextTicket == s.nextTicket
      && match verdict {
           case Granted =>
             && id in s.tickets
             && var k := s.tickets[id];
                var e := Effect(s.nextEffect, id, k.owner.logical, k.owner.instance, k.owner.generation, kind,
                                k.dep.Some? && k.dep.value.remote);
                && n.history == s.history + [e]
                && n.tickets == s.tickets[id := k.(state := Committed)]
           case Refused(why) =>
             && Tells(s, id, v, why)
             && n.history == s.history && n.ring == s.ring && n.nextEffect == s.nextEffect
             && n.tickets == if why == DeadlineExceeded && s.tickets[id].state == Admitted
                             then s.tickets[id := s.tickets[id].(state := Expired)] else s.tickets
         }
  {
    hide JudgeLocal, OwnerStands;
    if id in s.tickets { LocalMeans(s.table, s.tickets[id], v); }
  }

  // ---- the invariant ----

  ghost predicate Spent(s: State, e: Effect) {
    e.ticket < s.nextTicket && (e.ticket in s.tickets ==> s.tickets[e.ticket].state != Admitted)
  }

  ghost predicate EffectOk(s: State, i: nat)
    requires i < |s.history|
  {
    var e := s.history[i];
    && Spent(s, e)
    && e.seqno == i + 1
    && (!e.remote ==> e.generation <= Generation(s.table, e.logical))
  }

  ghost predicate Ordered(h: seq<Effect>) {
    forall i, j :: 0 <= i < j < |h| ==>
      && h[i].ticket != h[j].ticket
      && (!h[i].remote && !h[j].remote && h[i].logical == h[j].logical ==> h[i].generation <= h[j].generation)
  }

  ghost predicate Inv(s: State) {
    && TableOk(s.table)
    && (forall id :: id in s.tickets ==> id < s.nextTicket)
    && (forall i :: 0 <= i < |s.history| ==> EffectOk(s, i))
    && Ordered(s.history)
    && s.nextEffect == |s.history| + 1
    && s.ring == Keep(s.history)
  }

  lemma KeepsLast(h: seq<Effect>, e: Effect)
    ensures Keep(Keep(h) + [e]) == Keep(h + [e])
  {
    if |h| > MAX_EFFECTS {
      assert Keep(h) + [e] == (h + [e])[|h| - MAX_EFFECTS..];
    }
  }

  /** Steps that confirm nothing leave the history valid. */
  lemma QuietOk(s: State, t: State, i: nat)
    requires i < |s.history| && EffectOk(s, i) && t.history == s.history && t.nextTicket >= s.nextTicket
    requires forall l :: Generation(s.table, l) <= Generation(t.table, l)
    requires s.history[i].ticket in t.tickets && t.tickets[s.history[i].ticket].state == Admitted ==>
      s.history[i].ticket >= s.nextTicket
        || (s.history[i].ticket in s.tickets && s.tickets[s.history[i].ticket].state == Admitted)
    ensures EffectOk(t, i)
  {}

  lemma EffectStep(s: State, step: Step, i: nat)
    requires Inv(s) && Enabled(s, step) && i < |s.history| && Next(s, step).history == s.history
    ensures EffectOk(Next(s, step), i)
  {
    hide TableOk, Ordered, JudgeLocal;
    assert EffectOk(s, i);
    QuietOk(s, Next(s, step), i);
  }

  /** An earlier local effect of the same logical id is of no later generation. */
  predicate NotNewer(e: Effect, k: Ticket) {
    !IsRemote(k) && !e.remote && e.logical == k.owner.logical ==> e.generation <= k.owner.generation
  }

  lemma GrantedEffect(s: State, id: nat, kind: string, v: Sight, i: nat)
    requires Inv(s) && id in s.tickets && Judge(s.table, s.tickets[id], v).Granted?
    requires i <= |s.history|
    ensures EffectOk(Commit(s, id, kind, v).0, i)
    ensures i < |s.history| ==> s.history[i].ticket != id
    ensures i < |s.history| ==> NotNewer(s.history[i], s.tickets[id])
  {
    if !IsRemote(s.tickets[id]) { GrantedIsCurrent(s.table, s.tickets[id], v); }
    hide TableOk, Ordered, JudgeLocal;
    if i < |s.history| { assert EffectOk(s, i); }
  }

  lemma OrderedSnoc(h: seq<Effect>, e: Effect)
    requires Ordered(h)
    requires forall i :: 0 <= i < |h| ==>
      && h[i].ticket != e.ticket
      && (!h[i].remote && !e.remote && h[i].logical == e.logical ==> h[i].generation <= e.generation)
    ensures Ordered(h + [e])
  {}

  lemma GrantedOk(s: State, id: nat, kind: string, v: Sight)
    requires Inv(s) && id in s.tickets && Judge(s.table, s.tickets[id], v).Granted?
    ensures Inv(Commit(s, id, kind, v).0)
  {
    hide TableOk, Ordered, Judge, EffectOk;
    var t := Commit(s, id, kind, v).0;
    forall i | 0 <= i < |t.history| ensures EffectOk(t, i) { GrantedEffect(s, id, kind, v, i); }
    forall i | 0 <= i < |s.history|
      ensures s.history[i].ticket != id && NotNewer(s.history[i], s.tickets[id])
    {
      GrantedEffect(s, id, kind, v, i);
    }
    OrderedSnoc(s.history, EffectOf(s, id, kind));
    KeepsLast(s.history, EffectOf(s, id, kind));
  }

  lemma StepOk(s: State, step: Step)
    requires Inv(s) && Enabled(s, step)
    ensures Inv(Next(s, step))
  {
    hide TableOk, Ordered, EffectOk, Judge, Later;
    var t := Next(s, step);
    if step.CommitEffect? && step.id in s.tickets && Judge(s.table, s.tickets[step.id], step.view).Granted? {
      GrantedOk(s, step.id, step.kind, step.view);
    } else {
      assert t.history == s.history;
      forall i | 0 <= i < |t.history| ensures EffectOk(t, i) { EffectStep(s, step, i); }
    }
  }

  lemma {:induction false} AlwaysOk(ss: seq<State>, steps: seq<Step>, n: nat)
    requires Run(ss, steps) && n < |ss|
    ensures Inv(ss[n])
    decreases n
  {
    hide Inv, Enabled, Next;
    if n == 0 {
      InitOk();
    } else {
      AlwaysOk(ss, steps, n - 1);
      StepOk(ss[n - 1], steps[n - 1]);
    }
  }

  lemma InitOk()
    ensures Inv(INIT)
  {}

  /** In every run: a ticket confirms at most one effect; along the effects of local
      legs the generation of a logical id never decreases; effects are numbered in
      order; and the ring is exactly the last 1024 of them. */
  lemma EffectHistory(ss: seq<State>, steps: seq<Step>, n: nat)
    requires Run(ss, steps) && n < |ss|
    ensures var h := ss[n].history;
      && (forall i, j :: 0 <= i < j < |h| ==> h[i].ticket != h[j].ticket && h[i].seqno < h[j].seqno)
      && (forall i, j :: 0 <= i < j < |h| && !h[i].remote && !h[j].remote && h[i].logical == h[j].logical ==>
            h[i].generation <= h[j].generation)
      && |ss[n].ring| == (if |h| < MAX_EFFECTS then |h| else MAX_EFFECTS)
      && ss[n].ring == h[|h| - |ss[n].ring|..]
  {
    hide Run, TableOk;
    AlwaysOk(ss, steps, n);
    var h := ss[n].history;
    forall i | 0 <= i < |h| ensures h[i].seqno == i + 1 { assert EffectOk(ss[n], i); }
  }

  /** Every effect of a local leg was confirmed by the activation that was current
      for its logical id at that step. */
  lemma CommittedByCurrent(ss: seq<State>, steps: seq<Step>, n: nat)
    requires Run(ss, steps) && n < |steps| && ss[n + 1].history != ss[n].history
    ensures |ss[n + 1].history| == |ss[n].history| + 1
    ensures var e := ss[n + 1].history[|ss[n].history|];
      !e.remote ==>
        var cur := Current(ss[n].table, e.logical);
        cur.Some? && cur.value.instance == e.instance && cur.value.generation == e.generation
          && (cur.value.state == Active || cur.value.state == Quiescing)
  {
    hide TableOk, Inv;
    AlwaysOk(ss, steps, n);
    InvTable(ss[n]);
    var s := ss[n];
    assert ss[n + 1] == Next(s, steps[n]);
    var id := steps[n].id;
    var k := s.tickets[id];
    if !IsRemote(k) {
      GrantedIsCurrent(s.table, k, steps[n].view);
      InstanceIs(s.table, k.owner.instance);
    }
  }

  lemma InvTable(s: State)
    requires Inv(s)
    ensures TableOk(s.table) && forall id :: id in s.tickets ==> id < s.nextTicket
  {}

  lemma InstanceIs(t: Table, i: nat)
    requires TableOk(t) && i in t.byInstance
    ensures t.byInstance[i].instance == i
  {
    assert RecordOk(t, i);
  }

  // ---- the objects ----

  lemma KeepRest(v: seq<Effect>)
    requires |v| > MAX_EFFECTS
    ensures Keep(v[1..]) == Keep(v)
  {}

  class Ledger {
    var nextEffect: nat
    var ring: seq<Effect>

    constructor ()
      ensures nextEffect == 1 && ring == []
    {
      nextEffect, ring := 1, [];
    }

    /** Appends, then drops from the front while the ring is over its bound. */
    method PushEffect(id: nat, k: Ticket, kind: string) returns (e: Effect)
      modifies this
      ensures e == Effect(old(nextEffect), id, k.owner.logical, k.owner.instance, k.owner.generation, kind, IsRemote(k))
      ensures nextEffect == old(nextEffect) + 1 && ring == Keep(old(ring) + [e])
    {
      e := Effect(nextEffect, id, k.owner.logical, k.owner.instance, k.owner.generation, kind, IsRemote(k));
      nextEffect := nextEffect + 1;
      ring := ring + [e];
      while |ring| > MAX_EFFECTS
        invariant Keep(ring) == Keep(old(ring) + [e])
        invariant nextEffect == old(nextEffect) + 1
      {
        KeepRest(ring);
        ring := ring[1..];
      }
    }

    method EffectsFor(logical: Option<Name>) returns (v: seq<Effect>)
      ensures v == Selected(ring, logical)
      ensures forall e :: e in v <==> e in ring && (logical.None? || e.logical == logical.value)
      ensures InOrder(ring) ==> InOrder(v)
    {
      SelectedMembers(ring, logical);
      if InOrder(ring) { SelectedInOrder(ring, logical); }
      hide InOrder;
      v := [];
      for i := 0 to |ring|
        invariant v == Selected(ring[..i], logical)
      {
        assert ring[..i + 1][..i] == ring[..i];
        if logical.None? || ring[i].logical == logical.value {
          v := v + [ring[i]];
        }
      }
      assert ring[..|ring|] == ring;
    }
  }

  function Selected(v: seq<Effect>, logical: Option<Name>): seq<Effect> {
    if v == [] then []
    else
      var last := v[|v| - 1];
      Selected(v[..|v| - 1], logical) + (if logical.None? || last.logical == logical.value then [last] else [])
  }

  ghost predicate InOrder(v: seq<Effect>) {
    forall i, j :: 0 <= i < j < |v| ==> v[i].seqno < v[j].seqno
  }

  lemma {:induction false} SelectedMembers(v: seq<Effect>, logical: Option<Name>)
    ensures forall e :: e in Selected(v, logical) <==> e in v && (logical.None? || e.logical == logical.value)
  {
    if v != [] {
      SelectedMembers(v[..|v| - 1], logical);
      assert v == v[..|v| - 1] + [v[|v| - 1]];
    }
  }

  lemma {:induction false} SelectedInOrder(v: seq<Effect>, logical: Option<Name>)
    requires InOrder(v)
    ensures InOrder(Selected(v, logical))
  {
    if v != [] {
      var n := |v| - 1;
      SelectedInOrder(v[..n], logical);
      SelectedMembers(v[..n], logical);
      forall e | e in Selected(v[..n], logical) ensures e.seqno < v[n].seqno {
        var i :| 0 <= i < n && v[..n][i] == e;
      }
    }
  }

  class EffectKernel {
    const contexts: ContextTable
    const calls: CallsTable
    const ledger: Ledger
    ghost var history: seq<Effect>

    ghost function View(): State
      reads this, contexts, calls, ledger
    {
      State(contexts.View(), calls.tickets, calls.next, ledger.nextEffect, ledger.ring, history)
    }

    constructor ()
      ensures View() == INIT && Inv(View())
    {
      contexts := new ContextTable();
      ledger := new Ledger();
      calls := new CallsTable();
      history := [];
      new;
      InitOk();
    }

    method CheckLocal(k: Ticket, v: Sight) returns (verdict: Verdict)
      ensures verdict == JudgeLocal(contexts.View(), k, v)
      ensures TableOk(contexts.View()) ==>
        (verdict.Granted? <==>
          && OwnerStands(contexts.View(), k, v)
          && var owner := contexts.byInstance[k.owner.instance].state;
             owner == Active || (owner == Quiescing && InDrain(k, v)))
    {
      if TableOk(contexts.View()) { LocalMeans(contexts.View(), k, v); }
      hide TableOk, OwnerStands;
      if k.owner.epoch != v.epoch || k.owner.instance !in contexts.byInstance {
        return Refused(StaleGeneration);
      }
      var owner := contexts.byInstance[k.owner.instance];
      if owner.logical != k.owner.logical || owner.generation != k.owner.generation {
        return Refused(StaleGeneration);
      }
      if k.owner.logical in contexts.current && contexts.current[k.owner.logical] in contexts.byInstance
         && contexts.byInstance[contexts.current[k.owner.logical]].instance != k.owner.instance {
        return Refused(StaleGeneration);
      }
      match owner.state {
        case Active => return Granted;
        case Quiescing =>
          return if k.drains && k.deadline.Some? && v.now <= k.deadline.value then Granted else Refused(WasCancelled);
        case _ => return Refused(NotActive);
      }
    }

    method CommitEffect(id: nat, kind: string, v: Sight) returns (verdict: Verdict)
      requires Inv(View())
      modifies this, calls, ledger
      ensures (View(), verdict) == Commit(old(View()), id, kind, v)
      ensures Inv(View())
      ensures verdict.Granted? <==> MayCommit(old(View()), id, v)
      ensures verdict.Granted? ==>
        && id in old(calls.tickets)
        && var k := old(calls.tickets)[id];
           && calls.tickets == old(calls.tickets)[id := k.(state := Committed)]
           && history == old(history) + [Effect(old(ledger.nextEffect), id, k.owner.logical, k.owner.instance,
                                                k.owner.generation, kind, k.dep.Some? && k.dep.value.remote)]
      ensures verdict.Refused? ==>
        && Tells(old(View()), id, v, verdict.why) && history == old(history)
        && calls.tickets == if verdict.why == DeadlineExceeded && old(calls.tickets)[id].state == Admitted
                            then old(calls.tickets)[id := old(calls.tickets)[id].(state := Expired)]
                            else old(calls.tickets)
    {
      hide Inv, JudgeLocal, MayCommit, Tells;
      InvTable(View());
      CommitMeans(View(), id, kind, v);
      StepOk(View(), Step.CommitEffect(id, kind, v));
      if id !in calls.tickets {
        return Refused(UnknownTicket);
      }
      var k := calls.tickets[id];
      match k.state {
        case Committed => return Refused(AlreadyCommitted);
        case Cancelled => return Refused(WasCancelled);
        case Expired => return Refused(DeadlineExceeded);
        case Admitted =>
      }
      if k.dep.Some? {
        if k.deadline.Some? && v.now >= k.deadline.value {
          var _ := calls.SetState(id, Expired);
          return Refused(DeadlineExceeded);
        }
        if !v.chain {
          return Refused(ChainBroken);
        }
      }
      if IsRemote(k) {
        if !v.remote {
          return Refused(StaleGeneration);
        }
      } else {
        verdict := CheckLocal(k, v);
        if verdict.Refused? {
          return verdict;
        }
      }
      var e := ledger.PushEffect(id, k, kind);
      history := history + [e];
      var _ := calls.SetState(id, Committed);
      return Granted;
    }
  }
}

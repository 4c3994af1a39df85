/** The context table: one record per activation ever created, the current
    activation of each logical id, and a generation counter per logical id. */
module Contexts {
  import opened Names

  datatype Fsm = Registered | Waiting | Preparing | Active | Quiescing | CleanupPending | Disposed | Failed

  /** States in which an activation has not started yet. */
  predicate Pending(s: Fsm) {
    s == Registered || s == Waiting || s == Preparing
  }

  /** States reached only by leaving service; nothing leads back from here. */
  predicate Withdrawn(s: Fsm) {
    s == Quiescing || s == CleanupPending || s == Disposed || s == Failed
  }

  datatype Record = Record(context: nat, instance: nat, logical: Name, generation: nat,
                           state: Fsm, cause: Option<string>)

  datatype Table = Table(nextInstance: nat, nextContext: nat, byInstance: map<nat, Record>,
                         current: map<Name, nat>, generations: map<Name, nat>)

  datatype Claim = Fresh | InFlight | AlreadyDisposed | UnknownInstance

  const EMPTY := Table(1, 1, map[], map[], map[])

  function Generation(t: Table, l: Name): nat {
    if l in t.generations then t.generations[l] else 0
  }

  function Current(t: Table, l: Name): Option<Record> {
    if l in t.current && t.current[l] in t.byInstance then Some(t.byInstance[t.current[l]]) else None
  }

  function CurrentAll(t: Table): map<Name, Record> {
    map l | l in t.current && t.current[l] in t.byInstance :: t.byInstance[t.current[l]]
  }

  function NewRecord(t: Table, l: Name, s: Fsm, cause: Option<string>): Record {
    Record(t.nextContext, t.nextInstance, l, Generation(t, l) + 1, s, cause)
  }

  function CreateIn(t: Table, l: Name, s: Fsm, cause: Option<string>): Table {
    Table(t.nextInstance + 1, t.nextContext + 1,
          t.byInstance[t.nextInstance := NewRecord(t, l, s, cause)],
          t.current[l := t.nextInstance],
          t.generations[l := Generation(t, l) + 1])
  }

  function SetState(t: Table, inst: nat, s: Fsm, cause: Option<string>): Table {
    if inst in t.byInstance
    then t.(byInstance := t.byInstance[inst := t.byInstance[inst].(state := s, cause := cause)])
    else t
  }

  /** Of all callers disposing one activation, the one that finds it in service
      moves it to `Quiescing`; the others see a dispose in flight or finished. */
  function ClaimDispose(t: Table, inst: nat): (Table, Claim) {
    if inst !in t.byInstance then (t, UnknownInstance)
    else match t.byInstance[inst].state
      case Disposed => (t, AlreadyDisposed)
      case Failed => (t, AlreadyDisposed)
      case Quiescing => (t, InFlight)
      case CleanupPending => (t, InFlight)
      case _ => (SetState(t, inst, Quiescing, None), Fresh)
  }

  function MarkActive(t: Table, inst: nat): (Table, bool) {
    if inst !in t.byInstance then (t, false)
    else if Pending(t.byInstance[inst].state) then (SetState(t, inst, Active, None), true)
    else (t, t.byInstance[inst].state == Active)
  }

  function MarkWaiting(t: Table, inst: nat, cause: string): (Table, bool) {
    if inst in t.byInstance && Pending(t.byInstance[inst].state)
    then (SetState(t, inst, Waiting, Some(cause)), true)
    else (t, false)
  }

  // ---- invariant of one table, relation between an earlier and a later one ----

  ghost predicate RecordOk(t: Table, i: nat) {
    i in t.byInstance ==>
      var r := t.byInstance[i];
      && r.instance == i < t.nextInstance && r.context < t.nextContext
      && r.logical in t.current && r.generation <= Generation(t, r.logical)
      && r.state != Registered && r.state != Preparing
      && (r.state == Active ==> t.current[r.logical] == i)
  }

  ghost predicate CurrentOk(t: Table, l: Name) {
    l in t.current ==>
      && t.current[l] in t.byInstance && t.byInstance[t.current[l]].logical == l
      && t.byInstance[t.current[l]].generation == Generation(t, l)
  }

  /** Later activations of a logical id carry higher instance ids, context ids
      and generations, so no id is ever shared. */
  ghost predicate Increasing(t: Table) {
    forall i, j :: i in t.byInstance && j in t.byInstance && i < j ==>
      && t.byInstance[i].context < t.byInstance[j].context
      && (t.byInstance[i].logical == t.byInstance[j].logical ==>
            t.byInstance[i].generation < t.byInstance[j].generation)
  }

  ghost predicate TableOk(t: Table) {
    && (forall i :: RecordOk(t, i))
    && (forall l :: CurrentOk(t, l))
    && Increasing(t)
  }

  /** At most one activation of a logical id is Active; it is the current one and
      has the highest generation. */
  lemma OneActive(t: Table, i: nat)
    requires TableOk(t) && i in t.byInstance && t.byInstance[i].state == Active
    ensures Current(t, t.byInstance[i].logical) == Some(t.byInstance[i])
    ensures forall j :: j in t.byInstance && t.byInstance[j].logical == t.byInstance[i].logical && j != i ==>
              t.byInstance[j].state != Active && t.byInstance[j].generation < t.byInstance[i].generation
  {
    var l := t.byInstance[i].logical;
    assert RecordOk(t, i) && CurrentOk(t, l);
    forall j | j in t.byInstance && t.byInstance[j].logical == l && j != i
      ensures t.byInstance[j].state != Active && t.byInstance[j].generation < t.byInstance[i].generation
    {
      assert RecordOk(t, j);
    }
  }

  ghost predicate RecordLater(a: Record, b: Record) {
    && b == a.(state := b.state, cause := b.cause)
    && (Withdrawn(a.state) ==> Withdrawn(b.state))
    && (a.state == Active ==> b.state == Active || Withdrawn(b.state))
  }

  /** `b` can follow `a`: every activation is still there under its identity, none
      came back from a withdrawn state, and new ones use unused ids. */
  ghost predicate Later(a: Table, b: Table) {
    && a.nextInstance <= b.nextInstance && a.nextContext <= b.nextContext
    && (forall i :: i in a.byInstance ==> i in b.byInstance && RecordLater(a.byInstance[i], b.byInstance[i]))
    && (forall i :: i in b.byInstance && i !in a.byInstance ==>
          i >= a.nextInstance && b.byInstance[i].context >= a.nextContext)
    && (forall l :: Generation(a, l) <= Generation(b, l))
  }

  lemma LaterTransitive(a: Table, b: Table, c: Table)
    requires Later(a, b) && Later(b, c)
    ensures Later(a, c)
  {
  }

  ghost predicate ReplacesIdle(t: Table, l: Name, s: Fsm) {
    && (s == Active || s == Waiting)
    && (Current(t, l).Some? ==> Current(t, l).value.state != Active)
  }

  lemma CreateInRecord(t: Table, l: Name, s: Fsm, cause: Option<string>, i: nat)
    requires TableOk(t) && ReplacesIdle(t, l, s)
    ensures RecordOk(CreateIn(t, l, s, cause), i)
  {
    assert RecordOk(t, i) && CurrentOk(t, l);
  }

  lemma CreateInCurrent(t: Table, l: Name, s: Fsm, cause: Option<string>, m: Name)
    requires TableOk(t)
    ensures CurrentOk(CreateIn(t, l, s, cause), m)
  {
    hide Increasing;
    assert CurrentOk(t, m);
    if m in t.current { assert RecordOk(t, t.current[m]); }
  }

  lemma CreateInIncreasing(t: Table, l: Name, s: Fsm, cause: Option<string>)
    requires TableOk(t)
    ensures Increasing(CreateIn(t, l, s, cause))
  {
    var u := CreateIn(t, l, s, cause);
    forall i, j | i in u.byInstance && j in u.byInstance && i < j
      ensures u.byInstance[i].context < u.byInstance[j].context
      ensures u.byInstance[i].logical == u.byInstance[j].logical ==>
        u.byInstance[i].generation < u.byInstance[j].generation
    {
      assert RecordOk(t, i) && RecordOk(t, j);
    }
  }

  lemma CreateInLater(t: Table, l: Name, s: Fsm, cause: Option<string>)
    requires TableOk(t)
    ensures Later(t, CreateIn(t, l, s, cause))
  {
    assert RecordOk(t, t.nextInstance);
  }

  lemma CreateInOk(t: Table, l: Name, s: Fsm, cause: Option<string>)
    requires TableOk(t) && ReplacesIdle(t, l, s)
    ensures TableOk(CreateIn(t, l, s, cause)) && Later(t, CreateIn(t, l, s, cause))
  {
    hide RecordOk, CurrentOk, ReplacesIdle, CreateIn, Increasing, Later;
    var u := CreateIn(t, l, s, cause);
    forall i ensures RecordOk(u, i) { CreateInRecord(t, l, s, cause, i); }
    forall m ensures CurrentOk(u, m) { CreateInCurrent(t, l, s, cause, m); }
    CreateInIncreasing(t, l, s, cause);
    CreateInLater(t, l, s, cause);
  }

  /** The state changes the table allows on a record that stays in place. */
  ghost predicate MayBecome(t: Table, inst: nat, s: Fsm, cause: Option<string>) {
    && inst in t.byInstance && s != Registered && s != Preparing
    && RecordLater(t.byInstance[inst], t.byInstance[inst].(state := s, cause := cause))
    && (s == Active ==> t.byInstance[inst].logical in t.current && t.current[t.byInstance[inst].logical] == inst)
  }

  lemma SetStateIncreasing(t: Table, inst: nat, s: Fsm, cause: Option<string>)
    requires Increasing(t)
    ensures Increasing(SetState(t, inst, s, cause))
  {
  }

  lemma SetStateRecord(t: Table, inst: nat, s: Fsm, cause: Option<string>, i: nat)
    requires RecordOk(t, i) && MayBecome(t, inst, s, cause)
    ensures RecordOk(SetState(t, inst, s, cause), i)
  {
  }

  lemma SetStateCurrent(t: Table, inst: nat, s: Fsm, cause: Option<string>, l: Name)
    requires CurrentOk(t, l) && MayBecome(t, inst, s, cause)
    ensures CurrentOk(SetState(t, inst, s, cause), l)
  {
  }

  lemma SetStateLater(t: Table, inst: nat, s: Fsm, cause: Option<string>)
    requires MayBecome(t, inst, s, cause)
    ensures Later(t, SetState(t, inst, s, cause))
  {
  }

  lemma SetStateOk(t: Table, inst: nat, s: Fsm, cause: Option<string>)
    requires TableOk(t) && MayBecome(t, inst, s, cause)
    ensures TableOk(SetState(t, inst, s, cause)) && Later(t, SetState(t, inst, s, cause))
  {
    hide RecordOk, CurrentOk, MayBecome, SetState, Increasing, Later;
    var u := SetState(t, inst, s, cause);
    forall i ensures RecordOk(u, i) { SetStateRecord(t, inst, s, cause, i); }
    forall l ensures CurrentOk(u, l) { SetStateCurrent(t, inst, s, cause, l); }
    SetStateIncreasing(t, inst, s, cause);
    SetStateLater(t, inst, s, cause);
  }

  lemma ClaimedRecord(t: Table, inst: nat)
    requires ClaimDispose(t, inst).1 == Fresh
    ensures inst in t.byInstance && inst in ClaimDispose(t, inst).0.byInstance
    ensures ClaimDispose(t, inst).0.byInstance[inst].logical == t.byInstance[inst].logical
  {}

  /** Once an activation has left service, its claim is never fresh again. */
  lemma FreshOnce(t: Table, u: Table, inst: nat)
    requires inst in t.byInstance && ClaimDispose(t, inst).1 == Fresh
    requires Later(ClaimDispose(t, inst).0, u)
    ensures ClaimDispose(u, inst).1 != Fresh
  {
    var claimed := ClaimDispose(t, inst).0;
    assert RecordLater(claimed.byInstance[inst], u.byInstance[inst]);
  }

  /** The table as the object the kernel updates. */
  class ContextTable {
    var nextInstance: nat
    var nextContext: nat
    var byInstance: map<nat, Record>
    var current: map<Name, nat>
    var generations: map<Name, nat>

    function View(): Table
      reads this
    {
      Table(nextInstance, nextContext, byInstance, current, generations)
    }

    constructor ()
      ensures View() == EMPTY && TableOk(View())
    {
      nextInstance, nextContext, byInstance, current, generations := 1, 1, map[], map[], map[];
    }

    method Create(l: Name, s: Fsm, cause: Option<string>) returns (r: Record)
      modifies this
      ensures View() == CreateIn(old(View()), l, s, cause)
      ensures r == NewRecord(old(View()), l, s, cause)
    {
      var gen := (if l in generations then generations[l] else 0) + 1;
      generations := generations[l := gen];
      r := Record(nextContext, nextInstance, l, gen, s, cause);
      nextInstance, nextContext := nextInstance + 1, nextContext + 1;
      byInstance := byInstance[r.instance := r];
      current := current[l := r.instance];
    }

    method Claim(inst: nat) returns (c: Claim)
      modifies this
      ensures (View(), c) == ClaimDispose(old(View()), inst)
      ensures c == UnknownInstance <==> inst !in old(byInstance)
      ensures inst in old(byInstance) ==>
        var was := old(byInstance)[inst];
        && (c == AlreadyDisposed <==> was.state == Disposed || was.state == Failed)
        && (c == InFlight <==> was.state == Quiescing || was.state == CleanupPending)
        && byInstance == (if c == Fresh then old(byInstance)[inst := was.(state := Quiescing, cause := None)]
                          else old(byInstance))
    {
      if inst !in byInstance { return UnknownInstance; }
      var r := byInstance[inst];
      match r.state {
        case Disposed => return AlreadyDisposed;
        case Failed => return AlreadyDisposed;
        case Quiescing => return InFlight;
        case CleanupPending => return InFlight;
        case _ =>
      }
      byInstance := byInstance[inst := r.(state := Quiescing, cause := None)];
      return Fresh;
    }

    method Mark(inst: nat, s: Fsm, cause: Option<string>)
      modifies this
      ensures View() == SetState(old(View()), inst, s, cause)
    {
      if inst in byInstance {
        byInstance := byInstance[inst := byInstance[inst].(state := s, cause := cause)];
      }
    }

    method Activate(inst: nat) returns (ok: bool)
      modifies this
      ensures (View(), ok) == MarkActive(old(View()), inst)
      ensures ok <==> inst in byInstance && byInstance[inst].state == Active
      ensures inst in old(byInstance) ==>
        var was := old(byInstance)[inst];
        byInstance == if was.state == Registered || was.state == Waiting || was.state == Preparing
                      then old(byInstance)[inst := was.(state := Active, cause := None)] else old(byInstance)
    {
      if inst !in byInstance { return false; }
      if Pending(byInstance[inst].state) {
        byInstance := byInstance[inst := byInstance[inst].(state := Active, cause := None)];
        return true;
      }
      return byInstance[inst].state == Active;
    }

    method Await(inst: nat, cause: string) returns (ok: bool)
      modifies this
      ensures (View(), ok) == MarkWaiting(old(View()), inst, cause)
      ensures ok ==> inst in byInstance && byInstance[inst].state == Waiting && byInstance[inst].cause == Some(cause)
      ensures inst in old(byInstance) ==>
        var was := old(byInstance)[inst].state;
        ok <==> was == Registered || was == Waiting || was == Preparing
    {
      ok := inst in byInstance && Pending(byInstance[inst].state);
      if ok {
        byInstance := byInstance[inst := byInstance[inst].(state := Waiting, cause := Some(cause))];
      }
    }
  }
}

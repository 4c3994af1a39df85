/** The kernel's lifecycle state and the transitions that the reconciler and the
    operator commands are made of, as functions of that state. */
module Kernel {
  import opened Names
  import opened Contexts
  import opened Bindings

  datatype Plugin = Plugin(state: Fsm, instance: nat, generation: nat,
                           bindings: seq<Binding>, waitCause: Option<string>)

  /** `busy` holds the activations that cannot be released yet, with the reason
      shown (calls in flight, or a resource refusing release). `claims` records
      every fresh dispose claim, oldest first. */
  datatype State = State(defs: Definitions, table: Table, plugins: map<Name, Plugin>,
                         busy: map<nat, string>, claims: seq<nat>)

  const INIT := State(map[], EMPTY, map[], map[], [])

  function States(k: State): map<Name, Record> {
    CurrentAll(k.table)
  }

  function SetPlugin(k: State, l: Name, inst: nat, s: Fsm): State {
    if l in k.plugins && k.plugins[l].instance == inst
    then k.(plugins := k.plugins[l := k.plugins[l].(state := s)])
    else k
  }

  /** `dispose_instance_inner` run to its end. */
  function Dispose(k: State, inst: nat): State {
    var (t, claim) := ClaimDispose(k.table, inst);
    if claim != Fresh then k
    else
      var l := t.byInstance[inst].logical;
      var final := if inst in k.busy then CleanupPending else Disposed;
      var cause := if inst in k.busy then Some(k.busy[inst]) else None;
      SetPlugin(k.(table := SetState(t, inst, final, cause), claims := k.claims + [inst]), l, inst, final)
  }

  function CreateWaiting(k: State, l: Name, reason: string): State {
    var r := NewRecord(k.table, l, Waiting, Some(reason));
    k.(table := CreateIn(k.table, l, Waiting, Some(reason)),
       plugins := k.plugins[l := Plugin(Waiting, r.instance, r.generation, [], Some(reason))])
  }

  function EnsureWaiting(k: State, l: Name, reason: string): (State, bool) {
    if l !in k.defs then (k, false)
    else match Current(k.table, l)
      case None => (CreateWaiting(k, l, reason), true)
      case Some(st) =>
        if Pending(st.state) then
          if st.cause == Some(reason) then
            if l in k.plugins && k.plugins[l].state == Waiting && k.plugins[l].waitCause == Some(reason) then (k, false)
            else (k.(plugins := k.plugins[l := Plugin(Waiting, st.instance, st.generation, [], Some(reason))]), true)
          else
            var k1 := k.(table := MarkWaiting(k.table, st.instance, reason).0);
            (if l in k.plugins
             then k1.(plugins := k.plugins[l := k.plugins[l].(state := Waiting, waitCause := Some(reason))])
             else k1, true)
        else if st.state == Disposed then (CreateWaiting(k, l, reason), true)
        else (k, false)
  }

  /** An activation in service is disposed and replaced by a waiting one in a new
      generation. */
  function Withdraw(k: State, l: Name, reason: string): (State, bool) {
    if l !in k.defs then (k, false)
    else match Current(k.table, l)
      case None => (CreateWaiting(k, l, reason), true)
      case Some(st) =>
        match st.state
        case Waiting => EnsureWaiting(k, l, reason)
        case Disposed => (CreateWaiting(k, l, reason), true)
        case Active => (CreateWaiting(Dispose(k, st.instance), l, reason), true)
        case Preparing => (CreateWaiting(Dispose(k, st.instance), l, reason), true)
        case Registered => (CreateWaiting(Dispose(k, st.instance), l, reason), true)
        case _ => (k, false)
  }

  function Promote(k: State, l: Name): (State, bool) {
    match Current(k.table, l)
    case None => (k, false)
    case Some(st) =>
      if !Pending(st.state) then (k, false)
      else match Resolve(k.defs, States(k), l)
        case Err(e) => (EnsureWaiting(k, l, Render(e)).0, false)
        case Ok(bs) =>
          if l in k.plugins && k.plugins[l].instance == st.instance then
            var (t, ok) := MarkActive(k.table, st.instance);
            (k.(table := t,
                plugins := k.plugins[l := k.plugins[l].(state := Active, bindings := bs, waitCause := None)]), ok)
          else (k, false)
  }

  function CreateActive(k: State, l: Name, bs: seq<Binding>): State {
    var r := NewRecord(k.table, l, Active, None);
    k.(table := CreateIn(k.table, l, Active, None),
       plugins := k.plugins[l := Plugin(Active, r.instance, r.generation, bs, None)])
  }

  // ---- one reconciler pass ----

  function StoredBindings(k: State, l: Name): seq<Binding> {
    if l in k.plugins then k.plugins[l].bindings else []
  }

  const REBIND := "stale-binding: provider replaced; rebinding"

  predicate IsActive(states: map<Name, Record>, l: Name) {
    l in states && states[l].state == Active
  }

  /** An Active definition that has lost a provider or whose bindings name a
      replaced activation. */
  predicate Unsound(k: State, states: map<Name, Record>, l: Name) {
    && l in k.defs && IsActive(states, l)
    && (Resolve(k.defs, states, l).Err? || Stale(StoredBindings(k, l), states))
  }

  function WithdrawOne(k: State, states: map<Name, Record>, l: Name): (State, bool) {
    if Unsound(k, states, l) then
      var reason := match Resolve(k.defs, states, l) case Err(e) => Render(e) case Ok(_) => REBIND;
      Withdraw(k, l, reason)
    else (k, false)
  }

  /** Consumers first: the last `i` positions of the order have been handled. */
  function WithdrawAll(k: State, states: map<Name, Record>, order: seq<Name>, i: nat): (State, bool)
    requires i <= |order|
    decreases i
  {
    if i == 0 then (k, false)
    else
      var (k1, c1) := WithdrawOne(k, states, order[i - 1]);
      var (k2, c2) := WithdrawAll(k1, states, order, i - 1);
      (k2, c1 || c2)
  }

  function ActivateOne(k: State, states: map<Name, Record>, l: Name): (State, bool) {
    if l !in k.defs then (k, false)
    else if IsActive(states, l) then
      if Stale(StoredBindings(k, l), states) then Withdraw(k, l, REBIND) else (k, false)
    else if l in states && (states[l].state == Failed || states[l].state == CleanupPending
                          || states[l].state == Quiescing)
      then (k, false)
    else match Resolve(k.defs, states, l)
      case Err(e) => EnsureWaiting(k, l, Render(e))
      case Ok(bs) =>
        if l in states && Pending(states[l].state) then Promote(k, l)
        else (CreateActive(k, l, bs), true)
  }

  /** Providers first: the pass ends at the first definition it changes. */
  function ActivateFrom(k: State, states: map<Name, Record>, order: seq<Name>, i: nat): (State, bool)
    requires i <= |order|
    decreases |order| - i
  {
    if i == |order| then (k, false)
    else
      var (k1, c) := ActivateOne(k, states, order[i]);
      if c then (k1, true) else ActivateFrom(k1, states, order, i + 1)
  }

  /** A pass over an acyclic definition set. */
  function OrderedPass(k: State, order: seq<Name>): (State, bool) {
    var (k1, withdrew) := WithdrawAll(k, States(k), order, |order|);
    if withdrew then (k1, true) else ActivateFrom(k1, States(k1), order, 0)
  }

  /** A pass that found a cycle: its members wait, showing the path. */
  function CyclePass(k: State, members: seq<Name>, reason: string): (State, bool)
    decreases |members|
  {
    if members == [] then (k, false)
    else
      var (k1, c1) := Withdraw(k, members[0], reason);
      var (k2, c2) := CyclePass(k1, members[1..], reason);
      (k2, c1 || c2)
  }

  // ---- operator commands and faults, up to the reconcile they end with ----

  /** The definition is replaced and the activation in service goes. */
  function Redefine(k: State, l: Name, def: Definition): State {
    var k0 := k.(defs := k.defs[l := def]);
    var cur := Current(k0.table, l);
    if cur.Some? && cur.value.state != Disposed && cur.value.state != Failed && cur.value.state != CleanupPending
    then Dispose(k0, cur.value.instance) else k0
  }

  function Load(k: State, l: Name, def: Definition): State {
    var k1 := Redefine(k, l, def);
    var now := Current(k1.table, l);
    if now.Some? && now.value.state == CleanupPending then CreateWaiting(k1, l, "reload: awaiting activation") else k1
  }

  function Remove(k: State, l: Name): State {
    var k0 := k.(defs := k.defs - {l});
    var cur := Current(k0.table, l);
    if cur.Some? then Dispose(k0, cur.value.instance) else k0
  }

  /** A parked activation whose last call ended and whose resources released. */
  function Finalize(k: State, inst: nat): State {
    if inst in k.table.byInstance && k.table.byInstance[inst].state == CleanupPending && inst !in k.busy then
      SetPlugin(k.(table := SetState(k.table, inst, Disposed, None)), k.table.byInstance[inst].logical, inst, Disposed)
    else k
  }

  /** The fault budget of a logical id is exhausted. */
  function Fail(k: State, l: Name, cause: string): State {
    var cur := Current(k.table, l);
    if l in k.plugins && cur.Some? then
      k.(table := SetState(k.table, cur.value.instance, Failed, Some(cause)),
         plugins := k.plugins[l := k.plugins[l].(state := Failed)])
    else k
  }
}

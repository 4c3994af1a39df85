/** Acquisitions against one activation while it is disposed, interleaved lock by lock:
    check, register, publish, revalidate and undo on one side; claim, revoke, release and
    mark on the other; releases and other activations' work in between. */
module Acquiring {
  import opened Names
  import opened Resources

  datatype Phase = Active | Quiescing | CleanupPending | Disposed

  /** Where a caller stands: acquiring, or between claiming a release and withdrawing
      the publication (`Dropping`). */
  datatype Caller =
    | Checked(kind: Kind)
    | Registered(h: nat, kind: Kind)
    | Announced(h: nat, kind: Kind)
    | Withdrawing(h: nat, kind: Kind)
    | RollingBack(h: nat)
    | Dropping(kind: Kind)
    | Finished

  /** Where the dispose, or the finalization after it, stands. */
  datatype Disposer =
    | Idle
    | Begun
    | Revoking(hs: seq<nat>, i: nat)
    | Judging
    | ToSweep
    | Sweeping(hs: seq<nat>, i: nat, failed: bool)
    | Forgetting(hs: seq<nat>, i: nat, failed: bool, kind: Kind)
    | Settled

  /** `shown` are the capabilities and subscriptions published under this activation;
      `current` tells whether it is still the current one of its logical id. */
  datatype State = State(ctx: nat, inst: nat, phase: Phase, current: bool, store: Store, shown: set<Kind>,
                         callers: map<nat, Caller>, disposer: Disposer)

  datatype Step =
    | Check(o: nat, kind: Kind)
    | Register(o: nat, spawned: bool)
    | Publish(o: nat)
    | Revalidate(o: nat)
    | Retract(o: nat)
    | TakeBack(o: nat)
    | Drop(o: nat, h: nat)
    | Forget(o: nat)
    | Replaced(kind: Kind)
    | Elsewhere(ctx: nat, inst: nat, kind: Kind, spawned: bool)
    | Supersede
    | Claim
    | Snapshot
    | RevokeOne
    | Judge(inFlight: bool)
    | SnapshotAgain
    | SweepOne
    | SweepForget
    | SweepEnd
    | Finalize

  /** An activation in service with what its definition acquired: each thing it shows
      has a record. */
  ghost predicate Init(s: State) {
    && s.phase == Active && s.callers == map[] && s.disposer == Idle && StoreOk(s.store)
    && forall k :: k in s.shown ==> exists h :: Held(s.store, h, s.ctx) && s.store.records[h].kind == k
  }

  predicate At(s: State, o: nat) {
    o in s.callers
  }

  predicate Enabled(s: State, step: Step) {
    match step
    case Check(o, _) => !At(s, o) && s.phase == Active && s.current
    case Register(o, _) => At(s, o) && s.callers[o].Checked?
    case Publish(o) => At(s, o) && s.callers[o].Registered?
    case Revalidate(o) => At(s, o) && s.callers[o].Announced?
    case Retract(o) => At(s, o) && s.callers[o].Withdrawing?
    case TakeBack(o) => At(s, o) && s.callers[o].RollingBack?
    case Drop(o, _) => !At(s, o)
    case Forget(o) => At(s, o) && s.callers[o].Dropping?
    case Replaced(_) => true
    case Elsewhere(ctx, _, _, _) => ctx != s.ctx
    case Supersede => true
    case Claim => s.disposer == Idle && s.phase == Active
    case Snapshot => s.disposer == Begun
    case RevokeOne => s.disposer.Revoking?
    case Judge(_) => s.disposer == Judging
    case SnapshotAgain => s.disposer == ToSweep
    case SweepOne => s.disposer.Sweeping? && 0 < s.disposer.i <= |s.disposer.hs|
    case SweepForget => s.disposer.Forgetting?
    case SweepEnd => s.disposer.Sweeping? && s.disposer.i == 0
    case Finalize => s.disposer == Settled && s.phase == CleanupPending
  }

  function To(s: State, o: nat, c: Caller): State {
    s.(callers := s.callers[o := c])
  }

  function Showing(k: Kind): set<Kind> {
    if k.Cap? || k.Sub? then {k} else {}
  }

  function Next(s: State, step: Step): State
    requires Enabled(s, step)
  {
    match step
    case Check(o, k) => To(s, o, Checked(k))
    case Register(o, spawned) =>
      var k := s.callers[o].kind;
      var (t, h) := RegisterIn(s.store, s.ctx, s.inst, k, spawned);
      To(s, o, if h.Some? then Registered(h.value, k) else Finished).(store := t)
    case Publish(o) =>
      var Registered(h, k) := s.callers[o];
      To(s, o, Announced(h, k)).(shown := s.shown + Showing(k))
    case Revalidate(o) =>
      var Announced(h, k) := s.callers[o];
      To(s, o, if s.phase == Active && s.current then Finished else Withdrawing(h, k))
    case Retract(o) =>
      var Withdrawing(h, k) := s.callers[o];
      To(s, o, RollingBack(h)).(shown := s.shown - {k})
    case TakeBack(o) => To(s, o, Finished).(store := Rollback(s.store, s.callers[o].h))
    case Drop(o, h) =>
      var (t, r) := ReleaseIn(s.store, h);
      To(s, o, if r.Claimed? && r.context == s.ctx then Dropping(r.kind) else Finished).(store := t)
    case Forget(o) => To(s, o, Finished).(shown := s.shown - {s.callers[o].kind})
    case Replaced(k) => s.(shown := s.shown - {k})
    case Elsewhere(ctx, inst, k, spawned) => s.(store := RegisterIn(s.store, ctx, inst, k, spawned).0)
    case Supersede => s.(current := false)
    case Claim => s.(phase := Quiescing, disposer := Begun)
    case Snapshot => s.(disposer := Revoking(Handles(s.store, s.ctx), 0))
    case RevokeOne =>
      var Revoking(hs, i) := s.disposer;
      if i >= |hs| then s.(disposer := Judging)
      else if Held(s.store, hs[i], s.ctx) then
        s.(shown := s.shown - {s.store.records[hs[i]].kind}, disposer := Revoking(hs, i + 1))
      else s.(disposer := Revoking(hs, i + 1))
    case Judge(inFlight) =>
      if inFlight then s.(phase := CleanupPending, disposer := Settled) else s.(disposer := ToSweep)
    case SnapshotAgain =>
      var hs := Handles(s.store, s.ctx);
      s.(disposer := Sweeping(hs, |hs|, false))
    case SweepOne =>
      var Sweeping(hs, i, failed) := s.disposer;
      var h := hs[i - 1];
      if Held(s.store, h, s.ctx) && !s.store.records[h].released then
        var (t, r) := ReleaseIn(s.store, h);
        s.(store := t,
           disposer := if r.Claimed? then Forgetting(hs, i - 1, failed, r.kind) else Sweeping(hs, i - 1, true))
      else s.(disposer := Sweeping(hs, i - 1, failed))
    case SweepForget =>
      var Forgetting(hs, i, failed, k) := s.disposer;
      s.(shown := s.shown - {k}, disposer := Sweeping(hs, i, failed))
    case SweepEnd => s.(phase := if s.disposer.failed then CleanupPending else Disposed, disposer := Settled)
    case Finalize => s.(disposer := ToSweep)
  }

  ghost predicate Path(ss: seq<State>, steps: seq<Step>) {
    && |ss| == |steps| + 1
    && forall i :: 0 <= i < |steps| ==> Enabled(ss[i], steps[i]) && ss[i + 1] == Next(ss[i], steps[i])
  }

  ghost predicate Run(ss: seq<State>, steps: seq<Step>) {
    Path(ss, steps) && Init(ss[0])
  }

  // ---- what the callers own ----

  /** The caller holds a record it will either keep by revalidating or take back. */
  predicate Owns(c: Caller, h: nat) {
    (c.Registered? || c.Announced? || c.Withdrawing? || c.RollingBack?) && c.h == h
  }

  /** The caller has published this kind and has not retracted it. */
  predicate Presents(c: Caller, k: Kind) {
    (c.Announced? || c.Withdrawing?) && c.kind == k
  }

  ghost predicate Owned(s: State, h: nat) {
    exists o :: At(s, o) && Owns(s.callers[o], h)
  }

  ghost predicate Presented(s: State, k: Kind) {
    exists o :: At(s, o) && Presents(s.callers[o], k)
  }

  /** A record of this activation and kind that nobody is about to take back. */
  ghost predicate Supports(s: State, h: nat, k: Kind) {
    && Held(s.store, h, s.ctx) && s.store.records[h].kind == k
    && forall o :: At(s, o) ==> s.callers[o] != RollingBack(h)
  }

  /** A caller's record is its own, is there while it has not been taken back, and is of
      the kind it asked for. */
  ghost predicate CallerOk(s: State, o: nat) {
    At(s, o) ==>
      var c := s.callers[o];
      && (c.Registered? || c.Announced? || c.Withdrawing? ==>
            Held(s.store, c.h, s.ctx) && s.store.records[c.h].kind == c.kind)
      && (forall h: nat :: Owns(c, h) ==> h < s.store.next)
      && (forall p, h: nat :: p != o && At(s, p) && Owns(c, h) ==> !Owns(s.callers[p], h))
  }

  predicate PhaseOk(s: State) {
    && (s.phase == Active <==> s.disposer == Idle)
    && (s.phase == Disposed ==> s.disposer == Settled)
    && (s.disposer.Forgetting? || s.disposer.Sweeping? ==> s.disposer.i <= |s.disposer.hs|)
    && (s.disposer.Revoking? ==> s.disposer.i <= |s.disposer.hs|)
  }

  /** Everything shown is accounted for: before the dispose looks, by a record it will
      find; while it revokes, by a record it has not reached or a caller about to
      retract; afterwards by such a caller alone. */
  ghost predicate ShownOk(s: State, k: Kind)
    requires PhaseOk(s)
  {
    k in s.shown ==>
      match s.disposer
      case Idle => exists h :: Supports(s, h, k)
      case Begun => exists h :: Supports(s, h, k)
      case Revoking(hs, i) => Presented(s, k) || exists h :: h in hs[i..] && Supports(s, h, k)
      case _ => Presented(s, k)
  }

  /** Everything held is accounted for while the dispose releases: by a handle it has
      not reached, by a caller about to take it back, or by a refusal. */
  ghost predicate HeldOk(s: State, h: nat)
    requires PhaseOk(s)
  {
    Held(s.store, h, s.ctx) && !s.store.records[h].released ==>
      match s.disposer
      case Sweeping(hs, i, failed) => failed || h in hs[..i] || Owned(s, h)
      case Forgetting(hs, i, failed, _) => failed || h in hs[..i] || Owned(s, h)
      case _ => s.phase == Disposed ==> Owned(s, h)
  }

  ghost predicate Inv(s: State) {
    && PhaseOk(s) && StoreOk(s.store)
    && (forall o :: CallerOk(s, o))
    && (forall k :: ShownOk(s, k))
    && (forall h :: HeldOk(s, h))
  }

  // ---- what one step keeps ----

  lemma StoreStep(s: State, step: Step)
    requires StoreOk(s.store) && Enabled(s, step)
    ensures StoreOk(Next(s, step).store)
  {
    hide StoreOk, RegisterIn, Rollback, ReleaseIn;
    match step
    case Register(o, spawned) => RegisterOk(s.store, s.ctx, s.inst, s.callers[o].kind, spawned);
    case TakeBack(o) => RollbackOk(s.store, s.callers[o].h);
    case Drop(_, h) => BeginReleaseOk(s.store, h);
    case Elsewhere(ctx, inst, k, spawned) => RegisterOk(s.store, ctx, inst, k, spawned);
    case SweepOne => BeginReleaseOk(s.store, s.disposer.hs[s.disposer.i - 1]);
    case _ =>
  }

  lemma PhaseStep(s: State, step: Step)
    requires PhaseOk(s) && Enabled(s, step)
    ensures PhaseOk(Next(s, step))
  {
    hide RegisterIn, Rollback, ReleaseIn;
  }

  /** The handle a step takes out of the table, if it was not released. */
  function TakenBack(s: State, step: Step): Option<nat> {
    if step.TakeBack? && At(s, step.o) && s.callers[step.o].RollingBack? then Some(s.callers[step.o].h) else None
  }

  /** A step keeps the activation's records and their kinds, except the one taken back,
      and adds at most the next handle. Releases are never undone. */
  lemma RecordsStep(s: State, step: Step, h: nat)
    requires StoreOk(s.store) && Enabled(s, step)
    ensures var t := Next(s, step);
      && t.ctx == s.ctx && s.store.next <= t.store.next
      && (Held(s.store, h, s.ctx) && TakenBack(s, step) != Some(h) ==>
            && Held(t.store, h, s.ctx) && t.store.records[h].kind == s.store.records[h].kind
            && (s.store.records[h].released ==> t.store.records[h].released))
      && (TakenBack(s, step) == Some(h) && Held(t.store, h, s.ctx) ==> t.store.records[h].released)
      && (Held(t.store, h, s.ctx) && !Held(s.store, h, s.ctx) ==>
            step.Register? && h == s.store.next && t.callers[step.o] == Registered(h, s.callers[step.o].kind))
  {
    hide StoreOk, RegisterIn, Handles;
    match step
    case Register(o, spawned) =>
      RegisterFrame(s.store, s.ctx, s.inst, s.callers[o].kind, spawned);
      var (t, got) := RegisterIn(s.store, s.ctx, s.inst, s.callers[o].kind, spawned);
      assert Next(s, step).store == t && (got.None? || got == Some(s.store.next));
    case Elsewhere(ctx, inst, k, spawned) => RegisterFrame(s.store, ctx, inst, k, spawned);
    case _ =>
  }

  /** The caller a step moves. */
  function Moved(step: Step): Option<nat> {
    match step
    case Check(o, _) => Some(o)
    case Register(o, _) => Some(o)
    case Publish(o) => Some(o)
    case Revalidate(o) => Some(o)
    case Retract(o) => Some(o)
    case TakeBack(o) => Some(o)
    case Drop(o, _) => Some(o)
    case Forget(o) => Some(o)
    case _ => None
  }

  lemma OthersStay(s: State, step: Step, o: nat)
    requires Enabled(s, step) && Moved(step) != Some(o)
    ensures At(Next(s, step), o) <==> At(s, o)
    ensures At(s, o) ==> Next(s, step).callers[o] == s.callers[o]
  {
    hide RegisterIn, Rollback, ReleaseIn;
  }

  /** What the moved caller owns and presents afterwards. */
  lemma MoverStep(s: State, step: Step, o: nat)
    requires Enabled(s, step) && Moved(step) == Some(o)
    ensures At(Next(s, step), o)
    ensures var c := Next(s, step).callers[o];
      && (forall h: nat :: Owns(c, h) ==>
            (At(s, o) && Owns(s.callers[o], h)) || (step.Register? && c == Registered(s.store.next, s.callers[o].kind)))
      && (c.Registered? || c.Announced? || c.Withdrawing? ==>
            At(s, o) && (s.callers[o].Registered? || s.callers[o].Announced? || step.Register?)
            && (s.callers[o].Registered? || s.callers[o].Announced? ==>
                  s.callers[o].h == c.h && s.callers[o].kind == c.kind))
      && (step.Register? ==> c.Registered? || c.Finished?)
      && (c.RollingBack? ==> step.Retract? && s.callers[o].Withdrawing? && s.callers[o].h == c.h)
  {
    hide Rollback, ReleaseIn;
  }

  lemma CallerStep(s: State, step: Step, o: nat)
    requires PhaseOk(s) && StoreOk(s.store) && (forall p :: CallerOk(s, p)) && Enabled(s, step)
    ensures CallerOk(Next(s, step), o)
  {
    hide StoreOk, Next, Enabled;
    var t := Next(s, step);
    if At(t, o) {
      var c := t.callers[o];
      assert CallerOk(s, o);
      if Moved(step) == Some(o) { MoverStep(s, step, o); } else { OthersStay(s, step, o); }
      RecordsStep(s, step, s.store.next);
      if c.Registered? && step.Register? && step.o == o { RegisterGives(s, step); }
      if c.Registered? || c.Announced? || c.Withdrawing? {
        RecordsStep(s, step, c.h);
        NotTakenBack(s, step, o);
      }
      forall p, h: nat | p != o && At(t, p) && Owns(c, h) ensures !Owns(t.callers[p], h) {
        assert CallerOk(s, p);
        if Moved(step) == Some(p) { MoverStep(s, step, p); } else { OthersStay(s, step, p); }
      }
    }
  }

  lemma RegisterGives(s: State, step: Step)
    requires StoreOk(s.store) && Enabled(s, step) && step.Register? && Next(s, step).callers[step.o].Registered?
    ensures var t := Next(s, step);
      var h := s.store.next;
      && t.callers[step.o] == Registered(h, s.callers[step.o].kind) && h < t.store.next
      && Held(t.store, h, s.ctx) && t.store.records[h].kind == s.callers[step.o].kind
  {
    hide StoreOk;
    RegisterFrame(s.store, s.ctx, s.inst, s.callers[step.o].kind, step.spawned);
  }

  /** Only its own caller takes a record back. */
  lemma NotTakenBack(s: State, step: Step, o: nat)
    requires Enabled(s, step) && CallerOk(s, o) && At(Next(s, step), o)
    requires var c := Next(s, step).callers[o]; c.Registered? || c.Announced? || c.Withdrawing?
    ensures TakenBack(s, step) != Some(Next(s, step).callers[o].h)
  {
    hide RegisterIn, Rollback, ReleaseIn;
    if step.TakeBack? && step.o != o { assert At(s, o) && Owns(s.callers[o], Next(s, step).callers[o].h); }
  }

  // ---- what is shown ----

  /** A record goes on supporting its kind, unless its caller retracts that kind. */
  lemma SupportKept(s: State, step: Step, h: nat, k: Kind)
    requires PhaseOk(s) && StoreOk(s.store) && (forall p :: CallerOk(s, p)) && Enabled(s, step)
    requires Supports(s, h, k) && k in Next(s, step).shown
    ensures Supports(Next(s, step), h, k)
  {
    hide StoreOk, RegisterIn, Rollback, ReleaseIn;
    RecordsStep(s, step, h);
    var t := Next(s, step);
    forall o | At(t, o) ensures t.callers[o] != RollingBack(h) {
      assert CallerOk(s, o);
      if Moved(step) == Some(o) { MoverStep(s, step, o); } else { OthersStay(s, step, o); }
    }
  }

  lemma PresentedKept(s: State, step: Step, k: Kind)
    requires Enabled(s, step) && s.phase != Active && Presented(s, k) && k in Next(s, step).shown
    ensures Presented(Next(s, step), k)
  {
    hide RegisterIn, Rollback, ReleaseIn;
    var t := Next(s, step);
    var o :| At(s, o) && Presents(s.callers[o], k);
    if Moved(step) != Some(o) { OthersStay(s, step, o); }
    assert At(t, o) && Presents(t.callers[o], k);
  }

  /** A kind newly shown is presented, and supported by its caller's own record. */
  lemma NewlyShown(s: State, step: Step, k: Kind)
    requires PhaseOk(s) && StoreOk(s.store) && (forall p :: CallerOk(s, p)) && Enabled(s, step)
    requires k in Next(s, step).shown && k !in s.shown
    ensures step.Publish? && Next(s, step).disposer == s.disposer && At(s, step.o) && s.callers[step.o].Registered?
    ensures Presented(Next(s, step), k) && Supports(Next(s, step), s.callers[step.o].h, k)
  {
    hide StoreOk, RegisterIn, Rollback, ReleaseIn;
    var t := Next(s, step);
    var o, h := step.o, s.callers[step.o].h;
    assert At(t, o) && Presents(t.callers[o], k);
    assert CallerOk(s, o) && Owns(s.callers[o], h);
    forall p | At(t, p) ensures t.callers[p] != RollingBack(h) {
      if p != o { assert At(s, p) && !Owns(s.callers[p], h); }
    }
  }

  predicate Revoked(d: Disposer) {
    !d.Idle? && !d.Begun? && !d.Revoking?
  }

  lemma DisposerMoves(s: State, step: Step)
    requires PhaseOk(s) && Enabled(s, step)
    ensures var t := Next(s, step);
      match s.disposer
      case Idle => t.disposer == Idle || t.disposer == Begun
      case Begun => t.disposer == Begun || t.disposer == Revoking(Handles(s.store, s.ctx), 0)
      case Revoking(hs, i) =>
        || t.disposer == s.disposer
        || (t.disposer == Judging && i == |hs|)
        || (&& i < |hs| && t.disposer == Revoking(hs, i + 1)
            && (Held(s.store, hs[i], s.ctx) ==> s.store.records[hs[i]].kind !in t.shown))
      case _ => Revoked(t.disposer)
  {
    hide RegisterIn, Rollback, ReleaseIn, Handles;
  }

  lemma ShownMoves(s: State, step: Step, k: Kind)
    requires PhaseOk(s) && StoreOk(s.store) && (forall p :: CallerOk(s, p)) && ShownOk(s, k) && Enabled(s, step)
    requires k in s.shown && k in Next(s, step).shown && PhaseOk(Next(s, step))
    ensures ShownOk(Next(s, step), k)
  {
    hide StoreOk, CallerOk, Next, Enabled, Presented, Handles;
    var t := Next(s, step);
    DisposerMoves(s, step);
    if Revoked(s.disposer) {
      PresentedKept(s, step, k);
    } else if s.disposer.Revoking? && Presented(s, k) {
      PresentedKept(s, step, k);
    } else if s.disposer.Revoking? {
      var Revoking(hs, i) := s.disposer;
      var h :| h in hs[i..] && Supports(s, h, k);
      SupportKept(s, step, h, k);
      assert hs[i..] == [hs[i]] + hs[i + 1..];
    } else {
      var h :| Supports(s, h, k);
      SupportKept(s, step, h, k);
      OwnerListed(s.store, s.ctx);
      assert Handles(s.store, s.ctx)[0..] == Handles(s.store, s.ctx);
    }
  }

  lemma ShownStep(s: State, step: Step, k: Kind)
    requires PhaseOk(s) && StoreOk(s.store) && (forall p :: CallerOk(s, p)) && ShownOk(s, k) && Enabled(s, step)
    requires PhaseOk(Next(s, step))
    ensures ShownOk(Next(s, step), k)
  {
    hide StoreOk, CallerOk, Next, Enabled, Supports, Presented;
    var t := Next(s, step);
    if k in t.shown && k in s.shown {
      ShownMoves(s, step, k);
    } else if k in t.shown {
      NewlyShown(s, step, k);
      assert Supports(t, s.callers[step.o].h, k) && Presented(t, k);
    }
  }

  // ---- what is held ----

  predicate Unreleased(s: State, h: nat) {
    Held(s.store, h, s.ctx) && !s.store.records[h].released
  }

  lemma OwnedKept(s: State, step: Step, h: nat)
    requires PhaseOk(s) && StoreOk(s.store) && (forall p :: CallerOk(s, p)) && Enabled(s, step)
    requires s.phase != Active && Owned(s, h) && Unreleased(Next(s, step), h)
    ensures Owned(Next(s, step), h)
  {
    hide StoreOk, RegisterIn, ReleaseIn;
    var t := Next(s, step);
    RecordsStep(s, step, h);
    var o :| At(s, o) && Owns(s.callers[o], h);
    if Moved(step) != Some(o) { OthersStay(s, step, o); }
    assert At(t, o) && Owns(t.callers[o], h);
  }

  /** A resource held after a step was held before, or its caller has just registered it. */
  lemma HeldBefore(s: State, step: Step, h: nat)
    requires StoreOk(s.store) && Enabled(s, step) && Unreleased(Next(s, step), h)
    ensures Unreleased(s, h) || (Owned(Next(s, step), h) && step.Register?)
  {
    hide StoreOk, RegisterIn, Rollback, ReleaseIn;
    RecordsStep(s, step, h);
    var t := Next(s, step);
    if !Held(s.store, h, s.ctx) { assert At(t, step.o) && Owns(t.callers[step.o], h); }
  }

  predicate Releasing(d: Disposer) {
    d.Sweeping? || d.Forgetting?
  }

  /** How a step moves the list still to be released, seen from a resource that is held
      before and after it. */
  lemma SweepMoves(s: State, step: Step, h: nat)
    requires PhaseOk(s) && StoreOk(s.store) && Enabled(s, step) && PhaseOk(Next(s, step))
    requires Unreleased(s, h) && Unreleased(Next(s, step), h)
    ensures var d, e := s.disposer, Next(s, step).disposer;
      && (Releasing(d) && Releasing(e) ==>
            e.failed || (!d.failed && (h in d.hs[..d.i] ==> h in e.hs[..e.i])))
      && (!Releasing(d) && Releasing(e) ==> h in e.hs[..e.i])
      && (!Releasing(e) && Next(s, step).phase == Disposed ==>
            s.phase == Disposed || (Releasing(d) && !d.failed && d.i == 0))
  {
    hide StoreOk, RegisterIn, Rollback, Handles;
    if step == SweepOne {
      hide Next;
      SweepOneMoves(s, h);
    } else {
      hide ReleaseIn;
      if step == SnapshotAgain {
        OwnerListed(s.store, s.ctx);
        var hs := Handles(s.store, s.ctx);
        assert hs[..|hs|] == hs;
      }
    }
  }

  lemma SweepOneMoves(s: State, h: nat)
    requires PhaseOk(s) && Enabled(s, SweepOne) && Unreleased(s, h) && Unreleased(Next(s, SweepOne), h)
    ensures var d, e := s.disposer, Next(s, SweepOne).disposer;
      && Releasing(e) && e.i == d.i - 1 && e.hs == d.hs && Next(s, SweepOne).phase == s.phase
      && (e.failed || (!d.failed && (h in d.hs[..d.i] ==> h in e.hs[..e.i])))
  {
    var Sweeping(hs, i, failed) := s.disposer;
    assert hs[..i] == hs[..i - 1] + [hs[i - 1]];
  }

  lemma SweepStep(s: State, step: Step, h: nat)
    requires PhaseOk(s) && StoreOk(s.store) && (forall p :: CallerOk(s, p)) && HeldOk(s, h) && Enabled(s, step)
    requires Unreleased(s, h) && Unreleased(Next(s, step), h) && PhaseOk(Next(s, step))
    ensures HeldOk(Next(s, step), h)
  {
    hide StoreOk, CallerOk, Next, Enabled, Owned;
    if s.phase != Active && Owned(s, h) { OwnedKept(s, step, h); }
    SweepMoves(s, step, h);
  }

  lemma HeldStep(s: State, step: Step, h: nat)
    requires PhaseOk(s) && StoreOk(s.store) && (forall p :: CallerOk(s, p)) && HeldOk(s, h) && Enabled(s, step)
    requires PhaseOk(Next(s, step))
    ensures HeldOk(Next(s, step), h)
  {
    hide StoreOk, CallerOk, Next, Enabled, Owned;
    if Unreleased(Next(s, step), h) {
      HeldBefore(s, step, h);
      if Unreleased(s, h) { SweepStep(s, step, h); }
    }
  }

  // ---- every run ----

  lemma InvStep(s: State, step: Step)
    requires Inv(s) && Enabled(s, step)
    ensures Inv(Next(s, step))
  {
    hide StoreOk, PhaseOk, CallerOk, ShownOk, HeldOk, Next, Enabled;
    PhaseStep(s, step);
    StoreStep(s, step);
    forall o ensures CallerOk(Next(s, step), o) { CallerStep(s, step, o); }
    forall k ensures ShownOk(Next(s, step), k) { ShownStep(s, step, k); }
    forall h ensures HeldOk(Next(s, step), h) { HeldStep(s, step, h); }
  }

  lemma InitOk(s: State)
    requires Init(s)
    ensures Inv(s)
  {
    hide StoreOk;
    forall k ensures ShownOk(s, k) {
      if k in s.shown {
        var h :| Held(s.store, h, s.ctx) && s.store.records[h].kind == k;
        assert Supports(s, h, k);
      }
    }
  }

  lemma {:induction false} AlwaysInv(ss: seq<State>, steps: seq<Step>, n: nat)
    requires Run(ss, steps) && n < |ss|
    ensures Inv(ss[n])
    decreases n
  {
    hide Inv, Enabled, Next;
    if n == 0 {
      InitOk(ss[0]);
    } else {
      AlwaysInv(ss, steps, n - 1);
      InvStep(ss[n - 1], steps[n - 1]);
    }
  }

  ghost predicate AllFinished(s: State) {
    forall o :: At(s, o) ==> s.callers[o] == Finished
  }

  /** In every interleaving of any number of acquisitions and releases with one dispose
      and its finalizations: once all callers have finished, an activation whose dispose
      has gone through its publications shows nothing, and a Disposed one holds nothing
      either. */
  lemma RaceLeavesNothing(ss: seq<State>, steps: seq<Step>, n: nat)
    requires Run(ss, steps) && n < |ss| && AllFinished(ss[n])
    ensures ss[n].disposer == Settled ==> ss[n].shown == {}
    ensures ss[n].phase == Disposed ==> ss[n].shown == {} && ActiveIn(ss[n].store, ss[n].ctx) == {}
  {
    hide Run, CallerOk, StoreOk;
    AlwaysInv(ss, steps, n);
    var s := ss[n];
    if s.disposer == Settled {
      forall k ensures k !in s.shown { assert ShownOk(s, k); }
    }
    if s.phase == Disposed {
      forall h ensures h !in ActiveIn(s.store, s.ctx) { assert HeldOk(s, h); }
    }
  }

  // ---- what a caller can count on ----

  predicate InService(s: State) {
    s.phase == Active && s.disposer == Idle
  }

  lemma ServiceStep(s: State, step: Step)
    requires Enabled(s, step) && (InService(s) || (s.phase != Active && s.disposer != Idle))
    ensures InService(Next(s, step)) <==> InService(s) && step != Claim
    ensures InService(Next(s, step)) || (Next(s, step).phase != Active && Next(s, step).disposer != Idle)
    ensures Next(s, step).current <==> s.current && step != Supersede
  {
    hide ReleaseIn, RegisterIn, Rollback, Handles;
  }

  lemma {:induction false} ServiceIff(ss: seq<State>, steps: seq<Step>, n: nat)
    requires Run(ss, steps) && n < |ss|
    ensures InService(ss[n]) || (ss[n].phase != Active && ss[n].disposer != Idle)
    ensures InService(ss[n]) <==> forall i :: 0 <= i < n ==> steps[i] != Claim
    ensures ss[n].current <==> ss[0].current && forall i :: 0 <= i < n ==> steps[i] != Supersede
    decreases n
  {
    hide Next, Enabled;
    if n > 0 {
      ServiceIff(ss, steps, n - 1);
      ServiceStep(ss[n - 1], steps[n - 1]);
    }
  }

  /** A caller that has published keeps what it acquired exactly when no dispose has been
      claimed and the activation has not been superseded; otherwise it takes it back. */
  lemma KeptIff(ss: seq<State>, steps: seq<Step>, i: nat, o: nat)
    requires Run(ss, steps) && i < |steps| && steps[i] == Revalidate(o)
    ensures o in ss[i].callers && o in ss[i + 1].callers
    ensures ss[i + 1].callers[o] == Finished <==>
      ss[0].current && forall n :: 0 <= n < i ==> steps[n] != Claim && steps[n] != Supersede
    ensures ss[i + 1].callers[o] == Finished || ss[i + 1].callers[o].Withdrawing?
  {
    ServiceIff(ss, steps, i);
    assert Enabled(ss[i], steps[i]) && ss[i + 1] == Next(ss[i], steps[i]);
  }

  /** A caller that nobody interrupts ends with its resource held and shown. */
  lemma AcquiresAlone(s: State, o: nat, k: Kind) returns (ss: seq<State>, steps: seq<Step>)
    requires o !in s.callers && s.phase == Active && s.current && StoreOk(s.store) && Acceptable(k)
    ensures steps == [Check(o, k), Register(o, true), Publish(o), Revalidate(o)]
    ensures Path(ss, steps) && ss[0] == s
    ensures var n := ss[|steps|];
      && n.callers == s.callers[o := Finished]
      && ActiveIn(n.store, s.ctx) == ActiveIn(s.store, s.ctx) + {s.store.next}
      && s.store.next !in s.store.records && n.store.records[s.store.next].kind == k
      && n.shown == s.shown + (if k.Cap? || k.Sub? then {k} else {})
  {
    hide Indexed, Counted;
    RegisterFrame(s.store, s.ctx, s.inst, k, true);
    steps := [Check(o, k), Register(o, true), Publish(o), Revalidate(o)];
    var a := Next(s, steps[0]);
    var b := Next(a, steps[1]);
    var c := Next(b, steps[2]);
    ss := [s, a, b, c, Next(c, steps[3])];
  }
}

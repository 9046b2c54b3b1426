/** Maintenance mode and the single-use reboot permit (crates/guardian-core/src/maintenance.rs and
    the permit's own predicates in crates/guardian-proto/src/model.rs). */
module Maintenance {
  import opened Prelude
  import opened Text

  datatype Phase = Locked | Maintaining | UpdatePending | RebootArmed | Boot

  /** The pending-reboot verdict of `Booted` only changes the note and is dropped. */
  datatype Event =
    | EnterRequested(protectedWork: seq<string>, overridePhrase: Option<string>)
    | ExitRequested
    | UpdatePendingObserved
    | ArmRebootRequested(ttlSecs: nat, issuedBy: string)
    | DisarmRequested
    | ShutdownObserved(restart: bool)
    | Booted(bootId: string)
    | Tick
    | TtlChanged(ttlSecs: nat)

  datatype Refusal =
    | ProtectedWorkActive(reasons: seq<string>)
    | WrongPhase(current: Phase)
    | NoActiveAuthorization

  datatype Permit = Permit(
    nonce: string,
    issuedAtMs: int,
    expiresAtMs: int,
    issuedBootId: string,
    consumedAtMs: Option<int>,
    issuedBy: string)
  {
    predicate IsUsable(now: int, bootId: string) {
      consumedAtMs.None? && now < expiresAtMs && issuedBootId == bootId
    }

    predicate IsExpired(now: int) {
      now >= expiresAtMs
    }
  }

  datatype State = State(
    phase: Phase,
    authorization: Option<Permit>,
    enteredAtMs: Option<int>,
    enteredWithOverride: bool)

  const LOCKED: State := State(Locked, None, None, false)

  datatype Transition = Transition(
    state: State,
    refusal: Option<Refusal>,
    consumed: Option<Permit>,
    expired: Option<Permit>)

  datatype Policy = Policy(refuseWithProtectedWork: bool, overridePhrase: string)

  const MIN_TTL_SECS: nat := 60
  const MAX_TTL_SECS: nat := 14_400
  const I64_MAX: int := 0x7FFF_FFFF_FFFF_FFFF

  function ClampTtl(secs: nat): nat {
    Clamp(secs, MIN_TTL_SECS, MAX_TTL_SECS)
  }

  function SaturatingAdd(a: int, b: nat): int {
    Min(a + b, I64_MAX)
  }

  function Refused(s: State, why: Refusal): Transition {
    Transition(s, Some(why), None, None)
  }

  function Quietly(s: State): Transition {
    Transition(s, None, None, None)
  }

  function Issue(now: int, ttlSecs: nat, bootId: string, nonce: string, issuedBy: string): Permit {
    Permit(nonce, now, SaturatingAdd(now, ClampTtl(ttlSecs) * 1000), bootId, None, issuedBy)
  }

  /** One event. The caller supplies the clock, the current boot id and a nonce. */
  function Advance(s: State, event: Event, policy: Policy, now: int, bootId: string, nonce: string): Transition {
    match event
    case EnterRequested(work, phrase) =>
      if !s.phase.Locked? then Refused(s, WrongPhase(s.phase))
      else
        var confirm := work != [] && policy.refuseWithProtectedWork;
        if confirm && !(phrase.Some? && Trim(phrase.value) == Trim(policy.overridePhrase))
        then Refused(s, ProtectedWorkActive(work))
        else Quietly(State(Maintaining, None, Some(now), confirm))
    case ExitRequested =>
      if s.phase.Locked? then Refused(s, WrongPhase(s.phase)) else Quietly(LOCKED)
    case UpdatePendingObserved =>
      if s.phase.Maintaining? then Quietly(s.(phase := UpdatePending)) else Quietly(s)
    case ArmRebootRequested(ttl, issuer) =>
      if s.phase.Locked? then Refused(s, WrongPhase(s.phase))
      else Quietly(s.(phase := RebootArmed, authorization := Some(Issue(now, ttl, bootId, nonce, issuer))))
    case DisarmRequested =>
      if s.authorization.None? then Refused(s, NoActiveAuthorization)
      else Quietly(s.(phase := Maintaining, authorization := None))
    case ShutdownObserved(restart) =>
      if !restart then
        Transition(s.(phase := Locked, authorization := None), None, None, s.authorization)
      else if s.authorization.Some? && s.authorization.value.IsUsable(now, bootId) then
        var used := s.authorization.value.(consumedAtMs := Some(now));
        Transition(s.(phase := Boot, authorization := Some(used)), None, Some(used), None)
      else
        Transition(s.(phase := Boot, authorization := None), None, None, s.authorization)
    case Booted(newBoot) =>
      var stale := s.authorization.Some?
                   && (s.authorization.value.issuedBootId != newBoot || s.authorization.value.consumedAtMs.Some?);
      Transition(LOCKED, None, None, if stale then s.authorization else None)
    case Tick =>
      if s.authorization.None? then Quietly(s)
      else
        var p := s.authorization.value;
        if p.issuedBootId != bootId || p.IsExpired(now) || p.consumedAtMs.Some?
        then Transition(s.(phase := Maintaining, authorization := None), None, None, Some(p))
        else Quietly(s)
    case TtlChanged(ttl) =>
      if s.authorization.None? then Quietly(s)
      else
        var p := s.authorization.value;
        Quietly(s.(authorization := Some(p.(expiresAtMs := SaturatingAdd(p.issuedAtMs, ClampTtl(ttl) * 1000)))))
  }

  // --- Runs -----------------------------------------------------------------------------

  datatype Input = Input(event: Event, now: int, bootId: string, nonce: string)

  datatype Run = Run(policy: Policy, inputs: seq<Input>) {
    /** The state before input `k` of a run from LOCKED. */
    function StateAt(k: nat): State
      requires k <= |inputs|
    {
      if k == 0 then LOCKED
      else Advance(StateAt(k - 1), inputs[k - 1].event, policy, inputs[k - 1].now, inputs[k - 1].bootId, inputs[k - 1].nonce).state
    }

    function At(k: nat): Transition
      requires k < |inputs|
    {
      Advance(StateAt(k), inputs[k].event, policy, inputs[k].now, inputs[k].bootId, inputs[k].nonce)
    }
  }

  /** An unconsumed permit. */
  predicate Live(s: State) {
    s.authorization.Some? && s.authorization.value.consumedAtMs.None?
  }

  /** A permit exists unconsumed exactly in RebootArmed, consumed only in Boot, and in no other
      phase; and none outlives its issue by more than four hours. */
  predicate PermitInvariant(s: State) {
    && (Live(s) <==> s.phase.RebootArmed?)
    && (s.authorization.Some? && !Live(s) ==> s.phase.Boot?)
    && (s.authorization.Some? ==>
          s.authorization.value.expiresAtMs <= s.authorization.value.issuedAtMs + MAX_TTL_SECS * 1000)
  }

  lemma AdvanceKeepsPermitInvariant(s: State, event: Event, policy: Policy, now: int, bootId: string, nonce: string)
    requires PermitInvariant(s)
    ensures PermitInvariant(Advance(s, event, policy, now, bootId, nonce).state)
  {
    hide Trim;
  }

  lemma {:induction false} PermitInvariantAt(run: Run, k: nat)
    requires k <= |run.inputs|
    ensures PermitInvariant(run.StateAt(k))
  {
    if k > 0 {
      hide Advance, PermitInvariant;
      PermitInvariantAt(run, k - 1);
      var i := run.inputs[k - 1];
      AdvanceKeepsPermitInvariant(run.StateAt(k - 1), i.event, run.policy, i.now, i.bootId, i.nonce);
    } else {
      assert PermitInvariant(LOCKED);
    }
  }

  // --- Provenance ---------------------------------------------------------------------------

  /** Input `i` is an accepted request to arm. */
  predicate Arms(run: Run, i: nat)
    requires i < |run.inputs|
  {
    run.inputs[i].event.ArmRebootRequested? && run.At(i).refusal.None?
  }

  predicate Consumes(run: Run, j: nat)
    requires j < |run.inputs|
  {
    run.At(j).consumed.Some?
  }

  /** Not an exit, disarm, boot, shutdown or (re-)arm. */
  predicate Harmless(e: Event) {
    e.EnterRequested? || e.UpdatePendingObserved? || e.Tick? || e.TtlChanged?
  }

  /** The permit carries the identity of the arm at input `i`. */
  predicate IssuedAt(run: Run, i: nat, p: Permit)
    requires i < |run.inputs|
  {
    p.nonce == run.inputs[i].nonce && p.issuedBootId == run.inputs[i].bootId && p.issuedAtMs == run.inputs[i].now
  }

  lemma LiveRound(s: State, event: Event, policy: Policy, now: int, bootId: string, nonce: string)
    requires PermitInvariant(s) && Live(Advance(s, event, policy, now, bootId, nonce).state)
    ensures var t := Advance(s, event, policy, now, bootId, nonce);
            var p := t.state.authorization.value;
            if event.ArmRebootRequested? && t.refusal.None?
            then p.nonce == nonce && p.issuedBootId == bootId && p.issuedAtMs == now
            else Harmless(event) && Live(s) && p == s.authorization.value.(expiresAtMs := p.expiresAtMs)
  {
    hide Trim;
  }

  /** A live permit goes back to one accepted arm with only harmless inputs since. */
  lemma {:induction false} LivePermitOrigin(run: Run, k: nat) returns (i: nat)
    requires k <= |run.inputs| && Live(run.StateAt(k))
    ensures i < k && Arms(run, i) && IssuedAt(run, i, run.StateAt(k).authorization.value)
    ensures forall m :: i < m < k ==> Harmless(run.inputs[m].event)
  {
    hide Advance;
    if k > 0 {
      var n := run.inputs[k - 1];
      PermitInvariantAt(run, k - 1);
      LiveRound(run.StateAt(k - 1), n.event, run.policy, n.now, n.bootId, n.nonce);
      if Arms(run, k - 1) {
        i := k - 1;
      } else {
        i := LivePermitOrigin(run, k - 1);
      }
    } else {
      assert false;
    }
  }

  lemma ConsumingRound(s: State, event: Event, policy: Policy, now: int, bootId: string, nonce: string)
    requires Advance(s, event, policy, now, bootId, nonce).consumed.Some?
    ensures var used := Advance(s, event, policy, now, bootId, nonce).consumed.value;
            && event == ShutdownObserved(true) && Live(s)
            && used == s.authorization.value.(consumedAtMs := Some(now))
            && used.issuedBootId == bootId && now < used.expiresAtMs
  {
    hide Trim;
  }

  /** Input `i` armed the permit that input `j` consumes. */
  ghost predicate ConsumesArmOf(run: Run, i: nat, j: nat)
    requires i < j < |run.inputs|
  {
    && Arms(run, i) && Consumes(run, j)
    && IssuedAt(run, i, run.At(j).consumed.value)
    && run.inputs[j].event == ShutdownObserved(true)
    && run.inputs[j].bootId == run.inputs[i].bootId
    && run.inputs[j].now < run.inputs[i].now + 4 * 60 * 60 * 1000
    && (forall m :: i < m < j ==> Harmless(run.inputs[m].event))
  }

  /** Provenance: in every run from LOCKED, whatever the TTL changes, a consumption carries the nonce
      and boot id of the most recent accepted arm, happens on that boot and less than four hours
      after it, with no exit, disarm, boot, shutdown or re-arm in between. */
  lemma ConsumptionHasOrigin(run: Run, j: nat) returns (i: nat)
    requires j < |run.inputs| && Consumes(run, j)
    ensures i < j && ConsumesArmOf(run, i, j)
    ensures forall m :: i < m < j ==> !Arms(run, m)
  {
    hide Advance;
    var n := run.inputs[j];
    ConsumingRound(run.StateAt(j), n.event, run.policy, n.now, n.bootId, n.nonce);
    PermitInvariantAt(run, j);
    i := LivePermitOrigin(run, j);
  }

  /** Single use: no accepted arm is consumed twice. */
  lemma NoArmIsConsumedTwice(run: Run, i: nat, j: nat, k: nat)
    requires i < j < |run.inputs| && i < k < |run.inputs|
    requires ConsumesArmOf(run, i, j) && ConsumesArmOf(run, i, k)
    ensures j == k
  {
    hide Advance;
    assert !Harmless(run.inputs[j].event) && !Harmless(run.inputs[k].event);
  }

  /** Input `m` cannot take away a permit armed by input `i`: it is harmless, on the same boot and
      less than the shortest lifetime after the arm. */
  predicate Spares(run: Run, i: nat, m: nat)
    requires i < |run.inputs| && m < |run.inputs|
  {
    && Harmless(run.inputs[m].event)
    && run.inputs[m].bootId == run.inputs[i].bootId
    && run.inputs[m].now < run.inputs[i].now + MIN_TTL_SECS * 1000
  }

  lemma SparingRound(s: State, event: Event, policy: Policy, now: int, bootId: string, nonce: string)
    requires PermitInvariant(s) && Live(s) && Harmless(event)
    requires var p := s.authorization.value;
             && p.issuedBootId == bootId
             && now < p.issuedAtMs + MIN_TTL_SECS * 1000 <= Min(p.expiresAtMs, I64_MAX)
    ensures var t := Advance(s, event, policy, now, bootId, nonce).state;
            var p := s.authorization.value;
            && Live(t) && t.authorization.value == p.(expiresAtMs := t.authorization.value.expiresAtMs)
            && p.issuedAtMs + MIN_TTL_SECS * 1000 <= t.authorization.value.expiresAtMs
  {
    hide Trim;
  }

  /** The partner of provenance: an armed permit is not lost within its shortest lifetime, so a restart
      on its boot consumes it. Only a clock at the end of the 64-bit range escapes this. */
  lemma {:induction false} ArmIsHonoured(run: Run, i: nat, k: nat)
    requires i < k <= |run.inputs| && Arms(run, i)
    requires run.inputs[i].now + MIN_TTL_SECS * 1000 <= I64_MAX
    requires forall m :: i < m < k ==> Spares(run, i, m)
    ensures Live(run.StateAt(k)) && IssuedAt(run, i, run.StateAt(k).authorization.value)
    ensures run.inputs[i].now + MIN_TTL_SECS * 1000 <= run.StateAt(k).authorization.value.expiresAtMs
    ensures k < |run.inputs| && run.inputs[k].event == ShutdownObserved(true)
            && run.inputs[k].bootId == run.inputs[i].bootId
            && run.inputs[k].now < run.inputs[i].now + MIN_TTL_SECS * 1000
            ==> Consumes(run, k)
  {
    hide Trim;
    if k > i + 1 {
      hide Advance;
      ArmIsHonoured(run, i, k - 1);
      PermitInvariantAt(run, k - 1);
      assert Spares(run, i, k - 1);
      var n := run.inputs[k - 1];
      SparingRound(run.StateAt(k - 1), n.event, run.policy, n.now, n.bootId, n.nonce);
    }
    RestartConsumes(run, i, k);
  }

  lemma RestartConsumes(run: Run, i: nat, k: nat)
    requires i < k <= |run.inputs|
    requires Live(run.StateAt(k)) && IssuedAt(run, i, run.StateAt(k).authorization.value)
    requires run.inputs[i].now + MIN_TTL_SECS * 1000 <= run.StateAt(k).authorization.value.expiresAtMs
    ensures k < |run.inputs| && run.inputs[k].event == ShutdownObserved(true)
            && run.inputs[k].bootId == run.inputs[i].bootId
            && run.inputs[k].now < run.inputs[i].now + MIN_TTL_SECS * 1000
            ==> Consumes(run, k)
  {
    hide Run.StateAt;
  }

  // --- Conservation ---------------------------------------------------------------------------

  /** The accepted arms of one input. */
  function Armed(event: Event, t: Transition): nat {
    Once(event.ArmRebootRequested? && t.refusal.None?)
  }

  /** The permits one input ends: consumed, reported expired unconsumed, replaced by a re-arm,
      disarmed, discarded by an exit, dropped by a start of the boot they were issued on. */
  function Ended(s: State, event: Event, t: Transition): nat {
    var accepted := Live(s) && t.refusal.None?;
    Once(t.consumed.Some?)
    + Once(t.expired.Some? && t.expired.value.consumedAtMs.None?)
    + Once(accepted && event.ArmRebootRequested?)
    + Once(accepted && event.DisarmRequested?)
    + Once(accepted && event.ExitRequested?)
    + Once(accepted && event.Booted? && event.bootId == s.authorization.value.issuedBootId)
  }

  function ArmedUpTo(run: Run, k: nat): nat
    requires k <= |run.inputs|
  {
    if k == 0 then 0 else ArmedUpTo(run, k - 1) + Armed(run.inputs[k - 1].event, run.At(k - 1))
  }

  function EndedUpTo(run: Run, k: nat): nat
    requires k <= |run.inputs|
  {
    if k == 0 then 0
    else EndedUpTo(run, k - 1) + Ended(run.StateAt(k - 1), run.inputs[k - 1].event, run.At(k - 1))
  }

  lemma StepBalances(s: State, event: Event, policy: Policy, now: int, bootId: string, nonce: string)
    requires PermitInvariant(s)
    ensures var t := Advance(s, event, policy, now, bootId, nonce);
            Once(s.phase.RebootArmed?) + Armed(event, t) == Ended(s, event, t) + Once(t.state.phase.RebootArmed?)
  {
    hide Trim;
  }

  /** Permit conservation: accepted arms equal consumptions, unconsumed expiries, replacements,
      disarms, exits and same-boot starts, plus the permit that is armed now. */
  lemma {:induction false} PermitsAreConserved(run: Run, k: nat)
    requires k <= |run.inputs|
    ensures ArmedUpTo(run, k) == EndedUpTo(run, k) + Once(run.StateAt(k).phase.RebootArmed?)
  {
    if k > 0 {
      hide Advance, Armed, Ended, PermitInvariant, Once;
      var n := run.inputs[k - 1];
      var s := run.StateAt(k - 1);
      var t := run.At(k - 1);
      PermitsAreConserved(run, k - 1);
      PermitInvariantAt(run, k - 1);
      StepBalances(s, n.event, run.policy, n.now, n.bootId, n.nonce);
      assert run.StateAt(k) == t.state;
      assert ArmedUpTo(run, k) == ArmedUpTo(run, k - 1) + Armed(n.event, t);
      assert EndedUpTo(run, k) == EndedUpTo(run, k - 1) + Ended(s, n.event, t);
    }
  }

  // --- Leaving LOCKED --------------------------------------------------------------------------

  /** The machine leaves LOCKED exactly by an accepted request to enter or by an observed restart.
      The source's description names only the request. */
  lemma LeavesLockedOnlyBy(s: State, event: Event, policy: Policy, now: int, bootId: string, nonce: string)
    requires s.phase.Locked? && PermitInvariant(s)
    ensures var t := Advance(s, event, policy, now, bootId, nonce);
            !t.state.phase.Locked? <==>
              || event == ShutdownObserved(true)
              || (event.EnterRequested? &&
                  (event.protectedWork == [] || !policy.refuseWithProtectedWork
                   || (event.overridePhrase.Some? && Trim(event.overridePhrase.value) == Trim(policy.overridePhrase))))
  {
    hide Trim;
  }

  /** So a permit can be armed, and then consumed, without any request to enter maintenance. */
  lemma RestartOpensTheDoor(policy: Policy, now: int, bootId: string, nonce: string, issuer: string)
    ensures var run := Run(policy, [Input(ShutdownObserved(true), now, bootId, nonce),
                                    Input(ArmRebootRequested(60, issuer), now, bootId, nonce),
                                    Input(ShutdownObserved(true), now, bootId, nonce)]);
            now < I64_MAX ==> Arms(run, 1) && Consumes(run, 2)
  {
    var run := Run(policy, [Input(ShutdownObserved(true), now, bootId, nonce),
                            Input(ArmRebootRequested(60, issuer), now, bootId, nonce),
                            Input(ShutdownObserved(true), now, bootId, nonce)]);
    assert run.StateAt(1).phase.Boot?;
    assert run.StateAt(2).phase.RebootArmed?;
  }
}

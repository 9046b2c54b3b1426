/** Where every event of a maintenance run leads, written out over the inputs: phases, refusals and permits. */
module MaintenanceOutcome {
  import opened Prelude
  import opened Text
  import opened Maintenance

  const FOUR_HOURS_MS: int := 4 * 60 * 60 * 1000

  /** LOCKED with nothing left over. */
  predicate Reset(s: State) {
    s.phase == Locked && s.authorization == None && s.enteredAtMs == None && !s.enteredWithOverride
  }

  /** The confirmation that entering over protected work takes: the phrase, but for white space around it. */
  predicate Confirmed(event: Event, policy: Policy)
    requires event.EnterRequested?
  {
    event.overridePhrase.Some? && Trim(event.overridePhrase.value) == Trim(policy.overridePhrase)
  }

  predicate NeedsConfirmation(event: Event, policy: Policy)
    requires event.EnterRequested?
  {
    event.protectedWork != [] && policy.refuseWithProtectedWork
  }

  /** The only way back: from a state that is not LOCKED the next is LOCKED if and only if the input is an exit,
      a shutdown without restart, or a boot; an exit and a boot leave nothing over. */
  lemma ReturnsToLockedExactly(run: Run, k: nat)
    requires k < |run.inputs| && run.StateAt(k).phase != Locked
    ensures var event, t := run.inputs[k].event, run.StateAt(k + 1);
            && (t.phase == Locked <==> event == ExitRequested || event == ShutdownObserved(false) || event.Booted?)
            && (event == ExitRequested || event.Booted? ==> Reset(t))
            && (event == ShutdownObserved(false) ==> t == run.StateAt(k).(phase := Locked, authorization := None))
  {
    hide Trim;
    assert run.StateAt(k + 1) == run.At(k).state;
    PermitInvariantAt(run, k);
  }

  /** In LOCKED a boot and an accepted entry are the inputs that change what is on record; a restart leaves it
      for Boot and everything else keeps it LOCKED. */
  lemma FromLocked(run: Run, k: nat)
    requires k < |run.inputs| && run.StateAt(k).phase == Locked
    ensures var event, s, t := run.inputs[k].event, run.StateAt(k), run.StateAt(k + 1);
            && (event.Booted? ==> Reset(t))
            && (event == ShutdownObserved(true) ==> t == s.(phase := Boot))
            && (event.EnterRequested? ==>
                  if NeedsConfirmation(event, run.policy) && !Confirmed(event, run.policy) then t == s
                  else && t.phase == Maintaining && t.authorization == None && t.enteredAtMs == Some(run.inputs[k].now)
                       && t.enteredWithOverride == NeedsConfirmation(event, run.policy))
            && (!event.Booted? && event != ShutdownObserved(true) && !event.EnterRequested? ==> t == s)
  {
    hide Trim;
    assert run.StateAt(k + 1) == run.At(k).state;
    PermitInvariantAt(run, k);
  }

  /** The tick ends a permit whose boot is not the current one, which has expired or is consumed. */
  predicate Overdue(p: Permit, input: Input) {
    p.issuedBootId != input.bootId || input.now >= p.expiresAtMs || p.consumedAtMs != None
  }

  /** Outside LOCKED, the phase each other input leads to. Every change of phase but a return to LOCKED is here,
      and none but these happens. */
  lemma PhaseExactly(run: Run, k: nat)
    requires k < |run.inputs| && run.StateAt(k).phase != Locked && run.StateAt(k + 1).phase != Locked
    ensures var input, s, t := run.inputs[k], run.StateAt(k), run.StateAt(k + 1);
            t.phase == match input.event
              case UpdatePendingObserved => if s.phase == Maintaining then UpdatePending else s.phase
              case ArmRebootRequested(_, _) => RebootArmed
              case DisarmRequested => if s.authorization.Some? then Maintaining else s.phase
              case Tick => if s.authorization.Some? && Overdue(s.authorization.value, input) then Maintaining else s.phase
              case ShutdownObserved(_) => Boot
              case _ => s.phase
    ensures run.StateAt(k + 1).enteredAtMs == run.StateAt(k).enteredAtMs
         && run.StateAt(k + 1).enteredWithOverride == run.StateAt(k).enteredWithOverride
  {
    hide Trim;
    assert run.StateAt(k + 1) == run.At(k).state;
    PermitInvariantAt(run, k);
  }

  /** When exactly an input is refused; a refused input changes nothing and reports nothing else. */
  lemma RefusedExactly(run: Run, k: nat)
    requires k < |run.inputs|
    ensures var event, s, t := run.inputs[k].event, run.StateAt(k), run.At(k);
            && (t.refusal.Some? <==>
                  || (event.EnterRequested? && (s.phase != Locked
                                                || (NeedsConfirmation(event, run.policy) && !Confirmed(event, run.policy))))
                  || ((event == ExitRequested || event.ArmRebootRequested?) && s.phase == Locked)
                  || (event == DisarmRequested && s.authorization == None))
            && (t.refusal.Some? ==>
                  && t.state == s && t.consumed == None && t.expired == None
                  && t.refusal.value == (if event == DisarmRequested then NoActiveAuthorization
                                         else if event.EnterRequested? && s.phase == Locked then ProtectedWorkActive(event.protectedWork)
                                         else WrongPhase(s.phase)))
  {
    hide Trim;
  }

  /** The expiry that a lifetime gives a permit issued at an instant: at least a minute and at most four hours
      later, whatever was asked for, within the 64-bit range. */
  predicate ExpiresFor(p: Permit, ttlSecs: nat) {
    var lifetime := if ttlSecs < 60 then 60_000 else if ttlSecs * 1000 > FOUR_HOURS_MS then FOUR_HOURS_MS else ttlSecs * 1000;
    p.expiresAtMs == if p.issuedAtMs + lifetime > 0x7FFF_FFFF_FFFF_FFFF then 0x7FFF_FFFF_FFFF_FFFF else p.issuedAtMs + lifetime
  }

  /** The permit after each input: issued in full by an accepted arm, consumed in place by a restart it covers,
      given another lifetime, or untouched; in every other case there is none. */
  lemma PermitExactly(run: Run, k: nat)
    requires k < |run.inputs|
    ensures var input, s, t := run.inputs[k], run.StateAt(k), run.StateAt(k + 1);
            && (t.authorization.Some? ==>
                  var q := t.authorization.value;
                  if input.event.ArmRebootRequested? && s.phase != Locked then
                    && q.nonce == input.nonce && q.issuedAtMs == input.now && q.issuedBootId == input.bootId
                    && q.consumedAtMs == None && q.issuedBy == input.event.issuedBy && ExpiresFor(q, input.event.ttlSecs)
                  else
                    && s.authorization.Some?
                    && (if input.event == ShutdownObserved(true) then
                          q == s.authorization.value.(consumedAtMs := Some(input.now))
                        else if input.event.TtlChanged? then
                          q == s.authorization.value.(expiresAtMs := q.expiresAtMs) && ExpiresFor(q, input.event.ttlSecs)
                        else q == s.authorization.value))
            && (t.authorization.None? && s.authorization.Some? ==>
                  || input.event == ExitRequested || input.event == DisarmRequested || input.event.Booted?
                  || input.event == ShutdownObserved(false)
                  || (input.event.Tick? && Overdue(s.authorization.value, input))
                  || (input.event == ShutdownObserved(true) && Overdue(s.authorization.value, input)))
            && (input.event.ArmRebootRequested? && s.phase != Locked ==> t.authorization.Some?)
  {
    hide Trim;
    assert run.StateAt(k + 1) == run.At(k).state;
    PermitInvariantAt(run, k);
  }

  /** What an input reports: a consumption exactly when a restart meets a permit that covers it, and an expiry
      exactly for the permit that a shutdown, an overdue tick or a boot of another start takes away unused,
      or a boot or tick finds consumed. */
  lemma ReportedExactly(run: Run, k: nat)
    requires k < |run.inputs|
    ensures var input, s, t := run.inputs[k], run.StateAt(k), run.At(k);
            && (t.consumed.Some? <==>
                  input.event == ShutdownObserved(true) && s.authorization.Some? && !Overdue(s.authorization.value, input))
            && (t.consumed.Some? ==> t.consumed == Some(s.authorization.value.(consumedAtMs := Some(input.now))))
            && (t.expired.Some? <==>
                  && s.authorization.Some?
                  && (|| input.event == ShutdownObserved(false)
                      || ((input.event == ShutdownObserved(true) || input.event.Tick?) && Overdue(s.authorization.value, input))
                      || (input.event.Booted? && (s.authorization.value.issuedBootId != input.event.bootId
                                                  || s.authorization.value.consumedAtMs != None))))
            && (t.expired.Some? ==> t.expired == s.authorization)
  {
    hide Trim;
  }
}

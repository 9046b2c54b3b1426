/** Runs of a caller that wakes exactly when the machine advises (crates/guardian-network/src/worker.rs,
    `step`): how far apart its dials are. */
module NetAdvice {
  import opened Prelude
  import opened NetModel
  import opened NetStep
  import opened NetStepLaws
  import opened NetRuns

  /** Each round comes when the round before it advised, or after the fallback. */
  predicate FollowsAdvice(run: Run) {
    forall k :: 0 < k < |run.rounds| ==>
      run.rounds[k].now == run.rounds[k - 1].now + NextDelayMs(run.RoundAt(k - 1).actions, BASE_INTERVAL_MS)
  }

  /** No session, no dial in flight, and the last dial was not rejected. */
  predicate PlainRound(obs: NetworkObservation) {
    !obs.rasConnected && !obs.rasDialing && !obs.Rejected()
  }

  /** Not given up on authentication. */
  predicate Retrying(s: NetworkState) {
    s.broadband.Failed? ==> s.failureKind != Some(AuthenticationFailed)
  }

  lemma PlainAssessment(s: NetworkState, obs: NetworkObservation, policy: NetworkPolicy, now: int)
    requires PlainRound(obs) && Retrying(s)
    ensures var a := Assessed(s, obs, policy, now).state;
            && NeedRepair(a, policy, now) && a.lastDialMs == s.lastDialMs
            && a.failureKind != Some(AuthenticationFailed)
  {
    AssessedFrame(s, obs, policy, now);
    hide WindowMs, WifiStage, BroadbandUsable;
  }

  lemma NotDueActions(a: NetworkState, obs: NetworkObservation, policy: NetworkPolicy, now: int)
    requires RepairAllowed(a, obs, policy, now) && !obs.rasConnected && !DialDue(a, policy, now)
    ensures RepairStage(a, obs, policy, now).actions == [Wait(policy.minDialIntervalSecs * 1000)]
  {
    hide NeedRepair, DialDue;
  }

  /** In such a round the machine dials exactly when a dial is due, and otherwise advises another full
      minimum interval. */
  lemma PlainRoundDials(s: NetworkState, obs: NetworkObservation, policy: NetworkPolicy, now: int)
    requires policy.enabled && PlainRound(obs) && Retrying(s)
    ensures var t := Step(s, obs, policy, now);
            && Count(t.actions, DialBroadband) == Once(DialDue(s, policy, now))
            && Retrying(t.state) && !t.state.broadband.Healthy?
            && (!DialDue(s, policy, now) ==>
                  NextDelayMs(t.actions, BASE_INTERVAL_MS) == policy.minDialIntervalSecs * 1000)
  {
    hide Step, Assessed, RepairStage, NeedRepair, DialDue, RouteActions, ConnectWanted, Count;
    var a := Assessed(s, obs, policy, now).state;
    PlainAssessment(s, obs, policy, now);
    DisruptiveActions(s, obs, policy, now);
    DialDueReadsClock(a, s, policy, now);
    BroadbandRound(s, obs, policy, now);
    if !DialDue(s, policy, now) {
      NotDueActions(a, obs, policy, now);
      var wifi, route, standby := StepActions(s, obs, policy, now);
      var wait := Wait(policy.minDialIntervalSecs * 1000);
      assert wifi + [wait] + route + standby == wifi + ([wait] + route + standby);
      NoWaitFirst(wifi, [wait] + route + standby, BASE_INTERVAL_MS);
    }
  }

  /** The delay advised with a dial. */
  function Advice(index: nat, attempts: nat): nat {
    var wait := DialWait(index, attempts);
    if wait == 0 then BASE_INTERVAL_MS else wait
  }

  /** From one dial to the next: an advised delay shorter than the minimum interval is followed by a
      whole minimum interval more. */
  function Gap(policy: NetworkPolicy, index: nat, attempts: nat): nat {
    var minimum := policy.minDialIntervalSecs * 1000;
    var advice := Advice(index, attempts);
    if advice >= minimum then advice else advice + minimum
  }

  predicate DialsAt(run: Run, k: nat)
    requires k < |run.rounds|
  {
    Count(run.RoundAt(k).actions, DialBroadband) == 1
  }

  /** The exact spacing of dials: after a dial in an outage the next one is in the next round, or the one
      after it when the advice was below the minimum interval, and exactly `Gap` later. */
  lemma DialSpacing(run: Run, i: nat)
    requires run.Timed() && FollowsAdvice(run) && i + 2 < |run.rounds|
    requires Retrying(run.StateAt(i)) && DialsAt(run, i)
    requires forall m :: i <= m <= i + 2 ==> PlainRound(run.rounds[m].obs)
    ensures var s := run.StateAt(i);
            var short := Advice(s.backoffIndex, s.dialAttempts) < run.policy.minDialIntervalSecs * 1000;
            var next := if short then i + 2 else i + 1;
            && DialsAt(run, next) && (short ==> !DialsAt(run, i + 1))
            && run.rounds[next].now - run.rounds[i].now == Gap(run.policy, s.backoffIndex, s.dialAttempts)
            && Retrying(run.StateAt(next)) && run.StateAt(next).dialAttempts == s.dialAttempts + 1
  {
    hide Step, Count, DialWait, Retrying, PlainRound;
    var s := run.StateAt(i);
    var t := run.StateAt(i + 1);
    DialAdvice(s, run.rounds[i].obs, run.policy, run.rounds[i].now, BASE_INTERVAL_MS);
    DialRound(s, run.rounds[i].obs, run.policy, run.rounds[i].now);
    PlainRoundDials(s, run.rounds[i].obs, run.policy, run.rounds[i].now);
    assert t == run.RoundAt(i).state && t.lastDialMs == Some(run.rounds[i].now);
    PlainRoundDials(t, run.rounds[i + 1].obs, run.policy, run.rounds[i + 1].now);
    DialRound(t, run.rounds[i + 1].obs, run.policy, run.rounds[i + 1].now);
    PlainRoundDials(run.StateAt(i + 2), run.rounds[i + 2].obs, run.policy, run.rounds[i + 2].now);
  }

  /** With the minimum interval of 15 s that every configuration gets, the spacing is not the schedule's and
      not increasing: 20 s, then 15 s plus the entries of 1 to 8 s, and then less again. */
  lemma SpacingByEntry(policy: NetworkPolicy, index: nat, attempts: nat)
    requires policy.minDialIntervalSecs == 15 && index <= LAST_BACKOFF
    ensures var gap := Gap(policy, index, attempts);
            var base := BACKOFF_MS[index];
            && (index == 0 ==> gap == 20_000)
            && (1 <= index <= 4 ==> 15_000 + base <= gap && 1000 * (gap - 15_000) <= 1199 * base)
            && (5 <= index ==> base <= gap && 1000 * gap <= 1199 * base)
  {
    hide DialWait;
    DialWaitBounds(index, attempts);
  }

  /** When the gap grows from one entry of the schedule to the next: everywhere but after the first entry
      and after the fifth, where the advice first reaches the minimum interval; whatever the jitter. */
  lemma SpacingGrowsExactly(policy: NetworkPolicy, index: nat, first: nat, second: nat)
    requires policy.minDialIntervalSecs == 15 && index < LAST_BACKOFF
    ensures Gap(policy, index, first) < Gap(policy, index + 1, second) <==> index != 0 && index != 4
    ensures Gap(policy, index, first) > Gap(policy, index + 1, second) <==> index == 0 || index == 4
  {
    hide Gap;
    SpacingByEntry(policy, index, first);
    SpacingByEntry(policy, index + 1, second);
  }

  /** Once the schedule is saturated the jitter alone decides: the order of two gaps is that of the two
      waits. It falls, for one, from the eighth dial of an outage to the ninth. */
  lemma SaturatedSpacing(policy: NetworkPolicy, first: nat, second: nat)
    requires policy.minDialIntervalSecs == 15
    ensures Gap(policy, LAST_BACKOFF, first) == DialWait(LAST_BACKOFF, first)
    ensures Gap(policy, LAST_BACKOFF, first) < Gap(policy, LAST_BACKOFF, second)
            <==> JitterFor(first) % 200 < JitterFor(second) % 200
    ensures DialWait(LAST_BACKOFF, 7) == 68_580 && DialWait(LAST_BACKOFF, 8) == 66_240
  {
    hide JitterFor;
    DialWaitBounds(LAST_BACKOFF, first);
    DialWaitBounds(LAST_BACKOFF, second);
    SeventhJitter();
  }

  lemma SeventhJitter()
    ensures JitterFor(7) == 143 && JitterFor(8) == 904
  {
    Wrapped(7 * 2_654_435_761, 1_401_181_143);
    Wrapped(8 * 2_654_435_761, 4_055_616_904);
  }

  lemma Wrapped(x: nat, r: nat)
    requires r < 0x1_0000_0000 && x == 4 * 0x1_0000_0000 + r
    ensures x % 0x1_0000_0000 == r
  {
  }

  /** How the next gap compares with the one after `attempts` dials. */
  predicate GrowsAfter(attempts: nat) {
    if attempts < LAST_BACKOFF then attempts != 0 && attempts != 4
    else JitterFor(attempts) % 200 < JitterFor(attempts + 1) % 200
  }

  /** Two consecutive gaps of an outage, for a caller that follows the advice: from the dial in round `i` to
      the next and from that to the one after it. The second is longer exactly when `GrowsAfter` says so
      of the number of dials before round `i`. */
  lemma ConsecutiveGaps(run: Run, i: nat) returns (next: nat, last: nat)
    requires run.Timed() && FollowsAdvice(run) && i + 4 < |run.rounds| && run.policy.minDialIntervalSecs == 15
    requires ExactBackoff(run.start) && Retrying(run.StateAt(i)) && DialsAt(run, i)
    requires forall m :: i <= m <= i + 4 ==> PlainRound(run.rounds[m].obs)
    ensures i < next <= i + 2 && next < last <= next + 2 && DialsAt(run, next) && DialsAt(run, last)
    ensures forall m :: i < m < last && m != next ==> !DialsAt(run, m)
    ensures run.rounds[last].now - run.rounds[next].now > run.rounds[next].now - run.rounds[i].now
            <==> GrowsAfter(run.StateAt(i).dialAttempts)
  {
    hide Step, Count, DialWait, Retrying, PlainRound, DialsAt, Gap, Advice, FollowsAdvice, JitterFor;
    var s := run.StateAt(i);
    var minimum := run.policy.minDialIntervalSecs * 1000;
    BackoffIsExact(run, i);
    DialSpacing(run, i);
    next := if Advice(s.backoffIndex, s.dialAttempts) < minimum then i + 2 else i + 1;
    var t := run.StateAt(next);
    BackoffIsExact(run, next);
    DialSpacing(run, next);
    last := if Advice(t.backoffIndex, t.dialAttempts) < minimum then next + 2 else next + 1;
    if s.dialAttempts < LAST_BACKOFF {
      SpacingGrowsExactly(run.policy, s.backoffIndex, s.dialAttempts, t.dialAttempts);
    } else {
      SaturatedSpacing(run.policy, s.dialAttempts, t.dialAttempts);
    }
  }
}

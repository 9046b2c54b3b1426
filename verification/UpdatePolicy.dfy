/** The Windows Update policy that is kept in place, and the verdict on a read of it
    (crates/guardian-core/src/update_policy.rs). */
module UpdatePolicy {
  import opened Prelude

  datatype PolValue =
    | Dword(value: nat)
    | Text(text: string)
    | ExpandString(text: string)
    | MultiString(lines: seq<string>)
  {
    function AsDword(): Option<nat> {
      if Dword? then Some(value) else None
    }
  }

  /** A registry key path and the name of a value under it. */
  datatype Key = Key(path: string, name: string) {
    function FullName(): string {
      path + "\\" + name
    }
  }

  datatype PolicyWrite = PolicyWrite(key: Key, value: PolValue)

  datatype PolicyObservation = PolicyObservation(key: Key, value: Option<PolValue>)

  datatype PolicyReadback = PolicyReadback(values: seq<PolicyObservation>, unreadableKeys: seq<string>, complete: bool)

  datatype ManagementState =
    | Unmanaged
    | DomainJoined(domain: string)
    | MdmEnrolled(provider: string)
    | DomainAndMdm(domain: string, provider: string)
    | UnknownManagement
  {
    predicate IsExternallyManaged() {
      !Unmanaged?
    }
  }

  datatype ProtectionLevel = Protected | Degraded | InMaintenance | Unknown | Unprotected

  datatype TamperEvent = TamperEvent(key: Key, expected: PolValue, observed: PolValue)

  datatype ValueStatus = ValueStatus(name: string, desired: PolValue, observed: Option<PolValue>, matches: bool, externallyOwned: bool)

  datatype DeadlineStatus = DeadlineStatus(name: string, observed: Option<PolValue>, neutralized: bool)

  datatype Analysis = Analysis(
    level: ProtectionLevel,
    primaryLockEffective: bool,
    values: seq<ValueStatus>,
    deadlines: seq<DeadlineStatus>,
    writesNeeded: seq<PolicyWrite>,
    tamper: seq<TamperEvent>,
    neutralized: seq<string>)

  const WU_POLICY_KEY := @"SOFTWARE\Policies\Microsoft\Windows\WindowsUpdate"
  const WU_AU_KEY := @"SOFTWARE\Policies\Microsoft\Windows\WindowsUpdate\AU"

  const NO_AUTO_UPDATE := Key(WU_AU_KEY, "NoAutoUpdate")

  const DESIRED: seq<PolicyWrite> := [
    PolicyWrite(NO_AUTO_UPDATE, Dword(1)),
    PolicyWrite(Key(WU_AU_KEY, "NoAutoRebootWithLoggedOnUsers"), Dword(1)),
    PolicyWrite(Key(WU_AU_KEY, "AlwaysAutoRebootAtScheduledTime"), Dword(0))
  ]

  const DEADLINES: seq<PolicyWrite> := [
    PolicyWrite(Key(WU_POLICY_KEY, "SetAutoRestartDeadline"), Dword(0)),
    PolicyWrite(Key(WU_POLICY_KEY, "SetAutoRestartNotificationConfig"), Dword(0)),
    PolicyWrite(Key(WU_POLICY_KEY, "SetUpdateNotificationLevel"), Dword(0))
  ]

  const ALL_DESIRED: seq<PolicyWrite> := DESIRED + DEADLINES

  predicate IsDeadlineName(name: string) {
    exists d :: d in DEADLINES && d.key.name == name
  }

  predicate IsDeadline(w: PolicyWrite) {
    exists d :: d in DEADLINES && d.key == w.key
  }

  /** The value of the first entry for the key, if that entry has one. */
  function Lookup(values: seq<PolicyObservation>, key: Key): Option<PolValue> {
    if values == [] then None
    else if values[0].key == key then values[0].value
    else Lookup(values[1..], key)
  }

  // --- Specification ------------------------------------------------------------------------

  /** A protection value must be present and right; a deadline may also be absent. */
  predicate Satisfied(values: seq<PolicyObservation>, w: PolicyWrite) {
    || Lookup(values, w.key) == Some(w.value)
    || (IsDeadline(w) && Lookup(values, w.key).None?)
  }

  predicate Tampered(values: seq<PolicyObservation>, w: PolicyWrite) {
    !IsDeadline(w) && Lookup(values, w.key).Some? && Lookup(values, w.key) != Some(w.value)
  }

  function WritesFor(values: seq<PolicyObservation>, ws: seq<PolicyWrite>): seq<PolicyWrite> {
    if ws == [] then []
    else
      var w := ws[|ws| - 1];
      WritesFor(values, ws[..|ws| - 1]) + (if Satisfied(values, w) then [] else [w])
  }

  function TamperFor(values: seq<PolicyObservation>, ws: seq<PolicyWrite>): seq<TamperEvent> {
    if ws == [] then []
    else
      var w := ws[|ws| - 1];
      TamperFor(values, ws[..|ws| - 1])
      + (if Tampered(values, w) then [TamperEvent(w.key, w.value, Lookup(values, w.key).value)] else [])
  }

  function HazardsFor(values: seq<PolicyObservation>, ws: seq<PolicyWrite>): seq<string> {
    if ws == [] then []
    else
      var w := ws[|ws| - 1];
      HazardsFor(values, ws[..|ws| - 1])
      + (if IsDeadline(w) && !Satisfied(values, w) then [w.key.FullName()] else [])
  }

  function StatusOf(values: seq<PolicyObservation>, managed: ManagementState, w: PolicyWrite): ValueStatus {
    ValueStatus(w.key.name, w.value, Lookup(values, w.key), Satisfied(values, w),
                managed.IsExternallyManaged() && !Satisfied(values, w))
  }

  function StatusesFor(values: seq<PolicyObservation>, managed: ManagementState, ws: seq<PolicyWrite>): seq<ValueStatus> {
    seq(|ws|, i requires 0 <= i < |ws| => StatusOf(values, managed, ws[i]))
  }

  function DeadlineStatuses(values: seq<PolicyObservation>, neutralized: seq<string>): seq<DeadlineStatus> {
    seq(|DEADLINES|, i requires 0 <= i < |DEADLINES| =>
      var d := DEADLINES[i];
      var observed := Lookup(values, d.key);
      DeadlineStatus(d.key.name, observed, d.key.FullName() in neutralized || observed.None? || observed == Some(d.value)))
  }

  predicate PrimaryLock(values: seq<PolicyObservation>) {
    var observed := Lookup(values, NO_AUTO_UPDATE);
    observed.Some? && observed.value.AsDword() == Some(1)
  }

  function Verdict(statuses: seq<ValueStatus>, managed: ManagementState, complete: bool): ProtectionLevel {
    var allConform := forall v :: v in statuses && !IsDeadlineName(v.name) ==> v.matches;
    var deadlinesSafe := forall v :: v in statuses && IsDeadlineName(v.name) ==> v.matches;
    if managed.IsExternallyManaged() then Degraded
    else if !complete then Unknown
    else if allConform && deadlinesSafe then Protected
    else Degraded
  }

  function Analysed(readback: PolicyReadback, managed: ManagementState, backendError: Option<string>): Analysis {
    if backendError.Some? then Analysis(Unknown, false, [], [], ALL_DESIRED, [], [])
    else
      var statuses := StatusesFor(readback.values, managed, ALL_DESIRED);
      var hazards := HazardsFor(readback.values, ALL_DESIRED);
      Analysis(
        Verdict(statuses, managed, readback.complete),
        PrimaryLock(readback.values),
        statuses,
        DeadlineStatuses(readback.values, hazards),
        WritesFor(readback.values, ALL_DESIRED),
        TamperFor(readback.values, ALL_DESIRED),
        hazards)
  }

  // --- Implementation -----------------------------------------------------------------------

  method Analyze(readback: PolicyReadback, managed: ManagementState, backendError: Option<string>)
    returns (a: Analysis)
    ensures a == Analysed(readback, managed, backendError)
  {
    if backendError.Some? {
      return Analysis(Unknown, false, [], [], ALL_DESIRED, [], []);
    }
    var writes, tamper, hazards := CollectWrites(readback.values, ALL_DESIRED);
    var values := CollectStatuses(readback.values, managed, ALL_DESIRED);
    var level := Verdict(values, managed, readback.complete);
    return Analysis(level, PrimaryLock(readback.values), values, DeadlineStatuses(readback.values, hazards),
                    writes, tamper, hazards);
  }

  /** The first loop of `Analyze`. */
  method CollectWrites(values: seq<PolicyObservation>, wanted: seq<PolicyWrite>)
    returns (writes: seq<PolicyWrite>, tamper: seq<TamperEvent>, hazards: seq<string>)
    ensures writes == WritesFor(values, wanted)
    ensures tamper == TamperFor(values, wanted)
    ensures hazards == HazardsFor(values, wanted)
  {
    writes, tamper, hazards := [], [], [];
    for i := 0 to |wanted|
      invariant writes == WritesFor(values, wanted[..i])
      invariant tamper == TamperFor(values, wanted[..i])
      invariant hazards == HazardsFor(values, wanted[..i])
    {
      var desired := wanted[i];
      assert wanted[..i + 1][..i] == wanted[..i];
      var observed := Lookup(values, desired.key);
      if observed != Some(desired.value) {
        if IsDeadline(desired) {
          if observed.Some? {
            hazards := hazards + [desired.key.FullName()];
            writes := writes + [desired];
          }
        } else {
          if observed.Some? {
            tamper := tamper + [TamperEvent(desired.key, desired.value, observed.value)];
          }
          writes := writes + [desired];
        }
      }
    }
    assert wanted[..|wanted|] == wanted;
  }

  /** The second loop of `Analyze`. */
  method CollectStatuses(values: seq<PolicyObservation>, managed: ManagementState, wanted: seq<PolicyWrite>)
    returns (statuses: seq<ValueStatus>)
    ensures statuses == StatusesFor(values, managed, wanted)
  {
    hide IsDeadline, Lookup;
    var externallyManaged := managed.IsExternallyManaged();
    statuses := [];
    for i := 0 to |wanted|
      invariant statuses == StatusesFor(values, managed, wanted)[..i]
    {
      var desired := wanted[i];
      assert StatusesFor(values, managed, wanted)[i] == StatusOf(values, managed, desired);
      var observed := Lookup(values, desired.key);
      var matches := if IsDeadline(desired) then observed.None? || observed == Some(desired.value)
                     else observed == Some(desired.value);
      statuses := statuses + [ValueStatus(desired.key.name, desired.value, observed, matches, externallyManaged && !matches)];
    }
  }

  // --- What the analysis means ------------------------------------------------------------------

  /** Exactly the unsatisfied entries are written, in order. */
  lemma {:induction false} WritesAreTheUnsatisfied(values: seq<PolicyObservation>, ws: seq<PolicyWrite>)
    ensures forall w :: w in WritesFor(values, ws) <==> w in ws && !Satisfied(values, w)
  {
    if ws != [] {
      WritesAreTheUnsatisfied(values, ws[..|ws| - 1]);
      assert ws == ws[..|ws| - 1] + [ws[|ws| - 1]];
    }
  }

  /** A tamper event reports a protection value that is present and wrong, never an absent one and
      never a deadline; and every such value is reported. */
  lemma {:induction false} TamperIsPresentAndWrong(values: seq<PolicyObservation>, ws: seq<PolicyWrite>)
    ensures forall e :: e in TamperFor(values, ws) ==>
              exists w :: w in ws && Tampered(values, w) && e == TamperEvent(w.key, w.value, Lookup(values, w.key).value)
    ensures forall w :: w in ws && Tampered(values, w) ==>
              TamperEvent(w.key, w.value, Lookup(values, w.key).value) in TamperFor(values, ws)
  {
    if ws != [] {
      TamperIsPresentAndWrong(values, ws[..|ws| - 1]);
      assert ws == ws[..|ws| - 1] + [ws[|ws| - 1]];
    }
  }

  lemma {:induction false} HazardsAreUnsatisfiedDeadlines(values: seq<PolicyObservation>, ws: seq<PolicyWrite>)
    ensures forall w :: w in ws && IsDeadline(w) && !Satisfied(values, w) ==> w.key.FullName() in HazardsFor(values, ws)
  {
    if ws != [] {
      HazardsAreUnsatisfiedDeadlines(values, ws[..|ws| - 1]);
      assert ws == ws[..|ws| - 1] + [ws[|ws| - 1]];
    }
  }

  /** Every tampered value is also rewritten. */
  lemma TamperIsRewritten(values: seq<PolicyObservation>, ws: seq<PolicyWrite>, e: TamperEvent)
    requires e in TamperFor(values, ws)
    ensures PolicyWrite(e.key, e.expected) in WritesFor(values, ws)
  {
    TamperIsPresentAndWrong(values, ws);
    WritesAreTheUnsatisfied(values, ws);
  }

  /** The verdict, from statuses of a second loop, is Protected exactly when the first loop found
      nothing to write, on a readable, unmanaged host: the two loops agree. */
  lemma ProtectedExactly(readback: PolicyReadback, managed: ManagementState, backendError: Option<string>)
    ensures var a := Analysed(readback, managed, backendError);
            a.level.Protected? <==>
              backendError.None? && managed.Unmanaged? && readback.complete && a.writesNeeded == []
  {
    hide Satisfied, IsDeadline, IsDeadlineName, WritesFor, TamperFor, HazardsFor, PrimaryLock, DeadlineStatuses, ALL_DESIRED;
    var values := readback.values;
    var statuses := StatusesFor(values, managed, ALL_DESIRED);
    var writes := WritesFor(values, ALL_DESIRED);
    WritesAreTheUnsatisfied(values, ALL_DESIRED);
    if writes == [] {
      forall v | v in statuses ensures v.matches {
        var i :| 0 <= i < |statuses| && statuses[i] == v;
        assert ALL_DESIRED[i] in ALL_DESIRED;
      }
    } else {
      var w := writes[0];
      assert w in writes;
      var i :| 0 <= i < |ALL_DESIRED| && ALL_DESIRED[i] == w;
      assert statuses[i] in statuses && !statuses[i].matches;
    }
  }

  lemma PrimaryIsRequired(values: seq<PolicyObservation>)
    requires Satisfied(values, DESIRED[0])
    ensures PrimaryLock(values)
  {
    assert |DESIRED[0].key.name| == 12;
  }

  lemma AnalysedPrimaryLock(readback: PolicyReadback, managed: ManagementState)
    ensures Analysed(readback, managed, None).primaryLockEffective == PrimaryLock(readback.values)
  {
    hide PrimaryLock, Verdict, WritesFor, TamperFor, HazardsFor;
  }

  /** Protected means every entry is satisfied, and above all that automatic updating is off. */
  lemma ProtectedMeansLocked(readback: PolicyReadback, managed: ManagementState, backendError: Option<string>)
    requires Analysed(readback, managed, backendError).level.Protected?
    ensures Analysed(readback, managed, backendError).primaryLockEffective
    ensures forall w :: w in ALL_DESIRED ==> Satisfied(readback.values, w)
  {
    ProtectedExactly(readback, managed, backendError);
    AnalysedWrites(readback, managed);
    AnalysedPrimaryLock(readback, managed);
    hide Satisfied, WritesFor, Analysed, PrimaryLock, DEADLINES;
    WritesAreTheUnsatisfied(readback.values, ALL_DESIRED);
    assert DESIRED[0] in ALL_DESIRED;
    PrimaryIsRequired(readback.values);
  }

  lemma AnalysedWrites(readback: PolicyReadback, managed: ManagementState)
    ensures Analysed(readback, managed, None).writesNeeded == WritesFor(readback.values, ALL_DESIRED)
    ensures Analysed(readback, managed, None).tamper == TamperFor(readback.values, ALL_DESIRED)
  {
    hide WritesFor, TamperFor, HazardsFor, Verdict;
  }

  /** A read that succeeds reports every deadline neutralized: one that still threatens is on the list of
      those about to be rewritten. The flag alone therefore says nothing about the store. */
  lemma DeadlinesReportedNeutralized(readback: PolicyReadback, managed: ManagementState)
    ensures forall s :: s in Analysed(readback, managed, None).deadlines ==> s.neutralized
  {
    hide WritesFor, TamperFor, Verdict, HazardsFor;
    var values := readback.values;
    HazardsAreUnsatisfiedDeadlines(values, ALL_DESIRED);
    forall i | 0 <= i < |DEADLINES|
      ensures var d := DEADLINES[i];
              d.key.FullName() in HazardsFor(values, ALL_DESIRED)
              || Lookup(values, d.key).None? || Lookup(values, d.key) == Some(d.value)
    {
      var d := DEADLINES[i];
      assert d in DEADLINES;
      assert IsDeadline(d);
      assert d in ALL_DESIRED;
    }
  }

  /** A key reads as the first entry for it says, and as absent without one. */
  lemma {:induction false} LookupIsFirst(values: seq<PolicyObservation>, key: Key, i: nat)
    requires i <= |values| && forall j :: 0 <= j < i ==> values[j].key != key
    requires i < |values| ==> values[i].key == key
    ensures Lookup(values, key) == if i < |values| then values[i].value else None
  {
    if i > 0 {
      LookupIsFirst(values[1..], key, i - 1);
    }
  }

  /** The lock is reported effective exactly when the read succeeded and NoAutoUpdate reads as the number 1. */
  lemma PrimaryLockExactly(readback: PolicyReadback, managed: ManagementState, backendError: Option<string>)
    ensures Analysed(readback, managed, backendError).primaryLockEffective <==>
              backendError.None? && Lookup(readback.values, Key(WU_AU_KEY, "NoAutoUpdate")) == Some(Dword(1))
  {
    hide Verdict, WritesFor, TamperFor, HazardsFor, StatusesFor, DeadlineStatuses, Lookup;
  }

  /** One entry for every value on the list, in its order: what was wanted, what was read, and whether that
      satisfies. An external owner is blamed exactly for what does not, on a managed host. */
  lemma StatusesAre(readback: PolicyReadback, managed: ManagementState, i: nat)
    requires i < |ALL_DESIRED|
    ensures var statuses := Analysed(readback, managed, None).values;
            && |statuses| == |ALL_DESIRED|
            && statuses[i].name == ALL_DESIRED[i].key.name && statuses[i].desired == ALL_DESIRED[i].value
            && statuses[i].observed == Lookup(readback.values, ALL_DESIRED[i].key)
            && (statuses[i].matches <==> statuses[i].observed == Some(ALL_DESIRED[i].value)
                                         || (statuses[i].observed.None? && i >= 3))
            && (statuses[i].externallyOwned <==> !managed.Unmanaged? && !statuses[i].matches)
  {
    hide Verdict, WritesFor, TamperFor, HazardsFor, DeadlineStatuses, Lookup, PrimaryLock;
    DeadlinesComeLast(i);
  }

  /** A deadline is any write for the key of one of the last three entries. */
  lemma DeadlinesAre(w: PolicyWrite)
    ensures IsDeadline(w) <==> exists i :: 3 <= i < |ALL_DESIRED| && ALL_DESIRED[i].key == w.key
  {
    if d :| d in DEADLINES && d.key == w.key {
      var i :| 0 <= i < 3 && DEADLINES[i] == d;
      assert ALL_DESIRED[3 + i] == d;
    }
    if i :| 3 <= i < |ALL_DESIRED| && ALL_DESIRED[i].key == w.key {
      assert DEADLINES[i - 3] in DEADLINES;
    }
  }

  lemma DeadlinesComeLast(i: nat)
    requires i < |ALL_DESIRED|
    ensures IsDeadline(ALL_DESIRED[i]) <==> i >= 3
    ensures IsDeadlineName(ALL_DESIRED[i].key.name) <==> i >= 3
  {
    assert |"NoAutoUpdate"| == 12 && |"NoAutoRebootWithLoggedOnUsers"| == 29 && |"AlwaysAutoRebootAtScheduledTime"| == 31;
    assert |"SetAutoRestartDeadline"| == 22 && |"SetAutoRestartNotificationConfig"| == 32 && |"SetUpdateNotificationLevel"| == 26;
    if i >= 3 {
      assert DEADLINES[i - 3] in DEADLINES && DEADLINES[i - 3].key == ALL_DESIRED[i].key;
    }
  }

  /** The value read for entry `i` is what it should be; a deadline may also be absent. */
  predicate EntryHolds(values: seq<PolicyObservation>, i: nat)
    requires i < |ALL_DESIRED|
  {
    var read := Lookup(values, ALL_DESIRED[i].key);
    read == Some(ALL_DESIRED[i].value) || (i >= 3 && read == None)
  }

  /** What is asked to be written and what is reported as tampered, entry by entry. */
  lemma FindingsExactly(values: seq<PolicyObservation>, i: nat)
    requires i < |ALL_DESIRED|
    ensures var w := ALL_DESIRED[i];
            var read := Lookup(values, w.key);
            && (w in WritesFor(values, ALL_DESIRED) <==> !EntryHolds(values, i))
            && (read.Some? ==> (TamperEvent(w.key, w.value, read.value) in TamperFor(values, ALL_DESIRED)
                                <==> i < 3 && read != Some(w.value)))
  {
    var w := ALL_DESIRED[i];
    assert w in ALL_DESIRED;
    DeadlinesComeLast(i);
    EntriesDiffer(i);
    hide WritesFor, TamperFor, Lookup, IsDeadline, ALL_DESIRED;
    WritesAreTheUnsatisfied(values, ALL_DESIRED);
    TamperIsPresentAndWrong(values, ALL_DESIRED);
  }

  lemma EntriesDiffer(i: nat)
    requires i < |ALL_DESIRED|
    ensures forall w :: w in ALL_DESIRED && w.key == ALL_DESIRED[i].key ==> w == ALL_DESIRED[i]
  {
    assert |"NoAutoUpdate"| == 12 && |"NoAutoRebootWithLoggedOnUsers"| == 29 && |"AlwaysAutoRebootAtScheduledTime"| == 31;
    assert |"SetAutoRestartDeadline"| == 22 && |"SetAutoRestartNotificationConfig"| == 32 && |"SetUpdateNotificationLevel"| == 26;
  }

  /** The level in every case: Unknown for a failed read and, on an unmanaged host, an incomplete one; Degraded on
      a managed host and when an entry does not hold; Protected otherwise. No other level is ever given. */
  lemma LevelExactly(readback: PolicyReadback, managed: ManagementState, backendError: Option<string>)
    ensures Analysed(readback, managed, backendError).level ==
              if backendError.Some? then Unknown
              else if managed != Unmanaged then Degraded
              else if !readback.complete then Unknown
              else if forall i :: 0 <= i < |ALL_DESIRED| ==> EntryHolds(readback.values, i) then Protected
              else Degraded
  {
    ProtectedExactly(readback, managed, backendError);
    AnalysedWrites(readback, managed);
    LevelOfVerdict(readback, managed, backendError);
    hide Analysed, WritesFor, TamperFor, EntryHolds, ALL_DESIRED;
    forall i | 0 <= i < |ALL_DESIRED| ensures ALL_DESIRED[i] in WritesFor(readback.values, ALL_DESIRED) <==> !EntryHolds(readback.values, i) {
      FindingsExactly(readback.values, i);
    }
    WritesAreTheUnsatisfied(readback.values, ALL_DESIRED);
    var writes := WritesFor(readback.values, ALL_DESIRED);
    if writes != [] {
      assert writes[0] in writes;
      var i :| 0 <= i < |ALL_DESIRED| && ALL_DESIRED[i] == writes[0];
      assert !EntryHolds(readback.values, i);
    } else {
      forall i | 0 <= i < |ALL_DESIRED| ensures EntryHolds(readback.values, i) {
        assert ALL_DESIRED[i] !in writes;
      }
    }
  }

  lemma LevelOfVerdict(readback: PolicyReadback, managed: ManagementState, backendError: Option<string>)
    ensures var level := Analysed(readback, managed, backendError).level;
            if backendError.Some? then level == Unknown
            else if managed != Unmanaged then level == Degraded
            else if !readback.complete then level == Unknown
            else level == Protected || level == Degraded
  {
    hide WritesFor, TamperFor, HazardsFor, PrimaryLock, DeadlineStatuses, StatusesFor, IsDeadlineName;
  }

  /** A failed read asks for all six values and reports nothing read, nothing tampered and no lock. */
  lemma FailedReadAsksForAll(readback: PolicyReadback, managed: ManagementState, error: string, i: nat)
    requires i < |ALL_DESIRED|
    ensures var a := Analysed(readback, managed, Some(error));
            && |a.writesNeeded| == 6 && a.writesNeeded[i] == ALL_DESIRED[i]
            && a.tamper == [] && a.values == [] && a.deadlines == [] && a.neutralized == [] && !a.primaryLockEffective
  {
  }

  lemma {:induction false} HazardsNamed(values: seq<PolicyObservation>, ws: seq<PolicyWrite>, name: string)
    ensures name in HazardsFor(values, ws) <==>
              exists w :: w in ws && IsDeadline(w) && !Satisfied(values, w) && name == w.key.path + "\\" + w.key.name
  {
    hide IsDeadline, Satisfied;
    if ws != [] {
      HazardsNamed(values, ws[..|ws| - 1], name);
      assert ws == ws[..|ws| - 1] + [ws[|ws| - 1]];
    }
  }

  /** The deadlines found enabled are listed by their full names, and each of the three is shown with the value
      that was read. */
  lemma DeadlinesAreShown(readback: PolicyReadback, managed: ManagementState, name: string, i: nat)
    requires i < |DEADLINES|
    ensures var a := Analysed(readback, managed, None);
            && (name in a.neutralized <==>
                  exists k :: 3 <= k < |ALL_DESIRED| && !EntryHolds(readback.values, k)
                              && name == ALL_DESIRED[k].key.path + "\\" + ALL_DESIRED[k].key.name)
            && |a.deadlines| == 3 && a.deadlines[i].name == DEADLINES[i].key.name
            && a.deadlines[i].observed == Lookup(readback.values, DEADLINES[i].key)
  {
    var values := readback.values;
    var a := Analysed(readback, managed, None);
    assert a.neutralized == HazardsFor(values, ALL_DESIRED) by {
      hide HazardsFor, WritesFor, TamperFor, Verdict;
    }
    HazardsNamed(values, ALL_DESIRED, name);
    forall k | 0 <= k < |ALL_DESIRED|
      ensures ALL_DESIRED[k] in ALL_DESIRED
      ensures IsDeadline(ALL_DESIRED[k]) && !Satisfied(values, ALL_DESIRED[k]) <==> k >= 3 && !EntryHolds(values, k)
    {
      DeadlinesComeLast(k);
    }
    hide HazardsFor, WritesFor, TamperFor, Verdict, Lookup, Satisfied, EntryHolds, IsDeadline, PrimaryLock;
    if w: PolicyWrite :| w in ALL_DESIRED && IsDeadline(w) && !Satisfied(values, w) && name == w.key.path + "\\" + w.key.name {
      var k :| 0 <= k < |ALL_DESIRED| && ALL_DESIRED[k] == w;
    }
  }

  predicate AbsentOrZero(values: seq<PolicyObservation>, name: string) {
    Lookup(values, Key(WU_POLICY_KEY, name)) == None || Lookup(values, Key(WU_POLICY_KEY, name)) == Some(Dword(0))
  }

  /** What Protected asserts of the machine, value by value: no automatic updating, no automatic reboot over a
      logged-on user or at the scheduled time, and none of the three deadlines in force. */
  lemma ProtectedMachine(readback: PolicyReadback, managed: ManagementState)
    ensures var values := readback.values;
            Analysed(readback, managed, None).level.Protected? <==>
              && managed.Unmanaged? && readback.complete
              && Lookup(values, Key(WU_AU_KEY, "NoAutoUpdate")) == Some(Dword(1))
              && Lookup(values, Key(WU_AU_KEY, "NoAutoRebootWithLoggedOnUsers")) == Some(Dword(1))
              && Lookup(values, Key(WU_AU_KEY, "AlwaysAutoRebootAtScheduledTime")) == Some(Dword(0))
              && AbsentOrZero(values, "SetAutoRestartDeadline")
              && AbsentOrZero(values, "SetAutoRestartNotificationConfig")
              && AbsentOrZero(values, "SetUpdateNotificationLevel")
  {
    LevelExactly(readback, managed, None);
    hide Analysed, Lookup;
    SixEntries(readback.values);
  }

  lemma SixEntries(values: seq<PolicyObservation>)
    ensures (forall i :: 0 <= i < |ALL_DESIRED| ==> EntryHolds(values, i)) <==>
              && EntryHolds(values, 0) && EntryHolds(values, 1) && EntryHolds(values, 2)
              && EntryHolds(values, 3) && EntryHolds(values, 4) && EntryHolds(values, 5)
  {
    hide EntryHolds;
  }
}

/** The verification pass that reads, analyses, repairs and re-reads (crates/guardian-update/src/lib.rs),
    over every backend: each of its calls succeeds or fails by itself. */
module UpdateWorker {
  import opened Prelude
  import opened UpdatePolicy
  import opened PolicyStore

  /** The parts of the protection report that a later decision reads. */
  datatype Report = Report(
    level: ProtectionLevel,
    primaryLockEffective: bool,
    values: seq<ValueStatus>,
    deadlines: seq<DeadlineStatus>,
    backendError: Option<string>)

  datatype Incident = Incident(events: seq<TamperEvent>, restored: bool, error: Option<string>)

  datatype Outcome = Outcome(report: Report, writesPerformed: nat, incidents: seq<Incident>)

  datatype Worker = Worker(
    protect: bool,
    autoRestore: bool,
    consecutiveFailures: nat,
    reportedTamper: Option<string>,
    passes: nat,
    totalWrites: nat)

  /** What the backend answers to the three calls of one pass, should they be made. */
  datatype Calls = Calls(
    read: Result<PolicyReadback>,
    applied: Result<seq<PolicyWrite>>,
    reread: Result<PolicyReadback>)

  datatype Passed = Passed(worker: Worker, outcome: Outcome)

  // --- Specification of a pass ------------------------------------------------------------------

  function ReportOf(a: Analysis): Report {
    Report(a.level, a.primaryLockEffective, a.values, a.deadlines, None)
  }

  function AnalysisOf(managed: ManagementState, read: Result<PolicyReadback>): Analysis {
    match read
    case Ok(readback) => Analysed(readback, managed, None)
    case Err(error) => Analysed(PolicyReadback([], [], false), managed, Some(error))
  }

  function FirstTampered(a: Analysis): Option<string> {
    if a.tamper == [] then None else Some(a.tamper[0].key.name)
  }

  predicate Attempts(w: Worker, managed: ManagementState, read: Result<PolicyReadback>) {
    w.protect && (w.autoRestore || read.Err?) && AnalysisOf(managed, read).writesNeeded != []
  }

  function WritesOf(w: Worker, managed: ManagementState, c: Calls): nat {
    if Attempts(w, managed, c.read) && c.applied.Ok? then |c.applied.value| else 0
  }

  function WriteErrorOf(w: Worker, managed: ManagementState, c: Calls): Option<string> {
    if Attempts(w, managed, c.read) && c.applied.Err? then Some(c.applied.error) else None
  }

  function ReadErrorOf(c: Calls): Option<string> {
    if c.read.Err? then Some(c.read.error) else None
  }

  /** A divergence is reported unless the last pass reported the same value and this one repairs it. */
  function IncidentsOf(w: Worker, managed: ManagementState, c: Calls): seq<Incident> {
    var a := AnalysisOf(managed, c.read);
    var repairing := WritesOf(w, managed, c) > 0;
    if a.tamper != [] && (w.reportedTamper != FirstTampered(a) || !repairing)
    then [Incident(a.tamper, repairing, WriteErrorOf(w, managed, c))] else []
  }

  function Downgraded(r: Report): Report {
    r.(level := Unknown, primaryLockEffective := false)
  }

  /** The report before the failures of the pass are carried into it. */
  function ReadingReport(w: Worker, managed: ManagementState, c: Calls): Report {
    var first := ReportOf(AnalysisOf(managed, c.read));
    if WritesOf(w, managed, c) == 0 then first
    else if c.reread.Ok? then ReportOf(AnalysisOf(managed, c.reread))
    else Downgraded(first)
  }

  function FinalReport(w: Worker, managed: ManagementState, c: Calls): Report {
    var writeError := WriteErrorOf(w, managed, c);
    var r := ReadingReport(w, managed, c).(backendError := if writeError.Some? then writeError else ReadErrorOf(c));
    if writeError.Some? then Downgraded(r) else r
  }

  function Pass(w: Worker, managed: ManagementState, c: Calls): Passed {
    if !w.protect then
      Passed(w.(passes := w.passes + 1), Outcome(Report(Unprotected, false, [], [], None), 0, []))
    else
      Passed(
        w.(passes := w.passes + 1,
           consecutiveFailures := if c.read.Err? then Min(w.consecutiveFailures + 1, U32_MAX) else 0,
           reportedTamper := FirstTampered(AnalysisOf(managed, c.read)),
           totalWrites := w.totalWrites + WritesOf(w, managed, c)),
        Outcome(FinalReport(w, managed, c), WritesOf(w, managed, c), IncidentsOf(w, managed, c)))
  }

  // --- A backend that can fail at every call -------------------------------------------------------

  /** A read covers everything, or only part (with any values for the rest), or fails. */
  datatype ReadPlan =
    | Complete
    | Partial(values: seq<PolicyObservation>, unreadable: seq<string>)
    | ReadFails(error: string)

  /** An apply works, or stops with an error after some of the values. */
  datatype ApplyPlan = Applies | Stops(error: string, after: nat)

  function ReadOf(plan: ReadPlan, s: Store): Result<PolicyReadback> {
    match plan
    case Complete => Ok(PolicyReadback(s, [], true))
    case Partial(values, unreadable) => Ok(PolicyReadback(values, unreadable, false))
    case ReadFails(error) => Err(error)
  }

  function AppliedOf(plan: ApplyPlan, s: Store, ws: seq<PolicyWrite>): Result<seq<PolicyWrite>> {
    match plan
    case Applies => Ok(Written(s, ws))
    case Stops(error, _) => Err(error)
  }

  function StoreAfter(plan: ApplyPlan, s: Store, ws: seq<PolicyWrite>): Store {
    match plan
    case Applies => ApplyAll(s, ws)
    case Stops(_, after) => ApplyAll(s, ws[..Min(after, |ws|)])
  }

  /** The host as one pass meets it. */
  datatype Host = Host(store: Store, management: ManagementState, first: ReadPlan, apply: ApplyPlan, second: ReadPlan) {
    function Answers(): Calls {
      Calls(ReadOf(first, store), AppliedOf(apply, store, ALL_DESIRED),
                  ReadOf(second, StoreAfter(apply, store, ALL_DESIRED)))
    }

    predicate Works() {
      first.Complete? && apply.Applies? && second.Complete?
    }
  }

  /** The store as the pass leaves it. */
  function StoreLeft(w: Worker, h: Host): Store {
    if Attempts(w, h.management, h.Answers().read) then StoreAfter(h.apply, h.store, ALL_DESIRED) else h.store
  }

  function PassOn(w: Worker, h: Host): Passed {
    Pass(w, h.management, h.Answers())
  }

  function Rest<T>(plans: seq<T>): seq<T> {
    if plans == [] then [] else plans[1..]
  }

  /** The store of `PolicyStore` behind calls that go as planned; a call without a plan works. */
  class PlannedBackend {
    var store: Store
    var management: ManagementState
    var readPlans: seq<ReadPlan>
    var applyPlans: seq<ApplyPlan>

    constructor (store: Store, management: ManagementState, readPlans: seq<ReadPlan>, applyPlans: seq<ApplyPlan>)
      ensures this.store == store && this.management == management && this.readPlans == readPlans && this.applyPlans == applyPlans
    {
      this.store, this.management, this.readPlans, this.applyPlans := store, management, readPlans, applyPlans;
    }

    function NextRead(): ReadPlan
      reads this
    {
      if readPlans == [] then Complete else readPlans[0]
    }

    function NextApply(): ApplyPlan
      reads this
    {
      if applyPlans == [] then Applies else applyPlans[0]
    }

    function AsHost(): Host
      reads this
    {
      Host(store, management, NextRead(), NextApply(), if |readPlans| < 2 then Complete else readPlans[1])
    }

    method Read() returns (r: Result<PolicyReadback>)
      modifies this`readPlans
      ensures r == ReadOf(old(NextRead()), store)
      ensures readPlans == Rest(old(readPlans))
    {
      r := ReadOf(NextRead(), store);
      readPlans := Rest(readPlans);
    }

    method Apply(desired: seq<PolicyWrite>) returns (r: Result<seq<PolicyWrite>>)
      modifies this`store, this`applyPlans
      ensures r == AppliedOf(old(NextApply()), old(store), desired)
      ensures store == StoreAfter(old(NextApply()), old(store), desired)
      ensures applyPlans == Rest(old(applyPlans))
    {
      var plan := NextApply();
      applyPlans := Rest(applyPlans);
      var count := if plan.Stops? then Min(plan.after, |desired|) else |desired|;
      var written := [];
      for i := 0 to count
        invariant store == ApplyAll(old(store), desired[..i])
        invariant written == Written(old(store), desired[..i])
        invariant applyPlans == Rest(old(applyPlans))
      {
        var w := desired[i];
        assert desired[..i + 1][..i] == desired[..i];
        if Lookup(store, w.key) != Some(w.value) {
          store := Put(store, w.key, w.value);
          written := written + [w];
        }
      }
      if plan.Stops? {
        return Err(plan.error);
      }
      assert desired[..|desired|] == desired;
      return Ok(written);
    }
  }

  // --- Implementation -----------------------------------------------------------------------

  class UpdateGuard {
    const backend: PlannedBackend
    var state: Worker
    var lastReport: Option<Report>

    constructor (backend: PlannedBackend, protect: bool, autoRestore: bool)
      ensures this.backend == backend && lastReport == None
      ensures state == Worker(protect, autoRestore, 0, None, 0, 0)
    {
      this.backend := backend;
      state := Worker(protect, autoRestore, 0, None, 0, 0);
      lastReport := None;
    }

    /** One verification pass. */
    method Verify() returns (outcome: Outcome)
      modifies this, backend
      ensures var p := PassOn(old(state), old(backend.AsHost()));
              state == p.worker && outcome == p.outcome && lastReport == Some(p.outcome.report)
      ensures backend.store == StoreLeft(old(state), old(backend.AsHost()))
      ensures backend.management == old(backend.management)
      ensures var w, h := old(state), old(backend.AsHost());
              && backend.applyPlans == (if Attempts(w, h.management, h.Answers().read) then Rest(old(backend.applyPlans))
                                        else old(backend.applyPlans))
              && backend.readPlans == (if !w.protect then old(backend.readPlans)
                                       else if WritesOf(w, h.management, h.Answers()) > 0
                                       then Rest(Rest(old(backend.readPlans))) else Rest(old(backend.readPlans)))
    {
      hide AnalysisOf, Analysed, Written, ApplyAll, ALL_DESIRED, ReportOf, FirstTampered;
      ghost var h := backend.AsHost();
      ghost var w, c := state, h.Answers();
      state := state.(passes := state.passes + 1);
      if !state.protect {
        outcome := Outcome(Report(Unprotected, false, [], [], None), 0, []);
        lastReport := Some(outcome.report);
        return;
      }
      var managed := backend.management;
      var analysis, readError := Examine();
      var writesPerformed, writeError := AttemptRepair(analysis, readError.Some?);
      assert writesPerformed == WritesOf(w, managed, c) && writeError == WriteErrorOf(w, managed, c);
      var incidents := RaiseIncidents(analysis, writesPerformed > 0 && writeError.None?, writeError);
      var report := Conclude(analysis, writesPerformed, readError, writeError);
      assert report == FinalReport(w, managed, c);
      lastReport := Some(report);
      outcome := Outcome(report, writesPerformed, incidents);
    }

    /** The first read and its analysis. */
    method Examine() returns (analysis: Analysis, readError: Option<string>)
      modifies this`state, backend`readPlans
      ensures var read := ReadOf(old(backend.NextRead()), backend.store);
              && analysis == AnalysisOf(backend.management, read)
              && readError == (if read.Err? then Some(read.error) else None)
              && state == old(state).(consecutiveFailures :=
                            if read.Err? then Min(old(state).consecutiveFailures + 1, U32_MAX) else 0)
      ensures backend.readPlans == Rest(old(backend.readPlans))
    {
      hide Analysed;
      var read := backend.Read();
      readError := if read.Err? then Some(read.error) else None;
      if read.Ok? {
        analysis := Analyze(read.value, backend.management, None);
        state := state.(consecutiveFailures := 0);
      } else {
        state := state.(consecutiveFailures := Min(state.consecutiveFailures + 1, U32_MAX));
        analysis := Analyze(PolicyReadback([], [], false), backend.management, readError);
      }
    }

    /** Writes when the analysis asks for it and repair is on, and always when the read failed. */
    method AttemptRepair(analysis: Analysis, readFailed: bool) returns (writesPerformed: nat, writeError: Option<string>)
      modifies this`state, backend`store, backend`applyPlans
      ensures var attempts := (old(state).autoRestore || readFailed) && analysis.writesNeeded != [];
              var plan := old(backend.NextApply());
              var applied := AppliedOf(plan, old(backend.store), ALL_DESIRED);
              && backend.store == (if attempts then StoreAfter(plan, old(backend.store), ALL_DESIRED) else old(backend.store))
              && writesPerformed == (if attempts && applied.Ok? then |applied.value| else 0)
              && writeError == (if attempts && applied.Err? then Some(applied.error) else None)
              && state == old(state).(totalWrites := old(state).totalWrites + writesPerformed)
              && backend.applyPlans == (if attempts then Rest(old(backend.applyPlans)) else old(backend.applyPlans))
    {
      hide Written, ApplyAll, ALL_DESIRED;
      writesPerformed, writeError := 0, None;
      if (state.autoRestore || readFailed) && analysis.writesNeeded != [] {
        var applied := backend.Apply(ALL_DESIRED);
        if applied.Ok? {
          writesPerformed := |applied.value|;
          state := state.(totalWrites := state.totalWrites + writesPerformed);
        } else {
          writeError := Some(applied.error);
        }
      }
    }

    /** The re-read after a write, and the failures of the pass carried into the report. */
    method Conclude(analysis: Analysis, writesPerformed: nat, readError: Option<string>, writeError: Option<string>)
      returns (report: Report)
      modifies backend`readPlans
      ensures var again := ReadOf(old(backend.NextRead()), backend.store);
              var reading := if !(writesPerformed > 0 && writeError.None?) then ReportOf(analysis)
                             else if again.Ok? then ReportOf(AnalysisOf(backend.management, again))
                             else Downgraded(ReportOf(analysis));
              var carried := reading.(backendError := if writeError.Some? then writeError else readError);
              report == if writeError.Some? then Downgraded(carried) else carried
      ensures backend.readPlans == if writesPerformed > 0 && writeError.None? then Rest(old(backend.readPlans))
                                   else old(backend.readPlans)
    {
      hide Analysed, ReportOf;
      report := ReportOf(analysis);
      if writesPerformed > 0 && writeError.None? {
        var again := backend.Read();
        if again.Ok? {
          var after := Analyze(again.value, backend.management, None);
          report := ReportOf(after);
        } else {
          report := report.(level := Unknown, primaryLockEffective := false);
        }
      }
      report := report.(backendError := if writeError.Some? then writeError else readError);
      if writeError.Some? {
        report := report.(level := Unknown, primaryLockEffective := false);
      }
    }

    /** Keeps `reportedTamper`, so that a divergence something keeps reintroducing is reported once. */
    method RaiseIncidents(analysis: Analysis, repairing: bool, error: Option<string>) returns (incidents: seq<Incident>)
      modifies this`state
      ensures state == old(state).(reportedTamper := FirstTampered(analysis))
      ensures incidents ==
              if analysis.tamper != [] && (old(state).reportedTamper != FirstTampered(analysis) || !repairing)
              then [Incident(analysis.tamper, repairing, error)] else []
    {
      incidents := [];
      if analysis.tamper != [] {
        var name := analysis.tamper[0].key.name;
        var alreadyReported := state.reportedTamper == Some(name);
        if !alreadyReported || !repairing {
          incidents := [Incident(analysis.tamper, repairing, error)];
        }
        state := state.(reportedTamper := Some(name));
      } else {
        state := state.(reportedTamper := None);
      }
    }
  }

  // --- Fail closed, for every backend ---------------------------------------------------------------

  predicate AllSatisfied(s: Store) {
    forall d :: d in ALL_DESIRED ==> Satisfied(s, d)
  }

  /** A complete reading in which everything desired is satisfied. */
  predicate Confirms(read: Result<PolicyReadback>) {
    read.Ok? && read.value.complete && AllSatisfied(read.value.values)
  }

  /** What an analysis finds, in terms of the reading it is made of. */
  lemma AnalysisMeans(managed: ManagementState, read: Result<PolicyReadback>)
    ensures var a := AnalysisOf(managed, read);
            && (a.writesNeeded == [] <==> read.Ok? && AllSatisfied(read.value.values))
            && (a.tamper != [] ==> a.writesNeeded != [] && read.Ok?)
            && (a.level.Protected? <==> managed.Unmanaged? && Confirms(read))
            && (a.level.Unknown? <==> read.Err? || (managed.Unmanaged? && !read.value.complete))
  {
    match read
    case Ok(readback) =>
      AnalysedWrites(readback, managed);
      ProtectedExactly(readback, managed, None);
      LevelOf(readback, managed);
      hide Analysed, WritesFor, TamperFor, Satisfied, ALL_DESIRED;
      WritesAreTheUnsatisfied(readback.values, ALL_DESIRED);
      Emptiness(WritesFor(readback.values, ALL_DESIRED));
      if TamperFor(readback.values, ALL_DESIRED) != [] {
        var e := TamperFor(readback.values, ALL_DESIRED)[0];
        assert e in TamperFor(readback.values, ALL_DESIRED);
        TamperIsRewritten(readback.values, ALL_DESIRED, e);
      }
    case Err(_) =>
      hide Satisfied;
      assert ALL_DESIRED[0] in ALL_DESIRED;
  }

  lemma LevelOf(readback: PolicyReadback, managed: ManagementState)
    ensures Analysed(readback, managed, None).level.Unknown? <==> managed.Unmanaged? && !readback.complete
  {
    hide WritesFor, TamperFor, HazardsFor, PrimaryLock, DeadlineStatuses, StatusesFor, IsDeadlineName;
  }

  /** The last reading a pass takes. */
  function LastReading(w: Worker, managed: ManagementState, c: Calls): Result<PolicyReadback> {
    if WritesOf(w, managed, c) > 0 then c.reread else c.read
  }

  /** Whatever a backend answers, a report says Protected exactly when protection is on, the host is
      unmanaged, no write failed, and the last reading is complete and finds everything satisfied. */
  lemma ProtectedReportExactly(w: Worker, managed: ManagementState, c: Calls)
    ensures Pass(w, managed, c).outcome.report.level.Protected? <==>
              w.protect && managed.Unmanaged? && WriteErrorOf(w, managed, c).None? && Confirms(LastReading(w, managed, c))
  {
    hide AnalysisOf, Confirms, IncidentsOf, Attempts;
    AnalysisMeans(managed, c.read);
    AnalysisMeans(managed, c.reread);
  }

  /** A failed write and a failed re-read end Unknown, with the lock not reported effective, on every
      host; a failed write is the error the report carries. */
  lemma FailuresEndUnknown(w: Worker, managed: ManagementState, c: Calls)
    requires w.protect
    requires WriteErrorOf(w, managed, c).Some? || (WritesOf(w, managed, c) > 0 && c.reread.Err?)
    ensures var r := Pass(w, managed, c).outcome.report;
            && r.level.Unknown? && !r.primaryLockEffective
            && (WriteErrorOf(w, managed, c).Some? ==> r.backendError == WriteErrorOf(w, managed, c))
  {
    hide AnalysisOf, Attempts, IncidentsOf;
  }

  /** When a failed first read ends Unknown, which the source promises of all of them: unless the repair
      it triggers wrote something and a re-read succeeded, complete or on a managed host. */
  lemma FailedReadExactly(w: Worker, managed: ManagementState, c: Calls)
    requires w.protect && c.read.Err?
    ensures Attempts(w, managed, c.read)
    ensures Pass(w, managed, c).outcome.report.level.Unknown? <==>
              || c.applied.Err? || c.applied.value == []
              || c.reread.Err? || (managed.Unmanaged? && !c.reread.value.complete)
  {
    hide AnalysisOf, Confirms, IncidentsOf;
    AnalysisMeans(managed, c.read);
    AnalysisMeans(managed, c.reread);
  }

  /** Whatever a backend answers, the lock is reported effective exactly when protection is on, no write failed
      and the last reading succeeded and shows NoAutoUpdate as the number 1. */
  lemma LockFlagExactly(w: Worker, managed: ManagementState, c: Calls)
    ensures Pass(w, managed, c).outcome.report.primaryLockEffective <==>
              && w.protect && WriteErrorOf(w, managed, c).None? && LastReading(w, managed, c).Ok?
              && Lookup(LastReading(w, managed, c).value.values, Key(WU_AU_KEY, "NoAutoUpdate")) == Some(Dword(1))
  {
    hide AnalysisOf, IncidentsOf, Attempts, Lookup;
    LockFlagOf(managed, c.read);
    LockFlagOf(managed, c.reread);
  }

  lemma LockFlagOf(managed: ManagementState, read: Result<PolicyReadback>)
    ensures AnalysisOf(managed, read).primaryLockEffective <==>
              read.Ok? && Lookup(read.value.values, Key(WU_AU_KEY, "NoAutoUpdate")) == Some(Dword(1))
  {
    hide Analysed, Lookup;
    match read
    case Ok(readback) => PrimaryLockExactly(readback, managed, None);
    case Err(error) => PrimaryLockExactly(PolicyReadback([], [], false), managed, Some(error));
  }

  /** When a pass writes: always after a failed read, and with repair on whenever an entry does not hold. */
  lemma AttemptsExactly(w: Worker, managed: ManagementState, read: Result<PolicyReadback>)
    ensures Attempts(w, managed, read) <==>
              w.protect && (read.Err? || (w.autoRestore && exists i :: 0 <= i < |ALL_DESIRED| && !EntryHolds(read.value.values, i)))
  {
    AnalysisMeans(managed, read);
    if read.Ok? {
      var values := read.value.values;
      forall i | 0 <= i < |ALL_DESIRED| ensures Satisfied(values, ALL_DESIRED[i]) <==> EntryHolds(values, i) {
        DeadlinesComeLast(i);
      }
      hide Satisfied, EntryHolds, AnalysisOf, ALL_DESIRED;
      if exists i :: 0 <= i < |ALL_DESIRED| && !EntryHolds(values, i) {
        var i :| 0 <= i < |ALL_DESIRED| && !EntryHolds(values, i);
        assert ALL_DESIRED[i] in ALL_DESIRED;
      }
    } else {
      hide AnalysisOf;
    }
  }

  /** What a pass keeps for the next one and reports besides the level: its counters, the tampered value it saw
      first, the number of values written, and the failure, a failed write before a failed read. */
  lemma RecordsOfAPass(w: Worker, managed: ManagementState, c: Calls)
    requires w.protect
    ensures var p := Pass(w, managed, c);
            var wrote := if Attempts(w, managed, c.read) && c.applied.Ok? then |c.applied.value| else 0;
            && p.worker.passes == w.passes + 1 && p.worker.totalWrites == w.totalWrites + wrote
            && p.worker.protect == w.protect && p.worker.autoRestore == w.autoRestore
            && p.worker.consecutiveFailures == (if c.read.Ok? then 0
                                                else if w.consecutiveFailures >= 0xFFFF_FFFF then 0xFFFF_FFFF
                                                else w.consecutiveFailures + 1)
            && p.outcome.writesPerformed == wrote
            && p.outcome.report.backendError == (if Attempts(w, managed, c.read) && c.applied.Err? then Some(c.applied.error)
                                                 else if c.read.Err? then Some(c.read.error) else None)
            && (c.read.Ok? ==>
                  var tamper := TamperFor(c.read.value.values, ALL_DESIRED);
                  p.worker.reportedTamper == if tamper == [] then None else Some(tamper[0].key.name))
            && (c.read.Err? ==> p.worker.reportedTamper == None && p.outcome.incidents == [])
            && (forall i :: i in p.outcome.incidents ==>
                  && i.events == AnalysisOf(managed, c.read).tamper && i.restored == (wrote > 0)
                  && i.error == if Attempts(w, managed, c.read) && c.applied.Err? then Some(c.applied.error) else None)
            && (var shown := AnalysisOf(managed, if wrote > 0 && c.reread.Ok? then c.reread else c.read);
                p.outcome.report.values == shown.values && p.outcome.report.deadlines == shown.deadlines)
  {
    if c.read.Ok? {
      AnalysedWrites(c.read.value, managed);
    }
    hide Analysed, TamperFor, ALL_DESIRED, Attempts;
    TamperOfFailure(managed, c.read);
  }

  /** With protection off a pass reports Unprotected, reads nothing, raises nothing and counts itself only. */
  lemma DisabledPass(w: Worker, managed: ManagementState, c: Calls)
    requires !w.protect
    ensures Pass(w, managed, c) == Passed(
              Worker(false, w.autoRestore, w.consecutiveFailures, w.reportedTamper, w.passes + 1, w.totalWrites),
              Outcome(Report(Unprotected, false, [], [], None), 0, []))
    ensures !Attempts(w, managed, c.read)
  {
  }

  lemma TamperOfFailure(managed: ManagementState, read: Result<PolicyReadback>)
    ensures read.Err? ==> AnalysisOf(managed, read).tamper == []
    ensures read.Ok? ==> AnalysisOf(managed, read) == Analysed(read.value, managed, None)
  {
    hide TamperFor, WritesFor, HazardsFor, StatusesFor, DeadlineStatuses, PrimaryLock, Verdict;
  }

  // --- On a store -------------------------------------------------------------------------------------

  /** The plan of the last reading, and whether a write failed, on a host. */
  function LastPlan(w: Worker, h: Host): ReadPlan {
    if WritesOf(w, h.management, h.Answers()) > 0 then h.second else h.first
  }

  predicate WriteFails(w: Worker, h: Host) {
    Attempts(w, h.management, h.Answers().read) && h.apply.Stops?
  }

  lemma CompleteReading(plan: ReadPlan, s: Store)
    ensures Confirms(ReadOf(plan, s)) <==> plan.Complete? && AllSatisfied(s)
  {
    hide AllSatisfied;
  }

  lemma ConformingIsSatisfied(s: Store)
    requires Conforms(s, ALL_DESIRED)
    ensures AllSatisfied(s)
  {
    hide ALL_DESIRED;
  }

  /** What a repair does to a pass: it writes exactly when the store does not conform to the whole
      list, and a pass that writes nothing and fails no write leaves the store as it is. */
  lemma RepairEffect(w: Worker, h: Host)
    ensures var attempts := Attempts(w, h.management, h.Answers().read);
            && (WritesOf(w, h.management, h.Answers()) > 0 <==>
                  attempts && h.apply.Applies? && !Conforms(h.store, ALL_DESIRED))
            && (WritesOf(w, h.management, h.Answers()) == 0 && !WriteFails(w, h) ==> StoreLeft(w, h) == h.store)
            && (h.first.Complete? ==> (attempts <==> w.protect && w.autoRestore && !AllSatisfied(h.store)))
            && (h.first.Complete? && attempts ==> !Conforms(h.store, ALL_DESIRED))
  {
    hide ALL_DESIRED, Written, ApplyAll, AnalysisOf, AllSatisfied, Conforms;
    AnalysisMeans(h.management, h.Answers().read);
    WrittenNothing(h.store, ALL_DESIRED);
    if Conforms(h.store, ALL_DESIRED) {
      ConformingIsSatisfied(h.store);
    }
  }

  /** The report is honest about the store, whatever call fails and however far a failing write gets:
      it says Protected exactly when protection is on, the host unmanaged, no write failed, the last
      read complete, and the store as the pass leaves it satisfies everything desired. */
  lemma ReportIsHonest(w: Worker, h: Host)
    ensures PassOn(w, h).outcome.report.level.Protected? <==>
              && w.protect && h.management.Unmanaged? && !WriteFails(w, h) && LastPlan(w, h).Complete?
              && AllSatisfied(StoreLeft(w, h))
  {
    hide AnalysisOf, AllSatisfied, Confirms, Pass, Written, ApplyAll, ALL_DESIRED, Conforms;
    ProtectedReportExactly(w, h.management, h.Answers());
    RepairEffect(w, h);
    CompleteReading(h.first, h.store);
    CompleteReading(h.second, StoreAfter(h.apply, h.store, ALL_DESIRED));
  }

  /** The lock flag is honest about the store: with protection on, no write failed and the last read complete,
      it is set exactly when the store as the pass leaves it holds the number 1 under NoAutoUpdate. */
  lemma LockFlagIsHonest(w: Worker, h: Host)
    requires w.protect && !WriteFails(w, h) && LastPlan(w, h).Complete?
    ensures PassOn(w, h).outcome.report.primaryLockEffective <==>
              Lookup(StoreLeft(w, h), Key(WU_AU_KEY, "NoAutoUpdate")) == Some(Dword(1))
  {
    hide AnalysisOf, AllSatisfied, Pass, Written, ApplyAll, ALL_DESIRED, Conforms, Lookup;
    LockFlagExactly(w, h.management, h.Answers());
    RepairEffect(w, h);
  }

  lemma RepairAchieves(s: Store)
    ensures AllSatisfied(ApplyAll(s, ALL_DESIRED))
  {
    hide ALL_DESIRED, ApplyAll, Satisfied;
    forall d | d in ALL_DESIRED ensures Satisfied(ApplyAll(s, ALL_DESIRED), d) {
      RepairSatisfies(s, ALL_DESIRED, d);
    }
  }

  /** A failed first read that ends Protected: of every store that does not conform, when the repair
      and the re-read work. The error is still carried. */
  lemma FailedReadCanEndProtected(w: Worker, h: Host)
    requires w.protect && h.management.Unmanaged? && !Conforms(h.store, ALL_DESIRED)
    requires h.first.ReadFails? && h.apply.Applies? && h.second.Complete?
    ensures var r := PassOn(w, h).outcome.report;
            r.level.Protected? && r.backendError == Some(h.first.error)
  {
    hide AnalysisOf, AllSatisfied, Written, ApplyAll, ALL_DESIRED, Conforms, Confirms;
    FailedReadExactly(w, h.management, h.Answers());
    RepairEffect(w, h);
    RepairAchieves(h.store);
    CompleteReading(h.second, ApplyAll(h.store, ALL_DESIRED));
    AnalysisMeans(h.management, h.Answers().reread);
  }

  lemma {:induction false} WantedIsOfPart(ws: seq<PolicyWrite>, n: nat, k: Key)
    requires n <= |ws| && forall d :: d in ws ==> d.key != k
    ensures Wanted(ws[..n], k).None?
  {
    NotWanted(ws[..n], k);
  }

  /** No pass, whatever fails, changes how a key outside the list reads. */
  lemma OtherKeysAreLeftAlone(w: Worker, h: Host, k: Key)
    requires forall d :: d in ALL_DESIRED ==> d.key != k
    ensures Lookup(StoreLeft(w, h), k) == Lookup(h.store, k)
  {
    hide ALL_DESIRED, AnalysisOf, ApplyAll, Lookup, Attempts;
    var n := if h.apply.Stops? then Min(h.apply.after, |ALL_DESIRED|) else |ALL_DESIRED|;
    assert ALL_DESIRED[..|ALL_DESIRED|] == ALL_DESIRED;
    WantedIsOfPart(ALL_DESIRED, n, k);
    ApplyLookup(h.store, ALL_DESIRED[..n], k);
  }

  /** A pass with repair whose read is complete and whose write works leaves everything satisfied. */
  lemma RepairingPassProtects(w: Worker, h: Host)
    requires w.protect && w.autoRestore && h.first.Complete? && h.apply.Applies?
    ensures AllSatisfied(StoreLeft(w, h))
  {
    hide ALL_DESIRED, AnalysisOf, AllSatisfied, ApplyAll, Written, Conforms, Attempts;
    RepairEffect(w, h);
    RepairAchieves(h.store);
  }

  /** The pass after one that worked, on what that one left, writes nothing, raises nothing and leaves the
      store as it is. */
  lemma NextPassIsSilent(w: Worker, h: Host, next: Host)
    requires w.autoRestore && h.Works() && next.first.Complete? && next.store == StoreLeft(w, h)
    ensures var second := PassOn(PassOn(w, h).worker, next);
            && second.outcome.writesPerformed == 0 && second.outcome.incidents == []
            && StoreLeft(PassOn(w, h).worker, next) == next.store
  {
    if w.protect {
      hide AnalysisOf, AllSatisfied, FinalReport, WritesOf, WriteErrorOf, StoreLeft, ApplyAll, Written, ALL_DESIRED, Conforms;
      RepairingPassProtects(w, h);
      AnalysisMeans(next.management, next.Answers().read);
      CompleteReading(next.first, next.store);
      RepairEffect(PassOn(w, h).worker, next);
    }
  }

  /** A repair that works writes the whole list, not only the entries found wanting: it creates the
      deadline values that were absent, although an absent deadline alone never causes a repair. */
  lemma RepairCreatesDeadlines(w: Worker, h: Host, d: PolicyWrite)
    requires w.protect && w.autoRestore && h.first.Complete? && h.apply.Applies? && d in ALL_DESIRED
    ensures !AllSatisfied(h.store) ==> Lookup(StoreLeft(w, h), d.key) == Some(d.value)
    ensures AllSatisfied(h.store) ==> StoreLeft(w, h) == h.store
  {
    hide ALL_DESIRED, AnalysisOf, AllSatisfied, ApplyAll, Lookup, Conforms, Written;
    RepairEffect(w, h);
    DesiredKeysAreDistinct();
    WantedOfDistinct(ALL_DESIRED, d);
    ApplyLookup(h.store, ALL_DESIRED, d.key);
  }

  // --- Runs of passes -----------------------------------------------------------------------------

  /** Passes of one worker; `hosts[k]` is what pass `k` meets, whatever changed it since pass `k - 1`
      and whatever fails in it. */
  datatype Run = Run(first: Worker, hosts: seq<Host>) {
    function WorkerAt(k: nat): Worker
      requires k <= |hosts|
    {
      if k == 0 then first else PassOn(WorkerAt(k - 1), hosts[k - 1]).worker
    }

    function At(k: nat): Passed
      requires k < |hosts|
    {
      PassOn(WorkerAt(k), hosts[k])
    }
  }

  lemma {:induction false} SettingsAreKept(run: Run, k: nat)
    requires k <= |run.hosts|
    ensures run.WorkerAt(k).protect == run.first.protect && run.WorkerAt(k).autoRestore == run.first.autoRestore
  {
    hide WritesOf, FinalReport, IncidentsOf, AnalysisOf;
    if k > 0 {
      SettingsAreKept(run, k - 1);
    }
  }

  /** In a run that repairs, every pass whose own calls work reports Protected on an unmanaged host,
      whatever failed or changed in the passes before. */
  lemma EveryWorkingPassProtects(run: Run, k: nat)
    requires k < |run.hosts| && run.first.protect && run.first.autoRestore
    requires run.hosts[k].management.Unmanaged? && run.hosts[k].Works()
    ensures run.At(k).outcome.report.level.Protected?
  {
    SettingsAreKept(run, k);
    hide Pass, AllSatisfied, StoreLeft, Attempts, WritesOf;
    RepairingPassProtects(run.WorkerAt(k), run.hosts[k]);
    ReportIsHonest(run.WorkerAt(k), run.hosts[k]);
  }

  function TamperSeen(h: Host): Option<string> {
    FirstTampered(AnalysisOf(h.management, h.Answers().read))
  }

  /** The pass repairs what it found: repair is on, and its write worked and wrote something. */
  predicate RepairsFound(run: Run, k: nat)
    requires k < |run.hosts|
  {
    run.first.autoRestore && run.hosts[k].apply.Applies? && !Conforms(run.hosts[k].store, ALL_DESIRED)
  }

  /** When a pass raises an incident, judged from what this pass and the one before it found: for a first
      tampered value that the pass before did not find first, and for any tampering that this pass does
      not repair, be it because repair is off or because the write fails. With repair off, or while
      writes fail, that is every pass that finds tampering, although the source promises one report a
      divergence. */
  lemma IncidentsExactly(run: Run, k: nat)
    requires 0 < k < |run.hosts| && run.first.protect
    ensures var now, before := TamperSeen(run.hosts[k]), TamperSeen(run.hosts[k - 1]);
            |run.At(k).outcome.incidents| == Once(now.Some? && (now != before || !RepairsFound(run, k)))
  {
    SettingsAreKept(run, k);
    SettingsAreKept(run, k - 1);
    hide AnalysisOf, FinalReport, AllSatisfied, ALL_DESIRED, Conforms, Written, ApplyAll;
    var w, h := run.WorkerAt(k), run.hosts[k];
    AnalysisMeans(h.management, h.Answers().read);
    RepairEffect(w, h);
    assert w == PassOn(run.WorkerAt(k - 1), run.hosts[k - 1]).worker;
    assert w.reportedTamper == TamperSeen(run.hosts[k - 1]);
  }
}

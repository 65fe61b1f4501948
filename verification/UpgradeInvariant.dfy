/** The invariant of the upgrade machine, and that every allowed event keeps it. */
module UpgradeInvariant {
  import opened Options
  import opened UpgradeProtocol
  import opened UpgradeMachine
  import Semver
  import Text

  // ----- which programs may be installed -----

  /** The complete bytes that a directive announces. */
  predicate Checked(h: Host, d: Directive, b: Bytes) {
    |b| == d.sizeBytes && |b| <= DOWNLOAD_CAP && h.digest(b) == Text.ToLower(d.sha256)
  }

  /** A checked download that also passed the smoke test. */
  predicate Vetted(h: Host, d: Directive, b: Bytes) {
    Checked(h, d, b) && Text.Contains(h.selfReport(b), d.targetVersion)
  }

  ghost predicate Good(h: Host, original: Bytes, issued: set<Directive>, b: Bytes) {
    b == original || exists d | d in issued :: Vetted(h, d, b)
  }

  /** Some directive that started a run asked for this. */
  ghost predicate Asked(issued: set<Directive>, requestId: string, version: string) {
    exists d | d in issued :: d.requestId == requestId && d.targetVersion == version
  }

  lemma AskedBy(issued: set<Directive>, d: Directive)
    requires d in issued
    ensures Asked(issued, d.requestId, d.targetVersion)
  {
  }

  lemma AskedGrows(issued: set<Directive>, d: Directive, requestId: string, version: string)
    requires Asked(issued, requestId, version)
    ensures Asked(issued + {d}, requestId, version)
  {
  }

  // ----- what a run sends -----

  function ProgressReports(d: Directive, version: string, progress: seq<int>): (r: seq<Status>)
    ensures |r| == |progress|
  {
    seq(|progress|, i requires 0 <= i < |progress| =>
      Status(d.requestId, Downloading, d.targetVersion, version, Some(progress[i]), None))
  }

  function StageReports(d: Directive, version: string): seq<Status> {
    [Status(d.requestId, Verifying, d.targetVersion, version, None, None),
     Status(d.requestId, Installing, d.targetVersion, version, None, None),
     Status(d.requestId, Restarting, d.targetVersion, version, None, None)]
  }

  /** Download percentages, then a prefix of the later stages, then at most one failure. */
  function Trace(d: Directive, version: string, progress: seq<int>, stage: nat, failure: Option<Reason>): seq<Status>
    requires stage <= 3
  {
    ProgressReports(d, version, progress) + StageReports(d, version)[..stage]
    + (if failure.Some? then [Status(d.requestId, Failed, d.targetVersion, version, None, failure)] else [])
  }

  predicate Rising(progress: seq<int>) {
    forall i | 0 <= i < |progress| ::
      PROGRESS_STEP <= progress[i] <= 100 && (i > 0 ==> progress[i] >= progress[i - 1] + PROGRESS_STEP)
  }

  function Last(progress: seq<int>): int {
    if progress == [] then 0 else progress[|progress| - 1]
  }

  /** A percentage is only reported for bytes that were received, and only if a size was announced. */
  predicate Backed(run: RunLog) {
    run.progress != [] ==>
      && run.directive.sizeBytes > 0
      && Last(run.progress) * run.directive.sizeBytes <= 100 * run.received
  }

  // ----- the invariant -----

  /** The backup holds the original; without a backup the executable is the original. */
  predicate Restorable(s: State)
    requires Exe in s.disk.files
  {
    if Backup in s.disk.files then s.disk.files[Backup] == s.hist.base else s.disk.files[Exe] == s.hist.base
  }

  predicate AtBase(s: State) {
    Exe in s.disk.files && s.disk.files[Exe] == s.hist.base
  }

  predicate BackedUp(s: State) {
    Backup in s.disk.files && s.disk.files[Backup] == s.hist.base
  }

  ghost predicate TxInv(h: Host, s: State, tx: Transaction)
    requires Exe in s.disk.files
  {
    && h.hasStateDir && tx.backupPath == Backup && tx.at == s.hist.recordedAt
    && Asked(s.hist.issued, tx.requestId, tx.toVersion) && Known(h, tx.fromVersion)
    && (if tx.phase == Pending then
          && tx.attempts < MAX_START_ATTEMPTS && Restorable(s)
          && tx.attempts <= s.hist.starts && tx.probeFailures <= s.hist.lateFailures
        else AtBase(s))
  }

  ghost predicate DiskInv(h: Host, original: Bytes, s: State) {
    && Exe in s.disk.files
    && Good(h, original, s.hist.issued, s.disk.files[Exe])
    && Good(h, original, s.hist.issued, s.hist.base)
    && (s.disk.tx.Some? ==> TxInv(h, s, s.disk.tx.value))
  }

  predicate LogInv(s: State) {
    var run := s.hist.run;
    && run.stage <= 3
    && run.report == Trace(run.directive, run.version, run.progress, run.stage, run.failure)
    && Rising(run.progress) && Backed(run)
    && s.hist.before + run.report <= s.sent
    && (InRun(s.pc) ==>
          && s.hist.before + run.report == s.sent && run.failure.None? && !run.crashed
          && run.version == s.mem.version)
    && (!InRun(s.pc) ==> run.crashed || run.failure.Some? || run.stage == 3 || s.hist.issued == {})
  }

  /** A version text that a process can have: the one compiled into some program, or none. */
  ghost predicate Known(h: Host, version: string) {
    version == "" || exists b :: h.versionOf(b) == version
  }

  ghost predicate SentInv(h: Host, s: State) {
    && Known(h, s.mem.version)
    && (forall st | st in s.sent :: Sound(st) && Known(h, st.fromVersion)
         && Asked(s.hist.issued, st.requestId, st.targetVersion))
  }

  /** The transaction a handler holds is the one on disk, apart from a counter it is about to raise. */
  predicate Holds(s: State, tx: Transaction) {
    s.disk.tx.Some? && s.disk.tx.value.phase == Pending
    && s.disk.tx.value.(attempts := tx.attempts, probeFailures := tx.probeFailures) == tx
  }

  predicate HoldsForRollback(s: State, tx: Transaction, who: Caller) {
    && Holds(s, tx)
    && tx.attempts == s.disk.tx.value.attempts + (if who == AtStart then 1 else 0)
    && (who == AtStart ==> tx.attempts == MAX_START_ATTEMPTS)
  }

  predicate GoneTemp(s: State) {
    s.hist.run.temp.Some? ==> s.hist.run.temp.value !in s.disk.files
  }

  predicate OnRun(s: State, d: Directive) {
    d in s.hist.issued && d == s.hist.run.directive
  }

  /** On disk is what the run found there: no transaction, or the marker of an earlier rollback. */
  predicate AsFound(s: State) {
    s.disk.tx == s.hist.found && !PendingOnDisk(s)
  }

  /** A run that has not touched the executable nor recorded a transaction. */
  predicate Untouched(s: State, d: Directive) {
    OnRun(s, d) && AsFound(s) && AtBase(s) && !s.hist.residue && !s.hist.stuck
  }

  predicate Downloading0(s: State, d: Directive, tmp: Path) {
    Untouched(s, d) && tmp.Temp? && s.hist.run.temp == Some(tmp) && s.hist.run.stage == 0
  }

  predicate Downloaded(h: Host, s: State, d: Directive, tmp: Path, stage: nat) {
    Untouched(s, d) && tmp.Temp? && s.hist.run.temp == Some(tmp) && s.hist.run.stage == stage
    && tmp in s.disk.files && Checked(h, d, s.disk.files[tmp])
  }

  predicate ReadyToInstall(h: Host, s: State, d: Directive, tmp: Path) {
    Downloaded(h, s, d, tmp, 2) && Vetted(h, d, s.disk.files[tmp])
  }

  /** The transaction on disk is the one the run wrote. */
  predicate Recorded(s: State, d: Directive) {
    s.disk.tx.Some? && s.disk.tx.value == NewTransaction(d, s.mem.version, s.disk.tx.value.at)
  }

  /** The new program is in place and the old one in the backup. */
  predicate Installed(h: Host, s: State, d: Directive, stage: nat) {
    && OnRun(s, d) && s.hist.run.stage == stage && !s.hist.residue && !s.hist.stuck && GoneTemp(s)
    && Exe in s.disk.files && Vetted(h, d, s.disk.files[Exe]) && BackedUp(s) && Recorded(s, d)
  }

  /** The executable as a failing run leaves it. */
  predicate LeftOver(h: Host, s: State, why: Reason) {
    && Exe in s.disk.files
    && (if s.hist.stuck then why == ExecFailed && BackedUp(s)
         && Vetted(h, s.hist.run.directive, s.disk.files[Exe]) else AtBase(s))
    && (!s.hist.residue ==> GoneTemp(s))
  }

  predicate PcInv(h: Host, s: State) {
    match s.pc
    case Locating(d) =>
      && Untouched(s, d) && s.hist.run.stage == 0 && s.hist.run.temp.None?
      && s.hist.run.progress == [] && s.hist.run.received == 0
    case Fetching(d, tmp) => Downloading0(s, d, tmp) && s.hist.run.progress == [] && s.hist.run.received == 0
    case Creating(d, tmp) => Downloading0(s, d, tmp) && s.hist.run.progress == [] && s.hist.run.received == 0
    case Copying(d, tmp, m) =>
      && Downloading0(s, d, tmp) && tmp in s.disk.files && |s.disk.files[tmp]| == m.read <= Limit(d) + 1
      && s.hist.run.received == m.read && m.lastPct == Last(s.hist.run.progress)
    case Closing(d, tmp, n) =>
      Downloading0(s, d, tmp) && tmp in s.disk.files && |s.disk.files[tmp]| == n <= Limit(d) + 1
      && s.hist.run.received == n
    case Chmodding(d, tmp) => Downloaded(h, s, d, tmp, 1)
    case Smoking(d, tmp) => Downloaded(h, s, d, tmp, 1)
    case OpeningBackup(d, tmp) => ReadyToInstall(h, s, d, tmp)
    case CopyingBackup(d, tmp, n) =>
      && ReadyToInstall(h, s, d, tmp) && n <= |s.hist.base|
      && Backup in s.disk.files && s.disk.files[Backup] == s.hist.base[..n]
    case Recording(d, tmp) => ReadyToInstall(h, s, d, tmp) && BackedUp(s)
    case Swapping(d, tmp) =>
      && ReadyToInstall(h, s.(disk := s.disk.(tx := s.hist.found)), d, tmp) && BackedUp(s) && Recorded(s, d)
    case Marking(d, rec) => Installed(h, s, d, 2)
    case Execing(d) => Installed(h, s, d, 3)
    case RestoringRun(d) => Installed(h, s, d, 3)
    case Discarding(d, tmp, why, clear) =>
      && OnRun(s, d) && tmp.Temp? && s.hist.run.temp == Some(tmp) && AtBase(s) && !s.hist.residue && !s.hist.stuck
      && (!clear ==> AsFound(s))
    case ClearingRun(d, why) => OnRun(s, d) && LeftOver(h, s, why)
    case SavingAttempt(_) =>
      && s.hist.run.failure.Some? && LeftOver(h, s, s.hist.run.failure.value)
      && (!s.hist.residue ==> s.disk.tx.None? || AsFound(s))
    case CountingStart(tx) => Holds(s, tx) && tx == s.disk.tx.value.(attempts := s.disk.tx.value.attempts + 1)
      && tx.attempts < MAX_START_ATTEMPTS && tx.attempts <= s.hist.starts
    case CountingProbe(tx) =>
      && Holds(s, tx) && tx == s.disk.tx.value.(probeFailures := s.disk.tx.value.probeFailures + 1)
      && tx.probeFailures <= s.hist.lateFailures
    case RbLocating(tx, who) => HoldsForRollback(s, tx, who)
    case RbStatting(tx, who) => HoldsForRollback(s, tx, who)
    case RbClearing(tx, who) => HoldsForRollback(s, tx, who)
    case RbRenaming(tx, who) => HoldsForRollback(s, tx, who) && Backup in s.disk.files
    case RbMarking(tx, who) => HoldsForRollback(s, tx, who) && AtBase(s)
    case RbExecing(_) => AtBase(s)
    case _ => true
  }

  /** Without a fault the start counter is exact; it is one behind while a start is being counted. */
  predicate StartInv(s: State) {
    PendingOnDisk(s) && !s.hist.startFault ==>
      s.hist.starts == s.disk.tx.value.attempts + (if s.pc.CountingStart? || RollingBackAtStart(s.pc) then 1 else 0)
  }

  ghost predicate Inv(h: Host, original: Bytes, s: State) {
    DiskInv(h, original, s) && LogInv(s) && SentInv(h, s) && PcInv(h, s) && StartInv(s)
  }

  /** The assumption: a run finds no pending transaction on disk. */
  predicate Allowed(s: State, e: Event) {
    e.Deliver? && StartsRun(s, e.d) ==> !PendingOnDisk(s)
  }

  lemma InitialInv(h: Host, program: Bytes, now: int)
    ensures Inv(h, program, Initial(program, now))
  {
  }

  // ----- preservation -----

  lemma TraceGrows(d: Directive, version: string, progress: seq<int>, stage: nat, pct: int, why: Reason)
    requires stage <= 3
    ensures Trace(d, version, progress + [pct], 0, None)
         == Trace(d, version, progress, 0, None) + [RunStatus(d, version, Downloading, Some(pct), None)]
    ensures stage < 3 ==>
      Trace(d, version, progress, stage + 1, None) == Trace(d, version, progress, stage, None)
        + [StageReports(d, version)[stage]]
    ensures Trace(d, version, progress, stage, Some(why))
         == Trace(d, version, progress, stage, None) + [RunStatus(d, version, Failed, None, Some(why))]
  {
    assert ProgressReports(d, version, progress + [pct])
        == ProgressReports(d, version, progress) + [RunStatus(d, version, Downloading, Some(pct), None)];
  }

  // The log and the soundness of what is sent.

  /** A step that sends nothing, and stays in the run or was already outside. */
  lemma LogFrame(h: Host, s: State, s': State)
    requires LogInv(s) && SentInv(h, s)
    requires s'.sent == s.sent && s'.hist.before == s.hist.before && s'.hist.issued == s.hist.issued
      && s'.hist.run.(temp := s.hist.run.temp, received := s.hist.run.received) == s.hist.run
      && s.hist.run.received <= s'.hist.run.received
    requires InRun(s'.pc) ==> InRun(s.pc) && s'.mem.version == s.mem.version
    requires s'.mem.version == s.mem.version || Known(h, s'.mem.version)
    requires InRun(s.pc) && !InRun(s'.pc) ==> s.hist.run.stage == 3
    ensures LogInv(s') && SentInv(h, s')
  {
    hide Trace, Sound, Known, Asked;
  }

  /** A status sent outside a run. */
  lemma LogAppend(h: Host, s: State, s': State, st: Status)
    requires LogInv(s) && SentInv(h, s) && !InRun(s.pc) && !InRun(s'.pc)
    requires s'.sent == s.sent + [st] && Sound(st) && Known(h, st.fromVersion) && s'.mem.version == s.mem.version
    requires Asked(s.hist.issued, st.requestId, st.targetVersion)
    requires s'.hist.before == s.hist.before && s'.hist.issued == s.hist.issued && s'.hist.run == s.hist.run
    ensures LogInv(s') && SentInv(h, s')
  {
    hide Trace, Sound, Known, Asked;
  }

  lemma RunStatusSound(d: Directive, version: string, state: Stage, progress: Option<int>, reason: Option<Reason>)
    requires progress.Some? ==> state == Downloading && 0 <= progress.value <= 100
    requires reason.Some? <==> state == Failed || state == RolledBack
    ensures Sound(RunStatus(d, version, state, progress, reason))
  {
  }

  /** The run sends its next status: the log grows by it and stays in shape. */
  lemma LogEmit(h: Host, s: State, s': State, st: Status)
    requires LogInv(s) && SentInv(h, s) && InRun(s.pc)
    requires s'.sent == s.sent + [st] && Sound(st) && Known(h, st.fromVersion) && s'.mem.version == s.mem.version
    requires Asked(s.hist.issued, st.requestId, st.targetVersion)
    requires s'.hist.before == s.hist.before && s'.hist.issued == s.hist.issued
    requires s'.hist.run.report == s.hist.run.report + [st]
    requires s'.hist.run.stage <= 3 && Rising(s'.hist.run.progress) && Backed(s'.hist.run)
    requires s'.hist.run.report == Trace(s'.hist.run.directive, s'.hist.run.version, s'.hist.run.progress,
      s'.hist.run.stage, s'.hist.run.failure)
    requires InRun(s'.pc) ==> s'.hist.run.failure.None? && !s'.hist.run.crashed && s'.hist.run.version == s'.mem.version
    requires !InRun(s'.pc) ==> s'.hist.run.failure.Some? || s'.hist.run.stage == 3
    ensures LogInv(s') && SentInv(h, s')
  {
    hide Trace, Sound, Rising, Known, Asked;
    assert s'.hist.before + s'.hist.run.report == s'.sent;
  }

  lemma FailsLog(h: Host, s: State, d: Directive, why: Reason)
    requires LogInv(s) && SentInv(h, s) && InRun(s.pc) && OnRun(s, d)
    ensures LogInv(Fails(s, d, why)) && SentInv(h, Fails(s, d, why))
  {
    hide Trace, Sound, Known, Asked;
    AskedBy(s.hist.issued, d);
    var run := s.hist.run;
    TraceGrows(run.directive, run.version, run.progress, run.stage, 0, why);
    RunStatusSound(d, s.mem.version, Failed, None, Some(why));
    LogEmit(h, s, Fails(s, d, why), RunStatus(d, s.mem.version, Failed, None, Some(why)));
  }

  lemma StageLog(h: Host, s: State, d: Directive, state: Stage, pc: Pc)
    requires LogInv(s) && SentInv(h, s) && InRun(s.pc) && OnRun(s, d) && s.hist.run.stage < 3
    requires StageReports(d, s.mem.version)[s.hist.run.stage] == RunStatus(d, s.mem.version, state, None, None)
    requires InRun(pc) || s.hist.run.stage == 2
    ensures LogInv(EmitStage(s, d, state).(pc := pc)) && SentInv(h, EmitStage(s, d, state).(pc := pc))
  {
    hide Trace, Sound, Known, Asked;
    AskedBy(s.hist.issued, d);
    var run := s.hist.run;
    TraceGrows(run.directive, run.version, run.progress, run.stage, 0, DownloadFailed);
    RunStatusSound(d, s.mem.version, state, None, None);
    LogEmit(h, s, EmitStage(s, d, state).(pc := pc), RunStatus(d, s.mem.version, state, None, None));
  }

  lemma PercentBacked(read: nat, total: int)
    requires total > 0
    ensures Percent(read, total) * total <= 100 * read
  {
    var q := read * 100 / total;
    QuotientTimes(read * 100, total);
    if q > 100 {
      TimesMonotone(100, q, total);
    }
  }

  lemma QuotientTimes(x: int, y: int)
    requires y > 0
    ensures x / y * y <= x
  {
    assert x / y * y + x % y == x;
  }

  lemma TimesMonotone(a: int, b: int, y: int)
    requires a <= b && y >= 0
    ensures a * y <= b * y
  {
    assert (b - a) * y >= 0;
  }

  lemma ReadLog(h: Host, s: State, d: Directive, m: Meter, n: nat)
    requires LogInv(s) && SentInv(h, s) && InRun(s.pc) && OnRun(s, d) && s.hist.run.stage == 0
    requires m.lastPct == Last(s.hist.run.progress) && s.hist.run.received == m.read
    ensures LogInv(AfterRead(s, d, m, n)) && SentInv(h, AfterRead(s, d, m, n))
    ensures MeterAfter(d, m, n, s.now).lastPct == Last(AfterRead(s, d, m, n).hist.run.progress)
  {
    hide Trace, Sound, Known, Asked, Percent;
    AskedBy(s.hist.issued, d);
    var run := s.hist.run;
    if Reports(d, m, m.read + n, s.now) {
      var pct := Percent(m.read + n, d.sizeBytes);
      PercentBacked(m.read + n, d.sizeBytes);
      TraceGrows(run.directive, run.version, run.progress, 0, pct, DownloadFailed);
      RunStatusSound(d, s.mem.version, Downloading, Some(pct), None);
      LogEmit(h, s, AfterRead(s, d, m, n), RunStatus(d, s.mem.version, Downloading, Some(pct), None));
    } else {
      LogFrame(h, s, AfterRead(s, d, m, n));
    }
  }

  predicate FetchPc(pc: Pc) {
    pc.Locating? || pc.Fetching? || pc.Creating?
  }

  predicate CheckPc(pc: Pc) {
    pc.Closing? || pc.Chmodding? || pc.Smoking?
  }

  predicate BackupPc(pc: Pc) {
    pc.OpeningBackup? || pc.CopyingBackup?
  }

  predicate ReplacePc(pc: Pc) {
    pc.Recording? || pc.Swapping? || pc.Marking?
  }

  predicate RestartPc(pc: Pc) {
    pc.Execing? || pc.RestoringRun? || pc.SavingAttempt?
  }

  predicate FailurePc(pc: Pc) {
    pc.Discarding? || pc.ClearingRun?
  }

  predicate StartPc(pc: Pc) {
    pc.Starting? || pc.CountingStart? || pc.LoadingAttempt? || pc.ArmingWatchdog?
  }

  predicate LookPc(pc: Pc) {
    pc.RbLocating? || pc.RbStatting? || pc.RbExecing?
  }

  predicate ConnectionPc(pc: Pc) {
    pc.Confirming? || pc.CountingProbe? || pc.SavingReport? || pc.ClearingReport?
  }

  // Which part of the machine a step belongs to.

  lemma StepIsDownload(h: Host, s: State, o: Outcome)
    requires s.pc.Locating? || s.pc.Fetching? || s.pc.Creating? || s.pc.Copying? || s.pc.Closing? || s.pc.Chmodding?
      || s.pc.Smoking?
    ensures Step(h, s, o) == DownloadStep(h, s, o)
  {
    hide DownloadStep;
  }

  lemma StepIsInstall(h: Host, s: State, o: Outcome)
    requires s.pc.OpeningBackup? || s.pc.CopyingBackup? || s.pc.Recording? || s.pc.Swapping? || s.pc.Marking?
    ensures Step(h, s, o) == InstallStep(h, s, o)
  {
    hide InstallStep;
  }

  lemma StepIsFinish(h: Host, s: State, o: Outcome)
    requires s.pc.Execing? || s.pc.RestoringRun? || s.pc.Discarding? || s.pc.ClearingRun? || s.pc.SavingAttempt?
    ensures Step(h, s, o) == FinishStep(h, s, o)
  {
    hide FinishStep;
  }

  lemma StepIsStart(h: Host, s: State, o: Outcome)
    requires s.pc.Starting? || s.pc.CountingStart? || s.pc.LoadingAttempt? || s.pc.ArmingWatchdog?
    ensures Step(h, s, o) == StartStep(h, s, o)
  {
    hide StartStep;
  }

  lemma StepIsRollback(h: Host, s: State, o: Outcome)
    requires s.pc.RbLocating? || s.pc.RbStatting? || s.pc.RbClearing? || s.pc.RbRenaming? || s.pc.RbMarking?
      || s.pc.RbExecing?
    ensures Step(h, s, o) == RollbackStep(h, s, o)
  {
    hide RollbackStep;
  }

  lemma StepIsConnection(h: Host, s: State, o: Outcome)
    requires s.pc.Confirming? || s.pc.CountingProbe? || s.pc.SavingReport? || s.pc.ClearingReport?
    ensures Step(h, s, o) == ConnectionStep(h, s, o)
  {
    hide ConnectionStep;
  }

  lemma FetchLog(h: Host, s: State, o: Outcome)
    requires LogInv(s) && SentInv(h, s) && PcInv(h, s) && FetchPc(s.pc)
    ensures LogInv(Step(h, s, o)) && SentInv(h, Step(h, s, o))
  {
    hide Step, InstallStep, FinishStep, StartStep, RollbackStep, ConnectionStep, LogInv, SentInv;
    StepIsDownload(h, s, o);
    if s.pc.Locating? && !o.Ok? {
      FailsLog(h, s, s.pc.d, ReplaceFailed);
    } else {
      LogFrame(h, s, Step(h, s, o));
    }
  }

  lemma CheckLog(h: Host, s: State, o: Outcome)
    requires LogInv(s) && SentInv(h, s) && PcInv(h, s) && CheckPc(s.pc)
    ensures LogInv(Step(h, s, o)) && SentInv(h, Step(h, s, o))
  {
    hide Step, InstallStep, FinishStep, StartStep, RollbackStep, ConnectionStep, LogInv, SentInv, Text.Contains,
      Checked;
    StepIsDownload(h, s, o);
    var s' := Step(h, s, o);
    if s.pc.Closing? && s'.pc.Chmodding? {
      StageLog(h, s, s.pc.d, Verifying, s'.pc);
    } else if s.pc.Smoking? && s'.pc.OpeningBackup? {
      StageLog(h, s, s.pc.d, Installing, s'.pc);
    } else {
      LogFrame(h, s, s');
    }
  }

  lemma CopyLog(h: Host, s: State, o: Outcome)
    requires LogInv(s) && SentInv(h, s) && PcInv(h, s) && s.pc.Copying?
    ensures LogInv(Step(h, s, o)) && SentInv(h, Step(h, s, o))
  {
    hide Step, InstallStep, FinishStep, StartStep, RollbackStep, ConnectionStep, LogInv, SentInv, Reports;
    StepIsDownload(h, s, o);
    var Copying(d, tmp, m) := s.pc;
    if m.read > Limit(d) {
      LogFrame(h, s, Step(h, s, o));
    } else {
      ReadLog(h, s, d, m, BytesRead(d, m, o));
      LogFrame(h, AfterRead(s, d, m, BytesRead(d, m, o)), Step(h, s, o));
    }
  }

  /** The number of bytes that one read of the download delivers. */
  function BytesRead(d: Directive, m: Meter, o: Outcome): nat
    requires m.read <= Limit(d)
  {
    match o
    case Data(data) => |Upto(data, Limit(d) + 1 - m.read)|
    case Broken(data, _) => |Upto(data, Limit(d) + 1 - m.read)|
    case _ => 0
  }

  lemma InstallLog(h: Host, s: State, o: Outcome)
    requires LogInv(s) && SentInv(h, s) && PcInv(h, s) && (BackupPc(s.pc) || ReplacePc(s.pc))
    ensures LogInv(Step(h, s, o)) && SentInv(h, Step(h, s, o))
  {
    hide Step, DownloadStep, FinishStep, StartStep, RollbackStep, ConnectionStep, LogInv, SentInv, Text.Contains,
      Checked;
    StepIsInstall(h, s, o);
    match s.pc
    case Marking(d, rec) =>
      var saved := s.(disk := AttemptSaved(h, s.disk, rec, o));
      LogFrame(h, s, saved);
      StageLog(h, saved, d, Restarting, if h.canExec then Execing(d) else Idle);
    case _ => LogFrame(h, s, Step(h, s, o));
  }

  lemma RestartLog(h: Host, s: State, o: Outcome)
    requires LogInv(s) && SentInv(h, s) && PcInv(h, s) && RestartPc(s.pc)
    ensures LogInv(Step(h, s, o)) && SentInv(h, Step(h, s, o))
  {
    hide Step, DownloadStep, InstallStep, StartStep, RollbackStep, ConnectionStep, LogInv, SentInv, Text.Contains,
      Checked;
    StepIsFinish(h, s, o);
    LogFrame(h, s, Step(h, s, o));
  }

  lemma DiscardLog(h: Host, s: State, o: Outcome)
    requires LogInv(s) && SentInv(h, s) && PcInv(h, s) && s.pc.Discarding?
    ensures LogInv(Step(h, s, o)) && SentInv(h, Step(h, s, o))
  {
    hide Step, DownloadStep, InstallStep, StartStep, RollbackStep, ConnectionStep, LogInv, SentInv;
    StepIsFinish(h, s, o);
    var Discarding(d, tmp, why, clear) := s.pc;
    var s' := if o.Ok? then s.(disk := s.disk.(files := Removed(s.disk.files, tmp)))
              else s.(hist := s.hist.(residue := s.hist.residue || tmp in s.disk.files));
    LogFrame(h, s, s');
    if clear { LogFrame(h, s, Step(h, s, o)); } else { FailsLog(h, s', d, why); }
  }

  lemma ClearLog(h: Host, s: State, o: Outcome)
    requires LogInv(s) && SentInv(h, s) && PcInv(h, s) && s.pc.ClearingRun?
    ensures LogInv(Step(h, s, o)) && SentInv(h, Step(h, s, o))
  {
    hide Step, DownloadStep, InstallStep, StartStep, RollbackStep, ConnectionStep, LogInv, SentInv, Checked,
      Text.Contains;
    StepIsFinish(h, s, o);
    var ClearingRun(d, why) := s.pc;
    var s' := s.(disk := TxCleared(s.disk, o),
      hist := s.hist.(residue := s.hist.residue || (!o.Ok? && s.disk.tx.Some?)));
    LogFrame(h, s, s');
    FailsLog(h, s', d, why);
  }

  lemma TxStatusSound(tx: Transaction, state: Stage, reason: Reason)
    requires state == Failed || state == RolledBack
    ensures Sound(TxStatus(tx, state, reason))
  {
  }

  lemma GiveUpLog(h: Host, original: Bytes, s: State, o: Outcome)
    requires Inv(h, original, s) && s.pc.RbClearing?
    ensures LogInv(Step(h, s, o)) && SentInv(h, Step(h, s, o))
  {
    hide Step, DownloadStep, InstallStep, FinishStep, StartStep, ConnectionStep, LogInv, SentInv, Asked, Sound,
      Good;
    StepIsRollback(h, s, o);
    var RbClearing(tx, who) := s.pc;
    if who == AtStart {
      LogFrame(h, s, Step(h, s, o));
    } else {
      TxStatusSound(tx, Failed, ReplaceFailed);
      LogAppend(h, s, Step(h, s, o), TxStatus(tx, Failed, ReplaceFailed));
    }
  }

  // The other steps of a start, a rollback and a connection event send nothing.

  lemma StartSilent(h: Host, s: State, o: Outcome)
    requires LogInv(s) && SentInv(h, s) && StartPc(s.pc)
    ensures LogInv(Step(h, s, o)) && SentInv(h, Step(h, s, o))
  {
    hide Step, DiskInv, PcInv, StartInv, DownloadStep, InstallStep, FinishStep, RollbackStep, ConnectionStep,
      LogInv, SentInv;
    StepIsStart(h, s, o);
    LogFrame(h, s, Step(h, s, o));
  }

  lemma ConnectionSilent(h: Host, s: State, o: Outcome)
    requires LogInv(s) && SentInv(h, s) && ConnectionPc(s.pc)
    ensures LogInv(Step(h, s, o)) && SentInv(h, Step(h, s, o))
  {
    hide Step, DownloadStep, InstallStep, FinishStep, StartStep, RollbackStep, LogInv, SentInv;
    StepIsConnection(h, s, o);
    LogFrame(h, s, Step(h, s, o));
  }

  lemma LookSilent(h: Host, s: State, o: Outcome)
    requires LogInv(s) && SentInv(h, s) && LookPc(s.pc)
    ensures LogInv(Step(h, s, o)) && SentInv(h, Step(h, s, o))
  {
    hide Step, DownloadStep, InstallStep, FinishStep, StartStep, ConnectionStep, LogInv, SentInv;
    StepIsRollback(h, s, o);
    LogFrame(h, s, Step(h, s, o));
  }

  lemma RestoreSilent(h: Host, s: State, o: Outcome)
    requires LogInv(s) && SentInv(h, s) && (s.pc.RbRenaming? || s.pc.RbMarking?)
    ensures LogInv(Step(h, s, o)) && SentInv(h, Step(h, s, o))
  {
    hide Step, DownloadStep, InstallStep, FinishStep, StartStep, ConnectionStep, LogInv, SentInv;
    StepIsRollback(h, s, o);
    LogFrame(h, s, Step(h, s, o));
  }

  lemma EventLog(h: Host, original: Bytes, s: State, e: Event)
    requires Inv(h, original, s) && Allowed(s, e) && !e.Op?
    ensures LogInv(Apply(h, s, e)) && SentInv(h, Apply(h, s, e))
  {
    hide Trace, Checked, Vetted, StartInv, Asked, Sound, Good;
    match e
    case Crash =>
    case Deliver(d) =>
      if StartsRun(s, d) {
        BeginLog(h, s, d);
      }
    case Connected(readable) => ConnectedLog(h, original, s, readable);
    case _ =>
      hide TxInv, PcInv;
      LogFrame(h, s, Apply(h, s, e));
  }

  lemma ConnectedLog(h: Host, original: Bytes, s: State, readable: bool)
    requires Inv(h, original, s)
    ensures LogInv(Apply(h, s, Connected(readable))) && SentInv(h, Apply(h, s, Connected(readable)))
  {
    hide Trace, Checked, Vetted, StartInv, Asked, Sound, Good, PcInv;
    var s' := Apply(h, s, Connected(readable));
    if s'.sent != s.sent {
      var tx := s.disk.tx.value;
      var st := TxStatus(tx, RolledBack, if tx.reason.None? then NotConnectedAfterUpgrade else tx.reason.value);
      TxStatusSound(tx, RolledBack, st.reason.value);
      LogAppend(h, s, s', st);
    } else {
      LogFrame(h, s, s');
    }
  }

  lemma BeginLog(h: Host, s: State, d: Directive)
    requires LogInv(s) && SentInv(h, s) && StartsRun(s, d)
    ensures LogInv(BeginRun(h, s, d)) && SentInv(h, BeginRun(h, s, d))
  {
    hide Sound, Trace, Known, Asked;
    forall st | st in s.sent ensures Asked(s.hist.issued + {d}, st.requestId, st.targetVersion) {
      AskedGrows(s.hist.issued, d, st.requestId, st.targetVersion);
    }
    var base := if Exe in s.disk.files then s.disk.files[Exe] else [];
    var s' := s.(hist := s.hist.(base := base, found := s.disk.tx, issued := s.hist.issued + {d}, before := s.sent,
                                 run := FreshLog(d, s.mem.version), residue := false, stuck := false));
    TraceStarts(d, s.mem.version);
    assert s'.hist.before + s'.hist.run.report == s'.sent;
    assert LogInv(s'.(pc := Locating(d))) && SentInv(h, s'.(pc := Locating(d)));
    hide LogInv, SentInv;
    FailsLog(h, s'.(pc := Locating(d)), d, PlatformUnsupported);
  }

  lemma TraceStarts(d: Directive, version: string)
    ensures Trace(d, version, [], 0, None) == []
  {
  }

  // The disk, the place in the program and the start counter.

  ghost predicate CoreInv(h: Host, original: Bytes, s: State) {
    DiskInv(h, original, s) && PcInv(h, s) && StartInv(s)
  }

  lemma VettedIsGood(h: Host, original: Bytes, issued: set<Directive>, d: Directive, b: Bytes)
    requires d in issued && Vetted(h, d, b)
    ensures Good(h, original, issued, b)
  {
  }

  lemma FetchCore(h: Host, original: Bytes, s: State, o: Outcome)
    requires Inv(h, original, s) && FetchPc(s.pc)
    ensures CoreInv(h, original, Step(h, s, o))
  {
    hide Step, RunStatus, FailureRecord, CopyStep, CheckDownload, Reports, InstallStep, FinishStep, StartStep,
      RollbackStep, ConnectionStep, LogInv, SentInv, Good, Known, Text.Contains, Asked, Checked;
    StepIsDownload(h, s, o);
  }

  lemma CheckCore(h: Host, original: Bytes, s: State, o: Outcome)
    requires Inv(h, original, s) && CheckPc(s.pc)
    ensures CoreInv(h, original, Step(h, s, o))
  {
    hide Inv, CoreInv, Step;
    if s.pc.Closing? {
      ClosingCore(h, original, s, o);
    } else {
      SmokeCore(h, original, s, o);
    }
  }

  lemma ClosingCore(h: Host, original: Bytes, s: State, o: Outcome)
    requires Inv(h, original, s) && s.pc.Closing?
    ensures CoreInv(h, original, Step(h, s, o))
  {
    hide Step, RunStatus, FailureRecord, CopyStep, Reports, InstallStep, FinishStep, StartStep, RollbackStep,
      ConnectionStep, LogInv, SentInv, Good, Known, Text.Contains, Asked;
    StepIsDownload(h, s, o);
  }

  lemma SmokeCore(h: Host, original: Bytes, s: State, o: Outcome)
    requires Inv(h, original, s) && (s.pc.Chmodding? || s.pc.Smoking?)
    ensures CoreInv(h, original, Step(h, s, o))
  {
    hide Step, RunStatus, FailureRecord, CopyStep, CheckDownload, Checked, Reports, InstallStep, FinishStep,
      StartStep, RollbackStep, ConnectionStep, LogInv, SentInv, Good, Known, Text.Contains, Asked;
    StepIsDownload(h, s, o);
  }

  lemma MeterLast(h: Host, s: State, d: Directive, m: Meter, n: nat)
    requires LogInv(s) && SentInv(h, s) && PcInv(h, s) && s.pc.Copying? && d == s.pc.d && m == s.pc.meter
    ensures MeterAfter(d, m, n, s.now).lastPct == Last(AfterRead(s, d, m, n).hist.run.progress)
  {
    hide LogInv, SentInv, Reports;
    ReadLog(h, s, d, m, n);
  }

  lemma CopyCore(h: Host, original: Bytes, s: State, o: Outcome)
    requires Inv(h, original, s) && s.pc.Copying?
    ensures CoreInv(h, original, Step(h, s, o))
  {
    hide Inv, CoreInv, Step;
    if o.Data? && s.pc.meter.read <= Limit(s.pc.d) {
      CopyDataCore(h, original, s, o);
    } else {
      CopyEndsCore(h, original, s, o);
    }
  }

  lemma CopyDataCore(h: Host, original: Bytes, s: State, o: Outcome)
    requires Inv(h, original, s) && s.pc.Copying? && o.Data? && s.pc.meter.read <= Limit(s.pc.d)
    ensures CoreInv(h, original, Step(h, s, o))
  {
    hide Step, RunStatus, FailureRecord, CheckDownload, InstallStep, FinishStep, StartStep, RollbackStep,
      ConnectionStep, LogInv, SentInv, Good, Known, Text.Contains, Asked, Checked, Last, Reports, Percent;
    StepIsDownload(h, s, o);
    MeterLast(h, s, s.pc.d, s.pc.meter, BytesRead(s.pc.d, s.pc.meter, o));
  }

  lemma CopyEndsCore(h: Host, original: Bytes, s: State, o: Outcome)
    requires Inv(h, original, s) && s.pc.Copying? && !(o.Data? && s.pc.meter.read <= Limit(s.pc.d))
    ensures CoreInv(h, original, Step(h, s, o))
  {
    hide Inv, CoreInv, Step;
    if o.Broken? && s.pc.meter.read <= Limit(s.pc.d) {
      CopyBreaksCore(h, original, s, o);
    } else {
      CopyStopsCore(h, original, s, o);
    }
  }

  lemma CopyBreaksCore(h: Host, original: Bytes, s: State, o: Outcome)
    requires Inv(h, original, s) && s.pc.Copying? && o.Broken? && s.pc.meter.read <= Limit(s.pc.d)
    ensures CoreInv(h, original, Step(h, s, o))
  {
    hide Step, RunStatus, FailureRecord, CheckDownload, InstallStep, FinishStep, StartStep, RollbackStep,
      ConnectionStep, LogInv, SentInv, Good, Known, Text.Contains, Asked, Checked, Last, Reports, Percent;
    StepIsDownload(h, s, o);
  }

  lemma CopyStopsCore(h: Host, original: Bytes, s: State, o: Outcome)
    requires Inv(h, original, s) && s.pc.Copying?
    requires s.pc.meter.read > Limit(s.pc.d) || !(o.Data? || o.Broken?)
    ensures CoreInv(h, original, Step(h, s, o))
  {
    hide Step, RunStatus, FailureRecord, CheckDownload, InstallStep, FinishStep, StartStep, RollbackStep,
      ConnectionStep, LogInv, SentInv, Good, Known, Text.Contains, Asked, Checked, Last, Reports, Percent;
    StepIsDownload(h, s, o);
  }

  lemma BackupCore(h: Host, original: Bytes, s: State, o: Outcome)
    requires Inv(h, original, s) && BackupPc(s.pc)
    ensures CoreInv(h, original, Step(h, s, o))
  {
    hide Step, DownloadStep, FinishStep, StartStep, RollbackStep, ConnectionStep, LogInv, SentInv, Good, Known,
      Text.Contains, Asked, Checked;
    StepIsInstall(h, s, o);
  }

  lemma RecordCore(h: Host, original: Bytes, s: State, o: Outcome)
    requires Inv(h, original, s) && s.pc.Recording?
    ensures CoreInv(h, original, Step(h, s, o))
  {
    hide Step, DownloadStep, FinishStep, StartStep, RollbackStep, ConnectionStep, LogInv, SentInv, Good, Known,
      Text.Contains, Asked, Checked;
    StepIsInstall(h, s, o);
    IssuedSound(h, s, s.pc.d);
  }

  lemma SwapCore(h: Host, original: Bytes, s: State, o: Outcome)
    requires Inv(h, original, s) && s.pc.Swapping?
    ensures CoreInv(h, original, Step(h, s, o))
  {
    hide Step, DownloadStep, FinishStep, StartStep, RollbackStep, ConnectionStep, LogInv, SentInv, Good, Known,
      Text.Contains, Asked, Checked;
    StepIsInstall(h, s, o);
    var Swapping(d, tmp) := s.pc;
    VettedIsGood(h, original, s.hist.issued, d, s.disk.files[tmp]);
  }

  lemma MarkingCore(h: Host, original: Bytes, s: State, o: Outcome)
    requires Inv(h, original, s) && s.pc.Marking?
    ensures CoreInv(h, original, Step(h, s, o))
  {
    hide Step, DownloadStep, FinishStep, StartStep, RollbackStep, ConnectionStep, LogInv, SentInv, Good, Known,
      Text.Contains, Asked, Checked;
    StepIsInstall(h, s, o);
  }

  lemma IssuedSound(h: Host, s: State, d: Directive)
    requires SentInv(h, s) && d in s.hist.issued
    ensures Asked(s.hist.issued, d.requestId, d.targetVersion) && Known(h, s.mem.version)
  {
  }

  lemma RestartCore(h: Host, original: Bytes, s: State, o: Outcome)
    requires Inv(h, original, s) && (s.pc.Execing? || s.pc.RestoringRun?)
    ensures CoreInv(h, original, Step(h, s, o))
  {
    hide Step, DownloadStep, InstallStep, StartStep, RollbackStep, ConnectionStep, LogInv, SentInv, Good, Known,
      Text.Contains, Asked, Checked;
    StepIsFinish(h, s, o);
  }

  lemma SaveCore(h: Host, original: Bytes, s: State, o: Outcome)
    requires Inv(h, original, s) && s.pc.SavingAttempt?
    ensures CoreInv(h, original, Step(h, s, o))
  {
    hide Step, DownloadStep, InstallStep, StartStep, RollbackStep, ConnectionStep, LogInv, SentInv, Good, Known,
      Text.Contains, Asked, Checked;
    StepIsFinish(h, s, o);
  }

  lemma DiscardCore(h: Host, original: Bytes, s: State, o: Outcome)
    requires Inv(h, original, s) && s.pc.Discarding?
    ensures CoreInv(h, original, Step(h, s, o))
  {
    hide Step, RunStatus, FailureRecord, DownloadStep, InstallStep, StartStep, RollbackStep, ConnectionStep, LogInv,
      SentInv, Good, Known, Text.Contains, Asked, Checked;
    StepIsFinish(h, s, o);
  }

  lemma ClearCore(h: Host, original: Bytes, s: State, o: Outcome)
    requires Inv(h, original, s) && s.pc.ClearingRun?
    ensures CoreInv(h, original, Step(h, s, o))
  {
    hide Step, RunStatus, FailureRecord, DownloadStep, InstallStep, StartStep, RollbackStep, ConnectionStep, LogInv,
      SentInv, Good, Known, Text.Contains, Asked, Checked;
    StepIsFinish(h, s, o);
  }

  lemma StartCore(h: Host, original: Bytes, s: State, o: Outcome)
    requires Inv(h, original, s) && StartPc(s.pc)
    ensures CoreInv(h, original, Step(h, s, o))
  {
    hide Step, DownloadStep, InstallStep, FinishStep, RollbackStep, ConnectionStep, LogInv, SentInv, Good, Known,
      Text.Contains, Asked, Checked;
    StepIsStart(h, s, o);
  }

  lemma LookCore(h: Host, original: Bytes, s: State, o: Outcome)
    requires Inv(h, original, s) && (s.pc.RbLocating? || s.pc.RbStatting?)
    ensures CoreInv(h, original, Step(h, s, o))
  {
    hide Step, DownloadStep, InstallStep, FinishStep, StartStep, ConnectionStep, LogInv, SentInv, Good, Known,
      Text.Contains, Asked, Checked;
    StepIsRollback(h, s, o);
  }

  lemma ExecCore(h: Host, original: Bytes, s: State, o: Outcome)
    requires Inv(h, original, s) && s.pc.RbExecing?
    ensures CoreInv(h, original, Step(h, s, o))
  {
    hide Step, DownloadStep, InstallStep, FinishStep, StartStep, ConnectionStep, LogInv, SentInv, Good, Known,
      Text.Contains, Asked, Checked;
    StepIsRollback(h, s, o);
  }

  lemma GiveUpCore(h: Host, original: Bytes, s: State, o: Outcome)
    requires Inv(h, original, s) && s.pc.RbClearing?
    ensures CoreInv(h, original, Step(h, s, o))
  {
    hide Step, DownloadStep, InstallStep, FinishStep, StartStep, ConnectionStep, LogInv, SentInv, Good, Known,
      Text.Contains, Asked, Checked;
    StepIsRollback(h, s, o);
  }

  lemma RenameCore(h: Host, original: Bytes, s: State, o: Outcome)
    requires Inv(h, original, s) && s.pc.RbRenaming?
    ensures CoreInv(h, original, Step(h, s, o))
  {
    hide Step, DownloadStep, InstallStep, FinishStep, StartStep, ConnectionStep, LogInv, SentInv, Good, Known,
      Text.Contains, Asked, Checked;
    StepIsRollback(h, s, o);
  }

  lemma MarkCore(h: Host, original: Bytes, s: State, o: Outcome)
    requires Inv(h, original, s) && s.pc.RbMarking?
    ensures CoreInv(h, original, Step(h, s, o))
  {
    hide Step, DownloadStep, InstallStep, FinishStep, StartStep, ConnectionStep, LogInv, SentInv, Good, Known,
      Text.Contains, Asked, Checked;
    StepIsRollback(h, s, o);
  }

  lemma ProbeCore(h: Host, original: Bytes, s: State, o: Outcome)
    requires Inv(h, original, s) && s.pc.CountingProbe?
    ensures CoreInv(h, original, Step(h, s, o))
  {
    hide Step, DownloadStep, InstallStep, FinishStep, StartStep, RollbackStep, LogInv, SentInv, Good, Known,
      Text.Contains, Asked, Checked;
    StepIsConnection(h, s, o);
  }

  lemma ConnectionCore(h: Host, original: Bytes, s: State, o: Outcome)
    requires Inv(h, original, s) && (s.pc.Confirming? || s.pc.SavingReport? || s.pc.ClearingReport?)
    ensures CoreInv(h, original, Step(h, s, o))
  {
    hide Step, DownloadStep, InstallStep, FinishStep, StartStep, RollbackStep, LogInv, SentInv, Good, Known,
      Text.Contains, Asked, Checked;
    StepIsConnection(h, s, o);
  }

  lemma CrashCore(h: Host, original: Bytes, s: State)
    requires Inv(h, original, s)
    ensures CoreInv(h, original, Apply(h, s, Crash))
  {
    hide LogInv, SentInv, Good, Known, Text.Contains, Asked, Checked;
  }

  lemma EventCore(h: Host, original: Bytes, s: State, e: Event)
    requires Inv(h, original, s) && !e.Op? && !e.Deliver? && !e.Crash? && !e.Elapse?
    ensures CoreInv(h, original, Apply(h, s, e))
  {
    hide LogInv, SentInv, Good, Known, Text.Contains, Asked, Checked;
  }

  lemma ElapseCore(h: Host, original: Bytes, s: State, time: int)
    requires Inv(h, original, s)
    ensures CoreInv(h, original, Apply(h, s, Elapse(time)))
  {
    hide LogInv, SentInv, Good, Known, Text.Contains, Asked, Checked;
  }

  lemma BeginCore(h: Host, original: Bytes, s: State, d: Directive)
    requires Inv(h, original, s) && Allowed(s, Deliver(d))
    ensures CoreInv(h, original, BeginRun(h, s, d))
  {
    if StartsRun(s, d) {
      BeginDisk(h, original, s, d);
      hide DiskInv, LogInv, SentInv, Text.Contains, Checked, Good;
    }
  }

  /** More directives make more programs good and more requests asked for; the base is the present executable. */
  lemma BeginDisk(h: Host, original: Bytes, s: State, d: Directive)
    requires DiskInv(h, original, s) && StartsRun(s, d) && !PendingOnDisk(s)
    ensures DiskInv(h, original, BeginRun(h, s, d))
  {
    var issued := s.hist.issued + {d};
    if s.disk.tx.Some? {
      AskedGrows(s.hist.issued, d, s.disk.tx.value.requestId, s.disk.tx.value.toVersion);
    }
    GoodGrows(h, original, s.hist.issued, d, s.disk.files[Exe]);
    hide Good, Asked, Known, Checked, Text.Contains, RunStatus, FailureRecord;
  }

  lemma GoodGrows(h: Host, original: Bytes, issued: set<Directive>, d: Directive, b: Bytes)
    requires Good(h, original, issued, b)
    ensures Good(h, original, issued + {d}, b)
  {
    hide Vetted;
    if b != original {
      var d' :| d' in issued && Vetted(h, d', b);
      assert d' in issued + {d};
    }
  }

  lemma StepKeepsInv(h: Host, original: Bytes, s: State, o: Outcome)
    requires Inv(h, original, s)
    ensures Inv(h, original, Step(h, s, o))
  {
    hide LogInv, SentInv, DiskInv, PcInv, StartInv, Step;
    if FetchPc(s.pc) || CheckPc(s.pc) {
      if FetchPc(s.pc) { FetchLog(h, s, o); FetchCore(h, original, s, o); }
      else { CheckLog(h, s, o); CheckCore(h, original, s, o); }
    } else if s.pc.Copying? {
      CopyLog(h, s, o);
      CopyCore(h, original, s, o);
    } else if BackupPc(s.pc) || ReplacePc(s.pc) {
      InstallLog(h, s, o);
      if BackupPc(s.pc) { BackupCore(h, original, s, o); }
      else if s.pc.Recording? { RecordCore(h, original, s, o); }
      else if s.pc.Swapping? { SwapCore(h, original, s, o); }
      else { MarkingCore(h, original, s, o); }
    } else if RestartPc(s.pc) || FailurePc(s.pc) {
      if s.pc.Discarding? { DiscardLog(h, s, o); DiscardCore(h, original, s, o); }
      else if s.pc.ClearingRun? { ClearLog(h, s, o); ClearCore(h, original, s, o); }
      else {
        RestartLog(h, s, o);
        if s.pc.SavingAttempt? { SaveCore(h, original, s, o); } else { RestartCore(h, original, s, o); }
      }
    } else if s.pc.Off? || s.pc.Idle? {
      IdleStep(h, s, o);
    } else {
      OutsideKeepsInv(h, original, s, o);
    }
  }

  lemma IdleStep(h: Host, s: State, o: Outcome)
    requires s.pc.Off? || s.pc.Idle?
    ensures Step(h, s, o) == s
  {
  }

  lemma OutsideKeepsInv(h: Host, original: Bytes, s: State, o: Outcome)
    requires Inv(h, original, s)
    requires StartPc(s.pc) || LookPc(s.pc) || s.pc.RbClearing? || s.pc.RbRenaming? || s.pc.RbMarking?
      || ConnectionPc(s.pc)
    ensures Inv(h, original, Step(h, s, o))
  {
    hide LogInv, SentInv, DiskInv, PcInv, StartInv, Step;
    if s.pc.RbClearing? {
      GiveUpLog(h, original, s, o);
      GiveUpCore(h, original, s, o);
    } else if StartPc(s.pc) {
      StartSilent(h, s, o);
      StartCore(h, original, s, o);
    } else if ConnectionPc(s.pc) {
      ConnectionSilent(h, s, o);
      if s.pc.CountingProbe? { ProbeCore(h, original, s, o); } else { ConnectionCore(h, original, s, o); }
    } else if LookPc(s.pc) {
      LookSilent(h, s, o);
      if s.pc.RbExecing? { ExecCore(h, original, s, o); } else { LookCore(h, original, s, o); }
    } else {
      RestoreSilent(h, s, o);
      if s.pc.RbRenaming? { RenameCore(h, original, s, o); } else { MarkCore(h, original, s, o); }
    }
  }

  /** Every allowed event keeps the invariant. */
  lemma ApplyKeepsInv(h: Host, original: Bytes, s: State, e: Event)
    requires Inv(h, original, s) && Allowed(s, e)
    ensures Inv(h, original, Apply(h, s, e))
  {
    hide LogInv, SentInv, DiskInv, PcInv, StartInv, Step;
    if e.Op? {
      StepKeepsInv(h, original, s, e.outcome);
    } else {
      EventLog(h, original, s, e);
      match e
      case Deliver(d) => BeginCore(h, original, s, d);
      case Crash => CrashCore(h, original, s);
      case Elapse(time) => ElapseCore(h, original, s, time);
      case _ => EventCore(h, original, s, e);
    }
  }
}

/**
  The agent's self-upgrade as a state machine (uni_agent/internal/upgrade). A state is the disk, the
  memory of the process and the place the process has reached; `Apply` is one event. Every file
  operation and external call is one event of its own, `Op`, whose outcome the environment chooses,
  so that `Crash` can fall between any two of them.

  The history fields record what a run has done. No step reads them.
 */
module UpgradeMachine {
  import opened Options
  import opened UpgradeProtocol
  import Text

  newtype byte = x: int | 0 <= x < 256

  type Bytes = seq<byte>

  /** Times are nanoseconds. */
  const SECOND := 1_000_000_000
  const MAX_START_ATTEMPTS := 3
  const PROBE_BUDGET := 3
  const RETRY_BACKOFF := 600 * SECOND
  const PROGRESS_STEP := 5
  const DOWNLOAD_CAP: nat := 512 * 1024 * 1024

  /** What the machine takes from its surroundings: the functions are arbitrary. */
  datatype Host = Host(
    digest: Bytes -> string,        // hex SHA-256 of a file
    selfReport: Bytes -> string,    // what a program prints for -self-check
    versionOf: Bytes -> string,     // the version compiled into a program
    goos: string,
    trialWindow: nat,
    probeWindow: nat,
    hasStateDir: bool,
    canExec: bool)

  // ----- disk -----

  /** `Temp` is the download file; its name carries the time it was chosen. */
  datatype Path = Exe | Backup | Temp(stamp: int)

  datatype Phase = Pending | Restored

  datatype Transaction = Transaction(
    fromVersion: string, toVersion: string, backupPath: Path, requestId: string, phase: Phase,
    at: int, attempts: nat, probeFailures: nat, reason: Option<Reason>)

  datatype AttemptResult = WasInstalled | WasRolledBack | WasFailed(reason: Reason)

  datatype Attempt = Attempt(requestId: string, version: string, at: int, result: AttemptResult)

  datatype Disk = Disk(files: map<Path, Bytes>, tx: Option<Transaction>, attempt: Option<Attempt>)

  /** `os.Rename`, which replaces the target in one step. */
  function Renamed(files: map<Path, Bytes>, src: Path, dst: Path): map<Path, Bytes>
    requires src in files && src != dst
  {
    (files - {src})[dst := files[src]]
  }

  /** `os.Remove`. */
  function Removed(files: map<Path, Bytes>, p: Path): map<Path, Bytes> {
    files - {p}
  }

  // ----- process -----

  datatype Memory = Memory(version: string, lastAttempt: Option<Attempt>, watching: bool)

  /** The counters of `progressReader`. */
  datatype Meter = Meter(read: nat, lastPct: int, lastAt: Option<int>)

  /** Who asked for a rollback. */
  datatype Caller = AtStart | Watchdog | ConnectEvent

  /** Where the process is: each constructor names the operation whose outcome it waits for. */
  datatype Pc =
    | Off
    // start of a process
    | Starting | CountingStart(tx: Transaction) | LoadingAttempt | ArmingWatchdog
    // waiting for an event
    | Idle
    // run
    | Locating(d: Directive) | Fetching(d: Directive, tmp: Path) | Creating(d: Directive, tmp: Path)
    | Copying(d: Directive, tmp: Path, meter: Meter) | Closing(d: Directive, tmp: Path, n: nat)
    | Chmodding(d: Directive, tmp: Path) | Smoking(d: Directive, tmp: Path)
    | OpeningBackup(d: Directive, tmp: Path) | CopyingBackup(d: Directive, tmp: Path, n: nat)
    | Recording(d: Directive, tmp: Path) | Swapping(d: Directive, tmp: Path)
    | Marking(d: Directive, rec: Attempt) | Execing(d: Directive) | RestoringRun(d: Directive)
    | Discarding(d: Directive, tmp: Path, why: Reason, clear: bool) | ClearingRun(d: Directive, why: Reason)
    | SavingAttempt(rec: Attempt)
    // rollback
    | RbLocating(tx: Transaction, who: Caller) | RbStatting(tx: Transaction, who: Caller)
    | RbClearing(tx: Transaction, who: Caller) | RbRenaming(tx: Transaction, who: Caller)
    | RbMarking(tx: Transaction, who: Caller) | RbExecing(who: Caller)
    // connection events
    | Confirming | CountingProbe(tx: Transaction) | SavingReport(rec: Attempt) | ClearingReport

  /** What the latest run was asked to do and what it has sent. */
  datatype RunLog = RunLog(
    directive: Directive, version: string, temp: Option<Path>, report: seq<Status>,
    progress: seq<int>, received: nat, stage: nat, failure: Option<Reason>, crashed: bool)

  datatype History = History(
    base: Bytes,             // the executable when the latest run began
    found: Option<Transaction>, // the transaction that run found on disk
    issued: set<Directive>,  // directives that ever started a run
    before: seq<Status>,     // what had been sent when the latest run began
    run: RunLog,
    residue: bool,           // the latest run failed to remove its temp file or its transaction
    stuck: bool,             // in the latest run both exec and the restoring rename failed
    starts: nat,             // process starts that found the current transaction pending
    recordedAt: int,         // the clock when a run last recorded a transaction
    lateFailures: nat,       // connection failures after its trial window
    startFault: bool)        // some start was cut short or had a failing read, write or restore

  datatype State = State(disk: Disk, mem: Memory, now: int, pc: Pc, sent: seq<Status>, hist: History)

  datatype Outcome = Ok | Err | Denied | Data(data: Bytes) | Broken(data: Bytes, kept: nat) | Eof

  datatype Event =
    | Crash
    | Boot
    | Elapse(time: int)   // the wall clock moves, forwards or back
    | Deliver(d: Directive)
    | Connected(readable: bool)
    | ConnectFailed(readable: bool)
    | Watch(readable: bool)
    | Op(outcome: Outcome)

  // ----- statuses -----

  function RunStatus(d: Directive, version: string, state: Stage, progress: Option<int>,
      reason: Option<Reason>): Status {
    Status(d.requestId, state, d.targetVersion, version, progress, reason)
  }

  function TxStatus(tx: Transaction, state: Stage, reason: Reason): Status {
    Status(tx.requestId, state, tx.toVersion, tx.fromVersion, None, Some(reason))
  }

  /** A status sent by a run: it reaches the server and the run's log. */
  function Emit(s: State, st: Status): State {
    s.(sent := s.sent + [st], hist := s.hist.(run := s.hist.run.(report := s.hist.run.report + [st])))
  }

  function EmitStage(s: State, d: Directive, state: Stage): State {
    var s' := Emit(s, RunStatus(d, s.mem.version, state, None, None));
    s'.(hist := s'.hist.(run := s'.hist.run.(stage := s'.hist.run.stage + 1)))
  }

  function EmitProgress(s: State, d: Directive, pct: int): State {
    var s' := Emit(s, RunStatus(d, s.mem.version, Downloading, Some(pct), None));
    s'.(hist := s'.hist.(run := s'.hist.run.(progress := s'.hist.run.progress + [pct])))
  }

  function FailureRecord(d: Directive, now: int, why: Reason): Attempt {
    Attempt(d.requestId, d.targetVersion, now, WasFailed(why))
  }

  /** `Runtime.fail`: report, remember, then write the attempt record. */
  function Fails(s: State, d: Directive, why: Reason): State {
    var s' := Emit(s, RunStatus(d, s.mem.version, Failed, None, Some(why)));
    var rec := FailureRecord(d, s.now, why);
    s'.(pc := SavingAttempt(rec), mem := s'.mem.(lastAttempt := Some(rec)),
        hist := s'.hist.(run := s'.hist.run.(failure := Some(why))))
  }

  // ----- records under the state directory -----

  /** `readTransaction`: nothing when the file is missing or unreadable. */
  function ReadTx(h: Host, disk: Disk, readable: bool): Option<Transaction> {
    if h.hasStateDir && readable then disk.tx else None
  }

  /** `writeTransaction`, atomic; it needs a state directory. */
  predicate CanWrite(h: Host, o: Outcome) {
    h.hasStateDir && o.Ok?
  }

  function AttemptSaved(h: Host, disk: Disk, rec: Attempt, o: Outcome): Disk {
    if CanWrite(h, o) then disk.(attempt := Some(rec)) else disk
  }

  function TxCleared(disk: Disk, o: Outcome): Disk {
    if o.Ok? then disk.(tx := None) else disk
  }

  predicate InBackoff(last: Option<Attempt>, d: Directive, now: int) {
    last.Some? && last.value.requestId == d.requestId && now - last.value.at < RETRY_BACKOFF
  }

  // ----- run -----

  function FreshLog(d: Directive, version: string): RunLog {
    RunLog(d, version, None, [], [], 0, 0, None, false)
  }

  predicate StartsRun(s: State, d: Directive) {
    s.pc.Idle? && s.mem.version != d.targetVersion && !InBackoff(s.mem.lastAttempt, d, s.now)
  }

  /** `OnDirective` and the head of `run`. */
  function BeginRun(h: Host, s: State, d: Directive): State {
    if !StartsRun(s, d) then s
    else
      var base := if Exe in s.disk.files then s.disk.files[Exe] else [];
      var s' := s.(hist := s.hist.(base := base, found := s.disk.tx, issued := s.hist.issued + {d}, before := s.sent,
                                   run := FreshLog(d, s.mem.version), residue := false, stuck := false));
      if h.goos != "" && h.goos != "linux" then Fails(s', d, PlatformUnsupported)
      else s'.(pc := Locating(d))
  }

  /** `limit` in `download`: the size in the directive, at most the cap. */
  function Limit(d: Directive): nat {
    if 0 < d.sizeBytes < DOWNLOAD_CAP then d.sizeBytes else DOWNLOAD_CAP
  }

  function Percent(read: nat, total: int): (pct: int)
    requires total > 0
    ensures 0 <= pct <= 100
  {
    if read * 100 / total > 100 then 100 else read * 100 / total
  }

  /** Does a call of `progressReader.Read` that has `read` bytes so far report? */
  predicate Reports(d: Directive, m: Meter, read: nat, now: int) {
    && d.sizeBytes > 0
    && Percent(read, d.sizeBytes) - m.lastPct >= PROGRESS_STEP
    && !(m.lastAt.Some? && now - m.lastAt.value < SECOND && Percent(read, d.sizeBytes) < 100)
  }

  function MeterAfter(d: Directive, m: Meter, n: nat, now: int): Meter {
    if Reports(d, m, m.read + n, now) then Meter(m.read + n, Percent(m.read + n, d.sizeBytes), Some(now))
    else m.(read := m.read + n)
  }

  /** A read of `n` bytes through the reader: what it received, and the report it may cause. */
  function AfterRead(s: State, d: Directive, m: Meter, n: nat): State {
    var s' := s.(hist := s.hist.(run := s.hist.run.(received := s.hist.run.received + n)));
    if Reports(d, m, m.read + n, s.now) then EmitProgress(s', d, Percent(m.read + n, d.sizeBytes)) else s'
  }

  function WithFile(s: State, p: Path, content: Bytes): State {
    s.(disk := s.disk.(files := s.disk.files[p := content]))
  }

  function Upto(b: Bytes, n: nat): (r: Bytes)
    ensures |r| <= n && |r| <= |b| && r <= b
  {
    if n < |b| then b[..n] else b
  }

  /** One read and write of `io.Copy` in `download`; the limit reader stops after limit + 1 bytes. */
  function CopyStep(s: State, d: Directive, tmp: Path, m: Meter, o: Outcome): State {
    if m.read > Limit(d) || tmp !in s.disk.files then s.(pc := Closing(d, tmp, m.read))
    else
      var room := Limit(d) + 1 - m.read;
      match o
      case Data(data) =>
        var b := Upto(data, room);
        WithFile(AfterRead(s, d, m, |b|), tmp, s.disk.files[tmp] + b)
        .(pc := Copying(d, tmp, MeterAfter(d, m, |b|, s.now)))
      case Broken(data, kept) =>
        var b := Upto(data, room);
        WithFile(AfterRead(s, d, m, |b|), tmp, s.disk.files[tmp] + Upto(b, kept))
        .(pc := Discarding(d, tmp, DownloadFailed, false))
      case Eof =>
        AfterRead(s, d, m, 0).(pc := Closing(d, tmp, m.read))
      case _ =>
        AfterRead(s, d, m, 0).(pc := Discarding(d, tmp, DownloadFailed, false))
  }

  /** The checks after the download: size, then digest. */
  function CheckDownload(h: Host, s: State, d: Directive, tmp: Path, n: nat): State {
    if n > Limit(d) || n != d.sizeBytes || tmp !in s.disk.files then s.(pc := Discarding(d, tmp, DownloadFailed, false))
    else if h.digest(s.disk.files[tmp]) != Text.ToLower(d.sha256)
    then s.(pc := Discarding(d, tmp, ChecksumMismatch, false))
    else EmitStage(s, d, Verifying).(pc := Chmodding(d, tmp))
  }

  /** From the start of a run until the downloaded program has passed every check. */
  function DownloadStep(h: Host, s: State, o: Outcome): State
    requires s.pc.Locating? || s.pc.Fetching? || s.pc.Creating? || s.pc.Copying? || s.pc.Closing? || s.pc.Chmodding?
      || s.pc.Smoking?
  {
    match s.pc
    case Locating(d) =>
      if o.Ok? then s.(pc := Fetching(d, Temp(s.now)), hist := s.hist.(run := s.hist.run.(temp := Some(Temp(s.now)))))
      else Fails(s, d, ReplaceFailed)
    case Fetching(d, tmp) =>
      s.(pc := if o.Ok? then Creating(d, tmp) else Discarding(d, tmp, DownloadFailed, false))
    case Creating(d, tmp) =>
      if o.Ok? && tmp !in s.disk.files then WithFile(s, tmp, []).(pc := Copying(d, tmp, Meter(0, 0, None)))
      else s.(pc := Discarding(d, tmp, if o.Denied? then NoWritePermission else DownloadFailed, false))
    case Copying(d, tmp, m) => CopyStep(s, d, tmp, m, o)
    case Closing(d, tmp, n) =>
      if o.Ok? then CheckDownload(h, s, d, tmp, n) else s.(pc := Discarding(d, tmp, DownloadFailed, false))
    case Chmodding(d, tmp) =>
      s.(pc := if o.Ok? then Smoking(d, tmp) else Discarding(d, tmp, NoWritePermission, false))
    case Smoking(d, tmp) =>
      if o.Ok? && tmp in s.disk.files && Text.Contains(h.selfReport(s.disk.files[tmp]), d.targetVersion)
      then EmitStage(s, d, Installing).(pc := OpeningBackup(d, tmp))
      else s.(pc := Discarding(d, tmp, SmokeTestFailed, false))
  }

  function NewTransaction(d: Directive, version: string, now: int): Transaction {
    Transaction(version, d.targetVersion, Backup, d.requestId, Pending, now, 0, 0, None)
  }

  /** Back up, record the transaction, replace the executable. */
  function InstallStep(h: Host, s: State, o: Outcome): State
    requires s.pc.OpeningBackup? || s.pc.CopyingBackup? || s.pc.Recording? || s.pc.Swapping? || s.pc.Marking?
  {
    match s.pc
    case OpeningBackup(d, tmp) =>
      if o.Ok? then WithFile(s, Backup, []).(pc := CopyingBackup(d, tmp, 0))
      else s.(pc := Discarding(d, tmp, ReplaceFailed, false))
    case CopyingBackup(d, tmp, n) =>
      if Exe !in s.disk.files then s.(pc := Discarding(d, tmp, ReplaceFailed, false))
      else if o.Data? then
        var n' := |Upto(s.disk.files[Exe], n + |o.data|)|;
        WithFile(s, Backup, s.disk.files[Exe][..n']).(pc := CopyingBackup(d, tmp, n'))
      else if o.Eof? && n < |s.disk.files[Exe]| then s
      else s.(pc := if o.Eof? then Recording(d, tmp) else Discarding(d, tmp, ReplaceFailed, false))
    case Recording(d, tmp) =>
      if CanWrite(h, o) then
        s.(disk := s.disk.(tx := Some(NewTransaction(d, s.mem.version, s.now))), pc := Swapping(d, tmp),
           hist := s.hist.(starts := 0, recordedAt := s.now, lateFailures := 0, startFault := false))
      else s.(pc := Discarding(d, tmp, ReplaceFailed, false))
    case Swapping(d, tmp) =>
      if o.Ok? && tmp in s.disk.files && tmp != Exe then
        var rec := Attempt(d.requestId, d.targetVersion, s.now, WasInstalled);
        s.(disk := s.disk.(files := Renamed(s.disk.files, tmp, Exe)), mem := s.mem.(lastAttempt := Some(rec)),
          pc := Marking(d, rec))
      else s.(pc := Discarding(d, tmp, ReplaceFailed, true))
    case Marking(d, rec) =>
      EmitStage(s.(disk := AttemptSaved(h, s.disk, rec, o)), d, Restarting)
      .(pc := if h.canExec then Execing(d) else Idle)
  }

  /** A successful exec, and a boot: a new process image starts from the executable. */
  function Launched(h: Host, s: State): State {
    if Exe in s.disk.files then s.(pc := Starting, mem := Memory(h.versionOf(s.disk.files[Exe]), None, false))
    else s.(pc := Off)
  }

  /** Restart, and every way a run ends in failure. */
  function FinishStep(h: Host, s: State, o: Outcome): State
    requires s.pc.Execing? || s.pc.RestoringRun? || s.pc.Discarding? || s.pc.ClearingRun? || s.pc.SavingAttempt?
  {
    match s.pc
    case Execing(d) => if o.Ok? then Launched(h, s) else s.(pc := RestoringRun(d))
    case RestoringRun(d) =>
      if o.Ok? && Backup in s.disk.files
      then s.(disk := s.disk.(files := Renamed(s.disk.files, Backup, Exe)), pc := ClearingRun(d, ExecFailed))
      else s.(pc := ClearingRun(d, ExecFailed), hist := s.hist.(stuck := true))
    case Discarding(d, tmp, why, clear) =>
      var s' := if o.Ok? then s.(disk := s.disk.(files := Removed(s.disk.files, tmp)))
                else s.(hist := s.hist.(residue := s.hist.residue || tmp in s.disk.files));
      if clear then s'.(pc := ClearingRun(d, why)) else Fails(s', d, why)
    case ClearingRun(d, why) =>
      var s' := s.(disk := TxCleared(s.disk, o),
        hist := s.hist.(residue := s.hist.residue || (!o.Ok? && s.disk.tx.Some?)));
      Fails(s', d, why)
    case SavingAttempt(rec) => s.(disk := AttemptSaved(h, s.disk, rec, o), pc := Idle)
  }

  // ----- process start -----

  predicate PendingOnDisk(s: State) {
    s.disk.tx.Some? && s.disk.tx.value.phase == Pending
  }

  function Faulty(s: State): State {
    s.(hist := s.hist.(startFault := true))
  }

  /** `CheckOnStartup`, then the constructor of the runtime and `Start`. */
  function StartStep(h: Host, s: State, o: Outcome): State
    requires s.pc.Starting? || s.pc.CountingStart? || s.pc.LoadingAttempt? || s.pc.ArmingWatchdog?
  {
    match s.pc
    case Starting =>
      var tx := ReadTx(h, s.disk, o.Ok?);
      if tx.None? || tx.value.phase != Pending then
        (if PendingOnDisk(s) then Faulty(s) else s).(pc := LoadingAttempt)
      else
        var counted := tx.value.(attempts := tx.value.attempts + 1);
        s.(hist := s.hist.(starts := s.hist.starts + 1),
           pc := if counted.attempts >= MAX_START_ATTEMPTS then RbLocating(counted, AtStart)
             else CountingStart(counted))
    case CountingStart(tx) =>
      if CanWrite(h, o) then s.(disk := s.disk.(tx := Some(tx)), pc := LoadingAttempt)
      else Faulty(s).(pc := LoadingAttempt)
    case LoadingAttempt =>
      s.(mem := s.mem.(lastAttempt := if CanWrite(h, o) then s.disk.attempt else None), pc := ArmingWatchdog)
    case ArmingWatchdog =>
      var tx := ReadTx(h, s.disk, o.Ok?);
      s.(mem := s.mem.(watching := tx.Some? && tx.value.phase == Pending), pc := Idle)
  }

  // ----- rollback -----

  /** `rollback` returns. A start check that rolled back makes the process exit; the watchdog ends. */
  function RollbackReturns(s: State, who: Caller): State {
    match who
    case AtStart => s.(pc := Off)
    case Watchdog => s.(pc := Idle, mem := s.mem.(watching := false))
    case ConnectEvent => s.(pc := Idle)
  }

  function FaultyAtStart(s: State, who: Caller): State {
    if who == AtStart then Faulty(s) else s
  }

  function RollbackStep(h: Host, s: State, o: Outcome): State
    requires s.pc.RbLocating? || s.pc.RbStatting? || s.pc.RbClearing? || s.pc.RbRenaming? || s.pc.RbMarking?
      || s.pc.RbExecing?
  {
    match s.pc
    case RbLocating(tx, who) =>
      if o.Ok? then s.(pc := RbStatting(tx, who)) else RollbackReturns(FaultyAtStart(s, who), who)
    case RbStatting(tx, who) =>
      s.(pc := if o.Ok? && tx.backupPath in s.disk.files then RbRenaming(tx, who) else RbClearing(tx, who))
    case RbClearing(tx, who) =>
      // the start check runs without a way to send statuses
      var s' := (if o.Ok? then s else FaultyAtStart(s, who)).(disk := TxCleared(s.disk, o));
      var sent := if who == AtStart then s.sent else s.sent + [TxStatus(tx, Failed, ReplaceFailed)];
      RollbackReturns(s'.(sent := sent), who)
    case RbRenaming(tx, who) =>
      if o.Ok? && tx.backupPath in s.disk.files && tx.backupPath != Exe
      then s.(disk := s.disk.(files := Renamed(s.disk.files, tx.backupPath, Exe)), pc := RbMarking(tx, who))
      else RollbackReturns(FaultyAtStart(s, who), who)
    case RbMarking(tx, who) =>
      var marked := tx.(phase := Restored, reason := Some(NotConnectedAfterUpgrade));
      var s' := if CanWrite(h, o) then s.(disk := s.disk.(tx := Some(marked))) else FaultyAtStart(s, who);
      if h.canExec then s'.(pc := RbExecing(who)) else RollbackReturns(s', who)
    case RbExecing(who) => if o.Ok? then Launched(h, s) else RollbackReturns(s, who)
  }

  // ----- connection events -----

  function OnConnected(h: Host, s: State, readable: bool): State {
    var tx := ReadTx(h, s.disk, readable);
    if tx.None? then s
    else if tx.value.phase == Pending then s.(pc := Confirming)
    else
      var reason := if tx.value.reason.None? then NotConnectedAfterUpgrade else tx.value.reason.value;
      var rec := Attempt(tx.value.requestId, tx.value.toVersion, s.now, WasRolledBack);
      s.(sent := s.sent + [TxStatus(tx.value, RolledBack, reason)], mem := s.mem.(lastAttempt := Some(rec)),
        pc := SavingReport(rec))
  }

  function OnConnectFailed(h: Host, s: State, readable: bool): State {
    var tx := ReadTx(h, s.disk, readable);
    if tx.None? || tx.value.phase != Pending || s.now < tx.value.at + h.trialWindow then s
    else s.(hist := s.hist.(lateFailures := s.hist.lateFailures + 1),
            pc := CountingProbe(tx.value.(probeFailures := tx.value.probeFailures + 1)))
  }

  /** The moment the watchdog acts on. */
  function Deadline(h: Host, tx: Transaction): int {
    tx.at + h.trialWindow + tx.probeFailures * h.probeWindow
  }

  /** One round of `probationWatch`. */
  function OnWatch(h: Host, s: State, readable: bool): State {
    if !s.mem.watching then s
    else
      var tx := ReadTx(h, s.disk, readable);
      if tx.None? || tx.value.phase != Pending then s.(mem := s.mem.(watching := false))
      else if s.now < Deadline(h, tx.value) || 0 < tx.value.probeFailures < PROBE_BUDGET then s
      else s.(pc := RbLocating(tx.value, Watchdog))
  }

  function ConnectionStep(h: Host, s: State, o: Outcome): State
    requires s.pc.Confirming? || s.pc.CountingProbe? || s.pc.SavingReport? || s.pc.ClearingReport?
  {
    match s.pc
    case Confirming => s.(disk := TxCleared(s.disk, o), pc := Idle)
    case CountingProbe(tx) =>
      var s' := if CanWrite(h, o) then s.(disk := s.disk.(tx := Some(tx))) else s;
      s'.(pc := if tx.probeFailures < PROBE_BUDGET then Idle else RbLocating(tx, ConnectEvent))
    case SavingReport(rec) => s.(disk := AttemptSaved(h, s.disk, rec, o), pc := ClearingReport)
    case ClearingReport => s.(disk := TxCleared(s.disk, o), pc := Idle)
  }

  // ----- all events -----

  predicate InRun(pc: Pc) {
    pc.Locating? || pc.Fetching? || pc.Creating? || pc.Copying? || pc.Closing? || pc.Chmodding? || pc.Smoking?
    || pc.OpeningBackup? || pc.CopyingBackup? || pc.Recording? || pc.Swapping? || pc.Marking? || pc.Execing?
    || pc.RestoringRun? || pc.Discarding? || pc.ClearingRun?
  }

  predicate RollingBackAtStart(pc: Pc) {
    (pc.RbLocating? || pc.RbStatting? || pc.RbClearing? || pc.RbRenaming? || pc.RbMarking?) && pc.who == AtStart
  }

  /** The process dies: the disk stays, the memory is gone. */
  function Crashed(s: State): State {
    var fault := s.hist.startFault || s.pc.CountingStart? || RollingBackAtStart(s.pc);
    var run := s.hist.run.(crashed := s.hist.run.crashed || InRun(s.pc));
    s.(pc := Off, hist := s.hist.(startFault := fault, run := run))
  }

  function Step(h: Host, s: State, o: Outcome): State {
    match s.pc
    case Off => s
    case Idle => s
    case Starting => StartStep(h, s, o)
    case CountingStart(_) => StartStep(h, s, o)
    case LoadingAttempt => StartStep(h, s, o)
    case ArmingWatchdog => StartStep(h, s, o)
    case Locating(_) => DownloadStep(h, s, o)
    case Fetching(_, _) => DownloadStep(h, s, o)
    case Creating(_, _) => DownloadStep(h, s, o)
    case Copying(_, _, _) => DownloadStep(h, s, o)
    case Closing(_, _, _) => DownloadStep(h, s, o)
    case Chmodding(_, _) => DownloadStep(h, s, o)
    case Smoking(_, _) => DownloadStep(h, s, o)
    case OpeningBackup(_, _) => InstallStep(h, s, o)
    case CopyingBackup(_, _, _) => InstallStep(h, s, o)
    case Recording(_, _) => InstallStep(h, s, o)
    case Swapping(_, _) => InstallStep(h, s, o)
    case Marking(_, _) => InstallStep(h, s, o)
    case Execing(_) => FinishStep(h, s, o)
    case RestoringRun(_) => FinishStep(h, s, o)
    case Discarding(_, _, _, _) => FinishStep(h, s, o)
    case ClearingRun(_, _) => FinishStep(h, s, o)
    case SavingAttempt(_) => FinishStep(h, s, o)
    case RbLocating(_, _) => RollbackStep(h, s, o)
    case RbStatting(_, _) => RollbackStep(h, s, o)
    case RbClearing(_, _) => RollbackStep(h, s, o)
    case RbRenaming(_, _) => RollbackStep(h, s, o)
    case RbMarking(_, _) => RollbackStep(h, s, o)
    case RbExecing(_) => RollbackStep(h, s, o)
    case Confirming => ConnectionStep(h, s, o)
    case CountingProbe(_) => ConnectionStep(h, s, o)
    case SavingReport(_) => ConnectionStep(h, s, o)
    case ClearingReport => ConnectionStep(h, s, o)
  }

  function Apply(h: Host, s: State, e: Event): State {
    match e
    case Crash => if s.pc.Off? then s else Crashed(s)
    case Boot => if s.pc.Off? then Launched(h, s) else s
    case Elapse(time) => s.(now := s.now + time)
    case Deliver(d) => BeginRun(h, s, d)
    case Connected(readable) => if s.pc.Idle? then OnConnected(h, s, readable) else s
    case ConnectFailed(readable) => if s.pc.Idle? then OnConnectFailed(h, s, readable) else s
    case Watch(readable) => if s.pc.Idle? then OnWatch(h, s, readable) else s
    case Op(outcome) => Step(h, s, outcome)
  }

  function Replay(h: Host, s: State, es: seq<Event>): State {
    if es == [] then s else Apply(h, Replay(h, s, es[..|es| - 1]), es[|es| - 1])
  }

  /** A device on which nothing was ever upgraded: just an executable and no process. */
  function Initial(program: Bytes, now: int): State {
    State(Disk(map[Exe := program], None, None), Memory("", None, false), now, Off, [],
          History(program, None, {}, [], FreshLog(Directive("", "", "", 0), ""), false, false, 0, now, 0, false))
  }
}

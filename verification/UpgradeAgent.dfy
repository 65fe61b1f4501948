/**
  The runtime itself (upgrade.go, transaction.go), as code that updates disk and memory in place.
  Every method is proved to be a run of the upgrade machine: the ghost `log` records its events, and
  `Valid` ties the fields to the machine's state after them. A crash cuts the log short anywhere,
  which the machine's theorems cover.
 */
module UpgradeAgent {
  import opened Options
  import opened UpgradeProtocol
  import opened UpgradeMachine
  import opened UpgradeInvariant
  import opened UpgradeSteps
  import opened UpgradeTheorems
  import Text

  /** How `download` ends: with the digest of the complete file, or with an error. */
  datatype Download = Complete(sum: string) | Incomplete(denied: bool)

  /** `progressReader`: counts the bytes of a download and decides when to report a percentage. */
  class ProgressReader {
    const total: int
    var read: nat
    var lastPct: int
    var lastAt: Option<int>

    constructor (total: int)
      ensures this.total == total && Counters() == Meter(0, 0, None)
    {
      this.total := total;
      this.read, this.lastPct, this.lastAt := 0, 0, None;
    }

    function Counters(): Meter
      reads this
    {
      Meter(read, lastPct, lastAt)
    }

    /** The bookkeeping of one `Read` that delivered `n` bytes. */
    method Count(n: nat, now: int, ghost d: Directive) returns (report: Option<int>)
      requires d.sizeBytes == total
      modifies this
      ensures Counters() == MeterAfter(d, old(Counters()), n, now)
      ensures report == if Reports(d, old(Counters()), old(read) + n, now)
        then Some(Percent(old(read) + n, total)) else None
    {
      read := read + n;
      if total <= 0 {
        return None;
      }
      var pct := read * 100 / total;
      if pct > 100 {
        pct := 100;
      }
      if pct - lastPct < PROGRESS_STEP {
        return None;
      }
      if lastAt.Some? && now - lastAt.value < SECOND && pct < 100 {
        return None;
      }
      lastPct, lastAt := pct, Some(now);
      report := Some(pct);
    }
  }

  /** Everything but the process's own operations and the passing of time. */
  predicate Signal(e: Event) {
    !e.Op? && !e.Elapse?
  }

  /** The number of signals in a log. */
  function Signals(log: seq<Event>): nat {
    if log == [] then 0 else Signals(log[..|log| - 1]) + if Signal(log[|log| - 1]) then 1 else 0
  }

  lemma SignalsNext(log: seq<Event>, e: Event)
    ensures Signals(log + [e]) == Signals(log) + if Signal(e) then 1 else 0
  {
    assert (log + [e])[..|log|] == log;
  }

  lemma NothingReported(d: Directive)
    ensures Rising([]) && Last([]) == 0 && BackedBy(d, [], 0)
  {
  }

  /** A limited copy is no longer than the text. */
  lemma CopiedWithinBody(body0: Bytes, body: Bytes, file: Bytes, limit: nat)
    requires body0 <= body && file == Upto(body[|body0|..], limit + 1)
    ensures |file| <= |body| - |body0|
  {
  }

  /** A limited copy of a text that grows while the limit is not reached. */
  lemma UptoAppend(got: Bytes, file: Bytes, chunk: Bytes, limit: nat)
    requires file == Upto(got, limit + 1) && |file| <= limit
    ensures file + Upto(chunk, limit + 1 - |file|) == Upto(got + chunk, limit + 1)
  {
  }

  /** One report of the download for each percentage. */
  predicate Percentages(reports: seq<Status>, d: Directive, version: string, progress: seq<int>) {
    && |reports| == |progress|
    && forall i :: 0 <= i < |reports| ==>
         && reports[i].state == Downloading && reports[i].progress == Some(progress[i]) && reports[i].reason == None
         && reports[i].requestId == d.requestId && reports[i].targetVersion == d.targetVersion
         && reports[i].fromVersion == version
  }

  lemma ReportedPercentages(sent: seq<Status>, sent0: seq<Status>, d: Directive, version: string, progress: seq<int>)
    requires sent == sent0 + ProgressReports(d, version, progress)
    ensures sent0 <= sent && Percentages(sent[|sent0|..], d, version, progress)
  {
    assert sent[|sent0|..] == ProgressReports(d, version, progress);
  }

  /** The last percentage is at most that of `n` received bytes. */
  predicate BackedBy(d: Directive, progress: seq<int>, n: nat) {
    progress != [] ==> d.sizeBytes > 0 && Last(progress) * d.sizeBytes <= 100 * n
  }

  /** And so is every earlier one. */
  lemma AllBacked(d: Directive, progress: seq<int>, n: nat)
    requires Rising(progress) && BackedBy(d, progress, n)
    ensures forall i :: 0 <= i < |progress| ==> progress[i] * d.sizeBytes <= 100 * n
  {
    hide Rising, Last;
    forall i | 0 <= i < |progress| ensures progress[i] * d.sizeBytes <= 100 * n {
      LastIsHighest(progress, i);
      TimesMonotone(progress[i], Last(progress), d.sizeBytes);
    }
  }

  lemma MeterReads(d: Directive, m: Meter, n: nat, now: int)
    ensures MeterAfter(d, m, n, now).read == m.read + n
  {
    hide Percent, Reports;
  }

  lemma BackedMore(d: Directive, progress: seq<int>, n: nat, m: nat)
    requires BackedBy(d, progress, n) && n <= m
    ensures BackedBy(d, progress, m)
  {
  }

  lemma BackedGrows(d: Directive, progress: seq<int>, read: nat, pct: int, n: nat)
    requires BackedBy(d, progress, read) && d.sizeBytes > 0
    ensures BackedBy(d, progress, read + n)
    ensures pct == Percent(read + n, d.sizeBytes) ==> BackedBy(d, progress + [pct], read + n)
  {
    PercentBacked(read + n, d.sizeBytes);
  }

  // ----- what a run leaves -----

  /** What the executable path holds. */
  function ProgramOf(files: map<Path, Bytes>): Bytes {
    if Exe in files then files[Exe] else []
  }

  /** The files that a run with this download file has nothing to do with. */
  function Others(files: map<Path, Bytes>, tmp: Path): map<Path, Bytes> {
    files - {Exe, Backup, tmp}
  }

  lemma PutKeeps(files: map<Path, Bytes>, p: Path, content: Bytes)
    ensures Removed(files[p := content], p) == Removed(files, p)
  {
  }

  lemma RemovedKeeps(a: map<Path, Bytes>, b: map<Path, Bytes>, p: Path, tmp: Path)
    requires Removed(a, p) == Removed(b, p) && p != Exe
    ensures ProgramOf(a) == ProgramOf(b) && (Exe in a <==> Exe in b)
    ensures p == Backup || p == tmp ==> Others(a, tmp) == Others(b, tmp)
  {
    var gone := {Exe, Backup, tmp};
    assert Exe in a <==> Exe in Removed(a, p);
    assert Exe in b <==> Exe in Removed(b, p);
    assert Exe in a ==> a[Exe] == Removed(a, p)[Exe];
    assert Exe in b ==> b[Exe] == Removed(b, p)[Exe];
    if p in gone {
      assert Others(a, tmp) == Removed(a, p) - gone;
      assert Others(b, tmp) == Removed(b, p) - gone;
    }
  }

  lemma RenamedKeeps(files: map<Path, Bytes>, src: Path, tmp: Path)
    requires src in files && src != Exe && (src == Backup || src == tmp)
    ensures Others(Renamed(files, src, Exe), tmp) == Others(files, tmp)
  {
  }

  /**
    How a run for `d` ends that found the executable `base` and had sent `sent0` before. Either it
    failed and said so last, and the executable is `base`, or, after a failed exec, still the new
    program with `base` in the backup. Or it said last that it restarts: then the new program is in
    place, `base` is in the backup, and the pending transaction on disk says so.
   */
  predicate EndsRun(h: Host, d: Directive, version: string, base: Bytes, sent0: seq<Status>, s: State) {
    && Exe in s.disk.files && sent0 < s.sent
    && var last := s.sent[|s.sent| - 1];
    if last.state == Failed then
      && s.pc.Idle? && last.reason.Some?
      && last == Status(d.requestId, Failed, d.targetVersion, version, None, last.reason)
      && (s.disk.files[Exe] == base || (last.reason == Some(ExecFailed) && NewInPlace(h, d, base, s.disk.files)))
    else
      && s.pc == (if h.canExec then Starting else Idle)
      && last == Status(d.requestId, Restarting, d.targetVersion, version, None, None)
      && NewInPlace(h, d, base, s.disk.files) && Tried(s, d, version)
  }

  /** The transaction on disk is that of a run for `d`, begun when the history says it was recorded. */
  predicate Tried(s: State, d: Directive, version: string) {
    s.disk.tx ==
      Some(Transaction(version, d.targetVersion, Backup, d.requestId, Pending, s.hist.recordedAt, 0, 0, None))
  }

  /** A vetted program is at the executable path and the one it replaced in the backup. */
  predicate NewInPlace(h: Host, d: Directive, base: Bytes, files: map<Path, Bytes>) {
    Exe in files && Vetted(h, d, files[Exe]) && Backup in files && files[Backup] == base
  }

  /** A run that ends so has also ended so for what was sent earlier. */
  lemma EndsRunSince(h: Host, d: Directive, version: string, base: Bytes, sent0: seq<Status>, sent1: seq<Status>,
      s: State)
    requires sent0 <= sent1 && EndsRun(h, d, version, base, sent1, s)
    ensures EndsRun(h, d, version, base, sent0, s)
  {
  }

  lemma FailedRun(h: Host, d: Directive, version: string, base: Bytes, sent0: seq<Status>, why: Reason, s: State)
    requires s.pc.Idle? && s.sent == sent0 + [Status(d.requestId, Failed, d.targetVersion, version, None, Some(why))]
    requires Exe in s.disk.files
    requires s.disk.files[Exe] == base || (why == ExecFailed && NewInPlace(h, d, base, s.disk.files))
    ensures EndsRun(h, d, version, base, sent0, s)
  {
  }

  /** The end of a run that has reported its restart, by what came after the report. */
  lemma RestartedRun(h: Host, d: Directive, version: string, base: Bytes, sent0: seq<Status>, sent1: seq<Status>,
      s: State)
    requires sent1 == sent0 + [Status(d.requestId, Restarting, d.targetVersion, version, None, None)]
    requires EndsRun(h, d, version, base, sent1, s)
      || (s.sent == sent1 && s.pc == (if h.canExec then Starting else Idle) && NewInPlace(h, d, base, s.disk.files)
          && Tried(s, d, version))
    ensures EndsRun(h, d, version, base, sent0, s)
  {
  }

  class Agent {
    const host: Host
    var disk: Disk
    var mem: Memory
    var sent: seq<Status>
    var now: int

    ghost const program: Bytes
    ghost const born: int
    ghost var log: seq<Event>
    ghost var cur: State
    ghost var signals: nat
    ghost var body: Bytes           // what servers have sent as response bodies
    ghost var answer: Option<bool>  // what the environment said last, until it is recorded

    ghost predicate History()
      reads this`log, this`cur, this`signals
    {
      && AllowedRun(host, Initial(program, born), log)
      && cur == Replay(host, Initial(program, born), log)
      && signals == Signals(log)
    }

    ghost predicate Synced()
      reads this
    {
      History() && cur.disk == disk && cur.mem == mem && cur.sent == sent && cur.now == now
    }

    ghost predicate Valid()
      reads this
    {
      Synced() && answer.None?
    }

    /** An event records the environment's last answer as it was; other events leave none unrecorded. */
    ghost predicate Agrees(e: Event)
      reads this
    {
      match e
      case Op(o) => answer == Some(o.Ok? || o.Data? || o.Eof?)
      case Connected(readable) => answer == Some(readable)
      case ConnectFailed(readable) => answer == Some(readable)
      case Watch(readable) => answer == Some(readable)
      case _ => answer.None?
    }

    constructor (host: Host, program: Bytes, now: int)
      ensures Valid() && cur.pc.Off? && disk == Disk(map[Exe := program], None, None) && sent == []
      ensures this.host == host && this.program == program && log == []
    {
      this.host := host;
      this.program := program;
      this.born := now;
      this.disk := Disk(map[Exe := program], None, None);
      this.mem := Memory("", None, false);
      this.sent := [];
      this.now := now;
      this.log := [];
      this.answer := None;
      this.signals := 0;
      this.body := [];
      this.cur := Initial(program, now);
    }

    /** The fields are as event `e` leaves them; make it part of the history. */
    ghost method Record(e: Event)
      requires History() && Allowed(cur, e) && Agrees(e)
      requires var s := Apply(host, cur, e);
        s.disk == disk && s.mem == mem && s.sent == sent && s.now == now
      modifies this`log, this`cur, this`signals, this`answer
      ensures Valid() && log == old(log) + [e] && cur == Apply(host, old(cur), e)
      ensures signals == old(signals) + if Signal(e) then 1 else 0
    {
      hide Apply, Replay, Allowed, Signals;
      ReplayNext(host, Initial(program, born), log, e);
      SignalsNext(log, e);
      assert forall k | 0 <= k < |log| :: (log + [e])[..k] == log[..k];
      assert (log + [e])[..|log|] == log;
      log := log + [e];
      cur := Apply(host, cur, e);
      signals := signals + if Signal(e) then 1 else 0;
      answer := None;
    }

    /** An operation takes some time, and the environment decides whether it succeeds. */
    method Call() returns (ok: bool)
      requires Valid()
      modifies this`now, this`log, this`cur, this`signals, this`answer
      ensures signals == old(signals)
      ensures Synced() && answer == Some(ok) && old(log) <= log && cur == old(cur).(now := now)
    {
      var time: int := *;
      now := now + time;
      Record(Elapse(time));
      ok := *;
      answer := Some(ok);
    }

    /** The next part of the response body. */
    method Receive() returns (chunk: Bytes)
      modifies this`body
      ensures body == old(body) + chunk
    {
      chunk := *;
      body := body + chunk;
    }

    function Result(ok: bool): Outcome {
      if ok then Ok else Err
    }

    /** The machine's invariant holds of every history. */
    lemma Invariant()
      requires History()
      ensures Inv(host, program, cur)
    {
      Reachable(host, program, born, log);
    }

    /** So the executable is at all times the first program or a vetted download of a delivered directive. */
    lemma Integrity()
      requires Synced()
      ensures Exe in disk.files
      ensures disk.files[Exe] == program || exists d :: Deliver(d) in log && Vetted(host, d, disk.files[Exe])
    {
      ExecutableIntegrity(host, program, born, log);
    }

    // ----- run -----

    /** `OnDirective`: nothing to do on the target version itself. */
    method OnDirective(d: Directive)
      requires Valid() && cur.pc.Idle?
      requires StartsRun(cur, d) ==> !PendingOnDisk(cur)
      modifies this
      ensures Valid() && old(log) + [Deliver(d)] <= log && signals == old(signals) + 1
      ensures cur.pc.Idle? || cur.pc.Starting?
      ensures if d.targetVersion == old(mem.version)
          || old(mem.lastAttempt.Some? && mem.lastAttempt.value.requestId == d.requestId
                 && now < mem.lastAttempt.value.at + 600 * SECOND)
        then disk == old(disk) && mem == old(mem) && sent == old(sent)
        else EndsRun(host, d, old(mem.version), old(ProgramOf(disk.files)), old(sent), cur)
    {
      hide EndsRun;
      RefusedStep(host, cur, d);
      if d.targetVersion == mem.version {
        Record(Deliver(d));
        return;
      }
      Run(d);
    }

    method Run(d: Directive)
      requires Valid() && cur.pc.Idle? && mem.version != d.targetVersion
      requires StartsRun(cur, d) ==> !PendingOnDisk(cur)
      modifies this
      ensures Valid() && old(log) + [Deliver(d)] <= log && signals == old(signals) + 1
      ensures cur.pc.Idle? || cur.pc.Starting?
      ensures if old(mem.lastAttempt.Some? && mem.lastAttempt.value.requestId == d.requestId
                     && now < mem.lastAttempt.value.at + 600 * SECOND)
        then disk == old(disk) && mem == old(mem) && sent == old(sent)
        else EndsRun(host, d, old(mem.version), old(ProgramOf(disk.files)), old(sent), cur)
      ensures host.goos !in {"", "linux"} ==> disk.files == old(disk.files) && disk.tx == old(disk.tx)
    {
      hide History, Apply, EndsRun, Percent, Reports, MeterAfter, AfterRead;
      RefusedStep(host, cur, d);
      var refused := InBackoff(d);
      if refused {
        Record(Deliver(d));
        return;
      }
      var goos := if host.goos == "" then "linux" else host.goos;
      if goos != "linux" {
        Fail(d, PlatformUnsupported, Deliver(d));
        Integrity();
        FailedRun(host, d, old(mem.version), old(ProgramOf(disk.files)), old(sent), PlatformUnsupported, cur);
        return;
      }
      Record(Deliver(d));
      Locate(d);
    }

    /** `inBackoff`: the same request again within ten minutes of the last attempt. */
    method InBackoff(d: Directive) returns (refused: bool)
      ensures refused <==>
        && mem.lastAttempt.Some? && mem.lastAttempt.value.requestId == d.requestId
        && now < mem.lastAttempt.value.at + 600 * SECOND
    {
      if mem.lastAttempt.None? || mem.lastAttempt.value.requestId != d.requestId {
        return false;
      }
      refused := now - mem.lastAttempt.value.at < RETRY_BACKOFF;
    }

    /** Find the executable, and choose a name beside it for the download. */
    method Locate(d: Directive)
      requires Valid() && cur.pc == Locating(d)
      modifies this
      ensures Valid() && old(log) <= log && signals == old(signals)
      ensures cur.pc.Idle? || cur.pc.Starting?
      ensures EndsRun(host, d, old(mem.version), old(ProgramOf(disk.files)), old(sent), cur)
    {
      hide History, Apply, EndsRun, Percent, Reports, MeterAfter, AfterRead;
      var ok := Call();
      LocateStep(host, cur, Result(ok));
      if !ok {
        Fail(d, ReplaceFailed, Op(Err));
        Integrity();
        FailedRun(host, d, old(mem.version), old(ProgramOf(disk.files)), old(sent), ReplaceFailed, cur);
        return;
      }
      var tmp := Temp(now);
      Record(Op(Ok));
      Fetch(d, tmp);
    }

    /** The part of `run` that downloads and checks the digest. */
    method Fetch(d: Directive, tmp: Path)
      requires Valid() && cur.pc == Fetching(d, tmp) && tmp.Temp?
      modifies this
      ensures Valid() && old(log) <= log && signals == old(signals)
      ensures cur.pc.Idle? || cur.pc.Starting?
      ensures EndsRun(host, d, old(mem.version), old(ProgramOf(disk.files)), old(sent), cur)
      ensures Others(disk.files, tmp) == Others(old(disk.files), tmp)
    {
      hide History, Apply, EndsRun, ProgramOf, Others, Removed, ProgressReports, Rising;
      var r, progress := Download(d, tmp);
      RemovedKeeps(old(disk.files), disk.files, tmp, tmp);
      ghost var sent1 := sent;
      if r.Incomplete? {
        Discard(d, tmp, if r.denied then NoWritePermission else DownloadFailed);
      } else {
        VerifyAndSmoke(d, tmp, r.sum);
      }
      EndsRunSince(host, d, old(mem.version), old(ProgramOf(disk.files)), old(sent), sent1, cur);
    }

    /** The part of `run` that compares the digest; what passes goes on to the smoke test. */
    method VerifyAndSmoke(d: Directive, tmp: Path, sum: string)
      requires Synced() && answer == Some(true) && tmp.Temp? && tmp in disk.files
      requires cur.pc == Closing(d, tmp, |disk.files[tmp]|) && |disk.files[tmp]| == d.sizeBytes <= DOWNLOAD_CAP
      requires sum == host.digest(disk.files[tmp])
      modifies this
      ensures Valid() && old(log) <= log && signals == old(signals)
      ensures cur.pc.Idle? || cur.pc.Starting?
      ensures EndsRun(host, d, old(mem.version), old(ProgramOf(disk.files)), old(sent), cur)
      ensures Others(disk.files, tmp) == Others(old(disk.files), tmp)
    {
      hide History, Apply, EndsRun, ProgramOf, Others, Text.ToLower;
      var ok := Verify(d, tmp, sum);
      ghost var sent1 := sent;
      if ok {
        Smoke(d, tmp);
      } else {
        Discard(d, tmp, ChecksumMismatch);
      }
      EndsRunSince(host, d, old(mem.version), old(ProgramOf(disk.files)), old(sent), sent1, cur);
    }

    /** The digest of the complete file against the directive's. */
    method Verify(d: Directive, tmp: Path, sum: string) returns (ok: bool)
      requires Synced() && answer == Some(true) && tmp in disk.files
      requires cur.pc == Closing(d, tmp, |disk.files[tmp]|) && |disk.files[tmp]| == d.sizeBytes <= DOWNLOAD_CAP
      requires sum == host.digest(disk.files[tmp])
      modifies this
      ensures Valid() && old(log) <= log && signals == old(signals) && mem == old(mem) && disk == old(disk)
      ensures ok <==> sum == Text.ToLower(d.sha256)
      ensures ok ==>
        && cur.pc == Chmodding(d, tmp)
        && sent == old(sent) + [RunStatus(d, mem.version, Verifying, None, None)]
      ensures !ok ==> cur.pc == Discarding(d, tmp, ChecksumMismatch, false) && sent == old(sent)
    {
      hide History, Apply, Text.ToLower, Percent, Reports, MeterAfter, AfterRead;
      ok := sum == Text.ToLower(d.sha256);
      if ok {
        Report(d, Verifying);
      }
      CloseStep(host, cur, Ok);
      Record(Op(Ok));
    }

    /** Sends one stage report. */
    method Report(d: Directive, state: Stage)
      modifies this`sent
      ensures sent == old(sent) + [RunStatus(d, mem.version, state, None, None)]
    {
      sent := sent + [Status(d.requestId, state, d.targetVersion, mem.version, None, None)];
    }

    /** Removes the download file after a failure, and reports why. */
    method Discard(d: Directive, tmp: Path, why: Reason)
      requires Valid() && cur.pc == Discarding(d, tmp, why, false) && tmp.Temp?
      modifies this
      ensures EndsRun(host, d, old(mem.version), old(ProgramOf(disk.files)), old(sent), cur)
      ensures Others(disk.files, tmp) == Others(old(disk.files), tmp)
      ensures Valid() && old(log) <= log && signals == old(signals) && cur.pc.Idle?
      ensures disk.files == old(disk.files) || disk.files == old(disk.files) - {tmp}
      ensures sent == old(sent) + [RunStatus(d, old(mem.version), Failed, None, Some(why))]
    {
      hide History, Apply, EndsRun, Others;
      var ok := Call();
      if ok {
        disk := disk.(files := Removed(disk.files, tmp));
      }
      DiscardStep(host, cur, Result(ok));
      Fail(d, why, Op(Result(ok)));
      RemovedKeeps(old(disk.files), disk.files, tmp, tmp);
      Integrity();
      FailedRun(host, d, old(mem.version), old(ProgramOf(disk.files)), old(sent), why, cur);
    }

    /** `fail`: `e` is the event after which the run reports its failure. */
    method Fail(d: Directive, why: Reason, ghost e: Event)
      requires History() && Allowed(cur, e) && Agrees(e)
      requires var s := Apply(host, cur, e);
        && s.disk == disk && s.now == now && s.pc == SavingAttempt(FailureRecord(d, now, why))
        && s.sent == sent + [RunStatus(d, mem.version, Failed, None, Some(why))]
        && s.mem == mem.(lastAttempt := Some(FailureRecord(d, now, why)))
      modifies this
      ensures Valid() && old(log) + [e] <= log && signals == old(signals) + (if Signal(e) then 1 else 0) && cur.pc.Idle?
      ensures disk.files == old(disk.files) && disk.tx == old(disk.tx)
      ensures sent == old(sent) + [RunStatus(d, old(mem.version), Failed, None, Some(why))]
    {
      hide History, Apply;
      sent := sent + [Status(d.requestId, Failed, d.targetVersion, mem.version, None, Some(why))];
      var rec := Attempt(d.requestId, d.targetVersion, now, WasFailed(why));
      mem := mem.(lastAttempt := Some(rec));
      Record(e);
      SaveAttempt(rec);
    }

    /** The part of `setAttempt` that writes the record. */
    method SaveAttempt(rec: Attempt)
      requires Valid() && cur.pc == SavingAttempt(rec)
      modifies this
      ensures Valid() && old(log) <= log && signals == old(signals) && cur.pc.Idle? && sent == old(sent)
      ensures disk.files == old(disk.files) && disk.tx == old(disk.tx)
    {
      hide History, Apply;
      var ok := Call();
      if host.hasStateDir && ok {
        disk := disk.(attempt := Some(rec));
      }
      SaveStep(host, cur, Result(ok));
      Record(Op(Result(ok)));
    }

    /**
      How `download` ends. A complete file is exactly the body that was sent since `body0`, of the
      announced size and at most the cap, and `sum` is its digest. What was sent since `sent0` reports
      rising percentages, none above the share of the announced size that had been received.
     */
    ghost predicate DownloadEnds(d: Directive, tmp: Path, r: Download, progress: seq<int>, sent0: seq<Status>,
        body0: Bytes)
      reads this
    {
      && Synced() && answer == (if r.Complete? then Some(true) else None)
      && Rising(progress) && sent0 <= sent && Percentages(sent[|sent0|..], d, mem.version, progress)
      && body0 <= body && (forall i :: 0 <= i < |progress| ==> progress[i] * d.sizeBytes <= 100 * (|body| - |body0|))
      && match r
         case Complete(sum) =>
           && tmp in disk.files && |disk.files[tmp]| == d.sizeBytes <= DOWNLOAD_CAP
           && disk.files[tmp] == body[|body0|..] && sum == host.digest(disk.files[tmp])
           && cur.pc == Closing(d, tmp, |disk.files[tmp]|)
         case Incomplete(denied) =>
           cur.pc == Discarding(d, tmp, if denied then NoWritePermission else DownloadFailed, false)
    }

    /**
      `download`. On every path at most one byte more than the limit is written, nothing else on disk
      changes, and the percentages reported rise by at least 5 each, whatever the sizes of the chunks.
     */
    method Download(d: Directive, tmp: Path) returns (r: Download, ghost progress: seq<int>)
      requires Valid() && cur.pc == Fetching(d, tmp) && tmp.Temp?
      modifies this
      ensures DownloadEnds(d, tmp, r, progress, old(sent), old(body))
      ensures old(log) <= log && signals == old(signals) && mem == old(mem)
      ensures tmp in disk.files && tmp !in old(disk.files) ==>
        && |disk.files[tmp]| <= 512 * 1024 * 1024 + 1
        && (d.sizeBytes > 0 ==> |disk.files[tmp]| <= d.sizeBytes + 1)
      ensures disk.tx == old(disk.tx) && Removed(disk.files, tmp) == Removed(old(disk.files), tmp)
    {
      hide History, Apply, Launched, Removed, Percent, Reports, MeterAfter, AfterRead;
      var ok := Call();
      RequestStep(host, cur, Result(ok));
      Record(Op(Result(ok)));
      if !ok {
        return Incomplete(false), [];
      }
      r, progress := Save(d, tmp);
    }

    /** The part of `download` after the response has arrived. */
    method Save(d: Directive, tmp: Path) returns (r: Download, ghost progress: seq<int>)
      requires Valid() && cur.pc == Creating(d, tmp)
      modifies this
      ensures DownloadEnds(d, tmp, r, progress, old(sent), old(body))
      ensures old(log) <= log && signals == old(signals) && mem == old(mem)
      ensures tmp in disk.files && tmp !in old(disk.files) ==> |disk.files[tmp]| <= Limit(d) + 1
      ensures disk.tx == old(disk.tx) && Removed(disk.files, tmp) == Removed(old(disk.files), tmp)
    {
      hide History, Apply;
      var e := CreateFile(d, tmp);
      if !e.Ok? {
        return Incomplete(e.Denied?), [];
      }
      r, progress := Fill(d, tmp);
    }

    /** `os.OpenFile` with O_CREATE|O_EXCL: a file that is there already is an error. */
    method CreateFile(d: Directive, tmp: Path) returns (e: Outcome)
      requires Valid() && cur.pc == Creating(d, tmp)
      modifies this
      ensures Valid() && old(log) <= log && signals == old(signals) && mem == old(mem) && sent == old(sent)
        && body == old(body)
      ensures e.Ok? ==>
        && tmp !in old(disk.files) && disk == old(disk).(files := old(disk.files)[tmp := []])
        && cur.pc == Copying(d, tmp, Meter(0, 0, None))
      ensures !e.Ok? ==>
        && disk == old(disk)
        && cur.pc == Discarding(d, tmp, if e.Denied? then NoWritePermission else DownloadFailed, false)
    {
      hide History, Apply, Percent, Reports, MeterAfter, AfterRead;
      var ok := Call();
      var denied: bool := *;
      if !ok {
        e := if denied then Denied else Err;
        CreateStep(host, cur, e);
        Record(Op(e));
        return;
      }
      CreateStep(host, cur, Ok);
      if tmp in disk.files {
        Record(Op(Ok));
        return Err;
      }
      disk := disk.(files := disk.files[tmp := []]);
      Record(Op(Ok));
      e := Ok;
    }

    /** Copy the body into the new file and close it. */
    method Fill(d: Directive, tmp: Path) returns (r: Download, ghost progress: seq<int>)
      requires Valid() && cur.pc == Copying(d, tmp, Meter(0, 0, None)) && tmp in disk.files && disk.files[tmp] == []
      modifies this
      ensures DownloadEnds(d, tmp, r, progress, old(sent), old(body))
      ensures old(log) <= log && signals == old(signals) && mem == old(mem)
      ensures tmp in disk.files && |disk.files[tmp]| <= Limit(d) + 1
      ensures disk.tx == old(disk.tx) && Removed(disk.files, tmp) == Removed(old(disk.files), tmp)
    {
      hide History, Apply, Removed, Rising, ProgressReports, Percentages, BackedBy;
      var n: Option<nat>;
      n, progress := CopyBody(d, tmp);
      ReportedPercentages(sent, old(sent), d, mem.version, progress);
      AllBacked(d, progress, |body| - |old(body)|);
      if n.None? {
        return Incomplete(false), progress;
      }
      r := CloseFile(d, tmp, n.value);
    }

    /** Close the file and compare its length; the digest is of what was written. */
    method CloseFile(d: Directive, tmp: Path, n: nat) returns (r: Download)
      requires Valid() && cur.pc == Closing(d, tmp, n) && tmp in disk.files && |disk.files[tmp]| == n
      modifies this
      ensures Synced() && answer == (if r.Complete? then Some(true) else None)
      ensures old(log) <= log && signals == old(signals) && mem == old(mem) && disk == old(disk) && sent == old(sent)
        && body == old(body)
      ensures r.Complete? ==>
        && cur.pc == Closing(d, tmp, n) && n == d.sizeBytes <= DOWNLOAD_CAP
        && r.sum == host.digest(disk.files[tmp])
      ensures r.Incomplete? ==> !r.denied && cur.pc == Discarding(d, tmp, DownloadFailed, false)
    {
      hide History, Apply;
      var ok := Call();
      if !ok || n > Limit(d) || n != d.sizeBytes {
        CloseStep(host, cur, Result(ok));
        Record(Op(Result(ok)));
        return Incomplete(false);
      }
      r := Complete(host.digest(disk.files[tmp]));
    }

    /**
      `n` bytes of the body that began after `body0` are in the file; what was sent since `sent0`
      reports the progress.
     */
    ghost predicate Copied(d: Directive, tmp: Path, n: nat, progress: seq<int>, sent0: seq<Status>, body0: Bytes)
      reads this
    {
      && tmp in disk.files && |disk.files[tmp]| == n <= Limit(d) + 1
      && body0 <= body && disk.files[tmp] == Upto(body[|body0|..], Limit(d) + 1)
      && sent == sent0 + ProgressReports(d, mem.version, progress)
    }

    /** `io.Copy` into the file through the progress reader and the limit reader. */
    method CopyBody(d: Directive, tmp: Path) returns (written: Option<nat>, ghost progress: seq<int>)
      requires Valid() && cur.pc == Copying(d, tmp, Meter(0, 0, None)) && tmp in disk.files && disk.files[tmp] == []
      modifies this
      ensures Valid() && old(log) <= log && signals == old(signals) && mem == old(mem)
      ensures tmp in disk.files && |disk.files[tmp]| <= Limit(d) + 1
      ensures disk.tx == old(disk.tx) && Removed(disk.files, tmp) == Removed(old(disk.files), tmp)
      ensures written.Some? ==> cur.pc == Closing(d, tmp, written.value) && |disk.files[tmp]| == written.value
      ensures written.Some? ==> old(body) <= body && disk.files[tmp] == Upto(body[|old(body)|..], Limit(d) + 1)
      ensures written.None? ==> cur.pc == Discarding(d, tmp, DownloadFailed, false)
      ensures Rising(progress) && sent == old(sent) + ProgressReports(d, mem.version, progress)
      ensures old(body) <= body && BackedBy(d, progress, |body| - |old(body)|)
    {
      ghost var sent0, body0 := sent, body;
      var complete: bool, n: nat;
      complete, n, progress := CopyPieces(d, tmp, sent0, body0);
      hide History, Apply, Removed, Rising, ProgressReports, Upto, BackedBy;
      written := if complete then Some(n) else None;
    }

    /** The loop of `io.Copy`. */
    method CopyPieces(d: Directive, tmp: Path, ghost sent0: seq<Status>, ghost body0: Bytes)
        returns (complete: bool, n: nat, ghost progress: seq<int>)
      requires Valid() && cur.pc == Copying(d, tmp, Meter(0, 0, None)) && Copied(d, tmp, 0, [], sent0, body0)
      modifies this
      ensures Valid() && old(log) <= log && signals == old(signals) && mem == old(mem)
      ensures tmp in disk.files && |disk.files[tmp]| <= Limit(d) + 1
      ensures disk.tx == old(disk.tx) && Removed(disk.files, tmp) == Removed(old(disk.files), tmp)
      ensures complete ==> Copied(d, tmp, n, progress, sent0, body0)
      ensures cur.pc == if complete then Closing(d, tmp, n) else Discarding(d, tmp, DownloadFailed, false)
      ensures Rising(progress) && sent == sent0 + ProgressReports(d, mem.version, progress)
      ensures body0 <= body && BackedBy(d, progress, |body| - |body0|)
    {
      hide History, Apply, Removed, MeterAfter, AfterRead, Percent, Reports, Rising, Last, ProgressReports, Upto,
        BackedBy;
      NothingReported(d);
      progress := [];
      var reader := new ProgressReader(d.sizeBytes);
      n := 0;
      var pieces: nat := *;
      while pieces > 0 && n <= Limit(d)
        invariant Valid() && old(log) <= log && signals == old(signals) && mem == old(mem) && fresh(reader)
          && reader.total == d.sizeBytes
        invariant cur.pc == Copying(d, tmp, reader.Counters()) && reader.read == n
        invariant Copied(d, tmp, n, progress, sent0, body0)
        invariant disk.tx == old(disk.tx) && Removed(disk.files, tmp) == Removed(old(disk.files), tmp)
        invariant Rising(progress) && reader.lastPct == Last(progress) && BackedBy(d, progress, n)
        invariant n <= |body| - |body0|
      {
        var piece: Option<nat>;
        piece, progress := CopyOn(d, tmp, reader, n, progress, sent0, body0);
        if piece.None? {
          BackedMore(d, progress, reader.read, |body| - |body0|);
          return false, n, progress;
        }
        n := n + piece.value;
        pieces := pieces - 1;
      }
      complete, progress := LastRead(d, tmp, reader, n, progress, sent0);
      BackedMore(d, progress, n, |body| - |body0|);
    }

    /** One piece more: what it adds to the file and to the reports. */
    method CopyOn(d: Directive, tmp: Path, reader: ProgressReader, n: nat, ghost progress: seq<int>,
        ghost sent0: seq<Status>, ghost body0: Bytes)
        returns (piece: Option<nat>, ghost progress': seq<int>)
      requires Valid() && reader.total == d.sizeBytes && reader.read == n <= Limit(d)
      requires cur.pc == Copying(d, tmp, reader.Counters()) && Copied(d, tmp, n, progress, sent0, body0)
      requires Rising(progress) && reader.lastPct == Last(progress) && BackedBy(d, progress, n)
      modifies this, reader
      ensures Valid() && old(log) <= log && signals == old(signals) && mem == old(mem)
      ensures disk.tx == old(disk.tx) && Removed(disk.files, tmp) == Removed(old(disk.files), tmp)
      ensures body0 <= body && reader.read <= |body| - |body0| && BackedBy(d, progress', reader.read)
      ensures piece.Some? ==>
        && cur.pc == Copying(d, tmp, reader.Counters()) && reader.read == n + piece.value
        && Copied(d, tmp, n + piece.value, progress', sent0, body0)
      ensures piece.None? ==>
        && cur.pc == Discarding(d, tmp, DownloadFailed, false) && tmp in disk.files && |disk.files[tmp]| <= Limit(d) + 1
        && sent == sent0 + ProgressReports(d, mem.version, progress')
      ensures Rising(progress') && reader.lastPct == Last(progress')
    {
      hide History, Apply, Removed, MeterAfter, AfterRead, Percent, Reports, Rising, Last, ProgressReports, Upto,
        BackedBy;
      ghost var before, file, reports := body, disk.files[tmp], sent;
      piece, progress' := CopyPiece(d, tmp, reader, n, progress);
      UptoAppend(before[|body0|..], file, body[|before|..], Limit(d));
      assert body[|body0|..] == before[|body0|..] + body[|before|..];
      assert sent == reports + sent[|reports|..];
      CopiedWithinBody(body0, before, file, Limit(d));
    }

    /** The read that ends the copy: end of the body, the limit, or an error. */
    method LastRead(d: Directive, tmp: Path, reader: ProgressReader, n: nat, ghost progress: seq<int>,
        ghost sent0: seq<Status>)
        returns (complete: bool, ghost progress': seq<int>)
      requires Valid() && reader.total == d.sizeBytes && reader.read == n
      requires cur.pc == Copying(d, tmp, reader.Counters()) && tmp in disk.files
      requires Rising(progress) && reader.lastPct == Last(progress) && BackedBy(d, progress, n)
        && sent == sent0 + ProgressReports(d, mem.version, progress)
      modifies this, reader
      ensures Valid() && old(log) <= log && signals == old(signals) && mem == old(mem) && disk == old(disk)
        && body == old(body)
      ensures cur.pc == if complete then Closing(d, tmp, n) else Discarding(d, tmp, DownloadFailed, false)
      ensures Rising(progress') && sent == sent0 + ProgressReports(d, mem.version, progress')
      ensures BackedBy(d, progress', n)
    {
      hide History, Apply, Removed, MeterAfter, ProgressReports, Percent, Reports, Rising, Last, BackedBy;
      ghost var meter := reader.Counters();
      var ok := Call();
      progress' := progress;
      if n <= Limit(d) {
        ghost var before := sent;
        progress' := Progress(reader, d, 0, progress);
        MeterReads(d, meter, 0, now);
        assert sent == before + sent[|before|..];
      }
      EndCopy(d, tmp, meter, ok);
      complete := ok || n > Limit(d);
    }

    /** The copy ends with the body, at the limit, or with an error. */
    ghost method EndCopy(d: Directive, tmp: Path, meter: Meter, ok: bool)
      requires History() && answer == Some(ok) && cur.pc == Copying(d, tmp, meter)
      requires disk == cur.disk && mem == cur.mem && now == cur.now && tmp in disk.files
      requires sent == if meter.read <= Limit(d) then AfterRead(cur, d, meter, 0).sent else cur.sent
      modifies this`log, this`cur, this`signals, this`answer
      ensures Valid() && old(log) <= log && signals == old(signals)
      ensures cur.pc == if ok || meter.read > Limit(d) then Closing(d, tmp, meter.read)
        else Discarding(d, tmp, DownloadFailed, false)
    {
      hide History, Apply, RunStatus, Percent, Reports, MeterAfter;
      EndCopyStep(host, cur, if ok then Eof else Err);
      Record(Op(if ok then Eof else Err));
    }

    /** One read and one write; nothing is returned if the write breaks off. */
    method CopyPiece(d: Directive, tmp: Path, reader: ProgressReader, n: nat, ghost progress: seq<int>)
        returns (piece: Option<nat>, ghost progress': seq<int>)
      requires Valid() && reader.total == d.sizeBytes && reader.read == n <= Limit(d)
      requires cur.pc == Copying(d, tmp, reader.Counters()) && tmp in disk.files && |disk.files[tmp]| == n
      requires Rising(progress) && reader.lastPct == Last(progress) && BackedBy(d, progress, n)
      modifies this, reader
      ensures BackedBy(d, progress', reader.read)
      ensures Valid() && old(log) <= log && signals == old(signals) && mem == old(mem)
      ensures tmp in disk.files && disk.tx == old(disk.tx) && Removed(disk.files, tmp) == Removed(old(disk.files), tmp)
      ensures piece.Some? ==>
        && cur.pc == Copying(d, tmp, reader.Counters()) && reader.read == n + piece.value <= Limit(d) + 1
        && |disk.files[tmp]| == n + piece.value
      ensures old(body) <= body && reader.read <= n + |body| - |old(body)|
      ensures piece.Some? ==> disk.files[tmp] == old(disk.files[tmp]) + Upto(body[|old(body)|..], Limit(d) + 1 - n)
      ensures piece.None? ==> cur.pc == Discarding(d, tmp, DownloadFailed, false) && |disk.files[tmp]| <= Limit(d) + 1
      ensures Rising(progress') && reader.lastPct == Last(progress')
      ensures old(sent) <= sent
      ensures ProgressReports(d, mem.version, progress') == ProgressReports(d, mem.version, progress)
        + sent[|old(sent)|..]
    {
      hide History, Apply, Removed, ProgressReports, Percent, Reports, Rising, Last, BackedBy;
      ghost var meter := reader.Counters();
      var ok := Call();
      var chunk := Receive();
      assert body[|old(body)|..] == chunk;
      var b := Upto(chunk, Limit(d) + 1 - n);
      progress' := Progress(reader, d, |b|, progress);
      Write(d, tmp, meter, chunk, ok);
      piece := if ok then Some(|b|) else None;
    }

    /** The write of a piece just read; one that fails leaves some part of it in the file. */
    method Write(d: Directive, tmp: Path, ghost meter: Meter, chunk: Bytes, ok: bool)
      requires History() && answer == Some(ok) && cur.pc == Copying(d, tmp, meter) && meter.read <= Limit(d)
      requires disk == cur.disk && mem == cur.mem && now == cur.now && tmp in disk.files
        && |disk.files[tmp]| == meter.read
      requires sent == AfterRead(cur, d, meter, |Upto(chunk, Limit(d) + 1 - meter.read)|).sent
      modifies this`disk, this`log, this`cur, this`signals, this`answer
      ensures Valid() && old(log) <= log && signals == old(signals)
      ensures tmp in disk.files && disk.tx == old(disk.tx) && Removed(disk.files, tmp) == Removed(old(disk.files), tmp)
      ensures var b := Upto(chunk, Limit(d) + 1 - meter.read);
        if ok then disk.files[tmp] == old(disk.files[tmp]) + b
          && cur.pc == Copying(d, tmp, MeterAfter(d, meter, |b|, now))
        else |disk.files[tmp]| <= Limit(d) + 1 && cur.pc == Discarding(d, tmp, DownloadFailed, false)
    {
      hide History, Apply, AfterRead, Removed, RunStatus, Percent, Reports, MeterAfter;
      var b := Upto(chunk, Limit(d) + 1 - |disk.files[tmp]|);
      if ok {
        PutKeeps(disk.files, tmp, disk.files[tmp] + b);
        disk := disk.(files := disk.files[tmp := disk.files[tmp] + b]);
        WriteStep(host, cur, Data(chunk));
        Record(Op(Data(chunk)));
      } else {
        var kept: nat := *;
        PutKeeps(disk.files, tmp, disk.files[tmp] + Upto(b, kept));
        disk := disk.(files := disk.files[tmp := disk.files[tmp] + Upto(b, kept)]);
        WriteStep(host, cur, Broken(chunk, kept));
        Record(Op(Broken(chunk, kept)));
      }
    }

    /** One call of the reader, and the report it may cause. */
    method Progress(reader: ProgressReader, d: Directive, n: nat, ghost progress: seq<int>)
        returns (ghost progress': seq<int>)
      requires reader.total == d.sizeBytes && Rising(progress) && reader.lastPct == Last(progress)
      requires BackedBy(d, progress, reader.read)
      modifies this`sent, reader
      ensures BackedBy(d, progress', reader.read)
      ensures reader.Counters() == MeterAfter(d, old(reader.Counters()), n, now)
      ensures sent == old(sent) + if Reports(d, old(reader.Counters()), old(reader.read) + n, now)
        then [RunStatus(d, mem.version, Downloading, Some(Percent(old(reader.read) + n, d.sizeBytes)), None)] else []
      ensures Rising(progress') && reader.lastPct == Last(progress')
      ensures ProgressReports(d, mem.version, progress') == ProgressReports(d, mem.version, progress)
        + sent[|old(sent)|..]
    {
      progress' := progress;
      var report := reader.Count(n, now, d);
      if d.sizeBytes > 0 {
        BackedGrows(d, progress, old(reader.read), if report.Some? then report.value else 0, n);
      }
      if report.Some? {
        sent := sent + [Status(d.requestId, Downloading, d.targetVersion, mem.version, report, None)];
        progress' := progress + [report.value];
      }
    }

    /** Make the download executable, then go on to the smoke test. */
    method Smoke(d: Directive, tmp: Path)
      requires Valid() && cur.pc == Chmodding(d, tmp) && tmp.Temp?
      modifies this
      ensures Valid() && old(log) <= log && signals == old(signals)
      ensures cur.pc.Idle? || cur.pc.Starting?
      ensures EndsRun(host, d, old(mem.version), old(ProgramOf(disk.files)), old(sent), cur)
      ensures Others(disk.files, tmp) == Others(old(disk.files), tmp)
    {
      hide History, Apply, EndsRun, ProgramOf, Others, Text.Contains, Percent, Reports, MeterAfter, AfterRead;
      var ok := Call();
      ChmodStep(host, cur, Result(ok));
      Record(Op(Result(ok)));
      if !ok {
        Discard(d, tmp, NoWritePermission);
        return;
      }
      SmokeTest(d, tmp);
    }

    /** It must run, and say that it is the target version. */
    method SmokeTest(d: Directive, tmp: Path)
      requires Valid() && cur.pc == Smoking(d, tmp) && tmp.Temp?
      modifies this
      ensures Valid() && old(log) <= log && signals == old(signals)
      ensures cur.pc.Idle? || cur.pc.Starting?
      ensures EndsRun(host, d, old(mem.version), old(ProgramOf(disk.files)), old(sent), cur)
      ensures Others(disk.files, tmp) == Others(old(disk.files), tmp)
    {
      hide History, Apply, EndsRun, ProgramOf, Others, Text.Contains;
      var ok := RunSelfCheck(d, tmp);
      ghost var sent1 := sent;
      if ok {
        BackUpAndInstall(d, tmp);
      } else {
        Discard(d, tmp, SmokeTestFailed);
      }
      EndsRunSince(host, d, old(mem.version), old(ProgramOf(disk.files)), old(sent), sent1, cur);
    }

    method RunSelfCheck(d: Directive, tmp: Path) returns (ok: bool)
      requires Valid() && cur.pc == Smoking(d, tmp)
      modifies this
      ensures Valid() && old(log) <= log && signals == old(signals) && mem == old(mem) && disk == old(disk)
      ensures ok ==>
        && tmp in disk.files && Text.Contains(host.selfReport(disk.files[tmp]), d.targetVersion)
        && cur.pc == OpeningBackup(d, tmp) && sent == old(sent) + [RunStatus(d, mem.version, Installing, None, None)]
      ensures !ok ==> cur.pc == Discarding(d, tmp, SmokeTestFailed, false) && sent == old(sent)
    {
      hide History, Apply, Text.Contains, Percent, Reports, MeterAfter, AfterRead;
      ok := Call();
      SmokingHasFile();
      SmokeStep(host, cur, Result(ok));
      if !ok {
        Record(Op(Err));
        return;
      }
      var selfVersion := host.selfReport(disk.files[tmp]);
      if !Text.Contains(selfVersion, d.targetVersion) {
        Record(Op(Ok));
        return false;
      }
      Report(d, Installing);
      Record(Op(Ok));
    }

    method BackUpAndInstall(d: Directive, tmp: Path)
      requires Valid() && cur.pc == OpeningBackup(d, tmp) && tmp.Temp?
      modifies this
      ensures Valid() && old(log) <= log && signals == old(signals)
      ensures cur.pc.Idle? || cur.pc.Starting?
      ensures EndsRun(host, d, old(mem.version), old(ProgramOf(disk.files)), old(sent), cur)
      ensures Others(disk.files, tmp) == Others(old(disk.files), tmp)
    {
      hide History, Apply, EndsRun, ProgramOf, Others, Removed;
      var copied := CopyFile(d, tmp);
      RemovedKeeps(old(disk.files), disk.files, Backup, tmp);
      if copied {
        ghost var clock := Install(d, tmp);
      } else {
        Discard(d, tmp, ReplaceFailed);
      }
    }

    lemma SmokingHasFile()
      requires Synced() && cur.pc.Smoking?
      ensures cur.pc.tmp in disk.files
    {
      hide Replay, AllowedRun, Signals, LogInv, SentInv, StartInv, DiskInv, Checked;
      Invariant();
    }

    /** `copyFile`: truncate, copy in pieces, close. A success has copied everything. */
    method CopyFile(d: Directive, tmp: Path) returns (ok: bool)
      requires Valid() && cur.pc == OpeningBackup(d, tmp)
      modifies this
      ensures Valid() && old(log) <= log && signals == old(signals) && mem == old(mem) && sent == old(sent)
      ensures disk == old(disk).(files := disk.files) && Removed(disk.files, Backup) == Removed(old(disk.files), Backup)
      ensures Exe in disk.files
      ensures ok ==> cur.pc == Recording(d, tmp) && Backup in disk.files && disk.files[Backup] == disk.files[Exe]
      ensures !ok ==> cur.pc == Discarding(d, tmp, ReplaceFailed, false)
    {
      hide History, Apply, Removed;
      Integrity();
      ok := OpenBackup(d, tmp);
      if ok {
        ok := CopyAll(d, tmp);
      }
    }

    /** The backup is opened and truncated. */
    method OpenBackup(d: Directive, tmp: Path) returns (ok: bool)
      requires Valid() && cur.pc == OpeningBackup(d, tmp)
      modifies this
      ensures Valid() && old(log) <= log && signals == old(signals) && mem == old(mem) && sent == old(sent)
      ensures Removed(disk.files, Backup) == Removed(old(disk.files), Backup)
      ensures if ok then disk == old(disk).(files := old(disk.files)[Backup := []])
        && cur.pc == CopyingBackup(d, tmp, 0)
        else disk == old(disk) && cur.pc == Discarding(d, tmp, ReplaceFailed, false)
    {
      hide History, Apply, Removed;
      ok := Call();
      OpenBackupStep(host, cur, Result(ok));
      if !ok {
        Record(Op(Err));
        return;
      }
      PutKeeps(disk.files, Backup, []);
      disk := disk.(files := disk.files[Backup := []]);
      Record(Op(Ok));
    }

    /** The loop of `io.Copy` into the backup, and the close. */
    method CopyAll(d: Directive, tmp: Path) returns (ok: bool)
      requires Valid() && cur.pc == CopyingBackup(d, tmp, 0) && Exe in disk.files && Backup in disk.files
        && disk.files[Backup] == []
      modifies this
      ensures Valid() && old(log) <= log && signals == old(signals) && mem == old(mem) && sent == old(sent)
      ensures disk == old(disk).(files := disk.files) && Removed(disk.files, Backup) == Removed(old(disk.files), Backup)
      ensures Exe in disk.files
      ensures ok ==> cur.pc == Recording(d, tmp) && Backup in disk.files && disk.files[Backup] == disk.files[Exe]
      ensures !ok ==> cur.pc == Discarding(d, tmp, ReplaceFailed, false)
    {
      hide History, Apply;
      var n: nat := 0;
      ok := true;
      while ok && n < |disk.files[Exe]|
        invariant Valid() && old(log) <= log && signals == old(signals) && mem == old(mem) && sent == old(sent)
        invariant disk == old(disk).(files := disk.files)
          && Removed(disk.files, Backup) == Removed(old(disk.files), Backup)
        invariant Exe in disk.files && Backup in disk.files && n <= |disk.files[Exe]|
        invariant if ok then cur.pc == CopyingBackup(d, tmp, n) && disk.files[Backup] == disk.files[Exe][..n]
                  else cur.pc == Discarding(d, tmp, ReplaceFailed, false)
        decreases ok, |disk.files[Exe]| - n
      {
        ok, n := CopyBlock(d, tmp, n);
      }
      if ok {
        ok := Call();
        CopyBackupStep(host, cur, if ok then Eof else Err);
        Record(Op(if ok then Eof else Err));
      }
    }

    /** One piece of the executable appended to the backup. */
    method CopyBlock(d: Directive, tmp: Path, n: nat) returns (ok: bool, n': nat)
      requires Valid() && cur.pc == CopyingBackup(d, tmp, n) && Exe in disk.files && Backup in disk.files
      requires n < |disk.files[Exe]| && disk.files[Backup] == disk.files[Exe][..n]
      modifies this
      ensures Valid() && old(log) <= log && signals == old(signals) && mem == old(mem) && sent == old(sent)
      ensures disk.tx == old(disk.tx) && disk.attempt == old(disk.attempt)
      ensures Backup in disk.files && Exe in disk.files
        && Removed(disk.files, Backup) == Removed(old(disk.files), Backup)
      ensures disk.files[Exe] == old(disk.files[Exe]) && n' <= |disk.files[Exe]|
      ensures ok ==> n < n' && cur.pc == CopyingBackup(d, tmp, n') && disk.files[Backup] == disk.files[Exe][..n']
      ensures !ok ==> n' == n && cur.pc == Discarding(d, tmp, ReplaceFailed, false)
    {
      hide History, Apply, Removed;
      ok := Call();
      n' := n;
      if !ok {
        CopyBackupStep(host, cur, Err);
        Record(Op(Err));
        return;
      }
      var chunk: Bytes := *;
      if chunk == [] {
        chunk := [0];
      }
      n' := |Upto(disk.files[Exe], n + |chunk|)|;
      PutKeeps(disk.files, Backup, disk.files[Exe][..n']);
      disk := disk.(files := disk.files[Backup := disk.files[Exe][..n']]);
      CopyBackupStep(host, cur, Data(chunk));
      Record(Op(Data(chunk)));
    }

    /** Transaction first, then the atomic replacement. `clock` is read when the transaction is written. */
    method Install(d: Directive, tmp: Path) returns (ghost clock: int)
      requires Valid() && cur.pc == Recording(d, tmp) && tmp.Temp?
      modifies this
      ensures Valid() && old(log) <= log && signals == old(signals)
      ensures cur.pc.Idle? || cur.pc.Starting?
      ensures EndsRun(host, d, old(mem.version), old(ProgramOf(disk.files)), old(sent), cur)
      ensures Others(disk.files, tmp) == Others(old(disk.files), tmp)
      ensures sent != [] && sent[|sent| - 1].state == Restarting ==> disk.tx.Some? && disk.tx.value.at == clock
    {
      hide History, Apply, EndsRun, ProgramOf, Others;
      var ok := WriteTransaction(d, tmp);
      clock := now;
      if ok {
        Swap(d, tmp);
      } else {
        Discard(d, tmp, ReplaceFailed);
      }
    }

    /** The transaction with the clock reading of this moment. */
    method WriteTransaction(d: Directive, tmp: Path) returns (ok: bool)
      requires Valid() && cur.pc == Recording(d, tmp)
      modifies this
      ensures Valid() && old(log) <= log && signals == old(signals) && mem == old(mem) && sent == old(sent)
      ensures ok ==>
        && host.hasStateDir && cur.pc == Swapping(d, tmp)
        && disk == old(disk).(tx := disk.tx)
        && disk.tx == Some(Transaction(mem.version, d.targetVersion, Backup, d.requestId, Pending, now, 0, 0, None))
      ensures !ok ==> disk == old(disk) && cur.pc == Discarding(d, tmp, ReplaceFailed, false)
    {
      hide History, Apply;
      ok := Call();
      RecordStep(host, cur, Result(ok));
      if !host.hasStateDir || !ok {
        Record(Op(Result(ok)));
        return false;
      }
      var tx := Transaction(mem.version, d.targetVersion, Backup, d.requestId, Pending, now, 0, 0, None);
      disk := disk.(tx := Some(tx));
      Record(Op(Ok));
    }

    /** The download takes the place of the executable in one rename. */
    method Swap(d: Directive, tmp: Path)
      requires Valid() && cur.pc == Swapping(d, tmp) && tmp.Temp?
      modifies this
      ensures Valid() && old(log) <= log && signals == old(signals)
      ensures cur.pc.Idle? || cur.pc.Starting?
      ensures EndsRun(host, d, old(mem.version), old(ProgramOf(disk.files)), old(sent), cur)
      ensures Others(disk.files, tmp) == Others(old(disk.files), tmp)
      ensures sent != [] && sent[|sent| - 1].state == Restarting ==> disk.tx == old(disk.tx)
    {
      hide History, Apply, Launched, EndsRun, ProgramOf, Others;
      BackedUpBefore();
      var rec := Replace(d, tmp);
      if rec.None? {
        Withdraw(d, tmp);
      } else {
        Restart(d, rec.value, tmp, old(ProgramOf(disk.files)));
      }
    }

    /** The rename itself. */
    method Replace(d: Directive, tmp: Path) returns (rec: Option<Attempt>)
      requires Valid() && cur.pc == Swapping(d, tmp) && tmp.Temp?
      modifies this
      ensures Valid() && old(log) <= log && signals == old(signals) && sent == old(sent)
        && mem.version == old(mem.version)
      ensures rec.None? ==> disk == old(disk) && cur.pc == Discarding(d, tmp, ReplaceFailed, true)
      ensures rec.Some? ==>
        && tmp in old(disk.files) && disk == old(disk).(files := Renamed(old(disk.files), tmp, Exe))
        && cur.pc == Marking(d, rec.value)
      ensures Others(disk.files, tmp) == Others(old(disk.files), tmp)
    {
      hide History, Apply, Others;
      var ok := Call();
      SwapStep(host, cur, Result(ok));
      if !ok || tmp !in disk.files {
        Record(Op(Result(ok)));
        return None;
      }
      RenamedKeeps(disk.files, tmp, tmp);
      disk := disk.(files := Renamed(disk.files, tmp, Exe));
      rec := Some(Attempt(d.requestId, d.targetVersion, now, WasInstalled));
      mem := mem.(lastAttempt := rec);
      Record(Op(Ok));
    }

    /** When the replacement begins, the backup holds the executable. */
    lemma BackedUpBefore()
      requires Synced() && cur.pc.Swapping?
      ensures Backup in disk.files && disk.files[Backup] == ProgramOf(disk.files)
    {
      hide Replay, AllowedRun, Signals, LogInv, SentInv, StartInv, DiskInv, Checked;
      Invariant();
    }

    /** Once it is done, the new program is in place and recorded. */
    lemma InPlace(d: Directive, base: Bytes)
      requires Synced() && (cur.pc.Execing? || cur.pc.Marking? || cur.pc.RestoringRun?) && cur.pc.d == d
      requires Backup in disk.files && disk.files[Backup] == base
      ensures NewInPlace(host, d, base, disk.files)
      ensures Tried(cur, d, mem.version)
    {
      StartTime();
      hide Replay, AllowedRun, Signals, LogInv, SentInv, StartInv, DiskInv, Vetted;
      Invariant();
    }

    /** The replacement failed: remove the download and the transaction. */
    method Withdraw(d: Directive, tmp: Path)
      requires Valid() && cur.pc == Discarding(d, tmp, ReplaceFailed, true) && tmp.Temp?
      modifies this
      ensures EndsRun(host, d, old(mem.version), old(ProgramOf(disk.files)), old(sent), cur)
      ensures Others(disk.files, tmp) == Others(old(disk.files), tmp)
      ensures Valid() && old(log) <= log && signals == old(signals) && cur.pc.Idle?
      ensures sent == old(sent) + [RunStatus(d, old(mem.version), Failed, None, Some(ReplaceFailed))]
    {
      hide History, Apply, EndsRun, Others;
      var ok := Call();
      if ok {
        disk := disk.(files := Removed(disk.files, tmp));
      }
      DiscardStep(host, cur, Result(ok));
      Record(Op(Result(ok)));
      ClearAndFail(d, ReplaceFailed);
      RemovedKeeps(old(disk.files), disk.files, tmp, tmp);
      Integrity();
      FailedRun(host, d, old(mem.version), old(ProgramOf(disk.files)), old(sent), ReplaceFailed, cur);
    }

    /** Report, then exec; if exec returns, restore the backup. */
    method Restart(d: Directive, rec: Attempt, ghost tmp: Path, ghost base: Bytes)
      requires Valid() && cur.pc == Marking(d, rec) && Backup in disk.files && disk.files[Backup] == base
      modifies this
      ensures Valid() && old(log) <= log && signals == old(signals)
      ensures cur.pc.Idle? || cur.pc.Starting?
      ensures EndsRun(host, d, old(mem.version), base, old(sent), cur)
      ensures Others(disk.files, tmp) == Others(old(disk.files), tmp)
      ensures sent != [] && sent[|sent| - 1].state == Restarting ==> disk.tx == old(disk.tx)
    {
      hide History, Apply, Launched, EndsRun, NewInPlace, Vetted, Others;
      InPlace(d, base);
      ReportRestart(d, rec);
      ghost var sent1 := sent;
      if host.canExec {
        ExecNew(d, tmp, base);
      }
      StartTime();
      RestartedRun(host, d, old(mem.version), base, old(sent), sent1, cur);
    }

    /** A transaction on disk began when the history says that one was recorded. */
    lemma StartTime()
      requires Synced()
      ensures disk.tx.Some? ==> disk.tx.value.at == cur.hist.recordedAt
    {
      hide Replay, AllowedRun, Signals, LogInv, SentInv, StartInv, PcInv, Good, Asked, Known;
      Invariant();
    }

    /** Remember the attempt, then say that the process restarts. */
    method ReportRestart(d: Directive, rec: Attempt)
      requires Valid() && cur.pc == Marking(d, rec)
      modifies this
      ensures Valid() && old(log) <= log && signals == old(signals) && mem == old(mem)
      ensures cur.pc == if host.canExec then Execing(d) else Idle
      ensures disk.files == old(disk.files) && disk.tx == old(disk.tx)
      ensures sent == old(sent) + [RunStatus(d, mem.version, Restarting, None, None)]
    {
      hide History, Apply, RunStatus;
      var ok := Call();
      if host.hasStateDir && ok {
        disk := disk.(attempt := Some(rec));
      }
      Report(d, Restarting);
      MarkStep(host, cur, Result(ok));
      Record(Op(Result(ok)));
    }

    method ExecNew(d: Directive, ghost tmp: Path, ghost base: Bytes)
      requires Valid() && cur.pc == Execing(d) && Backup in disk.files && disk.files[Backup] == base
      modifies this
      ensures Valid() && old(log) <= log && signals == old(signals)
      ensures cur.pc.Idle? || cur.pc.Starting?
      ensures cur.pc.Starting? ==> disk == old(disk) && sent == old(sent)
      ensures cur.pc.Idle? ==>
        && EndsRun(host, d, old(mem.version), base, old(sent), cur)
        && sent != [] && sent[|sent| - 1].state != Restarting
      ensures Others(disk.files, tmp) == Others(old(disk.files), tmp)
    {
      hide History, Apply, Launched, EndsRun, NewInPlace, Vetted, Others;
      var ok := Call();
      ExecStep(host, cur, Result(ok));
      if ok {
        Exec(Op(Ok));
      } else {
        Record(Op(Err));
        RestoreOld(d, tmp, base);
      }
    }

    /** exec returned: put the old program back, drop the transaction, report. */
    method RestoreOld(d: Directive, ghost tmp: Path, ghost base: Bytes)
      requires Valid() && cur.pc == RestoringRun(d) && Backup in disk.files && disk.files[Backup] == base
      modifies this
      ensures EndsRun(host, d, old(mem.version), base, old(sent), cur)
      ensures Others(disk.files, tmp) == Others(old(disk.files), tmp)
      ensures Valid() && old(log) <= log && signals == old(signals) && cur.pc.Idle?
      ensures disk.files == old(disk.files)
        || (Backup in old(disk.files) && disk.files == Renamed(old(disk.files), Backup, Exe))
      ensures sent == old(sent) + [RunStatus(d, old(mem.version), Failed, None, Some(ExecFailed))]
    {
      hide History, Apply, Launched, EndsRun, NewInPlace, Vetted, Others;
      InPlace(d, base);
      RenamedKeeps(disk.files, Backup, tmp);
      var ok := Call();
      if ok && Backup in disk.files {
        disk := disk.(files := Renamed(disk.files, Backup, Exe));
      }
      RestoreStep(host, cur, Result(ok));
      Record(Op(Result(ok)));
      ClearAndFail(d, ExecFailed);
      Integrity();
      FailedRun(host, d, old(mem.version), base, old(sent), ExecFailed, cur);
    }

    /** `clearTransaction`, then `fail`. */
    method ClearAndFail(d: Directive, why: Reason)
      requires Valid() && cur.pc == ClearingRun(d, why)
      modifies this
      ensures Valid() && old(log) <= log && signals == old(signals) && cur.pc.Idle? && disk.files == old(disk.files)
      ensures disk.tx == old(disk.tx) || disk.tx == None
      ensures sent == old(sent) + [RunStatus(d, old(mem.version), Failed, None, Some(why))]
    {
      hide History, Apply, RunStatus, FailureRecord;
      var ok := Call();
      if ok {
        disk := disk.(tx := None);
      }
      ClearStep(host, cur, Result(ok));
      Fail(d, why, Op(Result(ok)));
    }

    /** The process image is replaced by the program at the executable path. */
    method Exec(ghost e: Event)
      requires Synced() && Allowed(cur, e) && Agrees(e) && Apply(host, cur, e) == Launched(host, cur)
      modifies this
      ensures Valid() && log == old(log) + [e] && signals == old(signals) + (if Signal(e) then 1 else 0)
        && cur == Launched(host, old(cur)) && cur.pc.Starting?
      ensures disk == old(disk) && sent == old(sent) && now == old(now)
    {
      hide History, Apply;
      Integrity();
      mem := Memory(host.versionOf(disk.files[Exe]), None, false);
      Record(e);
    }

    /** `readTransaction`: a missing, unreadable or undecodable file counts as no transaction. */
    method ReadTransaction() returns (tx: Option<Transaction>, ghost readable: bool)
      requires Valid()
      modifies this`now, this`log, this`cur, this`signals, this`answer
      ensures Synced() && answer == Some(readable) && old(log) <= log && cur == old(cur).(now := now)
      ensures signals == old(signals)
      ensures tx == if host.hasStateDir && readable then disk.tx else None
    {
      var ok := Call();
      readable := ok;
      tx := None;
      if host.hasStateDir && ok {
        tx := disk.tx;
      }
    }

    // ----- process start -----

    /** The service manager starts the program. */
    method StartProcess()
      requires Valid() && cur.pc.Off?
      modifies this
      ensures Valid() && old(log) + [Boot] <= log && signals == old(signals) + 1
      ensures cur.pc.Idle? || cur.pc.Off? || cur.pc.Starting?
    {
      hide History, Apply;
      BootStep(host, cur);
      Exec(Boot);
      var restart := CheckOnStartup();
      if restart {
        return;
      }
      New();
      Start();
    }

    /**
      `CheckOnStartup`: count the start of a program on trial and roll back at the third. With
      `restart` the process ends, or already runs the restored program.
     */
    method CheckOnStartup() returns (restart: bool)
      requires Valid() && cur.pc.Starting?
      modifies this
      ensures Valid() && old(log) <= log && signals == old(signals)
      ensures restart ==> cur.pc.Off? || cur.pc.Starting?
      ensures !restart ==> cur.pc.LoadingAttempt? && disk.files == old(disk.files) && sent == old(sent)
      ensures restart || disk != old(disk) ==> old(disk.tx).Some? && old(disk.tx).value.phase == Pending
      ensures restart ==> old(disk.tx).value.attempts >= 2
      ensures !restart && disk != old(disk) ==>
        var tx := old(disk.tx).value; disk.tx == Some(tx.(attempts := tx.attempts + 1))
    {
      hide History, Apply, Launched, Renamed;
      var tx, readable := ReadTransaction();
      CheckStep(host, cur, Result(readable));
      if tx.None? || tx.value.phase == Restored {
        Record(Op(Result(readable)));
        return false;
      }
      var counted := tx.value.(attempts := tx.value.attempts + 1);
      Record(Op(Ok));
      if counted.attempts >= MAX_START_ATTEMPTS {
        Rollback(counted, AtStart);
        return true;
      }
      CountStart(counted);
      restart := false;
    }

    /** Write the raised counter; the start goes on even if that fails. */
    method CountStart(counted: Transaction)
      requires Valid() && cur.pc == CountingStart(counted)
      modifies this
      ensures Valid() && old(log) <= log && signals == old(signals) && cur.pc.LoadingAttempt?
      ensures disk.files == old(disk.files) && sent == old(sent)
      ensures disk == old(disk) || disk == old(disk).(tx := Some(counted))
    {
      hide History, Apply;
      var ok := Call();
      if host.hasStateDir && ok {
        disk := disk.(tx := Some(counted));
      }
      CountStep(host, cur, Result(ok));
      Record(Op(Result(ok)));
    }

    /** `New`: load the last attempt. */
    method New()
      requires Valid() && cur.pc.LoadingAttempt?
      modifies this
      ensures Valid() && old(log) <= log && signals == old(signals) && cur.pc.ArmingWatchdog? && disk == old(disk)
        && sent == old(sent)
    {
      hide History, Apply;
      var ok := Call();
      mem := mem.(lastAttempt := if host.hasStateDir && ok then disk.attempt else None);
      LoadStep(host, cur, Result(ok));
      Record(Op(Result(ok)));
    }

    /** `Start`: arm the watchdog if a trial is going on. */
    method Start()
      requires Valid() && cur.pc.ArmingWatchdog?
      modifies this
      ensures Valid() && old(log) <= log && signals == old(signals) && cur.pc.Idle? && disk == old(disk)
        && sent == old(sent)
    {
      hide History, Apply;
      var tx, readable := ReadTransaction();
      mem := mem.(watching := tx.Some? && tx.value.phase == Pending);
      LoadStep(host, cur, Result(readable));
      Record(Op(Result(readable)));
    }

    // ----- rollback -----

    /** `rollback`: rename the backup over the executable, leave the marker, exec. */
    method Rollback(tx: Transaction, who: Caller)
      requires Valid() && cur.pc == RbLocating(tx, who)
      modifies this
      ensures Valid() && old(log) <= log && signals == old(signals)
      ensures cur.pc.Starting? || (if who == AtStart then cur.pc.Off? else cur.pc.Idle?)
      ensures disk.files == old(disk.files)
        || (tx.backupPath in old(disk.files) && tx.backupPath != Exe
            && disk.files == Renamed(old(disk.files), tx.backupPath, Exe))
    {
      hide History, Apply, Launched, Renamed;
      var ok := Call();
      RbLocateStep(host, cur, Result(ok));
      if !ok {
        Leave(who);
        Record(Op(Err));
        return;
      }
      Record(Op(Ok));
      FindBackup(tx, who);
    }

    /** Without a backup file nothing can be restored. */
    method FindBackup(tx: Transaction, who: Caller)
      requires Valid() && cur.pc == RbStatting(tx, who)
      modifies this
      ensures Valid() && old(log) <= log && signals == old(signals)
      ensures cur.pc.Starting? || (if who == AtStart then cur.pc.Off? else cur.pc.Idle?)
      ensures disk.files == old(disk.files)
        || (tx.backupPath in old(disk.files) && tx.backupPath != Exe
            && disk.files == Renamed(old(disk.files), tx.backupPath, Exe))
    {
      hide History, Apply, Launched, Renamed;
      var ok := Call();
      RbStatStep(host, cur, Result(ok));
      if !ok || tx.backupPath !in disk.files {
        Record(Op(Result(ok)));
        GiveUp(tx, who);
        return;
      }
      Record(Op(Ok));
      RestoreBackup(tx, who);
    }

    /** The renaming part of `rollback`. */
    method RestoreBackup(tx: Transaction, who: Caller)
      requires Valid() && cur.pc == RbRenaming(tx, who) && tx.backupPath in disk.files
      modifies this
      ensures Valid() && old(log) <= log && signals == old(signals)
      ensures cur.pc.Starting? || (if who == AtStart then cur.pc.Off? else cur.pc.Idle?)
      ensures disk.files == old(disk.files)
        || (tx.backupPath != Exe && disk.files == Renamed(old(disk.files), tx.backupPath, Exe))
    {
      hide History, Apply, Launched, Renamed;
      var ok := Call();
      RbRenameStep(host, cur, Result(ok));
      if !ok || tx.backupPath == Exe {
        Leave(who);
        Record(Op(Result(ok)));
        return;
      }
      disk := disk.(files := Renamed(disk.files, tx.backupPath, Exe));
      Record(Op(Ok));
      MarkAndExec(tx, who);
    }

    /** The backup is back in place: leave the marker, then exec the old program. */
    method MarkAndExec(tx: Transaction, who: Caller)
      requires Valid() && cur.pc == RbMarking(tx, who)
      modifies this
      ensures Valid() && old(log) <= log && signals == old(signals) && disk.files == old(disk.files)
        && sent == old(sent)
      ensures cur.pc.Starting? || (if who == AtStart then cur.pc.Off? else cur.pc.Idle?)
    {
      hide History, Apply, Launched;
      Mark(tx, who);
      if host.canExec {
        ExecOld(who);
      }
    }

    method Mark(tx: Transaction, who: Caller)
      requires Valid() && cur.pc == RbMarking(tx, who)
      modifies this
      ensures Valid() && old(log) <= log && signals == old(signals) && disk.files == old(disk.files)
        && sent == old(sent)
      ensures disk.tx == old(disk.tx)
        || disk.tx == Some(tx.(phase := Restored, reason := Some(NotConnectedAfterUpgrade)))
      ensures cur.pc == if host.canExec then RbExecing(who) else if who == AtStart then Off else Idle
    {
      hide History, Apply, Launched;
      var ok := Call();
      if host.hasStateDir && ok {
        disk := disk.(tx := Some(tx.(phase := Restored, reason := Some(NotConnectedAfterUpgrade))));
      }
      RbMarkStep(host, cur, Result(ok));
      if !host.canExec {
        Leave(who);
      }
      Record(Op(Result(ok)));
    }

    method ExecOld(who: Caller)
      requires Valid() && cur.pc == RbExecing(who)
      modifies this
      ensures Valid() && old(log) <= log && signals == old(signals) && disk == old(disk) && sent == old(sent)
      ensures cur.pc.Starting? || (if who == AtStart then cur.pc.Off? else cur.pc.Idle?)
    {
      hide History, Apply;
      var ok := Call();
      RbExecStep(host, cur, Result(ok));
      if ok {
        Exec(Op(Ok));
      } else {
        Leave(who);
        Record(Op(Err));
      }
    }

    /** The watchdog ends with its rollback. */
    method Leave(who: Caller)
      modifies this`mem
      ensures mem == if who == Watchdog then old(mem).(watching := false) else old(mem)
    {
      if who == Watchdog {
        mem := mem.(watching := false);
      }
    }

    /** Without a backup the new program stays: drop the transaction and say so. */
    method GiveUp(tx: Transaction, who: Caller)
      requires Valid() && cur.pc == RbClearing(tx, who)
      modifies this
      ensures Valid() && old(log) <= log && signals == old(signals) && disk.files == old(disk.files)
      ensures if who == AtStart then cur.pc.Off? else cur.pc.Idle?
      ensures sent == old(sent) + if who == AtStart then []
        else [Status(tx.requestId, Failed, tx.toVersion, tx.fromVersion, None, Some(ReplaceFailed))]
    {
      hide History, Apply;
      var ok := Call();
      if ok {
        disk := disk.(tx := None);
      }
      if who != AtStart {
        sent := sent + [Status(tx.requestId, Failed, tx.toVersion, tx.fromVersion, None, Some(ReplaceFailed))];
      }
      Leave(who);
      RbClearStep(host, cur, Result(ok));
      Record(Op(Result(ok)));
    }

    // ----- connection events and watchdog -----

    /** The status by which the restored program says that it was rolled back to. */
    function RolledBackStatus(tx: Transaction): Status {
      Status(tx.requestId, RolledBack, tx.toVersion, tx.fromVersion, None,
             if tx.reason.None? then Some(NotConnectedAfterUpgrade) else tx.reason)
    }

    /** `OnConnected`: confirm a trial, or report that this is the restored program. */
    method OnConnected() returns (ghost readable: bool)
      requires Valid() && cur.pc.Idle?
      modifies this
      ensures Valid() && old(log) <= log && signals == old(signals) + 1 && cur.pc.Idle? && disk.files == old(disk.files)
      ensures var tx := if host.hasStateDir && readable then old(disk.tx) else None;
        if tx.None? then disk == old(disk) && sent == old(sent)
        else
          && (disk.tx == tx || disk.tx == None)
          && sent == old(sent) + (if tx.value.phase == Pending then [] else [RolledBackStatus(tx.value)])
          && (tx.value.phase == Pending ==> disk.attempt == old(disk.attempt) && mem == old(mem))
    {
      hide History, Apply;
      var tx;
      tx, readable := ReadTransaction();
      ConnectedStep(host, cur, readable);
      if tx.None? {
        Record(Connected(readable));
      } else if tx.value.phase == Pending {
        Record(Connected(readable));
        DropMarker();
      } else {
        ReportRolledBack(tx.value, Connected(readable));
      }
    }

    method ReportRolledBack(tx: Transaction, ghost e: Event)
      requires Synced() && Agrees(e) && cur.pc.Idle? && e == Connected(true) && host.hasStateDir
        && disk.tx == Some(tx) && tx.phase == Restored
      modifies this
      ensures Valid() && old(log) + [e] <= log && signals == old(signals) + (if Signal(e) then 1 else 0)
        && cur.pc.Idle? && disk.files == old(disk.files)
      ensures sent == old(sent) + [RolledBackStatus(tx)] && (disk.tx == Some(tx) || disk.tx == None)
    {
      hide History, Apply;
      var code := if tx.reason.None? then NotConnectedAfterUpgrade else tx.reason.value;
      sent := sent + [Status(tx.requestId, RolledBack, tx.toVersion, tx.fromVersion, None, Some(code))];
      var rec := Attempt(tx.requestId, tx.toVersion, now, WasRolledBack);
      mem := mem.(lastAttempt := Some(rec));
      ConnectedStep(host, cur, true);
      Record(e);
      SettleReport(rec);
    }

    /** After the report: remember the attempt, drop the marker. */
    method SettleReport(rec: Attempt)
      requires Valid() && cur.pc == SavingReport(rec)
      modifies this
      ensures Valid() && old(log) <= log && signals == old(signals) && cur.pc.Idle? && disk.files == old(disk.files)
        && sent == old(sent)
      ensures disk.tx == old(disk.tx) || disk.tx == None
    {
      hide History, Apply;
      var ok := Call();
      if host.hasStateDir && ok {
        disk := disk.(attempt := Some(rec));
      }
      SaveReportStep(host, cur, Result(ok));
      Record(Op(Result(ok)));
      DropMarker();
    }

    method DropMarker()
      requires Valid() && (cur.pc.ClearingReport? || cur.pc.Confirming?)
      modifies this
      ensures Valid() && old(log) <= log && signals == old(signals) && cur.pc.Idle? && sent == old(sent)
        && mem == old(mem)
      ensures disk == old(disk) || disk == old(disk).(tx := None)
    {
      hide History, Apply;
      var ok := Call();
      if ok {
        disk := disk.(tx := None);
      }
      DropStep(host, cur, Result(ok));
      Record(Op(Result(ok)));
    }

    /**
      After a counted connection failure: below the budget only the counter on disk has changed, if it
      could be written; from the budget on the backup may have been renamed over the executable.
     */
    ghost predicate AfterProbe(counted: Transaction, disk0: Disk, sent0: seq<Status>)
      reads this
    {
      if counted.probeFailures < 3 then
        cur.pc.Idle? && sent == sent0 && (disk == disk0 || disk == disk0.(tx := Some(counted)))
      else
        || disk.files == disk0.files
        || (counted.backupPath in disk0.files && counted.backupPath != Exe
            && disk.files == Renamed(disk0.files, counted.backupPath, Exe))
    }

    /** `OnConnectFailed`: inside the trial window nothing; after it, the third failure rolls back. */
    method OnConnectFailed() returns (ghost readable: bool, ghost clock: int)
      requires Valid() && cur.pc.Idle?
      modifies this
      ensures Valid() && old(log) <= log && signals == old(signals) + 1
      ensures cur.pc.Idle? || cur.pc.Starting?
      ensures var tx := if host.hasStateDir && readable then old(disk.tx) else None;
        if tx.None? || tx.value.phase != Pending || clock < tx.value.at + host.trialWindow
        then cur.pc.Idle? && disk == old(disk) && sent == old(sent)
        else AfterProbe(tx.value.(probeFailures := tx.value.probeFailures + 1), old(disk), old(sent))
    {
      hide History, Apply, Launched, Renamed;
      var tx;
      tx, readable := ReadTransaction();
      clock := now;
      ConnectFailedStep(host, cur, readable);
      if tx.None? || tx.value.phase != Pending || now < tx.value.at + host.trialWindow {
        Record(ConnectFailed(readable));
        return;
      }
      var counted := tx.value.(probeFailures := tx.value.probeFailures + 1);
      Record(ConnectFailed(readable));
      CountProbe(counted);
    }

    /** Write the raised counter; at the budget roll back, even if the write failed. */
    method CountProbe(counted: Transaction)
      requires Valid() && cur.pc == CountingProbe(counted)
      modifies this
      ensures Valid() && old(log) <= log && signals == old(signals)
      ensures cur.pc.Idle? || cur.pc.Starting?
      ensures AfterProbe(counted, old(disk), old(sent))
    {
      hide History, Apply, Launched, Renamed;
      var ok := Call();
      if host.hasStateDir && ok {
        disk := disk.(tx := Some(counted));
      }
      CountProbeStep(host, cur, Result(ok));
      Record(Op(Result(ok)));
      if counted.probeFailures >= PROBE_BUDGET {
        Rollback(counted, ConnectEvent);
      }
    }

    /** `probationWatch`, for as many rounds as the scheduler gives it before another event. */
    method ProbationWatch(rounds: nat) returns (ghost acted: Option<int>)
      requires Valid() && cur.pc.Idle?
      modifies this
      ensures Valid() && old(log) <= log && signals <= old(signals) + rounds
      ensures cur.pc.Idle? || cur.pc.Starting?
      ensures acted.None? ==> disk == old(disk) && sent == old(sent)
      ensures acted.Some? ==> old(disk.tx).Some?
      ensures acted.Some? ==>
        var tx := old(disk.tx).value;
        && tx.phase == Pending && acted.value >= tx.at + host.trialWindow + tx.probeFailures * host.probeWindow
        && (tx.probeFailures == 0 || tx.probeFailures >= 3)
    {
      hide History, Apply, Launched, Renamed;
      acted := None;
      for i := 0 to rounds
        invariant Valid() && old(log) <= log && signals <= old(signals) + i && cur.pc.Idle?
        invariant acted.None? && disk == old(disk) && sent == old(sent)
      {
        if !mem.watching {
          return;
        }
        var tx, readable := ReadTransaction();
        WatchStep(host, cur, readable);
        if tx.None? || tx.value.phase != Pending {
          mem := mem.(watching := false);
          Record(Watch(readable));
          return;
        }
        var deadline := tx.value.at + host.trialWindow;
        if tx.value.probeFailures > 0 {
          deadline := deadline + tx.value.probeFailures * host.probeWindow;
        }
        Record(Watch(readable));
        if now < deadline || (0 < tx.value.probeFailures < PROBE_BUDGET) {
          continue;
        }
        acted := Some(now);
        Rollback(tx.value, Watchdog);
        return;
      }
    }
  }
}

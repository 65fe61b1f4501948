/**
  The steps of the upgrade machine one by one, as the runtime's code uses them: what each outcome of an
  operation does to the disk, to what was sent, and to the place reached. The history is left out.
 */
module UpgradeSteps {
  import opened Options
  import opened UpgradeProtocol
  import opened UpgradeMachine
  import Text

  /** A step that sends nothing and leaves the memory. */
  predicate Leads(s: State, s': State, disk: Disk, pc: Pc) {
    s'.disk == disk && s'.pc == pc && s'.mem == s.mem && s'.sent == s.sent && s'.now == s.now
  }

  /** A step that sends one status and leaves the memory. */
  predicate Sends(s: State, s': State, disk: Disk, st: Status, pc: Pc) {
    s'.disk == disk && s'.pc == pc && s'.mem == s.mem && s'.sent == s.sent + [st] && s'.now == s.now
  }

  /** What `fail` expects of the step it completes. */
  predicate Failing(s: State, s': State, d: Directive, why: Reason) {
    && s'.now == s.now && s'.pc == SavingAttempt(FailureRecord(d, s.now, why))
    && s'.sent == s.sent + [RunStatus(d, s.mem.version, Failed, None, Some(why))]
    && s'.mem == s.mem.(lastAttempt := Some(FailureRecord(d, s.now, why)))
  }

  // ----- run -----

  lemma RefusedStep(h: Host, s: State, d: Directive)
    ensures !StartsRun(s, d) ==> Apply(h, s, Deliver(d)) == s
    ensures StartsRun(s, d) && h.goos !in {"", "linux"} ==>
      Failing(s, Apply(h, s, Deliver(d)), d, PlatformUnsupported) && Apply(h, s, Deliver(d)).disk == s.disk
    ensures StartsRun(s, d) && h.goos in {"", "linux"} ==> Leads(s, Apply(h, s, Deliver(d)), s.disk, Locating(d))
  {
  }

  lemma LocateStep(h: Host, s: State, o: Outcome)
    requires s.pc.Locating?
    ensures var s' := Apply(h, s, Op(o));
      if o.Ok? then Leads(s, s', s.disk, Fetching(s.pc.d, Temp(s.now)))
      else Failing(s, s', s.pc.d, ReplaceFailed) && s'.disk == s.disk
  {
  }

  lemma RequestStep(h: Host, s: State, o: Outcome)
    requires s.pc.Fetching?
    ensures Leads(s, Apply(h, s, Op(o)), s.disk,
                  if o.Ok? then Creating(s.pc.d, s.pc.tmp) else Discarding(s.pc.d, s.pc.tmp, DownloadFailed, false))
  {
  }

  lemma CreateStep(h: Host, s: State, o: Outcome)
    requires s.pc.Creating?
    ensures var d, tmp, s' := s.pc.d, s.pc.tmp, Apply(h, s, Op(o));
      if o.Ok? && tmp !in s.disk.files
      then Leads(s, s', s.disk.(files := s.disk.files[tmp := []]), Copying(d, tmp, Meter(0, 0, None)))
      else Leads(s, s', s.disk, Discarding(d, tmp, if o.Denied? then NoWritePermission else DownloadFailed, false))
  {
  }

  lemma WriteStep(h: Host, s: State, o: Outcome)
    requires s.pc.Copying? && s.pc.meter.read <= Limit(s.pc.d) && s.pc.tmp in s.disk.files
    requires o.Data? || o.Broken?
    ensures var d, tmp, m, s' := s.pc.d, s.pc.tmp, s.pc.meter, Apply(h, s, Op(o));
      var b := Upto(o.data, Limit(d) + 1 - m.read);
      var kept := if o.Data? then b else Upto(b, o.kept);
      && s'.mem == s.mem && s'.now == s.now && s'.sent == AfterRead(s, d, m, |b|).sent
      && s'.disk == s.disk.(files := s.disk.files[tmp := s.disk.files[tmp] + kept])
      && s'.pc == if o.Data? then Copying(d, tmp, MeterAfter(d, m, |b|, s.now))
         else Discarding(d, tmp, DownloadFailed, false)
  {
    hide MeterAfter, Reports, Percent;
  }

  lemma EndCopyStep(h: Host, s: State, o: Outcome)
    requires s.pc.Copying? && s.pc.tmp in s.disk.files
    requires o.Eof? || o.Err?
    ensures var d, tmp, m, s' := s.pc.d, s.pc.tmp, s.pc.meter, Apply(h, s, Op(o));
      && s'.disk == s.disk && s'.mem == s.mem && s'.now == s.now
      && s'.sent == (if m.read <= Limit(d) then AfterRead(s, d, m, 0).sent else s.sent)
      && s'.pc == if o.Eof? || m.read > Limit(d) then Closing(d, tmp, m.read)
         else Discarding(d, tmp, DownloadFailed, false)
  {
    hide MeterAfter, Reports, Percent;
  }

  lemma CloseStep(h: Host, s: State, o: Outcome)
    requires s.pc.Closing? && s.pc.tmp in s.disk.files
    ensures var d, tmp, n, s' := s.pc.d, s.pc.tmp, s.pc.n, Apply(h, s, Op(o));
      if !o.Ok? || n > Limit(d) || n != d.sizeBytes then Leads(s, s', s.disk, Discarding(d, tmp, DownloadFailed, false))
      else if h.digest(s.disk.files[tmp]) != Text.ToLower(d.sha256)
      then Leads(s, s', s.disk, Discarding(d, tmp, ChecksumMismatch, false))
      else Sends(s, s', s.disk, RunStatus(d, s.mem.version, Verifying, None, None), Chmodding(d, tmp))
  {
    hide Text.ToLower;
  }

  lemma ChmodStep(h: Host, s: State, o: Outcome)
    requires s.pc.Chmodding?
    ensures Leads(s, Apply(h, s, Op(o)), s.disk,
                  if o.Ok? then Smoking(s.pc.d, s.pc.tmp) else Discarding(s.pc.d, s.pc.tmp, NoWritePermission, false))
  {
  }

  lemma SmokeStep(h: Host, s: State, o: Outcome)
    requires s.pc.Smoking? && s.pc.tmp in s.disk.files
    ensures var d, tmp, s' := s.pc.d, s.pc.tmp, Apply(h, s, Op(o));
      if o.Ok? && Text.Contains(h.selfReport(s.disk.files[tmp]), d.targetVersion)
      then Sends(s, s', s.disk, RunStatus(d, s.mem.version, Installing, None, None), OpeningBackup(d, tmp))
      else Leads(s, s', s.disk, Discarding(d, tmp, SmokeTestFailed, false))
  {
    hide Text.Contains;
  }

  lemma OpenBackupStep(h: Host, s: State, o: Outcome)
    requires s.pc.OpeningBackup?
    ensures var d, tmp, s' := s.pc.d, s.pc.tmp, Apply(h, s, Op(o));
      if o.Ok? then Leads(s, s', s.disk.(files := s.disk.files[Backup := []]), CopyingBackup(d, tmp, 0))
      else Leads(s, s', s.disk, Discarding(d, tmp, ReplaceFailed, false))
  {
  }

  lemma CopyBackupStep(h: Host, s: State, o: Outcome)
    requires s.pc.CopyingBackup? && Exe in s.disk.files
    requires o.Eof? ==> s.pc.n >= |s.disk.files[Exe]|
    ensures var d, tmp, n, s' := s.pc.d, s.pc.tmp, s.pc.n, Apply(h, s, Op(o));
      if o.Data? then
        var n' := |Upto(s.disk.files[Exe], n + |o.data|)|;
        Leads(s, s', s.disk.(files := s.disk.files[Backup := s.disk.files[Exe][..n']]), CopyingBackup(d, tmp, n'))
      else Leads(s, s', s.disk, if o.Eof? then Recording(d, tmp) else Discarding(d, tmp, ReplaceFailed, false))
  {
  }

  lemma RecordStep(h: Host, s: State, o: Outcome)
    requires s.pc.Recording?
    ensures var d, tmp, s' := s.pc.d, s.pc.tmp, Apply(h, s, Op(o));
      if CanWrite(h, o)
      then Leads(s, s', s.disk.(tx := Some(NewTransaction(d, s.mem.version, s.now))), Swapping(d, tmp))
      else Leads(s, s', s.disk, Discarding(d, tmp, ReplaceFailed, false))
  {
  }

  lemma SwapStep(h: Host, s: State, o: Outcome)
    requires s.pc.Swapping?
    ensures var d, tmp, s' := s.pc.d, s.pc.tmp, Apply(h, s, Op(o));
      if o.Ok? && tmp in s.disk.files && tmp != Exe then
        var rec := Attempt(d.requestId, d.targetVersion, s.now, WasInstalled);
        && s'.disk == s.disk.(files := Renamed(s.disk.files, tmp, Exe)) && s'.pc == Marking(d, rec)
        && s'.mem == s.mem.(lastAttempt := Some(rec)) && s'.sent == s.sent && s'.now == s.now
      else Leads(s, s', s.disk, Discarding(d, tmp, ReplaceFailed, true))
  {
  }

  lemma MarkStep(h: Host, s: State, o: Outcome)
    requires s.pc.Marking?
    ensures Sends(s, Apply(h, s, Op(o)), AttemptSaved(h, s.disk, s.pc.rec, o),
                  RunStatus(s.pc.d, s.mem.version, Restarting, None, None), if h.canExec then Execing(s.pc.d) else Idle)
  {
  }

  lemma ExecStep(h: Host, s: State, o: Outcome)
    requires s.pc.Execing?
    ensures var s' := Apply(h, s, Op(o));
      if o.Ok? then s' == Launched(h, s) else Leads(s, s', s.disk, RestoringRun(s.pc.d))
  {
  }

  lemma RestoreStep(h: Host, s: State, o: Outcome)
    requires s.pc.RestoringRun?
    ensures Leads(s, Apply(h, s, Op(o)),
                  if o.Ok? && Backup in s.disk.files then s.disk.(files := Renamed(s.disk.files, Backup, Exe))
                    else s.disk,
                  ClearingRun(s.pc.d, ExecFailed))
  {
  }

  lemma DiscardStep(h: Host, s: State, o: Outcome)
    requires s.pc.Discarding?
    ensures var s' := Apply(h, s, Op(o));
      var disk := if o.Ok? then s.disk.(files := Removed(s.disk.files, s.pc.tmp)) else s.disk;
      if s.pc.clear then Leads(s, s', disk, ClearingRun(s.pc.d, s.pc.why))
      else Failing(s, s', s.pc.d, s.pc.why) && s'.disk == disk
  {
  }

  lemma ClearStep(h: Host, s: State, o: Outcome)
    requires s.pc.ClearingRun?
    ensures var s' := Apply(h, s, Op(o));
      Failing(s, s', s.pc.d, s.pc.why) && s'.disk == TxCleared(s.disk, o)
  {
  }

  lemma SaveStep(h: Host, s: State, o: Outcome)
    requires s.pc.SavingAttempt?
    ensures Leads(s, Apply(h, s, Op(o)), AttemptSaved(h, s.disk, s.pc.rec, o), Idle)
  {
  }

  // ----- process start -----

  lemma BootStep(h: Host, s: State)
    requires s.pc.Off?
    ensures Apply(h, s, Boot) == Launched(h, s)
  {
    hide Launched;
  }

  lemma CheckStep(h: Host, s: State, o: Outcome)
    requires s.pc.Starting?
    ensures var s', tx := Apply(h, s, Op(o)), ReadTx(h, s.disk, o.Ok?);
      if tx.None? || tx.value.phase != Pending then Leads(s, s', s.disk, LoadingAttempt)
      else
        var counted := tx.value.(attempts := tx.value.attempts + 1);
        Leads(s, s', s.disk, if counted.attempts >= MAX_START_ATTEMPTS then RbLocating(counted, AtStart)
          else CountingStart(counted))
  {
  }

  lemma CountStep(h: Host, s: State, o: Outcome)
    requires s.pc.CountingStart?
    ensures Leads(s, Apply(h, s, Op(o)),
                  if CanWrite(h, o) then s.disk.(tx := Some(s.pc.tx)) else s.disk, LoadingAttempt)
  {
  }

  /** The last two steps of a start, which set the memory. */
  lemma LoadStep(h: Host, s: State, o: Outcome)
    requires s.pc.LoadingAttempt? || s.pc.ArmingWatchdog?
    ensures var s', tx := Apply(h, s, Op(o)), ReadTx(h, s.disk, o.Ok?);
      && s'.disk == s.disk && s'.sent == s.sent && s'.now == s.now
      && (s.pc.LoadingAttempt? ==>
            && s'.pc == ArmingWatchdog
            && s'.mem == s.mem.(lastAttempt := if CanWrite(h, o) then s.disk.attempt else None))
      && (s.pc.ArmingWatchdog? ==>
            && s'.pc == Idle
            && s'.mem == s.mem.(watching := tx.Some? && tx.value.phase == Pending))
  {
  }

  // ----- rollback -----

  /** The process after a rollback that did not exec: a start check makes it exit, the watchdog ends. */
  predicate Returns(s: State, s': State, disk: Disk, sent: seq<Status>, who: Caller) {
    && s'.disk == disk && s'.sent == sent && s'.now == s.now
    && s'.pc == (if who == AtStart then Off else Idle)
    && s'.mem == if who == Watchdog then s.mem.(watching := false) else s.mem
  }

  lemma RbLocateStep(h: Host, s: State, o: Outcome)
    requires s.pc.RbLocating?
    ensures var s' := Apply(h, s, Op(o));
      if o.Ok? then Leads(s, s', s.disk, RbStatting(s.pc.tx, s.pc.who)) else Returns(s, s', s.disk, s.sent, s.pc.who)
  {
  }

  lemma RbStatStep(h: Host, s: State, o: Outcome)
    requires s.pc.RbStatting?
    ensures Leads(s, Apply(h, s, Op(o)), s.disk,
                  if o.Ok? && s.pc.tx.backupPath in s.disk.files then RbRenaming(s.pc.tx, s.pc.who)
                    else RbClearing(s.pc.tx, s.pc.who))
  {
  }

  lemma RbClearStep(h: Host, s: State, o: Outcome)
    requires s.pc.RbClearing?
    ensures Returns(s, Apply(h, s, Op(o)), TxCleared(s.disk, o),
                    if s.pc.who == AtStart then s.sent
                      else s.sent + [TxStatus(s.pc.tx, Failed, ReplaceFailed)], s.pc.who)
  {
  }

  lemma RbRenameStep(h: Host, s: State, o: Outcome)
    requires s.pc.RbRenaming?
    ensures var tx, who, s' := s.pc.tx, s.pc.who, Apply(h, s, Op(o));
      if o.Ok? && tx.backupPath in s.disk.files && tx.backupPath != Exe
      then Leads(s, s', s.disk.(files := Renamed(s.disk.files, tx.backupPath, Exe)), RbMarking(tx, who))
      else Returns(s, s', s.disk, s.sent, who)
  {
  }

  lemma RbMarkStep(h: Host, s: State, o: Outcome)
    requires s.pc.RbMarking?
    ensures var tx, who, s' := s.pc.tx, s.pc.who, Apply(h, s, Op(o));
      var marked := tx.(phase := Restored, reason := Some(NotConnectedAfterUpgrade));
      var disk := if CanWrite(h, o) then s.disk.(tx := Some(marked)) else s.disk;
      if h.canExec then Leads(s, s', disk, RbExecing(who)) else Returns(s, s', disk, s.sent, who)
  {
  }

  lemma RbExecStep(h: Host, s: State, o: Outcome)
    requires s.pc.RbExecing?
    ensures var s' := Apply(h, s, Op(o));
      if o.Ok? then s' == Launched(h, s) else Returns(s, s', s.disk, s.sent, s.pc.who)
  {
  }

  // ----- connection events -----

  lemma ConnectedStep(h: Host, s: State, readable: bool)
    requires s.pc.Idle?
    ensures Apply(h, s, Connected(readable)) == OnConnected(h, s, readable)
  {
    hide OnConnected;
  }

  lemma ConnectFailedStep(h: Host, s: State, readable: bool)
    requires s.pc.Idle?
    ensures var s', tx := Apply(h, s, ConnectFailed(readable)), ReadTx(h, s.disk, readable);
      if tx.None? || tx.value.phase != Pending || s.now < tx.value.at + h.trialWindow then s' == s
      else Leads(s, s', s.disk, CountingProbe(tx.value.(probeFailures := tx.value.probeFailures + 1)))
  {
  }

  lemma WatchStep(h: Host, s: State, readable: bool)
    requires s.pc.Idle? && s.mem.watching
    ensures Apply(h, s, Watch(readable)) == OnWatch(h, s, readable)
  {
    hide OnWatch;
  }

  lemma DropStep(h: Host, s: State, o: Outcome)
    requires s.pc.Confirming? || s.pc.ClearingReport?
    ensures Leads(s, Apply(h, s, Op(o)), TxCleared(s.disk, o), Idle)
  {
  }

  lemma SaveReportStep(h: Host, s: State, o: Outcome)
    requires s.pc.SavingReport?
    ensures Leads(s, Apply(h, s, Op(o)), AttemptSaved(h, s.disk, s.pc.rec, o), ClearingReport)
  {
  }

  lemma CountProbeStep(h: Host, s: State, o: Outcome)
    requires s.pc.CountingProbe?
    ensures Leads(s, Apply(h, s, Op(o)), if CanWrite(h, o) then s.disk.(tx := Some(s.pc.tx)) else s.disk,
                  if s.pc.tx.probeFailures < PROBE_BUDGET then Idle else RbLocating(s.pc.tx, ConnectEvent))
  {
  }
}

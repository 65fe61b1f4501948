/**
  What the upgrade machine promises over whole runs: any sequence of directives, connection events,
  watchdog rounds, process starts and crashes, with every operation free to fail.
 */
module UpgradeTheorems {
  import opened Options
  import opened UpgradeProtocol
  import opened UpgradeMachine
  import opened UpgradeInvariant
  import Semver
  import Text

  /** Every event of the sequence respects the assumptions at the moment it happens. */
  predicate AllowedRun(h: Host, s: State, es: seq<Event>) {
    forall k | 0 <= k < |es| :: Allowed(Replay(h, s, es[..k]), es[k])
  }

  lemma PrefixAllowed(h: Host, s: State, es: seq<Event>, n: nat)
    requires n <= |es| && AllowedRun(h, s, es)
    ensures AllowedRun(h, s, es[..n])
  {
    hide Replay, Allowed;
    forall k | 0 <= k < n
      ensures Allowed(Replay(h, s, es[..n][..k]), es[..n][k])
    {
      assert es[..n][..k] == es[..k];
    }
  }

  lemma {:induction false} InvKept(h: Host, program: Bytes, s: State, es: seq<Event>)
    requires Inv(h, program, s) && AllowedRun(h, s, es)
    ensures Inv(h, program, Replay(h, s, es))
  {
    hide Inv, Allowed, Apply;
    if es != [] {
      PrefixAllowed(h, s, es, |es| - 1);
      InvKept(h, program, s, es[..|es| - 1]);
      ApplyKeepsInv(h, program, Replay(h, s, es[..|es| - 1]), es[|es| - 1]);
    }
  }

  lemma Reachable(h: Host, program: Bytes, now: int, es: seq<Event>)
    requires AllowedRun(h, Initial(program, now), es)
    ensures Inv(h, program, Replay(h, Initial(program, now), es))
  {
    hide Inv, AllowedRun, Replay, Initial;
    InitialInv(h, program, now);
    InvKept(h, program, Initial(program, now), es);
  }

  lemma {:induction false} IssuedWereDelivered(h: Host, s: State, es: seq<Event>, d: Directive)
    requires d in Replay(h, s, es).hist.issued
    ensures d in s.hist.issued || Deliver(d) in es
  {
    if es != [] {
      hide Replay;
      var es', e := es[..|es| - 1], es[|es| - 1];
      assert Replay(h, s, es) == Apply(h, Replay(h, s, es'), e) by {
        LastStep(h, s, es);
      }
      IssuedBy(h, Replay(h, s, es'), e);
      if d in Replay(h, s, es').hist.issued {
        IssuedWereDelivered(h, s, es', d);
      } else {
        assert e in es;
      }
    }
  }

  lemma LastStep(h: Host, s: State, es: seq<Event>)
    requires es != []
    ensures Replay(h, s, es) == Apply(h, Replay(h, s, es[..|es| - 1]), es[|es| - 1])
  {
  }

  /** The history still speaks of the same run. */
  predicate SameRun(s: State, s': State) {
    && s'.hist.issued == s.hist.issued && s'.hist.before == s.hist.before && s'.hist.base == s.hist.base
       && s'.hist.found == s.hist.found
    && s'.hist.run.directive == s.hist.run.directive && s'.hist.run.version == s.hist.run.version
  }

  /** No late connection failure is counted, nor is one about to be. */
  predicate CountsNoFailure(s: State, s': State) {
    s'.hist.lateFailures <= s.hist.lateFailures && !s'.pc.CountingProbe?
  }

  // Group by group: the history stays, the run's flags stay, and few steps enter a rollback.

  lemma FetchSame(h: Host, s: State, o: Outcome)
    requires FetchPc(s.pc)
    ensures SameRun(s, Step(h, s, o))
    ensures Step(h, s, o).hist.residue == s.hist.residue && Step(h, s, o).hist.stuck == s.hist.stuck
    ensures !Step(h, s, o).pc.RbLocating?
    ensures CountsNoFailure(s, Step(h, s, o))
  {
    hide Step, InstallStep, FinishStep, StartStep, RollbackStep, ConnectionStep, RunStatus, Text.Contains;
    StepIsDownload(h, s, o);
  }

  lemma CheckSame(h: Host, s: State, o: Outcome)
    requires CheckPc(s.pc)
    ensures SameRun(s, Step(h, s, o))
    ensures Step(h, s, o).hist.residue == s.hist.residue && Step(h, s, o).hist.stuck == s.hist.stuck
    ensures !Step(h, s, o).pc.RbLocating?
    ensures CountsNoFailure(s, Step(h, s, o))
  {
    hide Step, InstallStep, FinishStep, StartStep, RollbackStep, ConnectionStep, RunStatus, Text.Contains;
    StepIsDownload(h, s, o);
  }

  lemma CopySame(h: Host, s: State, o: Outcome)
    requires s.pc.Copying?
    ensures SameRun(s, Step(h, s, o))
    ensures Step(h, s, o).hist.residue == s.hist.residue && Step(h, s, o).hist.stuck == s.hist.stuck
    ensures !Step(h, s, o).pc.RbLocating?
    ensures CountsNoFailure(s, Step(h, s, o))
  {
    hide Step, InstallStep, FinishStep, StartStep, RollbackStep, ConnectionStep, AfterRead, MeterAfter;
    StepIsDownload(h, s, o);
    if s.pc.meter.read <= Limit(s.pc.d) {
      ReadSame(s, s.pc.d, s.pc.meter, BytesRead(s.pc.d, s.pc.meter, o));
    }
  }

  lemma ReadSame(s: State, d: Directive, m: Meter, n: nat)
    ensures var s' := AfterRead(s, d, m, n);
      && SameRun(s, s') && s'.hist.residue == s.hist.residue && s'.hist.stuck == s.hist.stuck
      && s'.hist.lateFailures == s.hist.lateFailures
  {
    hide RunStatus, Reports, Percent;
  }

  lemma BackupSame(h: Host, s: State, o: Outcome)
    requires BackupPc(s.pc)
    ensures SameRun(s, Step(h, s, o))
    ensures Step(h, s, o).hist.residue == s.hist.residue && Step(h, s, o).hist.stuck == s.hist.stuck
    ensures !Step(h, s, o).pc.RbLocating?
    ensures CountsNoFailure(s, Step(h, s, o))
  {
    hide Step, DownloadStep, FinishStep, StartStep, RollbackStep, ConnectionStep, RunStatus, Text.Contains;
    StepIsInstall(h, s, o);
  }

  lemma ReplaceSame(h: Host, s: State, o: Outcome)
    requires ReplacePc(s.pc)
    ensures SameRun(s, Step(h, s, o))
    ensures Step(h, s, o).hist.residue == s.hist.residue && Step(h, s, o).hist.stuck == s.hist.stuck
    ensures !Step(h, s, o).pc.RbLocating?
    ensures CountsNoFailure(s, Step(h, s, o))
  {
    hide Step, DownloadStep, FinishStep, StartStep, RollbackStep, ConnectionStep, RunStatus, Text.Contains;
    StepIsInstall(h, s, o);
  }

  lemma RestartSame(h: Host, s: State, o: Outcome)
    requires s.pc.Execing? || s.pc.SavingAttempt?
    ensures SameRun(s, Step(h, s, o))
    ensures Step(h, s, o).hist.residue == s.hist.residue && Step(h, s, o).hist.stuck == s.hist.stuck
    ensures !Step(h, s, o).pc.RbLocating?
    ensures CountsNoFailure(s, Step(h, s, o))
  {
    hide Step, DownloadStep, InstallStep, StartStep, RollbackStep, ConnectionStep, RunStatus, Text.Contains;
    StepIsFinish(h, s, o);
  }

  lemma RestoringSame(h: Host, s: State, o: Outcome)
    requires s.pc.RestoringRun?
    ensures SameRun(s, Step(h, s, o))
    ensures !Step(h, s, o).pc.RbLocating?
    ensures CountsNoFailure(s, Step(h, s, o))
  {
    hide Step, DownloadStep, InstallStep, StartStep, RollbackStep, ConnectionStep, RunStatus, Text.Contains;
    StepIsFinish(h, s, o);
  }

  lemma DiscardSame(h: Host, s: State, o: Outcome)
    requires s.pc.Discarding?
    ensures SameRun(s, Step(h, s, o))
    ensures !Step(h, s, o).pc.RbLocating?
    ensures CountsNoFailure(s, Step(h, s, o))
  {
    hide Step, DownloadStep, InstallStep, StartStep, RollbackStep, ConnectionStep, RunStatus, Text.Contains;
    StepIsFinish(h, s, o);
  }

  lemma ClearSame(h: Host, s: State, o: Outcome)
    requires s.pc.ClearingRun?
    ensures SameRun(s, Step(h, s, o))
    ensures !Step(h, s, o).pc.RbLocating?
    ensures CountsNoFailure(s, Step(h, s, o))
  {
    hide Step, DownloadStep, InstallStep, StartStep, RollbackStep, ConnectionStep, RunStatus, Text.Contains;
    StepIsFinish(h, s, o);
  }

  lemma StartSame(h: Host, s: State, o: Outcome)
    requires StartPc(s.pc)
    ensures SameRun(s, Step(h, s, o))
    ensures Step(h, s, o).hist.residue == s.hist.residue && Step(h, s, o).hist.stuck == s.hist.stuck
    ensures Step(h, s, o).pc.RbLocating? ==> s.pc.Starting? || s.pc.CountingProbe?
    ensures CountsNoFailure(s, Step(h, s, o))
  {
    hide Step, DownloadStep, InstallStep, FinishStep, RollbackStep, ConnectionStep, RunStatus, Text.Contains;
    StepIsStart(h, s, o);
  }

  lemma ConnectionSame(h: Host, s: State, o: Outcome)
    requires ConnectionPc(s.pc)
    ensures SameRun(s, Step(h, s, o))
    ensures Step(h, s, o).hist.residue == s.hist.residue && Step(h, s, o).hist.stuck == s.hist.stuck
    ensures Step(h, s, o).pc.RbLocating? ==> s.pc.Starting? || s.pc.CountingProbe?
    ensures CountsNoFailure(s, Step(h, s, o))
  {
    hide Step, DownloadStep, InstallStep, FinishStep, StartStep, RollbackStep, RunStatus, Text.Contains;
    StepIsConnection(h, s, o);
  }

  lemma LookSame(h: Host, s: State, o: Outcome)
    requires s.pc.RbExecing? || s.pc.RbStatting?
    ensures SameRun(s, Step(h, s, o))
    ensures Step(h, s, o).hist.residue == s.hist.residue && Step(h, s, o).hist.stuck == s.hist.stuck
    ensures !Step(h, s, o).pc.RbLocating?
    ensures CountsNoFailure(s, Step(h, s, o))
  {
    hide Step, DownloadStep, InstallStep, FinishStep, StartStep, ConnectionStep, RunStatus, Text.Contains;
    StepIsRollback(h, s, o);
  }

  lemma LocateSame(h: Host, s: State, o: Outcome)
    requires s.pc.RbLocating?
    ensures SameRun(s, Step(h, s, o))
    ensures Step(h, s, o).hist.residue == s.hist.residue && Step(h, s, o).hist.stuck == s.hist.stuck
    ensures !Step(h, s, o).pc.RbLocating?
    ensures CountsNoFailure(s, Step(h, s, o))
  {
    hide Step, DownloadStep, InstallStep, FinishStep, StartStep, ConnectionStep, RunStatus, Text.Contains;
    StepIsRollback(h, s, o);
  }

  lemma GiveUpSame(h: Host, s: State, o: Outcome)
    requires s.pc.RbClearing?
    ensures SameRun(s, Step(h, s, o))
    ensures Step(h, s, o).hist.residue == s.hist.residue && Step(h, s, o).hist.stuck == s.hist.stuck
    ensures !Step(h, s, o).pc.RbLocating?
    ensures CountsNoFailure(s, Step(h, s, o))
  {
    hide Step, DownloadStep, InstallStep, FinishStep, StartStep, ConnectionStep, RunStatus, Text.Contains;
    StepIsRollback(h, s, o);
  }

  lemma RenameSame(h: Host, s: State, o: Outcome)
    requires s.pc.RbRenaming?
    ensures SameRun(s, Step(h, s, o))
    ensures Step(h, s, o).hist.residue == s.hist.residue && Step(h, s, o).hist.stuck == s.hist.stuck
    ensures !Step(h, s, o).pc.RbLocating?
    ensures CountsNoFailure(s, Step(h, s, o))
  {
    hide Step, DownloadStep, InstallStep, FinishStep, StartStep, ConnectionStep, RunStatus, Text.Contains;
    StepIsRollback(h, s, o);
  }

  lemma MarkSame(h: Host, s: State, o: Outcome)
    requires s.pc.RbMarking?
    ensures SameRun(s, Step(h, s, o))
    ensures Step(h, s, o).hist.residue == s.hist.residue && Step(h, s, o).hist.stuck == s.hist.stuck
    ensures !Step(h, s, o).pc.RbLocating?
    ensures CountsNoFailure(s, Step(h, s, o))
  {
    hide Step, DownloadStep, InstallStep, FinishStep, StartStep, ConnectionStep, RunStatus, Text.Contains;
    StepIsRollback(h, s, o);
  }

  lemma StepSame(h: Host, s: State, o: Outcome)
    ensures SameRun(s, Step(h, s, o))
    ensures !s.pc.Discarding? && !s.pc.ClearingRun? && !s.pc.RestoringRun? ==>
      Step(h, s, o).hist.residue == s.hist.residue && Step(h, s, o).hist.stuck == s.hist.stuck
    ensures Step(h, s, o).pc.RbLocating? ==> s.pc.Starting? || s.pc.CountingProbe?
    ensures CountsNoFailure(s, Step(h, s, o))
  {
    hide Step, SameRun;
    if FetchPc(s.pc) { FetchSame(h, s, o); }
    else if CheckPc(s.pc) { CheckSame(h, s, o); }
    else if s.pc.Copying? { CopySame(h, s, o); }
    else if BackupPc(s.pc) { BackupSame(h, s, o); }
    else if ReplacePc(s.pc) { ReplaceSame(h, s, o); }
    else if s.pc.Execing? || s.pc.SavingAttempt? { RestartSame(h, s, o); }
    else if s.pc.RestoringRun? { RestoringSame(h, s, o); }
    else if s.pc.Discarding? { DiscardSame(h, s, o); }
    else if s.pc.ClearingRun? { ClearSame(h, s, o); }
    else if StartPc(s.pc) { StartSame(h, s, o); }
    else if ConnectionPc(s.pc) { ConnectionSame(h, s, o); }
    else { OutsideSame(h, s, o); }
  }

  lemma OutsideSame(h: Host, s: State, o: Outcome)
    requires s.pc.Off? || s.pc.Idle? || LookPc(s.pc) || s.pc.RbClearing? || s.pc.RbRenaming? || s.pc.RbMarking?
    ensures SameRun(s, Step(h, s, o))
    ensures Step(h, s, o).hist.residue == s.hist.residue && Step(h, s, o).hist.stuck == s.hist.stuck
    ensures !Step(h, s, o).pc.RbLocating?
    ensures CountsNoFailure(s, Step(h, s, o))
  {
    hide Step, SameRun;
    if s.pc.RbLocating? { LocateSame(h, s, o); }
    else if s.pc.RbExecing? || s.pc.RbStatting? { LookSame(h, s, o); }
    else if s.pc.RbClearing? { GiveUpSame(h, s, o); }
    else if s.pc.RbRenaming? { RenameSame(h, s, o); }
    else if s.pc.RbMarking? { MarkSame(h, s, o); }
    else { IdleStep(h, s, o); SelfSame(s); }
  }

  lemma SelfSame(s: State)
    ensures SameRun(s, s)
  {
  }

  /** The history grows by the directive that starts a run, and only then does it name a new base. */
  lemma IssuedBy(h: Host, s: State, e: Event)
    ensures var s' := Apply(h, s, e);
      if e.Deliver? && StartsRun(s, e.d) then
        && s'.hist.issued == s.hist.issued + {e.d} && s'.hist.before == s.sent && s'.hist.run.directive == e.d
        && s'.hist.run.version == s.mem.version && s'.hist.found == s.disk.tx
        && (Exe in s.disk.files ==> s'.hist.base == s.disk.files[Exe])
      else SameRun(s, s')
  {
    hide Step;
    if e.Op? {
      StepSame(h, s, e.outcome);
    }
  }

  // ----- integrity of the executable -----

  /**
    Whatever happens, the executable path holds the initial program or the complete bytes of a
    download that matched the size and the digest of a delivered directive and passed the smoke
    test; it never holds part of a file, and there is always a file.
   */
  lemma ExecutableIntegrity(h: Host, program: Bytes, now: int, es: seq<Event>)
    requires AllowedRun(h, Initial(program, now), es)
    ensures var files := Replay(h, Initial(program, now), es).disk.files;
      Exe in files && (files[Exe] == program || exists d :: Deliver(d) in es && Vetted(h, d, files[Exe]))
  {
    hide Replay, Vetted, AllowedRun;
    Reachable(h, program, now, es);
    var s := Replay(h, Initial(program, now), es);
    if s.disk.files[Exe] != program {
      var d :| d in s.hist.issued && Vetted(h, d, s.disk.files[Exe]);
      IssuedWereDelivered(h, Initial(program, now), es, d);
    }
  }

  // ----- one run -----

  predicate NoRunStarts(h: Host, s: State, es: seq<Event>) {
    forall k | 0 <= k < |es| :: es[k].Deliver? ==> !StartsRun(Replay(h, s, es[..k]), es[k].d)
  }

  lemma {:induction false} ReplayAppend(h: Host, s: State, xs: seq<Event>, ys: seq<Event>)
    ensures Replay(h, s, xs + ys) == Replay(h, Replay(h, s, xs), ys)
  {
    if ys == [] {
      assert xs + ys == xs;
    } else {
      hide Apply;
      var n := |ys| - 1;
      assert (xs + ys)[..|xs + ys| - 1] == xs + ys[..n];
      ReplayAppend(h, s, xs, ys[..n]);
    }
  }

  /** As long as no further run starts, the history speaks of the run that `d` started in `s`. */
  lemma {:induction false} HistoryKept(h: Host, s: State, es: seq<Event>)
    requires NoRunStarts(h, s, es)
    ensures var s' := Replay(h, s, es);
      && s'.hist.before == s.hist.before && s'.hist.base == s.hist.base && s'.hist.found == s.hist.found
      && s'.hist.run.directive == s.hist.run.directive && s'.hist.run.version == s.hist.run.version
  {
    if es != [] {
      hide Replay, Apply, StartsRun;
      var es' := es[..|es| - 1];
      assert NoRunStarts(h, s, es') by {
        assert forall k | 0 <= k < |es'| :: es'[..k] == es[..k] && es'[k] == es[k];
      }
      HistoryKept(h, s, es');
      LastStep(h, s, es);
      IssuedBy(h, Replay(h, s, es'), es[|es| - 1]);
    } else {
      assert Replay(h, s, es) == s;
    }
  }

  /** A device history up to a directive that starts a run, and what follows without a second run. */
  ghost predicate OneRun(h: Host, program: Bytes, now: int, before: seq<Event>, d: Directive, after: seq<Event>) {
    var s := Replay(h, Initial(program, now), before);
    && AllowedRun(h, Initial(program, now), before + [Deliver(d)] + after)
    && StartsRun(s, d)
    && NoRunStarts(h, Apply(h, s, Deliver(d)), after)
  }

  function AtStartOf(h: Host, program: Bytes, now: int, before: seq<Event>): State {
    Replay(h, Initial(program, now), before)
  }

  function After(h: Host, program: Bytes, now: int, before: seq<Event>, d: Directive, after: seq<Event>): State {
    Replay(h, Initial(program, now), before + [Deliver(d)] + after)
  }

  lemma OneRunHistory(h: Host, program: Bytes, now: int, before: seq<Event>, d: Directive, after: seq<Event>)
    requires OneRun(h, program, now, before, d, after)
    ensures var s0, s := AtStartOf(h, program, now, before), After(h, program, now, before, d, after);
      && Inv(h, program, s0) && Inv(h, program, s) && s0.pc.Idle? && Exe in s0.disk.files
      && s.hist.base == s0.disk.files[Exe] && s.hist.before == s0.sent && s.hist.found == s0.disk.tx
      && s.hist.run.directive == d && s.hist.run.version == s0.mem.version
  {
    hide Replay, Apply, Allowed, NoRunStarts;
    var initial := Initial(program, now);
    var es := before + [Deliver(d)] + after;
    Reachable(h, program, now, es);
    PrefixAllowed(h, initial, es, |before|);
    assert es[..|before|] == before;
    Reachable(h, program, now, before);
    var s0 := Replay(h, initial, before);
    var s1 := Apply(h, s0, Deliver(d));
    ReplayAppend(h, initial, before + [Deliver(d)], after);
    LastStep(h, initial, before + [Deliver(d)]);
    assert (before + [Deliver(d)])[..|before|] == before;
    IssuedBy(h, s0, Deliver(d));
    HistoryKept(h, s1, after);
  }

  /**
    As long as the transaction of an upgrade is pending, the bytes the executable had when that
    upgrade began are in the backup, or there is no backup and the executable already holds them;
    once the transaction says rolled back, the executable holds them.
   */
  lemma RollbackPossible(h: Host, program: Bytes, now: int, before: seq<Event>, d: Directive, after: seq<Event>)
    requires OneRun(h, program, now, before, d, after)
    requires After(h, program, now, before, d, after).disk.tx.Some?
    ensures var s0, s := AtStartOf(h, program, now, before), After(h, program, now, before, d, after);
      && Exe in s0.disk.files && Exe in s.disk.files && s.disk.tx.value.backupPath == Backup
      && (s.disk.tx.value.phase == Pending && Backup in s.disk.files ==> s.disk.files[Backup] == s0.disk.files[Exe])
      && (s.disk.tx.value.phase == Pending && Backup !in s.disk.files ==> s.disk.files[Exe] == s0.disk.files[Exe])
      && (s.disk.tx.value.phase == Restored ==> s.disk.files[Exe] == s0.disk.files[Exe])
  {
    hide OneRun, AtStartOf, After, Good, LogInv, SentInv, StartInv, PcInv;
    OneRunHistory(h, program, now, before, d, after);
  }

  /** The step that renames the backup puts back exactly those bytes. */
  lemma RollbackExact(h: Host, program: Bytes, now: int, before: seq<Event>, d: Directive, after: seq<Event>, e: Event)
    requires OneRun(h, program, now, before, d, after)
    requires var s := After(h, program, now, before, d, after);
      s.pc.RbRenaming? && Apply(h, s, e).pc.RbMarking?
    ensures var s0, s := AtStartOf(h, program, now, before), After(h, program, now, before, d, after);
      && Exe in s0.disk.files
      && Apply(h, s, e).disk.files == (s.disk.files - {Backup})[Exe := s0.disk.files[Exe]]
  {
    hide OneRun, AtStartOf, After, Good, LogInv, SentInv, StartInv, Step, Known, Asked;
    OneRunHistory(h, program, now, before, d, after);
    if e.Op? {
      StepIsRollback(h, After(h, program, now, before, d, after), e.outcome);
    }
  }

  /** No removal, clearing or restoring rename of the run fails. */
  predicate CleanupWorks(h: Host, s: State, es: seq<Event>) {
    forall k | 0 <= k < |es| :: CleanupStep(Replay(h, s, es[..k]).pc, es[k])
  }

  predicate CleanupStep(pc: Pc, e: Event) {
    e.Op? && (pc.Discarding? || pc.ClearingRun? || pc.RestoringRun?) ==> e.outcome.Ok?
  }

  lemma {:induction false} CleanupLeavesNothing(h: Host, program: Bytes, s: State, es: seq<Event>)
    requires Inv(h, program, s) && AllowedRun(h, s, es) && NoRunStarts(h, s, es)
    requires CleanupWorks(h, s, es) && !s.hist.residue && !s.hist.stuck
    ensures Inv(h, program, Replay(h, s, es))
    ensures !Replay(h, s, es).hist.residue && !Replay(h, s, es).hist.stuck
  {
    if es == [] {
      assert Replay(h, s, es) == s;
    } else {
      var n := |es| - 1;
      CleanPrefix(h, s, es, n);
      hide Replay, Inv, Apply, Allowed, AllowedRun, StartsRun, NoRunStarts, CleanupStep, CleanupWorks;
      CleanupLeavesNothing(h, program, s, es[..n]);
      LastStep(h, s, es);
      var s' := Replay(h, s, es[..n]);
      ApplyKeepsInv(h, program, s', es[n]);
      CleanStep(h, program, s', es[n]);
    }
  }

  lemma CleanPrefix(h: Host, s: State, es: seq<Event>, n: nat)
    requires n < |es| && AllowedRun(h, s, es) && NoRunStarts(h, s, es) && CleanupWorks(h, s, es)
    ensures AllowedRun(h, s, es[..n]) && NoRunStarts(h, s, es[..n]) && CleanupWorks(h, s, es[..n])
    ensures var s' := Replay(h, s, es[..n]);
      Allowed(s', es[n]) && CleanupStep(s'.pc, es[n]) && (es[n].Deliver? ==> !StartsRun(s', es[n].d))
  {
    hide Replay, Allowed, StartsRun, CleanupStep;
    assert forall k | 0 <= k < n :: es[..n][..k] == es[..k] && es[..n][k] == es[k];
  }

  lemma CleanStep(h: Host, program: Bytes, s: State, e: Event)
    requires Inv(h, program, s) && CleanupStep(s.pc, e) && (e.Deliver? ==> !StartsRun(s, e.d))
    requires !s.hist.residue && !s.hist.stuck
    ensures !Apply(h, s, e).hist.residue && !Apply(h, s, e).hist.stuck
  {
    hide LogInv, SentInv, StartInv, DiskInv, Step;
    if e.Op? {
      if s.pc.Discarding? || s.pc.ClearingRun? || s.pc.RestoringRun? {
        CleanFinish(h, s, e.outcome);
      } else {
        StepSame(h, s, e.outcome);
      }
    }
  }

  lemma CleanFinish(h: Host, s: State, o: Outcome)
    requires (s.pc.Discarding? || s.pc.ClearingRun? || s.pc.RestoringRun?) && o.Ok? && PcInv(h, s)
    requires !s.hist.residue && !s.hist.stuck
    ensures !Step(h, s, o).hist.residue && !Step(h, s, o).hist.stuck
  {
    hide Step, Checked, Text.Contains;
    StepIsFinish(h, s, o);
  }

  /**
    All or nothing: when a run reports `failed`, the executable is what it was when the run began.
    The one exception is a failed exec whose restoring rename failed too: then the new, vetted
    program stays in place and the backup still holds the old one.
   */
  lemma FailureKeepsExecutable(h: Host, program: Bytes, now: int, before: seq<Event>, d: Directive, after: seq<Event>)
    requires OneRun(h, program, now, before, d, after)
    requires After(h, program, now, before, d, after).pc.SavingAttempt?
    ensures var s0, s := AtStartOf(h, program, now, before), After(h, program, now, before, d, after);
      && s.hist.run.failure.Some? && Exe in s0.disk.files && Exe in s.disk.files
      && (!s.hist.stuck ==> s.disk.files[Exe] == s0.disk.files[Exe])
      && (s.hist.stuck ==>
            && s.hist.run.failure == Some(ExecFailed) && Vetted(h, d, s.disk.files[Exe])
            && Backup in s.disk.files && s.disk.files[Backup] == s0.disk.files[Exe])
  {
    hide OneRun, AtStartOf, After, Good, LogInv, SentInv, StartInv, Vetted;
    OneRunHistory(h, program, now, before, d, after);
  }

  /**
    If moreover no cleanup fails, the failed run leaves no download file either and no transaction of
    its own: there is none, or the rolled-back marker that was there before is still there.
   */
  lemma FailureLeavesNothing(h: Host, program: Bytes, now: int, before: seq<Event>, d: Directive, after: seq<Event>)
    requires OneRun(h, program, now, before, d, after)
    requires After(h, program, now, before, d, after).pc.SavingAttempt?
    requires CleanupWorks(h, Apply(h, AtStartOf(h, program, now, before), Deliver(d)), after)
    ensures var s0, s := AtStartOf(h, program, now, before), After(h, program, now, before, d, after);
      && Exe in s0.disk.files && Exe in s.disk.files && s.disk.files[Exe] == s0.disk.files[Exe]
      && (s.disk.tx.None? || s.disk.tx == s0.disk.tx) && !PendingOnDisk(s) && GoneTemp(s)
  {
    hide Inv, AllowedRun, Replay, NoRunStarts, CleanupWorks, Allowed, StartsRun, Apply;
    OneRunHistory(h, program, now, before, d, after);
    SuffixAllowed(h, Initial(program, now), before, d, after);
    var s0 := AtStartOf(h, program, now, before);
    ApplyKeepsInv(h, program, s0, Deliver(d));
    BeginClean(h, s0, d);
    CleanupLeavesNothing(h, program, Apply(h, s0, Deliver(d)), after);
    CleanFailure(h, program, After(h, program, now, before, d, after));
  }

  lemma BeginClean(h: Host, s: State, d: Directive)
    requires StartsRun(s, d)
    ensures !Apply(h, s, Deliver(d)).hist.residue && !Apply(h, s, Deliver(d)).hist.stuck
  {
  }

  lemma CleanFailure(h: Host, program: Bytes, s: State)
    requires Inv(h, program, s) && s.pc.SavingAttempt? && !s.hist.residue && !s.hist.stuck
    ensures AtBase(s) && (s.disk.tx.None? || s.disk.tx == s.hist.found) && !PendingOnDisk(s) && GoneTemp(s)
  {
    hide LogInv, SentInv, StartInv, DiskInv, Vetted;
  }

  lemma SuffixAllowed(h: Host, s: State, before: seq<Event>, d: Directive, after: seq<Event>)
    requires AllowedRun(h, s, before + [Deliver(d)] + after)
    ensures var s0 := Replay(h, s, before);
      var s1 := Apply(h, s0, Deliver(d));
      Allowed(s0, Deliver(d)) && AllowedRun(h, s1, after)
        && Replay(h, s1, after) == Replay(h, s, before + [Deliver(d)] + after)
  {
    hide Apply, Allowed, Replay;
    var start := before + [Deliver(d)];
    var es := start + after;
    assert es[..|before|] == before && es[|before|] == Deliver(d);
    LastStep(h, s, start);
    assert start[..|before|] == before;
    ReplayAppend(h, s, start, after);
    forall k | 0 <= k < |after|
      ensures Allowed(Replay(h, Replay(h, s, start), after[..k]), after[k])
    {
      assert es[..|start| + k] == start + after[..k] && es[|start| + k] == after[k];
      ReplayAppend(h, s, start, after[..k]);
    }
  }

  /**
    A run that is about to restart has installed a program vetted for its directive, keeps the old
    one in the backup, and has left on disk the pending transaction that says so.
   */
  lemma RestartMeansInstalled(h: Host, program: Bytes, now: int, before: seq<Event>, d: Directive, after: seq<Event>)
    requires OneRun(h, program, now, before, d, after)
    requires After(h, program, now, before, d, after).pc.Execing?
    ensures var s0, s := AtStartOf(h, program, now, before), After(h, program, now, before, d, after);
      && Exe in s0.disk.files && Exe in s.disk.files && Vetted(h, d, s.disk.files[Exe])
      && Backup in s.disk.files && s.disk.files[Backup] == s0.disk.files[Exe]
      && s.disk.tx == Some(Transaction(s0.mem.version, d.targetVersion, Backup, d.requestId, Pending,
                                       s.hist.recordedAt, 0, 0, None))
  {
    hide OneRun, AtStartOf, After, Good, SentInv, StartInv, Vetted, Trace, Rising;
    OneRunHistory(h, program, now, before, d, after);
  }

  // ----- what a run sends -----

  lemma {:induction false} RisingIsShort(progress: seq<int>)
    requires Rising(progress)
    ensures PROGRESS_STEP * |progress| <= Last(progress)
    ensures |progress| <= 20
  {
    if progress != [] {
      RisingIsShort(progress[..|progress| - 1]);
    }
  }

  /**
    The statuses of one run, field by field: a percentage of the download each, then the first `stage`
    of the later stages, then the failure, if there is one.
   */
  predicate Told(report: seq<Status>, d: Directive, version: string, progress: seq<int>, stage: nat,
      failure: Option<Reason>)
    requires stage <= 3
  {
    var n := |progress|;
    && |report| == n + stage + (if failure.Some? then 1 else 0)
    && (forall i :: 0 <= i < |report| ==>
          && report[i].requestId == d.requestId && report[i].targetVersion == d.targetVersion
          && report[i].fromVersion == version)
    && (forall i :: 0 <= i < n ==>
          report[i].state == Downloading && report[i].progress == Some(progress[i]) && report[i].reason == None)
    && (forall i :: n <= i < n + stage ==> report[i].progress == None && report[i].reason == None)
    && (stage > 0 ==> report[n].state == Verifying)
    && (stage > 1 ==> report[n + 1].state == Installing)
    && (stage > 2 ==> report[n + 2].state == Restarting)
    && (failure.Some? ==>
          var last := report[n + stage];
          last.state == Failed && last.progress == None && last.reason == failure)
  }

  lemma TraceTells(d: Directive, version: string, progress: seq<int>, stage: nat, failure: Option<Reason>)
    requires stage <= 3
    ensures Told(Trace(d, version, progress, stage, failure), d, version, progress, stage, failure)
  {
  }

  /**
    While the run is going on, and at the moment it fails, what has been sent since it began is: at
    most 20 download percentages, each at least 5 above the one before and none above 100, nor above
    what was received; then a prefix of verifying, installing, restarting; then at most one `failed`. A
    run that is over without a crash has failed or reached `restarting`.
   */
  lemma StatusGrammar(h: Host, program: Bytes, now: int, before: seq<Event>, d: Directive, after: seq<Event>)
      returns (progress: seq<int>, stage: nat, failure: Option<Reason>, report: seq<Status>)
    requires OneRun(h, program, now, before, d, after)
    ensures stage <= 3 && Rising(progress) && |progress| <= 20
    ensures var s0, s := AtStartOf(h, program, now, before), After(h, program, now, before, d, after);
      && Told(report, d, s0.mem.version, progress, stage, failure)
      && (forall i :: 0 <= i < |progress| ==> progress[i] * d.sizeBytes <= 100 * s.hist.run.received)
      && s0.sent + report <= s.sent
      && (InRun(s.pc) ==> s.sent == s0.sent + report && failure.None?)
      && (!InRun(s.pc) && !s.hist.run.crashed ==> failure.Some? || stage == 3)
  {
    hide OneRun, AtStartOf, After, DiskInv, SentInv, StartInv, PcInv, Trace, Rising, Told, Last;
    OneRunHistory(h, program, now, before, d, after);
    var run := After(h, program, now, before, d, after).hist.run;
    progress, stage, failure, report := run.progress, run.stage, run.failure, run.report;
    TraceTells(d, run.version, progress, stage, failure);
    RisingIsShort(progress);
    IssuedNotEmpty(h, program, now, before, d, after);
    forall i | 0 <= i < |progress| ensures progress[i] * d.sizeBytes <= 100 * run.received {
      LastIsHighest(progress, i);
      TimesMonotone(progress[i], Last(progress), d.sizeBytes);
    }
  }

  lemma {:induction false} LastIsHighest(progress: seq<int>, i: nat)
    requires Rising(progress) && i < |progress|
    ensures progress[i] <= Last(progress)
  {
    if i < |progress| - 1 {
      LastIsHighest(progress[..|progress| - 1], i);
    }
  }

  /** While the download is going on, what was received is what the file holds. */
  lemma ReceivedIsInFile(h: Host, program: Bytes, now: int, es: seq<Event>)
    requires AllowedRun(h, Initial(program, now), es)
    ensures var s := Replay(h, Initial(program, now), es);
      s.pc.Copying? || s.pc.Closing? ==> s.pc.tmp in s.disk.files && |s.disk.files[s.pc.tmp]| == s.hist.run.received
  {
    hide Replay, AllowedRun, LogInv, SentInv, DiskInv, StartInv;
    Reachable(h, program, now, es);
  }

  lemma IssuedNotEmpty(h: Host, program: Bytes, now: int, before: seq<Event>, d: Directive, after: seq<Event>)
    requires OneRun(h, program, now, before, d, after)
    ensures d in After(h, program, now, before, d, after).hist.issued
  {
    hide Apply, Replay, AllowedRun, NoRunStarts;
    var initial := Initial(program, now);
    ReplayAppend(h, initial, before + [Deliver(d)], after);
    LastStep(h, initial, before + [Deliver(d)]);
    assert (before + [Deliver(d)])[..|before|] == before;
    IssuedBy(h, Replay(h, initial, before), Deliver(d));
    IssuedGrows(h, Apply(h, Replay(h, initial, before), Deliver(d)), after);
  }

  lemma {:induction false} IssuedGrows(h: Host, s: State, es: seq<Event>)
    ensures s.hist.issued <= Replay(h, s, es).hist.issued
  {
    if es != [] {
      hide Replay, Apply;
      IssuedGrows(h, s, es[..|es| - 1]);
      LastStep(h, s, es);
      IssuedBy(h, Replay(h, s, es[..|es| - 1]), es[|es| - 1]);
    } else {
      assert Replay(h, s, es) == s;
    }
  }

  /**
    Every status ever sent, also one built from a transaction read back after a restart, is accepted
    exactly when its request id is decimal, its target is a version, and the version it comes from is
    absent or legal. Id and target are those of a delivered directive, and the version it comes from is
    one compiled into some program.
   */
  lemma StatusesAccepted(h: Host, program: Bytes, now: int, es: seq<Event>, st: Status) returns (d: Directive)
    requires AllowedRun(h, Initial(program, now), es)
    requires st in Replay(h, Initial(program, now), es).sent
    ensures ValidateStatus(Encode(st)).Pass? <==>
      && IsDecimalId(st.requestId) && Semver.IsSemver(st.targetVersion)
      && (st.fromVersion == "" || Semver.IsSemver(st.fromVersion))
    ensures Deliver(d) in es && d.requestId == st.requestId && d.targetVersion == st.targetVersion
    ensures Known(h, st.fromVersion)
  {
    hide Replay, AllowedRun, DiskInv, PcInv, StartInv, LogInv, Sound, ValidateStatus, Semver.IsSemver;
    Reachable(h, program, now, es);
    SoundStatusAccepted(st);
    var issued := Replay(h, Initial(program, now), es).hist.issued;
    assert Asked(issued, st.requestId, st.targetVersion);
    d :| d in issued && d.requestId == st.requestId && d.targetVersion == st.targetVersion;
    IssuedWereDelivered(h, Initial(program, now), es, d);
  }

  /** So if the directives pass their validation and the programs carry legal versions, every status is accepted. */
  lemma ValidDirectivesSuffice(h: Host, program: Bytes, now: int, es: seq<Event>, st: Status)
    requires AllowedRun(h, Initial(program, now), es)
    requires st in Replay(h, Initial(program, now), es).sent
    requires forall d :: Deliver(d) in es ==> ValidDirective(d)
    ensures ValidateStatus(Encode(st)).Pass? <==> st.fromVersion == "" || Semver.IsSemver(st.fromVersion)
    ensures (forall b :: Semver.IsSemver(h.versionOf(b))) ==> ValidateStatus(Encode(st)).Pass?
  {
    hide Replay, AllowedRun, ValidateStatus, Semver.IsSemver, ValidDirective;
    var d := StatusesAccepted(h, program, now, es, st);
    ValidDirectiveMeans(d);
  }

  // ----- the transaction's life -----

  predicate SameUpgrade(a: Transaction, b: Transaction) {
    a.(phase := b.phase, attempts := b.attempts, probeFailures := b.probeFailures, reason := b.reason) == b
  }

  /** The same upgrade further on in its life: pending with no lower counters, rolled back, or gone. */
  predicate Later(tx: Option<Transaction>, tx': Option<Transaction>) {
    tx'.Some? ==>
      && tx.Some? && SameUpgrade(tx.value, tx'.value)
      && (tx.value.phase == Restored ==> tx' == tx)
      && (tx'.value.phase == Pending ==>
            tx.value.attempts <= tx'.value.attempts && tx.value.probeFailures <= tx'.value.probeFailures)
  }

  /** The transaction that a run for `d` records in state `s`: its start time is the clock at that moment. */
  predicate BeginsIn(s: State, d: Directive, tx: Transaction) {
    && tx.fromVersion == s.mem.version && tx.toVersion == d.targetVersion && tx.requestId == d.requestId
    && tx.backupPath == Backup && tx.phase == Pending && tx.at == s.now
    && tx.attempts == 0 && tx.probeFailures == 0 && tx.reason.None?
  }

  /** One step of that life; while a run records its transaction, a new one can begin. */
  predicate TxMoves(s: State, tx': Option<Transaction>) {
    var tx := s.disk.tx;
    || tx' == tx
    || (s.pc.Recording? && (tx.Some? ==> tx.value.phase == Restored) && tx'.Some? && BeginsIn(s, s.pc.d, tx'.value))
    || (Later(tx, tx')
        && (tx'.Some? && tx'.value.phase == Pending ==>
              tx'.value.attempts <= tx.value.attempts + 1 && tx'.value.probeFailures <= tx.value.probeFailures + 1))
  }

  lemma FetchMoves(h: Host, original: Bytes, s: State, o: Outcome)
    requires Inv(h, original, s) && (FetchPc(s.pc) || CheckPc(s.pc))
    ensures TxMoves(s, Step(h, s, o).disk.tx)
  {
    hide Step, LogInv, SentInv, StartInv, Good, Text.Contains, Asked, Checked;
    StepIsDownload(h, s, o);
  }

  lemma CopyMoves(h: Host, original: Bytes, s: State, o: Outcome)
    requires Inv(h, original, s) && (s.pc.Copying?)
    ensures TxMoves(s, Step(h, s, o).disk.tx)
  {
    hide Step, LogInv, SentInv, StartInv, DiskInv, PcInv, Reports, Percent;
    StepIsDownload(h, s, o);
  }

  lemma InstallMoves(h: Host, original: Bytes, s: State, o: Outcome)
    requires Inv(h, original, s) && (BackupPc(s.pc) || ReplacePc(s.pc))
    ensures TxMoves(s, Step(h, s, o).disk.tx)
  {
    hide Step, LogInv, SentInv, StartInv, Good, Text.Contains, Asked, Checked;
    StepIsInstall(h, s, o);
  }

  lemma RestartMoves(h: Host, original: Bytes, s: State, o: Outcome)
    requires Inv(h, original, s) && (RestartPc(s.pc))
    ensures TxMoves(s, Step(h, s, o).disk.tx)
  {
    hide Step, LogInv, SentInv, StartInv, Good, Text.Contains, Asked, Checked;
    StepIsFinish(h, s, o);
  }

  lemma FailureMoves(h: Host, original: Bytes, s: State, o: Outcome)
    requires Inv(h, original, s) && (FailurePc(s.pc))
    ensures TxMoves(s, Step(h, s, o).disk.tx)
  {
    hide Step, LogInv, SentInv, StartInv, Good, Text.Contains, Asked, Checked;
    StepIsFinish(h, s, o);
  }

  lemma StartMoves(h: Host, original: Bytes, s: State, o: Outcome)
    requires Inv(h, original, s) && (StartPc(s.pc))
    ensures TxMoves(s, Step(h, s, o).disk.tx)
  {
    hide Step, LogInv, SentInv, StartInv, Good, Text.Contains, Asked, Checked;
    StepIsStart(h, s, o);
  }

  lemma ConnectionMoves(h: Host, original: Bytes, s: State, o: Outcome)
    requires Inv(h, original, s) && (ConnectionPc(s.pc))
    ensures TxMoves(s, Step(h, s, o).disk.tx)
  {
    hide Step, LogInv, SentInv, StartInv, Good, Text.Contains, Asked, Checked;
    StepIsConnection(h, s, o);
  }

  lemma LookMoves(h: Host, original: Bytes, s: State, o: Outcome)
    requires Inv(h, original, s) && (LookPc(s.pc))
    ensures TxMoves(s, Step(h, s, o).disk.tx)
  {
    hide Step, LogInv, SentInv, StartInv, Good, Text.Contains, Asked, Checked;
    StepIsRollback(h, s, o);
  }

  lemma RestoreMoves(h: Host, original: Bytes, s: State, o: Outcome)
    requires Inv(h, original, s) && (s.pc.RbClearing? || s.pc.RbRenaming?)
    ensures TxMoves(s, Step(h, s, o).disk.tx)
  {
    hide Step, LogInv, SentInv, StartInv, Good, Text.Contains, Asked, Checked;
    StepIsRollback(h, s, o);
  }

  lemma MarkMoves(h: Host, original: Bytes, s: State, o: Outcome)
    requires Inv(h, original, s) && (s.pc.RbMarking?)
    ensures TxMoves(s, Step(h, s, o).disk.tx)
  {
    hide Step, LogInv, SentInv, StartInv, Good, Text.Contains, Asked, Checked;
    StepIsRollback(h, s, o);
  }

  /**
    One event moves the transaction only along none, pending, then none or rolled back, then none;
    its versions, backup path, request id and start time never change, and the counters of a
    pending transaction go up by at most one. Only a run that records its own begins another, where
    there was none or the marker of an earlier rollback.
   */
  lemma PhaseMoves(h: Host, original: Bytes, s: State, e: Event)
    requires Inv(h, original, s) && Allowed(s, e)
    ensures TxMoves(s, Apply(h, s, e).disk.tx)
  {
    hide Inv, Step;
    if e.Op? {
      StepMoves(h, original, s, e.outcome);
    }
  }

  /** No event of the sequence records a new transaction. */
  predicate NothingRecorded(h: Host, s: State, es: seq<Event>) {
    forall k | 0 <= k < |es| :: Replay(h, s, es[..k]).pc.Recording? ==> es[k] != Op(Ok)
  }

  /**
    Over any sequence of events in which no new transaction is recorded: what is on disk at the end is
    the same upgrade further on in its life, with its versions, path, request id and start time; once
    it is rolled back it does not change, and once it is gone it stays gone.
   */
  lemma {:induction false} UpgradeStaysTheSame(h: Host, original: Bytes, s: State, es: seq<Event>)
    requires Inv(h, original, s) && AllowedRun(h, s, es) && NothingRecorded(h, s, es)
    ensures Inv(h, original, Replay(h, s, es))
    ensures Later(s.disk.tx, Replay(h, s, es).disk.tx)
  {
    if es == [] {
      assert Replay(h, s, es) == s;
    } else {
      hide Replay, Inv, Apply, Allowed, Later, TxMoves;
      var n := |es| - 1;
      var s' := Replay(h, s, es[..n]);
      assert Allowed(s', es[n]) && (s'.pc.Recording? ==> es[n] != Op(Ok));
      PrefixAllowed(h, s, es, n);
      PrefixRecordsNothing(h, s, es, n);
      hide AllowedRun, NothingRecorded;
      UpgradeStaysTheSame(h, original, s, es[..n]);
      LastStep(h, s, es);
      ApplyKeepsInv(h, original, s', es[n]);
      LaterByOne(h, original, s', es[n]);
      LaterTransitive(s.disk.tx, s'.disk.tx, Apply(h, s', es[n]).disk.tx);
    }
  }

  lemma PrefixRecordsNothing(h: Host, s: State, es: seq<Event>, n: nat)
    requires n <= |es| && NothingRecorded(h, s, es)
    ensures NothingRecorded(h, s, es[..n])
  {
    hide Replay;
    assert forall k | 0 <= k < n :: es[..n][..k] == es[..k] && es[..n][k] == es[k];
  }

  lemma LaterByOne(h: Host, original: Bytes, s: State, e: Event)
    requires Inv(h, original, s) && Allowed(s, e) && (s.pc.Recording? ==> e != Op(Ok))
    ensures Later(s.disk.tx, Apply(h, s, e).disk.tx)
  {
    hide Inv, Step;
    PhaseMoves(h, original, s, e);
    if s.pc.Recording? {
      NotRecorded(h, s, e);
    }
  }

  lemma NotRecorded(h: Host, s: State, e: Event)
    requires s.pc.Recording? && e != Op(Ok)
    ensures Apply(h, s, e).disk.tx == s.disk.tx
  {
  }

  /** Step `k` of the sequence records a transaction, of which `tx` is a later form. */
  ghost predicate RecordedAt(h: Host, s: State, es: seq<Event>, k: nat, tx: Transaction)
    requires k < |es|
  {
    var was := Replay(h, s, es[..k]);
    && was.pc.Recording? && es[k] == Op(Ok) && h.hasStateDir
    && exists first :: BeginsIn(was, was.pc.d, first) && SameUpgrade(first, tx)
  }

  /**
    Every transaction that is ever on disk was recorded by a run: its versions and its request id are
    those of that run's process and directive, and its start time is what the clock said at that step.
   */
  lemma {:induction false} TransactionOrigin(h: Host, program: Bytes, now: int, es: seq<Event>) returns (k: nat)
    requires AllowedRun(h, Initial(program, now), es) && Replay(h, Initial(program, now), es).disk.tx.Some?
    ensures k < |es| && RecordedAt(h, Initial(program, now), es, k, Replay(h, Initial(program, now), es).disk.tx.value)
  {
    NothingAtFirst(h, program, now);
    hide Replay, Apply, Inv, Allowed, AllowedRun, Initial, TxMoves, BeginsIn, SameUpgrade;
    var initial, front, e := Initial(program, now), es[..|es| - 1], es[|es| - 1];
    BeforeLast(h, program, now, es);
    var s := Replay(h, initial, front);
    if s.pc.Recording? && e == Op(Ok) && Apply(h, s, e).disk.tx != s.disk.tx {
      k := |front|;
      RecordingBegins(h, program, s);
    } else {
      OriginKept(h, program, s, e);
      k := TransactionOrigin(h, program, now, front);
      hide RecordedAt;
      RecordedLater(h, initial, front, e, k, s.disk.tx.value, Apply(h, s, e).disk.tx.value);
      assert front + [e] == es;
    }
  }

  lemma NothingAtFirst(h: Host, program: Bytes, now: int)
    ensures Replay(h, Initial(program, now), []).disk.tx.None?
  {
  }

  lemma BeforeLast(h: Host, program: Bytes, now: int, es: seq<Event>)
    requires es != [] && AllowedRun(h, Initial(program, now), es)
    ensures var front, e := es[..|es| - 1], es[|es| - 1];
      var s := Replay(h, Initial(program, now), front);
      && AllowedRun(h, Initial(program, now), front) && Inv(h, program, s) && Allowed(s, e)
      && Replay(h, Initial(program, now), es) == Apply(h, s, e)
  {
    hide Replay, Apply, Inv, Allowed, Initial;
    PrefixAllowed(h, Initial(program, now), es, |es| - 1);
    Reachable(h, program, now, es[..|es| - 1]);
    LastStep(h, Initial(program, now), es);
  }

  lemma RecordedLater(h: Host, s: State, es: seq<Event>, e: Event, k: nat, tx: Transaction, tx': Transaction)
    requires k < |es| && RecordedAt(h, s, es, k, tx) && SameUpgrade(tx, tx')
    ensures RecordedAt(h, s, es + [e], k, tx')
  {
    hide Replay, BeginsIn, SameUpgrade;
    assert (es + [e])[..k] == es[..k] && (es + [e])[k] == es[k];
    var was := Replay(h, s, es[..k]);
    var first :| BeginsIn(was, was.pc.d, first) && SameUpgrade(first, tx);
    SameUpgradeTransitive(first, tx, tx');
  }

  lemma RecordingBegins(h: Host, program: Bytes, s: State)
    requires Inv(h, program, s) && s.pc.Recording? && Apply(h, s, Op(Ok)).disk.tx != s.disk.tx
    ensures h.hasStateDir && Apply(h, s, Op(Ok)).disk.tx.Some?
    ensures var tx := Apply(h, s, Op(Ok)).disk.tx.value; BeginsIn(s, s.pc.d, tx) && SameUpgrade(tx, tx)
  {
    hide Inv;
  }

  lemma OriginKept(h: Host, program: Bytes, s: State, e: Event)
    requires Inv(h, program, s) && Allowed(s, e) && Apply(h, s, e).disk.tx.Some?
    requires s.pc.Recording? && e == Op(Ok) ==> Apply(h, s, e).disk.tx == s.disk.tx
    ensures s.disk.tx.Some? && SameUpgrade(s.disk.tx.value, Apply(h, s, e).disk.tx.value)
  {
    hide Inv, Step;
    if s.pc.Recording? && e == Op(Ok) {
    } else {
      LaterByOne(h, program, s, e);
    }
  }

  lemma SameUpgradeTransitive(a: Transaction, b: Transaction, c: Transaction)
    requires SameUpgrade(a, b) && SameUpgrade(b, c)
    ensures SameUpgrade(a, c)
  {
  }

  lemma LaterTransitive(a: Option<Transaction>, b: Option<Transaction>, c: Option<Transaction>)
    requires Later(a, b) && Later(b, c)
    ensures Later(a, c)
  {
  }

  lemma StepMoves(h: Host, original: Bytes, s: State, o: Outcome)
    requires Inv(h, original, s)
    ensures TxMoves(s, Step(h, s, o).disk.tx)
  {
    hide Inv, Step, TxMoves;
    if FetchPc(s.pc) || CheckPc(s.pc) { FetchMoves(h, original, s, o); }
    else if s.pc.Copying? { CopyMoves(h, original, s, o); }
    else if BackupPc(s.pc) || ReplacePc(s.pc) { InstallMoves(h, original, s, o); }
    else if RestartPc(s.pc) { RestartMoves(h, original, s, o); }
    else if FailurePc(s.pc) { FailureMoves(h, original, s, o); }
    else if StartPc(s.pc) { StartMoves(h, original, s, o); }
    else if ConnectionPc(s.pc) { ConnectionMoves(h, original, s, o); }
    else if LookPc(s.pc) { LookMoves(h, original, s, o); }
    else if s.pc.RbClearing? || s.pc.RbRenaming? { RestoreMoves(h, original, s, o); }
    else if s.pc.RbMarking? { MarkMoves(h, original, s, o); }
    else { IdleMoves(h, s, o); }
  }

  lemma IdleMoves(h: Host, s: State, o: Outcome)
    requires s.pc.Off? || s.pc.Idle?
    ensures TxMoves(s, Step(h, s, o).disk.tx)
  {
    IdleStep(h, s, o);
  }

  /**
    A transaction that is still pending has been found by at most two process starts, unless some
    start was cut short or had a failing write or restore; so the third start ends it.
   */
  lemma ThreeStartsSuffice(h: Host, program: Bytes, now: int, es: seq<Event>)
    requires AllowedRun(h, Initial(program, now), es)
    ensures var s := Replay(h, Initial(program, now), es);
      PendingOnDisk(s) && !s.hist.startFault ==>
        s.hist.starts <= 3 && (s.hist.starts == 3 ==> RollingBackAtStart(s.pc))
  {
    hide Replay, AllowedRun, LogInv, SentInv, Good, Asked, Checked;
    Reachable(h, program, now, es);
  }

  lemma ReplayNone(h: Host, s: State)
    ensures Replay(h, s, []) == s
  {
  }

  lemma ReplayNext(h: Host, s: State, es: seq<Event>, e: Event)
    ensures Replay(h, s, es + [e]) == Apply(h, Replay(h, s, es), e)
  {
    hide Apply;
    assert (es + [e])[..|es|] == es;
  }

  // ----- every rollback restores -----

  /** The program that the upgrade replaced is back, and the marker says so. */
  predicate RolledBackFrom(s: State, s': State) {
    && Exe in s'.disk.files && s'.disk.files[Exe] == s.hist.base
    && s.disk.tx.Some? && s'.disk.tx.Some? && s'.disk.tx.value.phase == Restored
    && SameUpgrade(s.disk.tx.value, s'.disk.tx.value)
  }

  /** Where a rollback ends that was asked for by `who`, unless exec brings up the old program. */
  predicate Ends(pc: Pc, who: Caller) {
    pc == RbExecing(who) || (if who == AtStart then pc == Off else pc == Idle)
  }

  const FOUR_OK: seq<Event> := [Op(Ok), Op(Ok), Op(Ok), Op(Ok)]

  /** A rollback whose reads, rename and write succeed. */
  lemma RollbackRestores(h: Host, original: Bytes, s: State)
    requires Inv(h, original, s) && s.pc.RbLocating? && Backup in s.disk.files
    ensures var s' := Replay(h, s, FOUR_OK); RolledBackFrom(s, s') && Ends(s'.pc, s.pc.who)
  {
    hide Apply, Replay, LogInv, SentInv, StartInv, Good, Asked, Known;
    var s3 := BackToMark(h, s);
    MarkRestores(h, s, s3);
    ReplayNext(h, s, [Op(Ok), Op(Ok), Op(Ok)], Op(Ok));
    assert [Op(Ok), Op(Ok), Op(Ok)] + [Op(Ok)] == FOUR_OK;
  }

  /** The rollback as far as the renamed backup. */
  lemma BackToMark(h: Host, s: State) returns (s': State)
    requires s.pc.RbLocating? && s.pc.tx.backupPath == Backup && Backup in s.disk.files
    ensures s' == Replay(h, s, [Op(Ok), Op(Ok), Op(Ok)])
    ensures s' == s.(pc := RbMarking(s.pc.tx, s.pc.who), disk := s.disk.(files := Renamed(s.disk.files, Backup, Exe)))
  {
    hide Apply, Replay;
    LocatesProgram(h, s);
    var s1 := Apply(h, s, Op(Ok));
    FindsBackup(h, s1);
    var s2 := Apply(h, s1, Op(Ok));
    RenamesBackup(h, s2);
    s' := Apply(h, s2, Op(Ok));
    ReplayNone(h, s);
    ReplayNext(h, s, [], Op(Ok));
    assert [] + [Op(Ok)] == [Op(Ok)];
    ReplayNext(h, s, [Op(Ok)], Op(Ok));
    assert [Op(Ok)] + [Op(Ok)] == [Op(Ok), Op(Ok)];
    ReplayNext(h, s, [Op(Ok), Op(Ok)], Op(Ok));
    assert [Op(Ok), Op(Ok)] + [Op(Ok)] == [Op(Ok), Op(Ok), Op(Ok)];
  }

  lemma LocatesProgram(h: Host, s: State)
    requires s.pc.RbLocating?
    ensures Apply(h, s, Op(Ok)) == s.(pc := RbStatting(s.pc.tx, s.pc.who))
  {
  }

  lemma FindsBackup(h: Host, s: State)
    requires s.pc.RbStatting? && s.pc.tx.backupPath in s.disk.files
    ensures Apply(h, s, Op(Ok)) == s.(pc := RbRenaming(s.pc.tx, s.pc.who))
  {
  }

  lemma RenamesBackup(h: Host, s: State)
    requires s.pc.RbRenaming? && s.pc.tx.backupPath == Backup && Backup in s.disk.files
    ensures Apply(h, s, Op(Ok)) ==
      s.(pc := RbMarking(s.pc.tx, s.pc.who), disk := s.disk.(files := Renamed(s.disk.files, Backup, Exe)))
  {
  }

  lemma MarkRestores(h: Host, s: State, s3: State)
    requires h.hasStateDir && s.disk.tx.Some? && s.pc.RbLocating? && SameUpgrade(s.disk.tx.value, s.pc.tx)
    requires s3.pc == RbMarking(s.pc.tx, s.pc.who) && Exe in s3.disk.files && s3.disk.files[Exe] == s.hist.base
    ensures var s' := Apply(h, s3, Op(Ok)); RolledBackFrom(s, s') && Ends(s'.pc, s.pc.who)
  {
  }

  /** From an event that enters a rollback, and the events of the rollback. */
  lemma EntersAndRestores(h: Host, original: Bytes, s: State, entry: seq<Event>)
    requires Inv(h, original, s) && AllowedRun(h, s, entry) && s.disk.tx.Some?
    requires var s1 := Replay(h, s, entry);
      && s1.pc.RbLocating? && Backup in s1.disk.files && s1.hist.base == s.hist.base
      && s1.disk.tx.Some? && SameUpgrade(s.disk.tx.value, s1.disk.tx.value)
    ensures var s1, s' := Replay(h, s, entry), Replay(h, s, entry + FOUR_OK);
      RolledBackFrom(s, s') && Ends(s'.pc, s1.pc.who)
  {
    hide Inv, Apply, Replay, AllowedRun;
    InvKept(h, original, s, entry);
    RollbackRestores(h, original, Replay(h, s, entry));
    ReplayAppend(h, s, entry, FOUR_OK);
  }

  lemma NoDirectiveAllowed(h: Host, s: State, es: seq<Event>)
    requires forall i | 0 <= i < |es| :: !es[i].Deliver?
    ensures AllowedRun(h, s, es)
  {
    hide Replay;
  }

  lemma OneEvent(h: Host, s: State, e: Event)
    ensures Replay(h, s, [e]) == Apply(h, s, e)
  {
    hide Apply;
    ReplayNone(h, s);
    ReplayNext(h, s, [], e);
    assert [] + [e] == [e];
  }

  /**
    A start that is the third for its transaction restores the program it replaced, if its reads,
    its rename and its write succeed, and leaves the rolled-back marker.
   */
  lemma ThirdStartRestores(h: Host, original: Bytes, s: State)
    requires Inv(h, original, s) && s.pc.Starting? && PendingOnDisk(s)
    requires s.disk.tx.value.attempts == 2 && Backup in s.disk.files
    ensures var s' := Replay(h, s, [Op(Ok)] + FOUR_OK); RolledBackFrom(s, s') && Ends(s'.pc, AtStart)
  {
    HasStateDir(h, original, s);
    FindsThirdAttempt(h, s);
    hide Inv, Apply, Replay;
    OneEvent(h, s, Op(Ok));
    NoDirectiveAllowed(h, s, [Op(Ok)]);
    EntersAndRestores(h, original, s, [Op(Ok)]);
  }

  lemma HasStateDir(h: Host, original: Bytes, s: State)
    requires Inv(h, original, s) && s.disk.tx.Some?
    ensures h.hasStateDir
  {
    hide LogInv, SentInv, StartInv, PcInv, Good, Asked;
  }

  lemma FindsThirdAttempt(h: Host, s: State)
    requires s.pc.Starting? && h.hasStateDir && PendingOnDisk(s) && s.disk.tx.value.attempts == MAX_START_ATTEMPTS - 1
    ensures var s' := Apply(h, s, Op(Ok));
      && s'.disk == s.disk && s'.hist.base == s.hist.base
      && s'.pc == RbLocating(s.disk.tx.value.(attempts := MAX_START_ATTEMPTS), AtStart)
  {
  }

  /** A watchdog round past the deadline does the same, with no counted failure or with at least three. */
  lemma WatchdogRestores(h: Host, original: Bytes, s: State)
    requires Inv(h, original, s) && s.pc.Idle? && s.mem.watching && PendingOnDisk(s) && Backup in s.disk.files
    requires var tx := s.disk.tx.value; s.now >= tx.at + h.trialWindow + tx.probeFailures * h.probeWindow
    requires s.disk.tx.value.probeFailures == 0 || s.disk.tx.value.probeFailures >= 3
    ensures var s' := Replay(h, s, [Watch(true)] + FOUR_OK); RolledBackFrom(s, s') && Ends(s'.pc, Watchdog)
  {
    HasStateDir(h, original, s);
    ActsAtDeadline(h, s);
    hide Inv, Apply, Replay;
    OneEvent(h, s, Watch(true));
    NoDirectiveAllowed(h, s, [Watch(true)]);
    EntersAndRestores(h, original, s, [Watch(true)]);
  }

  lemma ActsAtDeadline(h: Host, s: State)
    requires s.pc.Idle? && s.mem.watching && h.hasStateDir && PendingOnDisk(s) && s.now >= Deadline(h, s.disk.tx.value)
    requires s.disk.tx.value.probeFailures == 0 || s.disk.tx.value.probeFailures >= PROBE_BUDGET
    ensures Apply(h, s, Watch(true)) == s.(pc := RbLocating(s.disk.tx.value, Watchdog))
  {
    hide Deadline;
  }

  /** And so does the third connection failure after the trial window. */
  lemma ThirdLateFailureRestores(h: Host, original: Bytes, s: State)
    requires Inv(h, original, s) && s.pc.Idle? && PendingOnDisk(s) && Backup in s.disk.files
    requires s.now >= s.disk.tx.value.at + h.trialWindow && s.disk.tx.value.probeFailures >= 2
    ensures var s' := Replay(h, s, [ConnectFailed(true), Op(Ok)] + FOUR_OK);
      RolledBackFrom(s, s') && Ends(s'.pc, ConnectEvent)
  {
    HasStateDir(h, original, s);
    CountsThirdFailure(h, s);
    hide Inv, Apply, Replay;
    OneEvent(h, s, ConnectFailed(true));
    ReplayNext(h, s, [ConnectFailed(true)], Op(Ok));
    assert [ConnectFailed(true)] + [Op(Ok)] == [ConnectFailed(true), Op(Ok)];
    NoDirectiveAllowed(h, s, [ConnectFailed(true), Op(Ok)]);
    EntersAndRestores(h, original, s, [ConnectFailed(true), Op(Ok)]);
  }

  lemma CountsThirdFailure(h: Host, s: State)
    requires s.pc.Idle? && h.hasStateDir && PendingOnDisk(s)
    requires s.now >= s.disk.tx.value.at + h.trialWindow && s.disk.tx.value.probeFailures >= PROBE_BUDGET - 1
    ensures var s' := Apply(h, Apply(h, s, ConnectFailed(true)), Op(Ok));
      && s'.pc.RbLocating? && s'.pc.who == ConnectEvent && s'.disk.files == s.disk.files && s'.hist.base == s.hist.base
      && s'.disk.tx.Some? && SameUpgrade(s.disk.tx.value, s'.disk.tx.value)
  {
    var tx := s.disk.tx.value.(probeFailures := s.disk.tx.value.probeFailures + 1);
    var s1 := Apply(h, s, ConnectFailed(true));
    assert s1.pc == CountingProbe(tx) && s1.disk == s.disk && s1.hist.base == s.hist.base;
  }

  /** A start that finds its third attempt goes as far as the renamed backup. */
  lemma RollBackToMark(h: Host, s: State) returns (s': State)
    requires s.pc.Starting? && h.hasStateDir && PendingOnDisk(s) && s.disk.tx.value.backupPath == Backup
    requires s.disk.tx.value.attempts == MAX_START_ATTEMPTS - 1 && Backup in s.disk.files
    ensures s' == Replay(h, s, FOUR_OK) && s'.disk.files == Renamed(s.disk.files, Backup, Exe)
  {
    hide Apply, Replay;
    FindsThirdAttempt(h, s);
    OneEvent(h, s, Op(Ok));
    s' := BackToMark(h, Replay(h, s, [Op(Ok)]));
    ReplayAppend(h, s, [Op(Ok)], [Op(Ok), Op(Ok), Op(Ok)]);
    assert [Op(Ok)] + [Op(Ok), Op(Ok), Op(Ok)] == FOUR_OK;
  }

  /**
    A rollback is entered only for a reason: the start check does so after at least three process
    starts found the transaction pending; the watchdog only when the trial window, measured from the
    clock at which the run recorded the transaction, is over and either no connection failure was
    counted since, or at least three were and their extensions are over too; a connection failure only
    when it is at least the third that counts (`OnlyLateFailuresCount`).
   */
  lemma NoPrematureRollback(h: Host, original: Bytes, s: State, e: Event)
    requires Inv(h, original, s) && Allowed(s, e)
    requires !s.pc.RbLocating? && Apply(h, s, e).pc.RbLocating?
    ensures JustifiedRollback(h, s, e)
  {
    hide Inv, Step, JustifiedRollback;
    match e
    case Op(o) =>
      StepSame(h, s, o);
      if s.pc.Starting? { StartIntoRollback(h, original, s, o); } else { ProbeIntoRollback(h, original, s, o); }
    case Watch(readable) => WatchIntoRollback(h, original, s, readable);
    case _ =>
  }

  predicate JustifiedRollback(h: Host, s: State, e: Event)
    requires Apply(h, s, e).pc.RbLocating?
  {
    var s' := Apply(h, s, e);
    var tx := s'.pc.tx;
    match s'.pc.who
    case AtStart => s.pc.Starting? && s'.hist.starts >= 3
    case Watchdog =>
      && e.Watch? && s.now >= s.hist.recordedAt + h.trialWindow
      && (tx.probeFailures == 0
          || (s.hist.lateFailures >= 3 && s.now >= s.hist.recordedAt + h.trialWindow + 3 * h.probeWindow))
    case ConnectEvent => s.pc.CountingProbe? && s.hist.lateFailures >= 3
  }

  /**
    The failures that count are late ones: the counter rises, and the counting of a probe is entered,
    only when a connection fails while the transaction is pending and its trial window is over. In
    every state of a run the window is that from the clock at which the transaction was recorded.
   */
  lemma OnlyLateFailuresCount(h: Host, original: Bytes, s: State, e: Event)
    requires Apply(h, s, e).hist.lateFailures > s.hist.lateFailures
      || (Apply(h, s, e).pc.CountingProbe? && !s.pc.CountingProbe?)
    ensures e.ConnectFailed? && s.pc.Idle? && PendingOnDisk(s) && s.now >= s.disk.tx.value.at + h.trialWindow
    ensures Inv(h, original, s) ==> s.now >= s.hist.recordedAt + h.trialWindow
    ensures Apply(h, s, e).hist.lateFailures == s.hist.lateFailures + 1
    ensures Apply(h, s, e).pc == CountingProbe(s.disk.tx.value.(probeFailures := s.disk.tx.value.probeFailures + 1))
  {
    hide Step, LogInv, SentInv, StartInv, PcInv, Good, Asked, Known;
    if e.Op? {
      StepSame(h, s, e.outcome);
    }
  }

  lemma StartIntoRollback(h: Host, original: Bytes, s: State, o: Outcome)
    requires Inv(h, original, s) && s.pc.Starting? && Apply(h, s, Op(o)).pc.RbLocating?
    ensures JustifiedRollback(h, s, Op(o))
  {
    hide LogInv, SentInv, StartInv, Good, Asked;
  }

  lemma ProbeIntoRollback(h: Host, original: Bytes, s: State, o: Outcome)
    requires Inv(h, original, s) && s.pc.CountingProbe? && Apply(h, s, Op(o)).pc.RbLocating?
    ensures JustifiedRollback(h, s, Op(o))
  {
    hide LogInv, SentInv, StartInv, Good, Asked;
  }

  lemma WatchIntoRollback(h: Host, original: Bytes, s: State, readable: bool)
    requires Inv(h, original, s) && !s.pc.RbLocating? && Apply(h, s, Watch(readable)).pc.RbLocating?
    ensures JustifiedRollback(h, s, Watch(readable))
  {
    hide LogInv, SentInv, StartInv, Good, Asked;
    var tx := s.disk.tx.value;
    assert tx.probeFailures >= PROBE_BUDGET ==> tx.probeFailures * h.probeWindow >= PROBE_BUDGET * h.probeWindow;
  }
}

/**
  When a directive is tried again (`inBackoff` in upgrade.go): over sequences of events, in terms of the
  clock, of the request ids, and of what was reported and stored.
 */
module UpgradeBackoff {
  import opened Options
  import opened UpgradeProtocol
  import opened UpgradeMachine
  import opened UpgradeInvariant
  import opened UpgradeTheorems
  import Text

  const TEN_MINUTES := 600_000_000_000

  // ----- the answers to a directive -----

  /** A run for `d` begins: it looks for the executable, or reports at once that the platform will not do. */
  predicate Begun(h: Host, s: State, d: Directive, s': State) {
    && s'.disk == s.disk && s'.now == s.now
    && (if h.goos == "" || h.goos == "linux" then s'.pc == Locating(d) && s'.mem == s.mem && s'.sent == s.sent
        else
          var refusal := Status(d.requestId, Failed, d.targetVersion, s.mem.version, None, Some(PlatformUnsupported));
          s'.sent == s.sent + [refusal])
  }

  predicate Ignored(s: State, s': State) {
    s'.disk == s.disk && s'.mem == s.mem && s'.sent == s.sent && s'.now == s.now && s'.pc == s.pc
  }

  /** The answer to `d` when the last attempt was for request `id` at clock `t`. */
  predicate AnswersAfter(h: Host, s: State, id: string, t: int, d: Directive) {
    var s' := Apply(h, s, Deliver(d));
    if d.targetVersion == s.mem.version || (d.requestId == id && s.now < t + TEN_MINUTES) then Ignored(s, s')
    else Begun(h, s, d, s')
  }

  /** The answer to `d` when no attempt is known. */
  predicate AnswersFresh(h: Host, s: State, d: Directive) {
    var s' := Apply(h, s, Deliver(d));
    if d.targetVersion == s.mem.version then Ignored(s, s') else Begun(h, s, d, s')
  }

  // ----- what ends an attempt -----

  function Sent(s: State, s': State): Option<Status> {
    if |s'.sent| > |s.sent| then Some(s'.sent[|s'.sent| - 1]) else None
  }

  /**
    The request for which event `e` ends an attempt: a run reports `failed` or replaces the executable,
    or the restored program reports `rolled_back`.
   */
  function Concluded(h: Host, s: State, e: Event): Option<string> {
    var s' := Apply(h, s, e);
    var st := Sent(s, s');
    if (InRun(s.pc) || e.Deliver?) && st.Some? && st.value.state == Failed then Some(st.value.requestId)
    else if s.pc.Swapping? && s'.pc.Marking? then Some(s.pc.d.requestId)
    else if e.Connected? && st.Some? then Some(st.value.requestId)
    else None
  }

  /** Where the record of an attempt waits to be written. */
  predicate Saving(pc: Pc) {
    pc.SavingAttempt? || pc.Marking? || pc.SavingReport?
  }

  /** What one event does to the knowledge of the last attempt, in memory and on disk. */
  predicate Remembers(h: Host, s: State, e: Event) {
    var s' := Apply(h, s, e);
    var id := Concluded(h, s, e);
    && (id.Some? ==>
          && Saving(s'.pc) && s'.mem.lastAttempt == Some(s'.pc.rec)
          && s'.pc.rec.requestId == id.value && s'.pc.rec.at == s.now)
    && (id.None? && !s'.pc.Starting? && !s.pc.LoadingAttempt? ==> s'.mem.lastAttempt == s.mem.lastAttempt)
    && s'.disk.attempt == (if Saving(s.pc) && e == Op(Ok) && h.hasStateDir then Some(s.pc.rec) else s.disk.attempt)
  }

  lemma FetchRemembers(h: Host, s: State, o: Outcome)
    requires FetchPc(s.pc) || CheckPc(s.pc)
    ensures Remembers(h, s, Op(o))
  {
    hide Step, InstallStep, FinishStep, StartStep, RollbackStep, ConnectionStep, CopyStep, Text.Contains;
    StepIsDownload(h, s, o);
  }

  lemma CopyRemembers(h: Host, s: State, o: Outcome)
    requires s.pc.Copying?
    ensures Remembers(h, s, Op(o))
  {
    hide Step, InstallStep, FinishStep, StartStep, RollbackStep, ConnectionStep, AfterRead, MeterAfter;
    StepIsDownload(h, s, o);
    if s.pc.meter.read <= Limit(s.pc.d) {
      ReadRemembers(s, s.pc.d, s.pc.meter, BytesRead(s.pc.d, s.pc.meter, o));
    }
  }

  lemma ReadRemembers(s: State, d: Directive, m: Meter, n: nat)
    ensures var s' := AfterRead(s, d, m, n);
      && s'.mem == s.mem && s'.disk == s.disk
      && (s'.sent == s.sent || (Sent(s, s').Some? && Sent(s, s').value.state == Downloading))
  {
    hide Reports, Percent;
  }

  lemma InstallRemembers(h: Host, s: State, o: Outcome)
    requires BackupPc(s.pc) || ReplacePc(s.pc)
    ensures Remembers(h, s, Op(o))
  {
    hide Step, DownloadStep, FinishStep, StartStep, RollbackStep, ConnectionStep;
    StepIsInstall(h, s, o);
  }

  lemma FinishRemembers(h: Host, s: State, o: Outcome)
    requires RestartPc(s.pc) || FailurePc(s.pc)
    ensures Remembers(h, s, Op(o))
  {
    hide Step, DownloadStep, InstallStep, StartStep, RollbackStep, ConnectionStep;
    StepIsFinish(h, s, o);
  }

  lemma StartRemembers(h: Host, s: State, o: Outcome)
    requires StartPc(s.pc)
    ensures Remembers(h, s, Op(o))
  {
    hide Step, DownloadStep, InstallStep, FinishStep, RollbackStep, ConnectionStep;
    StepIsStart(h, s, o);
  }

  lemma RollbackRemembers(h: Host, s: State, o: Outcome)
    requires LookPc(s.pc) || s.pc.RbClearing? || s.pc.RbRenaming? || s.pc.RbMarking?
    ensures Remembers(h, s, Op(o))
  {
    hide Step, DownloadStep, InstallStep, FinishStep, StartStep, ConnectionStep;
    StepIsRollback(h, s, o);
  }

  lemma ConnectionRemembers(h: Host, s: State, o: Outcome)
    requires ConnectionPc(s.pc)
    ensures Remembers(h, s, Op(o))
  {
    hide Step, DownloadStep, InstallStep, FinishStep, StartStep, RollbackStep;
    StepIsConnection(h, s, o);
  }

  lemma IdleRemembers(h: Host, s: State, o: Outcome)
    requires s.pc.Off? || s.pc.Idle?
    ensures Remembers(h, s, Op(o))
  {
    hide Step;
    IdleStep(h, s, o);
  }

  lemma EventRemembers(h: Host, s: State, e: Event)
    ensures Remembers(h, s, e)
  {
    hide Step;
    if e.Op? {
      hide Remembers;
      if FetchPc(s.pc) || CheckPc(s.pc) { FetchRemembers(h, s, e.outcome); }
      else if s.pc.Copying? { CopyRemembers(h, s, e.outcome); }
      else if BackupPc(s.pc) || ReplacePc(s.pc) { InstallRemembers(h, s, e.outcome); }
      else if RestartPc(s.pc) || FailurePc(s.pc) { FinishRemembers(h, s, e.outcome); }
      else if StartPc(s.pc) { StartRemembers(h, s, e.outcome); }
      else if ConnectionPc(s.pc) { ConnectionRemembers(h, s, e.outcome); }
      else if s.pc.Off? || s.pc.Idle? { IdleRemembers(h, s, e.outcome); }
      else { RollbackRemembers(h, s, e.outcome); }
    }
  }

  // ----- over sequences of events -----

  /** The process lives on, and no attempt ends. */
  predicate Rests(h: Host, s: State, es: seq<Event>) {
    forall k | 0 <= k < |es| :: RestsAt(h, Replay(h, s, es[..k]), es[k])
  }

  predicate RestsAt(h: Host, s: State, e: Event) {
    Concluded(h, s, e).None? && !Apply(h, s, e).pc.Starting? && !s.pc.LoadingAttempt?
  }

  lemma {:induction false} RestKeepsAttempt(h: Host, s: State, es: seq<Event>)
    requires Rests(h, s, es)
    ensures Replay(h, s, es).mem.lastAttempt == s.mem.lastAttempt
  {
    if es == [] {
      ReplayNone(h, s);
    } else {
      hide Replay, Apply, Concluded;
      var front := es[..|es| - 1];
      assert forall k | 0 <= k < |front| :: front[..k] == es[..k] && front[k] == es[k];
      RestKeepsAttempt(h, s, front);
      LastStep(h, s, es);
      EventRemembers(h, Replay(h, s, front), es[|es| - 1]);
    }
  }

  /** No record of an attempt is written. */
  predicate NothingSaved(h: Host, s: State, es: seq<Event>) {
    forall k | 0 <= k < |es| :: Saving(Replay(h, s, es[..k]).pc) ==> es[k] != Op(Ok)
  }

  lemma {:induction false} NothingSavedKeeps(h: Host, s: State, es: seq<Event>)
    requires NothingSaved(h, s, es)
    ensures Replay(h, s, es).disk.attempt == s.disk.attempt
  {
    if es == [] {
      ReplayNone(h, s);
    } else {
      hide Replay, Apply, Concluded;
      var front := es[..|es| - 1];
      assert forall k | 0 <= k < |front| :: front[..k] == es[..k] && front[k] == es[k];
      NothingSavedKeeps(h, s, front);
      LastStep(h, s, es);
      EventRemembers(h, Replay(h, s, front), es[|es| - 1]);
    }
  }

  lemma {:induction false} WaitKeepsPlace(h: Host, s: State, wait: seq<Event>)
    requires forall k :: 0 <= k < |wait| ==> wait[k].Elapse?
    ensures Replay(h, s, wait) == s.(now := Replay(h, s, wait).now)
  {
    if wait == [] {
      ReplayNone(h, s);
    } else {
      hide Replay;
      WaitKeepsPlace(h, s, wait[..|wait| - 1]);
      LastStep(h, s, wait);
    }
  }

  lemma Answer(h: Host, s: State, d: Directive)
    requires s.pc.Idle?
    ensures s.mem.lastAttempt.None? ==> AnswersFresh(h, s, d)
    ensures s.mem.lastAttempt.Some? ==>
      AnswersAfter(h, s, s.mem.lastAttempt.value.requestId, s.mem.lastAttempt.value.at, d)
  {
  }

  /**
    Once a run has reported `failed` or replaced the executable, or `rolled_back` has been reported, for
    request `id` at clock `t`: a directive for the same request is ignored until the clock reads `t` plus
    ten minutes, and so is one for the running version; every other directive begins a run, as does
    the same request from then on.
   */
  lemma RetryAfterAttempt(h: Host, s: State, e: Event, es: seq<Event>, d: Directive)
    requires Concluded(h, s, e).Some? && Rests(h, Apply(h, s, e), es)
    requires Replay(h, Apply(h, s, e), es).pc.Idle?
    ensures AnswersAfter(h, Replay(h, Apply(h, s, e), es), Concluded(h, s, e).value, s.now, d)
  {
    hide Apply, Replay, Rests, Concluded, AnswersAfter, AnswersFresh;
    EventRemembers(h, s, e);
    RestKeepsAttempt(h, Apply(h, s, e), es);
    Answer(h, Replay(h, Apply(h, s, e), es), d);
  }

  /**
    The same holds after any restarts, if the record of the attempt was written, no other was since, and
    the start could read it.
   */
  lemma RetryAfterRestart(h: Host, s: State, e: Event, wait: seq<Event>, es: seq<Event>, rest: seq<Event>, d: Directive)
    requires h.hasStateDir && Concluded(h, s, e).Some? && forall k :: 0 <= k < |wait| ==> wait[k].Elapse?
    requires var written := Apply(h, Replay(h, Apply(h, s, e), wait), Op(Ok));
      var loading := Replay(h, written, es);
      var loaded := Apply(h, loading, Op(Ok));
      && NothingSaved(h, written, es) && loading.pc.LoadingAttempt?
      && Rests(h, loaded, rest) && Replay(h, loaded, rest).pc.Idle?
    ensures var written := Apply(h, Replay(h, Apply(h, s, e), wait), Op(Ok));
      var loaded := Apply(h, Replay(h, written, es), Op(Ok));
      AnswersAfter(h, Replay(h, loaded, rest), Concluded(h, s, e).value, s.now, d)
  {
    hide Apply, Replay, Rests, NothingSaved, Concluded, AnswersAfter, AnswersFresh;
    var s1 := Apply(h, s, e);
    EventRemembers(h, s, e);
    WaitKeepsPlace(h, s1, wait);
    var s2 := Replay(h, s1, wait);
    EventRemembers(h, s2, Op(Ok));
    var written := Apply(h, s2, Op(Ok));
    NothingSavedKeeps(h, written, es);
    var loading := Replay(h, written, es);
    Loads(h, loading, Ok);
    RestKeepsAttempt(h, Apply(h, loading, Op(Ok)), rest);
    Answer(h, Replay(h, Apply(h, loading, Op(Ok)), rest), d);
  }

  lemma Loads(h: Host, s: State, o: Outcome)
    requires s.pc.LoadingAttempt?
    ensures Apply(h, s, Op(o)).mem.lastAttempt == if h.hasStateDir && o == Ok then s.disk.attempt else None
  {
  }

  /**
    A start that finds no record, or cannot read it, has no back-off: every directive but for its own
    version begins a run.
   */
  lemma NoRecordNoBackoff(h: Host, s: State, o: Outcome, rest: seq<Event>, d: Directive)
    requires s.pc.LoadingAttempt? && (!h.hasStateDir || o != Ok || s.disk.attempt.None?)
    requires Rests(h, Apply(h, s, Op(o)), rest) && Replay(h, Apply(h, s, Op(o)), rest).pc.Idle?
    ensures AnswersFresh(h, Replay(h, Apply(h, s, Op(o)), rest), d)
  {
    hide Apply, Replay, Rests, Concluded, AnswersAfter, AnswersFresh;
    Loads(h, s, o);
    RestKeepsAttempt(h, Apply(h, s, Op(o)), rest);
    Answer(h, Replay(h, Apply(h, s, Op(o)), rest), d);
  }
}

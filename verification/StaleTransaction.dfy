/**
  The exact condition on what a run may find on disk. If no transaction is pending, nothing that can
  happen afterwards harms the executable; over a pending one the program can be lost. Nothing in the
  runtime checks it; the connection layer brings it about by confirming before it hands over a
  directive, provided that the clearing succeeds. The marker of an earlier rollback does no harm.
 */
module StaleTransaction {
  import opened Options
  import opened UpgradeProtocol
  import opened UpgradeMachine
  import opened UpgradeInvariant
  import opened UpgradeTheorems
  import Text

  /** No directive arrives. */
  predicate NoDelivery(es: seq<Event>) {
    forall i :: 0 <= i < |es| ==> !es[i].Deliver?
  }

  /** One event more. */
  lemma Then(h: Host, s: State, es: seq<Event>, e: Event) returns (es': seq<Event>)
    requires NoDelivery(es) && !e.Deliver?
    ensures NoDelivery(es') && Replay(h, s, es') == Apply(h, Replay(h, s, es), e)
  {
    es' := es + [e];
    ReplayNext(h, s, es, e);
  }

  /** A delay after which no name of a download is taken. */
  lemma FreeName(paths: set<Path>, now: int) returns (time: nat)
    ensures forall p :: p in paths && p.Temp? ==> p.stamp < now + time
    decreases |paths|
  {
    if paths == {} {
      time := 0;
    } else {
      var q :| q in paths;
      time := FreeName(paths - {q}, now);
      if q.Temp? && q.stamp >= now + time {
        time := q.stamp - now + 1;
      }
      assert forall p :: p in paths ==> p == q || p in paths - {q};
    }
  }

  /** A whole download and its checks, up to the opened and truncated backup. */
  lemma RunOpensBackup(h: Host, s: State, d: Directive, b: Bytes) returns (es: seq<Event>)
    requires s.pc == Locating(d) && Exe in s.disk.files && Vetted(h, d, b) && d.sizeBytes > 0
    ensures NoDelivery(es)
    ensures var s' := Replay(h, s, es);
      && s'.pc.CopyingBackup? && s'.disk.tx == s.disk.tx
      && Exe in s'.disk.files && Backup in s'.disk.files && s'.disk.files[Backup] == []
  {
    hide Replay, Apply;
    var tmp;
    es, tmp := RunCopies(h, s, d, b);
    es := RunChecks(h, s, es, d, tmp, b);
  }

  lemma RunCopies(h: Host, s: State, d: Directive, b: Bytes) returns (es: seq<Event>, tmp: Path)
    requires s.pc == Locating(d) && Vetted(h, d, b) && d.sizeBytes > 0
    ensures NoDelivery(es) && tmp.Temp?
    ensures var s' := Replay(h, s, es);
      && s'.pc.Copying? && s'.pc.d == d && s'.pc.tmp == tmp && s'.pc.meter.read == |b|
      && s'.disk == s.disk.(files := s.disk.files[tmp := b])
  {
    var time := FreeName(s.disk.files.Keys, s.now);
    tmp := Temp(s.now + time);
    ReplayNone(h, s);
    Waits(h, s, time);
    hide Apply, Replay;
    var s1 := Apply(h, s, Elapse(time));
    es := Then(h, s, [], Elapse(time));
    Fetches(h, s1, d, tmp);
    es := Then(h, s, es, Op(Ok));
    es := Then(h, s, es, Op(Ok));
    es := Then(h, s, es, Op(Ok));
    CopiesAll(h, Replay(h, s, es), d, tmp, b);
    es := Then(h, s, es, Op(Data(b)));
    assert s.disk.files[tmp := []][tmp := b] == s.disk.files[tmp := b];
  }

  lemma Waits(h: Host, s: State, time: nat)
    ensures Apply(h, s, Elapse(time)) == s.(now := s.now + time)
  {
  }

  lemma Fetches(h: Host, s: State, d: Directive, tmp: Path)
    requires s.pc == Locating(d) && tmp == Temp(s.now) && tmp !in s.disk.files
    ensures var s' := Apply(h, Apply(h, Apply(h, s, Op(Ok)), Op(Ok)), Op(Ok));
      s'.pc == Copying(d, tmp, Meter(0, 0, None)) && s'.disk == s.disk.(files := s.disk.files[tmp := []])
  {
    var s1 := Apply(h, s, Op(Ok));
    assert s1.pc == Fetching(d, tmp) && s1.disk == s.disk;
    var s2 := Apply(h, s1, Op(Ok));
    assert s2.pc == Creating(d, tmp) && s2.disk == s.disk;
  }

  lemma CopiesAll(h: Host, s: State, d: Directive, tmp: Path, b: Bytes)
    requires s.pc == Copying(d, tmp, Meter(0, 0, None)) && tmp in s.disk.files && s.disk.files[tmp] == []
    requires |b| == d.sizeBytes && |b| <= DOWNLOAD_CAP && d.sizeBytes > 0
    ensures var s' := Apply(h, s, Op(Data(b)));
      && s'.pc.Copying? && s'.pc.d == d && s'.pc.tmp == tmp && s'.pc.meter.read == |b|
      && s'.disk == s.disk.(files := s.disk.files[tmp := b])
  {
    hide Reports, Percent;
    assert Upto(b, Limit(d) + 1) == b && [] + b == b;
  }

  lemma RunChecks(h: Host, s: State, before: seq<Event>, d: Directive, tmp: Path, b: Bytes) returns (es: seq<Event>)
    requires NoDelivery(before) && tmp.Temp? && Vetted(h, d, b) && d.sizeBytes > 0
    requires var s1 := Replay(h, s, before);
      && s1.pc.Copying? && s1.pc.d == d && s1.pc.tmp == tmp && s1.pc.meter.read == |b|
      && tmp in s1.disk.files && s1.disk.files[tmp] == b
    ensures NoDelivery(es)
    ensures var s1, s' := Replay(h, s, before), Replay(h, s, es);
      s'.pc.CopyingBackup? && s'.disk == s1.disk.(files := s1.disk.files[Backup := []])
  {
    hide Apply, Replay, Vetted;
    VettedIsChecked(h, d, b);
    EndsCopy(h, Replay(h, s, before), d, tmp);
    es := Then(h, s, before, Op(Eof));
    Checks(h, Replay(h, s, es), d, tmp, b);
    es := Then(h, s, es, Op(Ok));
    Smokes(h, Replay(h, s, es), d, tmp, b);
    es := Then(h, s, es, Op(Ok));
    es := Then(h, s, es, Op(Ok));
    Truncates(h, Replay(h, s, es), d, tmp);
    es := Then(h, s, es, Op(Ok));
  }

  lemma VettedIsChecked(h: Host, d: Directive, b: Bytes)
    requires Vetted(h, d, b)
    ensures Checked(h, d, b)
  {
  }

  lemma EndsCopy(h: Host, s: State, d: Directive, tmp: Path)
    requires s.pc.Copying? && s.pc.d == d && s.pc.tmp == tmp
    ensures var s' := Apply(h, s, Op(Eof));
      s'.pc == Closing(d, tmp, s.pc.meter.read) && s'.disk == s.disk
  {
    hide Reports, Percent;
  }

  lemma Checks(h: Host, s: State, d: Directive, tmp: Path, b: Bytes)
    requires s.pc == Closing(d, tmp, |b|) && tmp in s.disk.files && s.disk.files[tmp] == b && Checked(h, d, b)
      && d.sizeBytes > 0
    ensures var s' := Apply(h, s, Op(Ok));
      s'.pc == Chmodding(d, tmp) && s'.disk == s.disk
  {
    hide Text.ToLower;
  }

  lemma Smokes(h: Host, s: State, d: Directive, tmp: Path, b: Bytes)
    requires s.pc == Chmodding(d, tmp) && tmp in s.disk.files && s.disk.files[tmp] == b && Vetted(h, d, b)
    ensures var s' := Apply(h, Apply(h, s, Op(Ok)), Op(Ok));
      s'.pc == OpeningBackup(d, tmp) && s'.disk == s.disk
  {
    hide Text.Contains, Checked;
    var s1 := Apply(h, s, Op(Ok));
    assert s1.pc == Smoking(d, tmp) && s1.disk == s.disk;
  }

  lemma Truncates(h: Host, s: State, d: Directive, tmp: Path)
    requires s.pc == OpeningBackup(d, tmp)
    ensures var s' := Apply(h, s, Op(Ok));
      s'.pc.CopyingBackup? && s'.disk == s.disk.(files := s.disk.files[Backup := []])
  {
  }

  lemma DiesAndBoots(h: Host, s: State)
    requires !s.pc.Off? && Exe in s.disk.files
    ensures var s' := Apply(h, Apply(h, s, Crash), Boot);
      s'.pc == Starting && s'.disk == s.disk
  {
  }

  /** A start that finds its first or second attempt counts it. */
  lemma CountsStart(h: Host, s: State)
    requires s.pc.Starting? && h.hasStateDir && PendingOnDisk(s) && s.disk.tx.value.attempts < MAX_START_ATTEMPTS - 1
    ensures var s' := Apply(h, Apply(h, s, Op(Ok)), Op(Ok));
      && s'.pc.LoadingAttempt?
      && s'.disk == s.disk.(tx := Some(s.disk.tx.value.(attempts := s.disk.tx.value.attempts + 1)))
  {
  }

  /** Crashes and starts until the third start renames the truncated backup over the executable. */
  lemma {:induction false} StartsLoseProgram(h: Host, s: State) returns (es: seq<Event>)
    requires !s.pc.Off? && h.hasStateDir && PendingOnDisk(s) && s.disk.tx.value.backupPath == Backup
    requires s.disk.tx.value.attempts < MAX_START_ATTEMPTS
    requires Exe in s.disk.files && Backup in s.disk.files && s.disk.files[Backup] == []
    ensures NoDelivery(es)
    ensures var files := Replay(h, s, es).disk.files; Exe in files && files[Exe] == []
    decreases MAX_START_ATTEMPTS - s.disk.tx.value.attempts
  {
    hide Apply, Replay;
    ReplayNone(h, s);
    DiesAndBoots(h, s);
    es := Then(h, s, [], Crash);
    es := Then(h, s, es, Boot);
    var s2 := Replay(h, s, es);
    var more;
    if s.disk.tx.value.attempts == MAX_START_ATTEMPTS - 1 {
      var s6 := RollBackToMark(h, s2);
      more := FOUR_OK;
    } else {
      CountsStart(h, s2);
      es := Then(h, s, es, Op(Ok));
      es := Then(h, s, es, Op(Ok));
      more := StartsLoseProgram(h, Replay(h, s, es));
    }
    ReplayAppend(h, s, es, more);
    es := es + more;
  }

  /**
    If a run starts over a pending transaction, there is a course of events, without any fault of an
    operation, that ends with an empty file at the executable path: the process dies while the run
    copies the backup, and again at every start until the third rolls back to what was copied.
   */
  lemma StaleTransactionIsHarmful(h: Host, s: State, d: Directive, b: Bytes) returns (es: seq<Event>)
    requires StartsRun(s, d) && Exe in s.disk.files && (h.goos == "" || h.goos == "linux")
    requires Vetted(h, d, b) && d.sizeBytes > 0
    requires h.hasStateDir && PendingOnDisk(s) && s.disk.tx.value.backupPath == Backup
    requires s.disk.tx.value.attempts < MAX_START_ATTEMPTS
    ensures NoDelivery(es)
    ensures var files := Replay(h, Apply(h, s, Deliver(d)), es).disk.files; Exe in files && files[Exe] == []
  {
    Begins(h, s, d);
    hide Apply, Replay, Vetted, StartsRun;
    var s1 := Apply(h, s, Deliver(d));
    es := RunOpensBackup(h, s1, d, b);
    var more := StartsLoseProgram(h, Replay(h, s1, es));
    ReplayAppend(h, s1, es, more);
    es := es + more;
  }

  lemma Begins(h: Host, s: State, d: Directive)
    requires StartsRun(s, d) && Exe in s.disk.files && (h.goos == "" || h.goos == "linux")
    ensures var s' := Apply(h, s, Deliver(d));
      s'.pc == Locating(d) && s'.disk == s.disk && s'.hist.issued == s.hist.issued + {d}
  {
  }

  // ----- the exact condition -----

  /** The executable is the first program or a vetted download. */
  ghost predicate Intact(h: Host, program: Bytes, s: State) {
    Exe in s.disk.files && Good(h, program, s.hist.issued, s.disk.files[Exe])
  }

  ghost predicate StaysIntact(h: Host, program: Bytes, s: State) {
    forall es :: AllowedRun(h, s, es) ==> Intact(h, program, Replay(h, s, es))
  }

  lemma {:induction false} NothingIssued(h: Host, s: State, es: seq<Event>)
    requires NoDelivery(es)
    ensures Replay(h, s, es).hist.issued == s.hist.issued
  {
    if es == [] {
      ReplayNone(h, s);
    } else {
      hide Apply, Replay;
      var front := es[..|es| - 1];
      NothingIssued(h, s, front);
      LastStep(h, s, es);
      IssuedBy(h, Replay(h, s, front), es[|es| - 1]);
    }
  }

  /** An empty file is no vetted download of a directive that announces a size. */
  lemma EmptyIsNotGood(h: Host, program: Bytes, issued: set<Directive>)
    requires program != [] && forall d :: d in issued ==> d.sizeBytes > 0
    ensures !Good(h, program, issued, [])
  {
    forall d | d in issued ensures !Vetted(h, d, []) {
    }
  }

  /** No pending transaction is enough, for every directive and in every state. */
  lemma NoPendingTransactionIsEnough(h: Host, program: Bytes, s: State, d: Directive)
    requires Inv(h, program, s) && !PendingOnDisk(s)
    ensures StaysIntact(h, program, Apply(h, s, Deliver(d)))
  {
    var s1 := Apply(h, s, Deliver(d));
    ApplyKeepsInv(h, program, s, Deliver(d));
    forall es | AllowedRun(h, s1, es) ensures Intact(h, program, Replay(h, s1, es)) {
      IntactAfter(h, program, s1, es);
    }
  }

  lemma IntactAfter(h: Host, program: Bytes, s: State, es: seq<Event>)
    requires Inv(h, program, s) && AllowedRun(h, s, es)
    ensures Intact(h, program, Replay(h, s, es))
  {
    hide Replay, AllowedRun, Good, LogInv, SentInv, PcInv, StartInv;
    InvKept(h, program, s, es);
  }

  /**
    And it is needed: the executable stays intact in whatever follows the start of a run if and only if
    no transaction is pending. What the harm takes is a directive for which a vetted program exists, on
    a platform that can be upgraded, and that no directive so far has announced an empty file.
   */
  lemma NoPendingTransactionIsExact(h: Host, program: Bytes, s: State, d: Directive, b: Bytes)
    requires Inv(h, program, s) && StartsRun(s, d) && Vetted(h, d, b)
    requires program != [] && (h.goos == "" || h.goos == "linux")
    requires forall d' :: d' in s.hist.issued + {d} ==> d'.sizeBytes > 0
    ensures !PendingOnDisk(s) <==> StaysIntact(h, program, Apply(h, s, Deliver(d)))
  {
    if PendingOnDisk(s) {
      var es := PendingCanHarm(h, program, s, d, b);
    } else {
      NoPendingTransactionIsEnough(h, program, s, d);
    }
  }

  lemma PendingCanHarm(h: Host, program: Bytes, s: State, d: Directive, b: Bytes) returns (es: seq<Event>)
    requires Inv(h, program, s) && StartsRun(s, d) && Vetted(h, d, b) && PendingOnDisk(s)
    requires program != [] && (h.goos == "" || h.goos == "linux")
    requires forall d' :: d' in s.hist.issued + {d} ==> d'.sizeBytes > 0
    ensures var s1 := Apply(h, s, Deliver(d)); AllowedRun(h, s1, es) && !Intact(h, program, Replay(h, s1, es))
  {
    hide Replay, Apply, Vetted, StartsRun, Good, LogInv, SentInv, PcInv, StartInv;
    assert d in s.hist.issued + {d};
    es := StaleTransactionIsHarmful(h, s, d, b);
    Begins(h, s, d);
    var s1 := Apply(h, s, Deliver(d));
    NothingIssued(h, s1, es);
    EmptyIsNotGood(h, program, s1.hist.issued);
  }
}

/**
  The bounded queue of samples between the sampler and the connection
  (uni_agent/internal/transport/client.go). `Send` is three non-blocking channel operations, and any
  number of calls may run at once, together with the drain of the write loop. A state holds the
  channel and the place every call has reached; an event is one channel operation.
 */
module Outbox {
  import opened Options

  const OUTBOX_CAP := 30
  const WORD: nat := 0x1_0000_0000_0000_0000

  /** Where a call of `Send` is; `s` is its sample, `CountEvicted` has taken an old one out. */
  datatype Call<T> = TryPush(s: T) | Evict(s: T) | CountEvicted(s: T) | Retry(s: T) | CountLost(s: T) | Returned

  /** How a sample left the queue. */
  datatype Exit<T> = Sent(x: T) | Evicted(x: T)

  /** `queue`, `dropCount` and `calls` are the program; the rest records what happened. */
  datatype State<T> = State(
    queue: seq<T>, dropCount: nat, calls: seq<Call<T>>,
    offered: seq<T>, pushed: seq<T>, exits: seq<Exit<T>>, lost: seq<T>)

  /** `Act(i)` is the next operation of call `i`; `Take` one receive of the drain. */
  datatype Event<T> = Offer(s: Option<T>) | Act(i: nat) | Take

  function Empty<T>(): State<T> {
    State([], 0, [], [], [], [], [])
  }

  function Push<T>(s: State<T>, x: T): State<T> {
    s.(queue := s.queue + [x], pushed := s.pushed + [x])
  }

  function Pop<T>(s: State<T>, how: Exit<T>): State<T>
    requires |s.queue| > 0
  {
    s.(queue := s.queue[1..], exits := s.exits + [how])
  }

  function Count<T>(s: State<T>): State<T> {
    s.(dropCount := (s.dropCount + 1) % WORD)
  }

  function At<T>(s: State<T>, i: nat, c: Call<T>): State<T>
    requires i < |s.calls|
  {
    s.(calls := s.calls[i := c])
  }

  function Act1<T>(s: State<T>, i: nat): State<T>
    requires i < |s.calls|
  {
    match s.calls[i]
    case TryPush(x) => if |s.queue| < OUTBOX_CAP then At(Push(s, x), i, Returned) else At(s, i, Evict(x))
    case Evict(x) => if |s.queue| > 0 then At(Pop(s, Evicted(s.queue[0])), i, CountEvicted(x)) else At(s, i, Retry(x))
    case CountEvicted(x) => At(Count(s), i, Retry(x))
    case Retry(x) => if |s.queue| < OUTBOX_CAP then At(Push(s, x), i, Returned) else At(s, i, CountLost(x))
    case CountLost(x) => At(Count(s).(lost := s.lost + [x]), i, Returned)
    case Returned => s
  }

  function Apply<T>(s: State<T>, e: Event<T>): State<T> {
    match e
    case Offer(None) => s
    case Offer(Some(x)) => s.(calls := s.calls + [TryPush(x)], offered := s.offered + [x])
    case Act(i) => if i < |s.calls| then Act1(s, i) else s
    case Take => if |s.queue| > 0 then Pop(s, Sent(s.queue[0])) else s
  }

  function Replay<T>(es: seq<Event<T>>): State<T> {
    if es == [] then Empty() else Apply(Replay(es[..|es| - 1]), es[|es| - 1])
  }

  /** No call of `Send` is in progress. */
  predicate Quiet<T>(s: State<T>) {
    forall i :: 0 <= i < |s.calls| ==> s.calls[i].Returned?
  }

  // ----- what has become of the samples -----

  function Exited<T>(exits: seq<Exit<T>>): (r: seq<T>)
    ensures |r| == |exits|
  {
    seq(|exits|, i requires 0 <= i < |exits| => exits[i].x)
  }

  /** The samples the drain has taken, in order. */
  function Taken<T>(exits: seq<Exit<T>>): seq<T> {
    if exits == [] then []
    else Taken(exits[..|exits| - 1]) + (if exits[|exits| - 1].Sent? then [exits[|exits| - 1].x] else [])
  }

  /** The samples that made room for newer ones. */
  function Dropped<T>(exits: seq<Exit<T>>): seq<T> {
    if exits == [] then []
    else Dropped(exits[..|exits| - 1]) + (if exits[|exits| - 1].Evicted? then [exits[|exits| - 1].x] else [])
  }

  function Occurs<T(==)>(a: seq<T>, x: T): nat {
    if a == [] then 0 else Occurs(a[..|a| - 1], x) + if a[|a| - 1] == x then 1 else 0
  }

  lemma {:induction false} OccursInMultiset<T>(a: seq<T>, x: T)
    ensures Occurs(a, x) == multiset(a)[x]
  {
    if a != [] {
      OccursInMultiset(a[..|a| - 1], x);
      assert a == a[..|a| - 1] + [a[|a| - 1]];
    }
  }

  predicate Carries<T(==)>(c: Call<T>, x: T) {
    !c.Returned? && c.s == x
  }

  /** Calls that carry the sample `x`. */
  function InFlight<T(==)>(calls: seq<Call<T>>, x: T): nat {
    if calls == [] then 0 else InFlight(calls[..|calls| - 1], x) + if Carries(calls[|calls| - 1], x) then 1 else 0
  }

  /** Calls that have evicted a sample and not counted it yet. */
  function Owed<T>(calls: seq<Call<T>>): nat {
    if calls == [] then 0 else Owed(calls[..|calls| - 1]) + if calls[|calls| - 1].CountEvicted? then 1 else 0
  }

  lemma {:induction false} ExitAppend<T>(exits: seq<Exit<T>>, e: Exit<T>)
    ensures Exited(exits + [e]) == Exited(exits) + [e.x]
    ensures Taken(exits + [e]) == Taken(exits) + if e.Sent? then [e.x] else []
    ensures Dropped(exits + [e]) == Dropped(exits) + if e.Sent? then [] else [e.x]
  {
    assert (exits + [e])[..|exits|] == exits;
  }

  /** A sample handed to the connection, and whether the write succeeded. */
  datatype Written<+T> = Written(x: T, ok: bool)

  function Samples<T>(ws: seq<Written<T>>): (r: seq<T>)
    ensures |r| == |ws|
  {
    seq(|ws|, i requires 0 <= i < |ws| => ws[i].x)
  }

  predicate AllOk<T>(ws: seq<Written<T>>) {
    forall i :: 0 <= i < |ws| ==> ws[i].ok
  }

  lemma SamplesAppend<T>(ws: seq<Written<T>>, w: Written<T>)
    ensures Samples(ws + [w]) == Samples(ws) + [w.x]
  {
  }

  lemma TakeTakes<T>(s: State<T>, x: T)
    requires s.queue != [] && s.queue[0] == x
    ensures Taken(Apply(s, Take).exits) == Taken(s.exits) + [x]
  {
    ExitAppend(s.exits, Sent(x));
  }

  /** Only the drain takes. */
  lemma OthersTakeNothing<T>(s: State<T>, e: Event<T>)
    requires !e.Take?
    ensures Taken(Apply(s, e).exits) == Taken(s.exits)
  {
    if s.queue != [] {
      ExitAppend(s.exits, Evicted(s.queue[0]));
    }
  }

  lemma {:induction false} InFlightUpdate<T>(calls: seq<Call<T>>, i: nat, c: Call<T>, x: T)
    requires i < |calls|
    ensures InFlight(calls[i := c], x) + (if Carries(calls[i], x) then 1 else 0) == InFlight(calls, x)
      + if Carries(c, x) then 1 else 0
  {
    var n := |calls| - 1;
    if i == n {
      assert calls[i := c][..n] == calls[..n];
    } else {
      InFlightUpdate(calls[..n], i, c, x);
      assert calls[i := c][..n] == calls[..n][i := c];
    }
  }

  lemma {:induction false} OwedUpdate<T>(calls: seq<Call<T>>, i: nat, c: Call<T>)
    requires i < |calls|
    ensures Owed(calls[i := c]) + (if calls[i].CountEvicted? then 1 else 0) == Owed(calls)
      + if c.CountEvicted? then 1 else 0
  {
    var n := |calls| - 1;
    if i == n {
      assert calls[i := c][..n] == calls[..n];
    } else {
      OwedUpdate(calls[..n], i, c);
      assert calls[i := c][..n] == calls[..n][i := c];
    }
  }

  lemma {:induction false} CallsAppend<T>(calls: seq<Call<T>>, y: T, x: T)
    ensures InFlight(calls + [TryPush(y)], x) == InFlight(calls, x) + if x == y then 1 else 0
    ensures Owed(calls + [TryPush(y)]) == Owed(calls)
  {
    assert (calls + [TryPush(y)])[..|calls|] == calls;
  }

  lemma {:induction false} QuietCalls<T>(calls: seq<Call<T>>, x: T)
    requires forall i :: 0 <= i < |calls| ==> calls[i].Returned?
    ensures InFlight(calls, x) == 0
  {
    if calls != [] {
      QuietCalls(calls[..|calls| - 1], x);
    }
  }

  lemma {:induction false} QuietOwesNothing<T>(calls: seq<Call<T>>)
    requires forall i :: 0 <= i < |calls| ==> calls[i].Returned?
    ensures Owed(calls) == 0
  {
    if calls != [] {
      QuietOwesNothing(calls[..|calls| - 1]);
    }
  }

  // ----- accounting under every interleaving -----

  /** As often as `x` was offered, it is somewhere. */
  predicate Conserved<T(==)>(s: State<T>, x: T) {
    Occurs(s.offered, x)
      == Occurs(Taken(s.exits), x) + Occurs(s.queue, x) + Occurs(Dropped(s.exits), x) + Occurs(s.lost, x)
        + InFlight(s.calls, x)
  }

  /** Every loss is counted or about to be, and the queue is bounded and in order. */
  predicate Accounted<T(==)>(s: State<T>) {
    && |s.queue| <= OUTBOX_CAP
    && Owed(s.calls) <= |Dropped(s.exits)|
    && s.dropCount == (|Dropped(s.exits)| - Owed(s.calls) + |s.lost|) % WORD
    && s.pushed == Exited(s.exits) + s.queue
  }

  lemma {:induction false} OccursAppend<T>(a: seq<T>, y: T, x: T)
    ensures Occurs(a + [y], x) == Occurs(a, x) + if y == x then 1 else 0
  {
    assert (a + [y])[..|a|] == a;
  }

  lemma {:induction false} OccursTail<T>(a: seq<T>, x: T)
    requires a != []
    ensures Occurs(a, x) == Occurs(a[1..], x) + if a[0] == x then 1 else 0
  {
    if |a| > 1 {
      OccursTail(a[..|a| - 1], x);
      assert a[..|a| - 1][1..] == a[1..][..|a| - 2];
    }
  }

  lemma PushConserves<T>(s: State<T>, i: nat, y: T, x: T)
    requires Conserved(s, x) && i < |s.calls| && !s.calls[i].Returned? && s.calls[i].s == y
    ensures Conserved(At(Push(s, y), i, Returned), x)
  {
    hide Occurs, InFlight;
    OccursAppend(s.queue, y, x);
    InFlightUpdate(s.calls, i, Returned, x);
  }

  lemma PopConserves<T>(s: State<T>, how: Exit<T>, x: T)
    requires Conserved(s, x) && |s.queue| > 0 && how.x == s.queue[0]
    ensures Conserved(Pop(s, how), x)
  {
    hide Occurs, InFlight, Taken, Dropped;
    ExitAppend(s.exits, how);
    OccursTail(s.queue, x);
    OccursAppend(Taken(s.exits), how.x, x);
    OccursAppend(Dropped(s.exits), how.x, x);
    assert Taken(s.exits) + [] == Taken(s.exits) && Dropped(s.exits) + [] == Dropped(s.exits);
  }

  lemma LoseConserves<T>(s: State<T>, i: nat, y: T, x: T)
    requires Conserved(s, x) && i < |s.calls| && s.calls[i] == CountLost(y)
    ensures Conserved(At(Count(s).(lost := s.lost + [y]), i, Returned), x)
  {
    hide Occurs, InFlight;
    OccursAppend(s.lost, y, x);
    InFlightUpdate(s.calls, i, Returned, x);
  }

  lemma ActConserves<T>(s: State<T>, i: nat, x: T)
    requires Conserved(s, x) && i < |s.calls|
    ensures Conserved(Act1(s, i), x)
  {
    hide Occurs, InFlight, Taken, Dropped;
    var s' := Act1(s, i);
    match s.calls[i]
    case TryPush(y) =>
      if |s.queue| < OUTBOX_CAP { PushConserves(s, i, y, x); } else { InFlightUpdate(s.calls, i, Evict(y), x); }
    case Evict(y) =>
      if |s.queue| > 0 {
        PopConserves(s, Evicted(s.queue[0]), x);
        InFlightUpdate(s.calls, i, CountEvicted(y), x);
      } else {
        InFlightUpdate(s.calls, i, Retry(y), x);
      }
    case CountEvicted(y) => InFlightUpdate(s.calls, i, Retry(y), x);
    case Retry(y) =>
      if |s.queue| < OUTBOX_CAP { PushConserves(s, i, y, x); } else { InFlightUpdate(s.calls, i, CountLost(y), x); }
    case CountLost(y) => LoseConserves(s, i, y, x);
    case Returned =>
  }

  lemma ApplyConserves<T>(s: State<T>, e: Event<T>, x: T)
    requires Conserved(s, x)
    ensures Conserved(Apply(s, e), x)
  {
    hide Occurs, InFlight, Taken, Dropped, Act1;
    match e
    case Offer(None) =>
    case Offer(Some(y)) =>
      CallsAppend(s.calls, y, x);
      OccursAppend(s.offered, y, x);
    case Act(i) => if i < |s.calls| { ActConserves(s, i, x); }
    case Take => if |s.queue| > 0 { PopConserves(s, Sent(s.queue[0]), x); }
  }

  lemma CountOne(n: nat)
    ensures (n % WORD + 1) % WORD == (n + 1) % WORD
  {
  }

  lemma PopAccounted<T>(s: State<T>, how: Exit<T>)
    requires |s.queue| > 0 && how.x == s.queue[0]
    ensures var s' := Pop(s, how);
      && Exited(s'.exits) + s'.queue == Exited(s.exits) + s.queue
      && |Dropped(s'.exits)| == |Dropped(s.exits)| + if how.Sent? then 0 else 1
  {
    hide Taken, Dropped, Exited;
    ExitAppend(s.exits, how);
    assert s.queue == [s.queue[0]] + s.queue[1..];
  }

  lemma ActAccounted<T>(s: State<T>, i: nat)
    requires Accounted(s) && i < |s.calls|
    ensures Accounted(Act1(s, i))
  {
    hide Taken, Dropped, Exited, Owed;
    OwedUpdate(s.calls, i, Act1(s, i).calls[i]);
    CountOne(|Dropped(s.exits)| - Owed(s.calls) + |s.lost|);
    if s.calls[i].Evict? && |s.queue| > 0 {
      PopAccounted(s, Evicted(s.queue[0]));
    }
  }

  lemma ApplyAccounted<T>(s: State<T>, e: Event<T>)
    requires Accounted(s)
    ensures Accounted(Apply(s, e))
  {
    hide Taken, Dropped, Exited, Owed, Act1;
    match e
    case Offer(None) =>
    case Offer(Some(y)) => CallsAppend(s.calls, y, y);
    case Act(i) => if i < |s.calls| { ActAccounted(s, i); }
    case Take => if |s.queue| > 0 { PopAccounted(s, Sent(s.queue[0])); }
  }

  lemma {:induction false} AlwaysAccounted<T(!new)>(es: seq<Event<T>>)
    ensures Accounted(Replay(es))
    ensures forall x :: Conserved(Replay(es), x)
  {
    if es != [] {
      var s := Replay(es[..|es| - 1]);
      AlwaysAccounted(es[..|es| - 1]);
      ApplyAccounted(s, es[|es| - 1]);
      forall x ensures Conserved(Replay(es), x) {
        ApplyConserves(s, es[|es| - 1], x);
      }
    }
  }

  /**
    Whatever the interleaving: the queue never exceeds its capacity, and whenever no `Send` is in
    progress every sample offered was taken, is pending, or is counted as dropped, each exactly once.
   */
  lemma Accounting<T(!new)>(es: seq<Event<T>>)
    ensures var s := Replay(es);
      && |s.queue| <= OUTBOX_CAP
      && (Quiet(s) ==>
          && multiset(s.offered)
             == multiset(Taken(s.exits)) + multiset(s.queue) + multiset(Dropped(s.exits)) + multiset(s.lost)
          && |s.offered| == |Taken(s.exits)| + |s.queue| + |Dropped(s.exits)| + |s.lost|
          && s.dropCount == (|s.offered| - |Taken(s.exits)| - |s.queue|) % WORD)
  {
    AlwaysAccounted(es);
    hide Occurs, InFlight, Taken, Dropped, Exited, Owed, Replay;
    var s := Replay(es);
    if Quiet(s) {
      QuietOwesNothing(s.calls);
      forall x ensures InFlight(s.calls, x) == 0 {
        QuietCalls(s.calls, x);
      }
      Balanced(s);
    }
  }

  lemma Balanced<T(!new)>(s: State<T>)
    requires forall x :: Conserved(s, x) && InFlight(s.calls, x) == 0
    ensures multiset(s.offered)
      == multiset(Taken(s.exits)) + multiset(s.queue) + multiset(Dropped(s.exits)) + multiset(s.lost)
    ensures |s.offered| == |Taken(s.exits)| + |s.queue| + |Dropped(s.exits)| + |s.lost|
  {
    hide Occurs, InFlight, Taken, Dropped;
    var all := multiset(Taken(s.exits)) + multiset(s.queue) + multiset(Dropped(s.exits)) + multiset(s.lost);
    assert multiset(s.offered) == all by {
      forall x ensures multiset(s.offered)[x] == all[x] {
        assert Conserved(s, x) && InFlight(s.calls, x) == 0;
        OccursInMultiset(s.offered, x);
        OccursInMultiset(Taken(s.exits), x);
        OccursInMultiset(s.queue, x);
        OccursInMultiset(Dropped(s.exits), x);
        OccursInMultiset(s.lost, x);
      }
    }
    assert |multiset(s.offered)| == |all|;
  }

  // ----- order -----

  ghost predicate Subsequence<T>(a: seq<T>, b: seq<T>)
    decreases |b|
  {
    if a == [] then true
    else
      && |b| > 0
      && (Subsequence(a, b[..|b| - 1]) || (a[|a| - 1] == b[|b| - 1] && Subsequence(a[..|a| - 1], b[..|b| - 1])))
  }

  lemma {:induction false} TakenSubsequence<T>(exits: seq<Exit<T>>)
    ensures Subsequence(Taken(exits), Exited(exits))
  {
    if exits != [] {
      var n := |exits| - 1;
      TakenSubsequence(exits[..n]);
      assert Exited(exits)[..n] == Exited(exits[..n]);
      var a := Taken(exits);
      if exits[n].Sent? {
        assert a[..|a| - 1] == Taken(exits[..n]);
      } else {
        assert a == Taken(exits[..n]);
      }
    }
  }

  lemma {:induction false} SubsequenceAppend<T>(a: seq<T>, b: seq<T>, c: seq<T>)
    requires Subsequence(a, b)
    ensures Subsequence(a + c, b + c)
  {
    if c == [] {
      assert a + c == a && b + c == b;
    } else {
      hide Subsequence;
      var n := |c| - 1;
      SubsequenceAppend(a, b, c[..n]);
      SubsequenceExtend(a + c[..n], b + c[..n], c[n]);
      assert a + c[..n] + [c[n]] == a + c && b + c[..n] + [c[n]] == b + c;
    }
  }

  lemma SubsequenceExtend<T>(a: seq<T>, b: seq<T>, y: T)
    requires Subsequence(a, b)
    ensures Subsequence(a + [y], b + [y])
  {
    assert (a + [y])[..|a|] == a && (b + [y])[..|b|] == b;
  }

  /** Samples leave in the order they entered: the queue is the newest part of what was pushed. */
  lemma Fifo<T(!new)>(es: seq<Event<T>>)
    ensures var s := Replay(es);
      && |s.queue| <= |s.pushed| && s.queue == s.pushed[|s.pushed| - |s.queue|..]
      && Subsequence(Taken(s.exits) + s.queue, s.pushed)
  {
    AlwaysAccounted(es);
    var s := Replay(es);
    TakenSubsequence(s.exits);
    SubsequenceAppend(Taken(s.exits), Exited(s.exits), s.queue);
  }

  // ----- one sender -----

  /** Samples are offered by one goroutine: a call begins only when the previous one has returned. */
  predicate SingleSender<T>(es: seq<Event<T>>) {
    es == [] || (SingleSender(es[..|es| - 1]) && (es[|es| - 1].Offer? ==> Quiet(Replay(es[..|es| - 1]))))
  }

  /** The call in progress, if there is one. */
  function Current<T>(s: State<T>): Call<T> {
    if s.calls == [] then Returned else s.calls[|s.calls| - 1]
  }

  function Lasts<T>(s: State<T>): seq<T> {
    Taken(s.exits) + s.queue
  }

  ghost predicate SingleInv<T>(s: State<T>) {
    && (forall i :: 0 <= i < |s.calls| - 1 ==> s.calls[i].Returned?)
    && s.lost == []
    && match Current(s)
       case Returned =>
         s.pushed == s.offered &&
         (s.offered != [] ==> Lasts(s) != [] && Lasts(s)[|Lasts(s)| - 1] == s.offered[|s.offered| - 1])
       case TryPush(x) => s.offered == s.pushed + [x]
       case Evict(x) => s.offered == s.pushed + [x]
       case CountEvicted(x) => s.offered == s.pushed + [x] && |s.queue| < OUTBOX_CAP
       case Retry(x) => s.offered == s.pushed + [x] && |s.queue| < OUTBOX_CAP
       case CountLost(_) => false
  }

  /** The elements of a subsequence stand at rising places of the sequence. */
  lemma {:induction false} SubsequencePlaces<T>(a: seq<T>, b: seq<T>) returns (places: seq<nat>)
    requires Subsequence(a, b)
    ensures |places| == |a| && forall i :: 0 <= i < |a| ==> places[i] < |b| && b[places[i]] == a[i]
    ensures forall i, j :: 0 <= i < j < |a| ==> places[i] < places[j]
  {
    if a == [] {
      places := [];
    } else if Subsequence(a, b[..|b| - 1]) {
      places := SubsequencePlaces(a, b[..|b| - 1]);
    } else {
      places := SubsequencePlaces(a[..|a| - 1], b[..|b| - 1]);
      places := places + [|b| - 1];
    }
  }

  lemma TakeKeepsLasts<T>(s: State<T>)
    requires |s.queue| > 0
    ensures Lasts(Apply(s, Take)) == Lasts(s)
  {
    ExitAppend(s.exits, Sent(s.queue[0]));
    assert s.queue == [s.queue[0]] + s.queue[1..];
  }

  lemma SingleKept<T>(s: State<T>, e: Event<T>)
    requires Accounted(s) && SingleInv(s) && (e.Offer? ==> Quiet(s))
    ensures SingleInv(Apply(s, e))
  {
    match e
    case Take => if |s.queue| > 0 { TakeKeepsLasts(s); }
    case _ =>
  }

  lemma {:induction false} AlwaysSingle<T(!new)>(es: seq<Event<T>>)
    requires SingleSender(es)
    ensures SingleInv(Replay(es))
  {
    if es != [] {
      AlwaysSingle(es[..|es| - 1]);
      AlwaysAccounted(es[..|es| - 1]);
      SingleKept(Replay(es[..|es| - 1]), es[|es| - 1]);
    }
  }

  /**
    With one sender, whatever the drain does: no sample is turned away, so the queue always holds the
    newest samples without a gap, the last one sent or pending is the newest of all, and what was
    taken and is pending appears in the order offered.
   */
  lemma NewestKept<T(!new)>(es: seq<Event<T>>)
    requires SingleSender(es) && Quiet(Replay(es))
    ensures var s := Replay(es);
      && s.lost == [] && |s.queue| <= |s.offered|
      && s.queue == s.offered[|s.offered| - |s.queue|..]
      && Subsequence(Taken(s.exits) + s.queue, s.offered)
      && (s.offered != [] ==> Lasts(s) != [] && Lasts(s)[|Lasts(s)| - 1] == s.offered[|s.offered| - 1])
  {
    AlwaysSingle(es);
    Fifo(es);
  }

  /** Without a connection: what the queue has room for is exact, and so is the count. */
  lemma Offline<T(!new)>(es: seq<Event<T>>)
    requires SingleSender(es) && Quiet(Replay(es)) && (forall k :: 0 <= k < |es| ==> !es[k].Take?)
    ensures var s := Replay(es); var n := |s.offered|;
      if n <= OUTBOX_CAP then s.queue == s.offered && s.dropCount == 0
      else s.queue == s.offered[n - OUTBOX_CAP..] && s.dropCount == (n - OUTBOX_CAP) % WORD
  {
    hide Replay, SingleSender, Taken, Subsequence, Lasts, Quiet;
    NewestKept(es);
    OfflineCount(es);
    assert Replay(es).offered[0..] == Replay(es).offered;
  }

  lemma OfflineCount<T(!new)>(es: seq<Event<T>>)
    requires SingleSender(es) && Quiet(Replay(es)) && (forall k :: 0 <= k < |es| ==> !es[k].Take?)
    ensures var s := Replay(es);
      && (if s.exits == [] then |s.queue| <= OUTBOX_CAP else |s.queue| == OUTBOX_CAP)
      && |s.offered| == |s.exits| + |s.queue| && s.dropCount == |s.exits| % WORD
  {
    OfflineAlways(es);
    AlwaysSingle(es);
    Accounting(es);
    var s := Replay(es);
    ExitsSplit(s.exits);
    hide Replay, Taken, Dropped, SingleSender, Lasts, Accounted;
    assert s.lost == [];
  }

  lemma {:induction false} ExitsSplit<T>(exits: seq<Exit<T>>)
    ensures |Taken(exits)| + |Dropped(exits)| == |exits|
  {
    if exits != [] {
      ExitsSplit(exits[..|exits| - 1]);
    }
  }

  ghost predicate OfflineInv<T>(s: State<T>) {
    && Taken(s.exits) == []
    && match Current(s)
       case Evict(_) => |s.queue| == OUTBOX_CAP
       case CountEvicted(_) => |s.queue| == OUTBOX_CAP - 1
       case Retry(_) => |s.queue| == OUTBOX_CAP - 1
       case _ => s.exits == [] || |s.queue| == OUTBOX_CAP
  }

  lemma {:induction false} OfflineAlways<T(!new)>(es: seq<Event<T>>)
    requires SingleSender(es) && (forall k :: 0 <= k < |es| ==> !es[k].Take?)
    ensures OfflineInv(Replay(es))
  {
    if es != [] {
      OfflineAlways(es[..|es| - 1]);
      AlwaysSingle(es[..|es| - 1]);
      AlwaysAccounted(es[..|es| - 1]);
      OfflineKept(Replay(es[..|es| - 1]), es[|es| - 1]);
    }
  }

  lemma OfflineKept<T>(s: State<T>, e: Event<T>)
    requires Accounted(s) && SingleInv(s) && OfflineInv(s) && !e.Take? && (e.Offer? ==> Quiet(s))
    ensures OfflineInv(Apply(s, e))
  {
    hide Dropped, Taken, Exited, Owed, Lasts;
    if |s.queue| > 0 {
      ExitAppend(s.exits, Evicted(s.queue[0]));
    }
  }

  // ----- runs -----

  lemma After<T>(es: seq<Event<T>>, e: Event<T>)
    ensures Replay(es + [e]) == Apply(Replay(es), e)
    ensures SingleSender(es) && (e.Offer? ==> Quiet(Replay(es))) ==> SingleSender(es + [e])
  {
    assert (es + [e])[..|es|] == es;
  }

  lemma Then<T>(es: seq<Event<T>>, e: Event<T>) returns (es': seq<Event<T>>)
    ensures es' == es + [e] && Replay(es') == Apply(Replay(es), e)
    ensures SingleSender(es) && (e.Offer? ==> Quiet(Replay(es))) ==> SingleSender(es')
  {
    After(es, e);
    es' := es + [e];
  }

  /** What has happened stays on record. */
  ghost predicate Extends<T>(s: State<T>, s': State<T>) {
    s.offered <= s'.offered && s.pushed <= s'.pushed && s.exits <= s'.exits && s.lost <= s'.lost
  }

  /** `k` undisturbed sends of one sample by one sender. */
  ghost predicate Filled<T>(s: State<T>, x: T, k: nat) {
    && Quiet(s) && |s.calls| == |s.queue| == |s.offered| == k && (forall i :: 0 <= i < k ==> s.queue[i] == x)
    && s.exits == [] && s.lost == [] && s.dropCount == 0
  }

  lemma {:induction false} FillQueue<T>(x: T, k: nat) returns (es: seq<Event<T>>)
    requires k <= OUTBOX_CAP
    ensures SingleSender(es) && Filled(Replay(es), x, k)
    decreases k
  {
    es := [];
    if k > 0 {
      hide Replay, SingleSender;
      es := FillQueue(x, k - 1);
      es := Then(es, Offer(Some(x)));
      es := Then(es, Act(k - 1));
    }
  }

  /**
    One sender is needed for that: a second one can take the room the first has just made, and then
    the newest sample `b` is the one that is turned away.
   */
  lemma TwoSendersCanLose<T>(x: T, a: T, b: T) returns (es: seq<Event<T>>)
    requires x != b && a != b
    ensures var s := Replay(es);
      && Quiet(s) && |s.queue| == OUTBOX_CAP && s.queue[|s.queue| - 1] == a && b !in s.queue && Taken(s.exits) == []
      && s.offered != [] && s.offered[|s.offered| - 1] == b && s.lost == [b]
  {
    hide Replay, SingleSender;
    es := FillQueue(x, OUTBOX_CAP);
    es := Then(es, Offer(Some(a)));
    es := EvictOldest(es, b);
    es := Then(es, Act(30));
    es := Then(es, Act(31));
    es := Then(es, Act(31));
    ghost var s := Replay(es);
    ExitAppend<T>([], Evicted(x));
    assert s.exits == [] + [Evicted(x)];
  }

  /** A send that finds the queue full, up to its last operation. */
  lemma EvictOldest<T>(es: seq<Event<T>>, b: T) returns (es': seq<Event<T>>)
    requires |Replay(es).queue| == OUTBOX_CAP
    ensures var s, s' := Replay(es), Replay(es');
      && s'.queue == s.queue[1..] && s'.calls == s.calls + [Retry(b)] && s'.offered == s.offered + [b]
      && s'.lost == s.lost && s'.exits == s.exits + [Evicted(s.queue[0])]
  {
    hide Replay, SingleSender;
    var n := |Replay(es).calls|;
    es' := Then(es, Offer(Some(b)));
    es' := Then(es', Act(n));
    es' := Then(es', Act(n));
    es' := Then(es', Act(n));
  }

  // ----- drops while there is room -----

  /** A drop that was not needed: the drain took a sample after the queue was found full, and yet one is evicted. */
  lemma DropsWithRoom<T>(x: T) returns (es: seq<Event<T>>)
    ensures SingleSender(es)
    ensures var s := Replay(es);
      && Quiet(s) && |s.offered| == OUTBOX_CAP + 1 && |Taken(s.exits)| == 1
      && |s.queue| == OUTBOX_CAP - 1 && Dropped(s.exits) == [x] && s.dropCount == 1
  {
    hide Replay, SingleSender;
    es := FillQueue(x, OUTBOX_CAP);
    es := Then(es, Offer(Some(x)));
    es := Then(es, Act(30));
    es := Then(es, Take);
    es := Then(es, Act(30));
    ghost var exits := Replay(es).exits;
    es := Then(es, Act(30));
    es := Then(es, Act(30));
    ExitAppend<T>([], Sent(x));
    ExitAppend<T>([Sent(x)], Evicted(x));
    assert [] + [Sent(x)] == [Sent(x)] && [Sent(x)] + [Evicted(x)] == exits == Replay(es).exits;
  }

  /** What is taken after the call found the queue full, until its second operation, is the room there is. */
  lemma {:induction false} RoomIsTaken<T(!new)>(es: seq<Event<T>>, more: seq<Event<T>>)
    requires SingleSender(es + more) && Current(Replay(es)).Evict? && |Replay(es).queue| == OUTBOX_CAP
    ensures var s, t := Replay(es), Replay(es + more);
      && |t.calls| >= |s.calls|
      && (|t.calls| == |s.calls| ==>
            && !Current(t).TryPush?
            && (Current(t).Evict? ==> |t.queue| + |Taken(t.exits)| == OUTBOX_CAP + |Taken(s.exits)|))
  {
    if more == [] {
      assert es + more == es;
    } else {
      var n := |more| - 1;
      var front := es + more[..n];
      assert (es + more)[..|es + more| - 1] == front && (es + more)[|es + more| - 1] == more[n];
      RoomIsTaken(es, more[..n]);
      AlwaysSingle(front);
      RoomStep(Replay(front), more[n]);
    }
  }

  lemma RoomStep<T>(t: State<T>, e: Event<T>)
    requires SingleInv(t) && t.calls != []
    ensures var t' := Apply(t, e);
      && |t'.calls| >= |t.calls|
      && (|t'.calls| == |t.calls| && !Current(t).TryPush? ==>
            && !Current(t').TryPush?
            && (Current(t').Evict? ==>
                  && Current(t).Evict?
                  && |t'.queue| + |Taken(t'.exits)| == |t.queue| + |Taken(t.exits)|))
  {
    hide Taken, Lasts, Exited;
    if |t.queue| > 0 {
      ExitAppend(t.exits, Sent(t.queue[0]));
    }
  }

  /**
    When drops are not needed: with one sender, a call that found the queue full evicts a sample
    although there is room again if and only if the drain took something in between, but not all.
   */
  lemma UnneededDrop<T(!new)>(es: seq<Event<T>>, more: seq<Event<T>>)
    requires SingleSender(es + more) && Current(Replay(es)).Evict? && |Replay(es).queue| == OUTBOX_CAP
    requires |Replay(es + more).calls| == |Replay(es).calls| && Current(Replay(es + more)).Evict?
    ensures var s, t := Replay(es), Replay(es + more);
      var taken := |Taken(t.exits)| - |Taken(s.exits)|;
      var next := Apply(t, Act(|t.calls| - 1));
      (|t.queue| < OUTBOX_CAP && next.exits != t.exits) <==> 0 < taken < OUTBOX_CAP
  {
    RoomIsTaken(es, more);
    hide Replay, SingleSender, Taken;
  }

  // ----- the client -----

  /** Which goroutine is running; the others act between its operations. */
  datatype Runner = Sender(me: nat) | Drain

  /** No step looks at the record of what happened. */
  lemma OnlyProgramMatters<T>(s: State<T>, e: Event<T>)
    ensures var bare, full := Apply(State(s.queue, s.dropCount, s.calls, [], [], [], []), e), Apply(s, e);
      bare.queue == full.queue && bare.dropCount == full.dropCount && bare.calls == full.calls
  {
  }

  /** A step moves one call at most; a take moves none. */
  lemma OtherCallsStay<T>(s: State<T>, e: Event<T>)
    ensures var s' := Apply(s, e);
      && |s.calls| <= |s'.calls| && (forall i :: 0 <= i < |s.calls| && e != Act(i) ==> s'.calls[i] == s.calls[i])
      && (e.Take? ==> s'.calls == s.calls && s'.offered == s.offered)
  {
  }

  /** `Client`, as far as the queue goes. `calls` is where all calls of `Send` are. */
  class Client<T(!new, ==)> {
    const solo: bool  // only one goroutine ever calls Send
    var sendCh: seq<T>
    var dropCount: nat
    var calls: seq<Call<T>>
    ghost var log: seq<Event<T>>
    ghost var writes: seq<Written<T>>

    ghost predicate Valid()
      reads this
    {
      var s := Replay(log);
      s.queue == sendCh && s.dropCount == dropCount && s.calls == calls && (solo ==> SingleSender(log))
    }

    predicate Idle()
      reads this
    {
      forall i :: 0 <= i < |calls| ==> calls[i].Returned?
    }

    constructor (solo: bool)
      ensures Valid() && sendCh == [] && dropCount == 0 && log == [] && this.solo == solo
    {
      this.solo := solo;
      this.sendCh, this.dropCount, this.calls, this.log, this.writes := [], 0, [], [], [];
    }

    /** Makes the operation just done part of the history. */
    ghost method Record(e: Event<T>)
      requires var s := Apply(Replay(log), e); s.queue == sendCh && s.dropCount == dropCount && s.calls == calls
      requires solo ==> SingleSender(log) && (e.Offer? ==> Quiet(Replay(log)))
      modifies this`log
      ensures Valid() && log == old(log) + [e] && Replay(log) == Apply(Replay(old(log)), e)
      ensures Extends(Replay(old(log)), Replay(log))
    {
      After(log, e);
      assert (log + [e])[..|log|] == log;
      log := log + [e];
    }

    predicate Free(r: Runner, e: Event<T>)
      reads this
    {
      match r
      case Sender(me) => e != Act(me) && (solo ==> e.Take?)
      case Drain => !e.Take? && (solo && e.Offer? ==> Idle())
    }

    /** `n` operations of other goroutines. */
    method Others(n: nat, r: Runner)
      requires Valid()
      modifies this`sendCh, this`dropCount, this`calls, this`log
      ensures Valid() && old(log) <= log && |old(calls)| <= |calls| && Extends(Replay(old(log)), Replay(log))
      ensures r.Sender? && r.me < |old(calls)| ==> calls[r.me] == old(calls)[r.me]
      ensures r.Sender? && solo ==> calls == old(calls) && Replay(log).offered == Replay(old(log)).offered
      ensures r.Drain? ==> Taken(Replay(log).exits) == Taken(Replay(old(log)).exits)
      ensures n == 0 ==> log == old(log) && sendCh == old(sendCh)
    {
      hide Replay, SingleSender, Taken;
      for k := 0 to n
        invariant Valid() && old(log) <= log && |old(calls)| <= |calls| && Extends(Replay(old(log)), Replay(log))
        invariant r.Sender? && r.me < |old(calls)| ==> calls[r.me] == old(calls)[r.me]
        invariant r.Sender? && solo ==> calls == old(calls) && Replay(log).offered == Replay(old(log)).offered
        invariant r.Drain? ==> Taken(Replay(log).exits) == Taken(Replay(old(log)).exits)
        invariant k == 0 ==> log == old(log) && sendCh == old(sendCh)
      {
        var e: Event<T> := *;
        if Free(r, e) {
          Perform(e);
        }
      }
    }

    /** One operation of another goroutine. */
    method Perform(e: Event<T>)
      requires Valid() && (solo && e.Offer? ==> Idle())
      modifies this`sendCh, this`dropCount, this`calls, this`log
      ensures Valid() && log == old(log) + [e] && |old(calls)| <= |calls| && Extends(Replay(old(log)), Replay(log))
      ensures forall i :: 0 <= i < |old(calls)| && e != Act(i) ==> calls[i] == old(calls)[i]
      ensures e.Take? ==> calls == old(calls) && Replay(log).offered == Replay(old(log)).offered
      ensures !e.Take? ==> Taken(Replay(log).exits) == Taken(Replay(old(log)).exits)
    {
      hide Replay, SingleSender, Apply, Taken;
      if !e.Take? {
        OthersTakeNothing(Replay(log), e);
      }
      OnlyProgramMatters(Replay(log), e);
      OtherCallsStay(Replay(log), e);
      var s := Apply(State(sendCh, dropCount, calls, [], [], [], []), e);
      sendCh, dropCount, calls := s.queue, s.dropCount, s.calls;
      Record(e);
    }

    method Yield(r: Runner)
      requires Valid()
      modifies this`sendCh, this`dropCount, this`calls, this`log
      ensures Valid() && old(log) <= log && |old(calls)| <= |calls| && Extends(Replay(old(log)), Replay(log))
      ensures r.Sender? && r.me < |old(calls)| ==> calls[r.me] == old(calls)[r.me]
      ensures r.Sender? && solo ==> calls == old(calls) && Replay(log).offered == Replay(old(log)).offered
    {
      var n: nat := *;
      Others(n, r);
    }

    /**
      `Send` never blocks, and nothing is done with a nil sample. The call is an interleaving of its
      operations with those of the others; with one sender the sample always gets into the queue.
     */
    method Send(s: Option<T>)
      requires Valid() && (solo ==> Idle())
      modifies this
      ensures Valid() && old(log) <= log && (solo ==> Idle())
      ensures s.None? ==> log == old(log) + [Offer(None)] && sendCh == old(sendCh) && dropCount == old(dropCount)
      ensures s.Some? ==> |old(log)| < |log| && log[|old(log)|] == Offer(s)
      ensures s.Some? ==> |old(calls)| < |calls| && calls[|old(calls)|].Returned?
      ensures solo && s.Some? ==>
        && Replay(log).offered == Replay(old(log)).offered + [s.value]
        && Lasts(Replay(log)) != [] && Lasts(Replay(log))[|Lasts(Replay(log))| - 1] == s.value
    {
      hide Replay, SingleSender, Lasts;
      if s.None? {
        Record(Offer(None));
        return;
      }
      var me := |calls|;
      calls := calls + [TryPush(s.value)];
      Record(Offer(s));
      assert log[|old(log)|] == Offer(s);
      Yield(Sender(me));
      if |sendCh| < OUTBOX_CAP {
        sendCh, calls := sendCh + [s.value], calls[me := Returned];
        Record(Act(me));
      } else {
        calls := calls[me := Evict(s.value)];
        Record(Act(me));
        Yield(Sender(me));
        Replace(me, s.value);
      }
      if solo {
        NewestKept(log);
      }
    }

    /** `Send` after the queue was full: make room, then try once more. */
    method Replace(me: nat, x: T)
      requires Valid() && me < |calls| && calls[me] == Evict(x)
      modifies this
      ensures Valid() && old(log) <= log && me < |calls| && calls[me].Returned?
      ensures solo ==> calls == old(calls)[me := Returned] && Replay(log).offered == Replay(old(log)).offered
    {
      hide Replay, SingleSender, Apply;
      MakeRoom(me, x);
      Yield(Sender(me));
      TryAgain(me, x);
    }

    /** The second select of `Send`: drop one sample if there is one. */
    method MakeRoom(me: nat, x: T)
      requires Valid() && me < |calls| && calls[me] == Evict(x)
      modifies this
      ensures Valid() && old(log) <= log && me < |calls| && calls[me] == Retry(x)
      ensures var was, now := Replay(old(log)).exits, Replay(log).exits;
        old(sendCh) != [] ==> |was| < |now| && now[|was|] == Evicted(old(sendCh)[0])
      ensures solo ==> calls == old(calls)[me := Retry(x)] && Replay(log).offered == Replay(old(log)).offered
    {
      hide Replay, SingleSender;
      if |sendCh| > 0 {
        sendCh, calls := sendCh[1..], calls[me := CountEvicted(x)];
        Record(Act(me));
        Yield(Sender(me));
        dropCount, calls := (dropCount + 1) % WORD, calls[me := Retry(x)];
        Record(Act(me));
      } else {
        calls := calls[me := Retry(x)];
        Record(Act(me));
      }
    }

    /** The third select: the sample gets in, or is itself counted as dropped. */
    method TryAgain(me: nat, x: T)
      requires Valid() && me < |calls| && calls[me] == Retry(x)
      modifies this
      ensures Valid() && old(log) <= log && me < |calls| && calls[me].Returned?
      ensures var was, now := Replay(old(log)), Replay(log);
        if |old(sendCh)| < OUTBOX_CAP then |was.pushed| < |now.pushed| && now.pushed[|was.pushed|] == x
        else |was.lost| < |now.lost| && x in now.lost[|was.lost|..]
      ensures solo ==> calls == old(calls)[me := Returned] && Replay(log).offered == Replay(old(log)).offered
    {
      hide Replay, SingleSender;
      if |sendCh| < OUTBOX_CAP {
        sendCh, calls := sendCh + [x], calls[me := Returned];
        Record(Act(me));
      } else {
        calls := calls[me := CountLost(x)];
        Record(Act(me));
        Yield(Sender(me));
        dropCount, calls := (dropCount + 1) % WORD, calls[me := Returned];
        ghost var lost := Replay(log).lost;
        Record(Act(me));
        assert Replay(log).lost == lost + [x] && x == Replay(log).lost[|lost|];
      }
    }

    /**
      One tick of `writeLoop`: what is taken from the queue is written to the connection, one sample
      after the other, until nothing is pending or a write fails. `patience` bounds what the senders
      do meanwhile.
     */
    method Tick(patience: nat) returns (ok: bool)
      requires Valid()
      modifies this
      ensures Valid() && old(log) <= log && old(writes) <= writes
      ensures Taken(Replay(log).exits) == Taken(Replay(old(log)).exits) + Samples(writes[|old(writes)|..])
      ensures ok ==> sendCh == [] && Exited(Replay(log).exits) == Replay(log).pushed
      ensures ok ==> AllOk(writes[|old(writes)|..])
      ensures !ok ==> |writes| > |old(writes)|
      ensures !ok ==> AllOk(writes[|old(writes)|..|writes| - 1]) && !writes[|writes| - 1].ok
    {
      hide Replay, SingleSender, Taken;
      var left: nat := patience;
      while true
        invariant Valid() && old(log) <= log && old(writes) <= writes
        invariant Taken(Replay(log).exits) == Taken(Replay(old(log)).exits) + Samples(writes[|old(writes)|..])
        invariant AllOk(writes[|old(writes)|..])
        decreases left, |sendCh|
      {
        var n: nat := *;
        if 0 < n <= left {
          left := left - n;
          Others(n, Drain);
        }
        if sendCh == [] {
          AlwaysAccounted(log);
          return true;
        }
        ghost var before := writes[|old(writes)|..];
        var x := sendCh[0];
        TakeTakes(Replay(log), x);
        sendCh := sendCh[1..];
        Record(Take);
        ok := WriteSample(x);
        assert writes[|old(writes)|..] == before + [Written(x, ok)];
        SamplesAppend(before, Written(x, ok));
        assert writes[|old(writes)|..|writes| - 1] == before;
        if !ok {
          return;
        }
      }
    }

    /** `sendMetrics`: a sample that cannot be encoded is skipped and counts as written. */
    method WriteSample(x: T) returns (ok: bool)
      modifies this`writes
      ensures writes == old(writes) + [Written(x, ok)]
    {
      ok := *;
      writes := writes + [Written(x, ok)];
    }

    method Pending() returns (n: nat)
      requires Valid()
      ensures n == |sendCh| <= OUTBOX_CAP
    {
      AlwaysAccounted(log);
      n := |sendCh|;
    }

    /** With no call in progress the count is what was offered and neither taken nor pending. */
    method DropCount() returns (n: nat)
      requires Valid()
      ensures Idle() ==> n == (|Replay(log).offered| - |Taken(Replay(log).exits)| - |sendCh|) % WORD
    {
      Accounting(log);
      n := dropCount;
    }
  }
}

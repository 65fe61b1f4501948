/**
  Rates from cumulative counters (disk_net.go and collector.go in uni_agent/internal/collect): each
  frame is compared with the baselines the collector keeps, and the baselines move on.
 */
module Rates {
  import opened Options
  import opened Floats
  import opened Metrics

  const NANOS_PER_SECOND := 1_000_000_000.0
  const RATE_LIMIT := 1_000_000_000_000_000.0

  /** `ioCounters`: the disk part and the network part of one snapshot. */
  datatype IoCounters = IoCounters(
    readBytes: nat, writeBytes: nat, readOps: nat, writeOps: nat, ioTimeMs: nat,
    rxBytes: nat, txBytes: nat, rxPackets: nat, txPackets: nat, rxErrors: nat, txErrors: nat, rxDropped: nat)

  datatype NicStat = NicStat(name: string, counters: IoCounters)

  /** What one frame reads; a failed read is `None`. */
  datatype Frame = Frame(now: int, disks: Option<map<string, IoCounters>>, nics: Option<seq<NicStat>>)

  datatype Baseline = Baseline(io: map<string, IoCounters>, net: map<string, IoCounters>, ts: Option<int>)

  /** The name rules are arbitrary: which disks are partitions or pseudo devices, which interfaces virtual. */
  datatype Filter = Filter(hidesDisk: string -> bool, hidesNic: string -> bool)

  // ----- one rate -----

  /** `elapsed`: seconds since the baseline; zero without one or when the clock did not advance. */
  function Elapsed(ts: Option<int>, now: int): (dt: real)
    ensures dt >= 0.0
  {
    if ts.None? || now <= ts.value then 0.0 else (now - ts.value) as real / NANOS_PER_SECOND
  }

  function Rate(cur: nat, prev: nat, dt: real): Float {
    if dt <= 0.0 then ZERO
    else if cur < prev then ZERO
    else
      var v := (cur - prev) as real / dt;
      if v < 0.0 || v > RATE_LIMIT then ZERO else Round2(Fin(v))
  }

  lemma RateBounds(cur: nat, prev: nat, dt: real)
    ensures var v := Rate(cur, prev, dt); v.Fin? && 0.0 <= v.r <= RATE_LIMIT
  {
    if dt > 0.0 && cur >= prev {
      var v := (cur - prev) as real / dt;
      CentsNearest(v);
      assert v <= RATE_LIMIT ==> v * 100.0 + 0.5 <= RATE_LIMIT * 100.0 + 0.5;
    }
  }

  /** Rate times gap is the increment, up to the rounding of the rate. */
  lemma RateTimesGap(cur: nat, prev: nat, dt: real)
    requires dt > 0.0 && cur >= prev && (cur - prev) as real <= RATE_LIMIT * dt
    ensures -0.005 * dt <= Rate(cur, prev, dt).r * dt - (cur - prev) as real <= 0.005 * dt
  {
    var d := (cur - prev) as real;
    var v := d / dt;
    Quotient(d, RATE_LIMIT, dt);
    CentsNearest(v);
    assert Cents(0.0) == 0.0;
    hide Cents;
    var rounded := if v <= 0.0 then 0.0 else Cents(v);
    assert Rate(cur, prev, dt) == Fin(rounded);
    Scaled(rounded, v, dt);
    assert v * dt == d;
    assert -0.005 * dt <= rounded * dt - d <= 0.005 * dt;
    assert Rate(cur, prev, dt).r * dt == rounded * dt;
  }

  lemma Quotient(d: real, limit: real, dt: real)
    requires dt > 0.0 && 0.0 <= d <= limit * dt
    ensures d / dt * dt == d && 0.0 <= d / dt <= limit
  {
    Product(d / dt, limit, dt);
  }

  lemma Product(x: real, y: real, dt: real)
    requires dt > 0.0
    ensures x > y ==> x * dt > y * dt
  {
    assert x > y ==> (x - y) * dt > 0.0;
  }

  lemma Scaled(r: real, v: real, dt: real)
    requires dt > 0.0 && -0.005 <= r - v <= 0.005
    ensures -0.005 * dt <= r * dt - v * dt <= 0.005 * dt
  {
    var e := r - v;
    assert -0.005 * dt <= e * dt <= 0.005 * dt;
    assert r * dt == (v + e) * dt == v * dt + e * dt;
  }

  // ----- entries -----

  function DiskEntry(name: string, cur: IoCounters, last: Option<IoCounters>, dt: real): DiskIOMetric {
    if dt <= 0.0 || last.None? then DiskIOMetric(name, ZERO, ZERO, ZERO, ZERO, ZERO)
    else
      var prev := last.value;
      DiskIOMetric(name, Rate(cur.readBytes, prev.readBytes, dt), Rate(cur.writeBytes, prev.writeBytes, dt),
                   Rate(cur.readOps, prev.readOps, dt), Rate(cur.writeOps, prev.writeOps, dt),
                   if cur.ioTimeMs < prev.ioTimeMs then ZERO else Utilisation(cur.ioTimeMs - prev.ioTimeMs, dt))
  }

  /** The share of the time in which the device was busy. */
  function Utilisation(busyMs: nat, dt: real): Float
    requires dt > 0.0
  {
    ClampPercent(Fin(busyMs as real / (dt * 1000.0) * 100.0))
  }

  /** That is the busy milliseconds in percent of the gap, within half a hundredth, and 100 if they are more. */
  lemma UtilisationIsShare(busyMs: nat, dt: real)
    requires dt > 0.0
    ensures var u, share := Utilisation(busyMs, dt), busyMs as real / (10.0 * dt);
      && u.Fin? && (share <= 100.0 ==> -0.005 <= u.r - share <= 0.005) && (share > 100.0 ==> u.r == 100.0)
  {
    var share := busyMs as real / (10.0 * dt);
    SameShare(busyMs as real, dt);
    ClampedPercent(Fin(share));
  }

  lemma SameShare(busy: real, dt: real)
    requires dt > 0.0 && busy >= 0.0
    ensures busy / (dt * 1000.0) * 100.0 == busy / (10.0 * dt) >= 0.0
  {
    var x := busy / (10.0 * dt);
    assert x * (10.0 * dt) == busy;
    assert x / 100.0 * (dt * 1000.0) == busy;
  }

  /** The busy share in the entry of a disk: none without a baseline, a gap, or with a counter that fell. */
  lemma DiskEntryIsBusy(name: string, cur: IoCounters, last: Option<IoCounters>, dt: real)
    ensures var e := DiskEntry(name, cur, last, dt);
      e.name == name && e.ioTimePercent ==
        if dt > 0.0 && last.Some? && cur.ioTimeMs >= last.value.ioTimeMs
        then Utilisation(cur.ioTimeMs - last.value.ioTimeMs, dt) else ZERO
  {
    hide Rate, Utilisation;
  }

  function NicEntry(name: string, cur: IoCounters, last: Option<IoCounters>, dt: real): NICMetric {
    if dt <= 0.0 || last.None? then NICMetric(name, ZERO, ZERO, ZERO, ZERO, ZERO, ZERO, ZERO)
    else
      var prev := last.value;
      NICMetric(name, Rate(cur.rxBytes, prev.rxBytes, dt), Rate(cur.txBytes, prev.txBytes, dt),
                Rate(cur.rxPackets, prev.rxPackets, dt), Rate(cur.txPackets, prev.txPackets, dt),
                Rate(cur.rxErrors, prev.rxErrors, dt), Rate(cur.txErrors, prev.txErrors, dt),
                Rate(cur.rxDropped, prev.rxDropped, dt))
  }

  // ----- one frame -----

  function Lookup<K, V>(m: map<K, V>, k: K): Option<V> {
    if k in m then Some(m[k]) else None
  }

  /** The first reading with this name. */
  function Find(nics: seq<NicStat>, name: string): Option<IoCounters> {
    if nics == [] then None
    else if nics[0].name == name then Some(nics[0].counters)
    else Find(nics[1..], name)
  }

  function DisksIn(f: Frame): map<string, IoCounters> {
    if f.disks.Some? then f.disks.value else map[]
  }

  /** The names of the interfaces that are not virtual, in the order they were read. */
  function VisibleNics(flt: Filter, nics: seq<NicStat>): (names: seq<string>)
    ensures forall n :: n in names <==> !flt.hidesNic(n) && Find(nics, n).Some?
  {
    if nics == [] then []
    else (if flt.hidesNic(nics[0].name) then [] else [nics[0].name]) + VisibleNics(flt, nics[1..])
  }

  function NicsIn(flt: Filter, f: Frame): map<string, IoCounters> {
    if f.nics.None? then map[]
    else map n | n in VisibleNics(flt, f.nics.value) :: Find(f.nics.value, n).value
  }

  /** `setBaselines`: devices missing from this frame keep theirs. */
  function Next(flt: Filter, b: Baseline, f: Frame): Baseline {
    Baseline(b.io + DisksIn(f), b.net + NicsIn(flt, f), Some(f.now))
  }

  /** The report has one entry for every visible disk that was read. */
  ghost predicate DisksReported(flt: Filter, b: Baseline, f: Frame, diskIO: seq<DiskIOMetric>) {
    var disks := DisksIn(f);
    && (forall i :: 0 <= i < |diskIO| ==>
          && diskIO[i].name in disks && !flt.hidesDisk(diskIO[i].name)
          && diskIO[i] == DiskEntry(diskIO[i].name, disks[diskIO[i].name], Lookup(b.io, diskIO[i].name),
             Elapsed(b.ts, f.now)))
    && (forall i, j :: 0 <= i < j < |diskIO| ==> diskIO[i].name != diskIO[j].name)
    && (forall n :: n in disks && !flt.hidesDisk(n) ==> exists i :: 0 <= i < |diskIO| && diskIO[i].name == n)
  }

  function NicNames(nics: seq<NICMetric>): (names: seq<string>)
    ensures |names| == |nics| && forall i :: 0 <= i < |nics| ==> names[i] == nics[i].name
  {
    seq(|nics|, i requires 0 <= i < |nics| => nics[i].name)
  }

  /** It has one entry for every reading of an interface that is not virtual. */
  ghost predicate NicsReported(flt: Filter, b: Baseline, f: Frame, nics: seq<NICMetric>) {
    var ifaces := NicsIn(flt, f);
    && multiset(NicNames(nics)) == multiset(if f.nics.Some? then VisibleNics(flt, f.nics.value) else [])
    && (forall i :: 0 <= i < |nics| ==>
          && nics[i].name in ifaces
          && nics[i] == NicEntry(nics[i].name, ifaces[nics[i].name], Lookup(b.net, nics[i].name), Elapsed(b.ts, f.now)))
  }

  ghost predicate Reported(flt: Filter, b: Baseline, f: Frame, diskIO: seq<DiskIOMetric>, nics: seq<NICMetric>) {
    DisksReported(flt, b, f, diskIO) && NicsReported(flt, b, f, nics)
  }

  // ----- one counter of one device, over many frames -----

  datatype Device = Disk(name: string) | Nic(name: string)

  datatype Quantity =
    | ReadBytes | WriteBytes | ReadOps | WriteOps
    | RxBytes | TxBytes | RxPackets | TxPackets | RxErrors | TxErrors | RxDropped

  predicate Fits(d: Device, q: Quantity) {
    d.Disk? <==> q.ReadBytes? || q.WriteBytes? || q.ReadOps? || q.WriteOps?
  }

  function Counter(c: IoCounters, q: Quantity): nat {
    match q
    case ReadBytes => c.readBytes
    case WriteBytes => c.writeBytes
    case ReadOps => c.readOps
    case WriteOps => c.writeOps
    case RxBytes => c.rxBytes
    case TxBytes => c.txBytes
    case RxPackets => c.rxPackets
    case TxPackets => c.txPackets
    case RxErrors => c.rxErrors
    case TxErrors => c.txErrors
    case RxDropped => c.rxDropped
  }

  function DiskRate(m: DiskIOMetric, q: Quantity): Float
    requires Fits(Disk(m.name), q)
  {
    match q
    case ReadBytes => m.readBytes
    case WriteBytes => m.writeBytes
    case ReadOps => m.readOps
    case WriteOps => m.writeOps
  }

  function NicRate(m: NICMetric, q: Quantity): Float
    requires Fits(Nic(m.name), q)
  {
    match q
    case RxBytes => m.rxBytes
    case TxBytes => m.txBytes
    case RxPackets => m.rxPackets
    case TxPackets => m.txPackets
    case RxErrors => m.rxErrors
    case TxErrors => m.txErrors
    case RxDropped => m.rxDropped
  }

  function Seen(flt: Filter, f: Frame, d: Device): Option<IoCounters> {
    match d
    case Disk(n) => Lookup(DisksIn(f), n)
    case Nic(n) => Lookup(NicsIn(flt, f), n)
  }

  function Last(b: Baseline, d: Device): Option<IoCounters> {
    match d
    case Disk(n) => Lookup(b.io, n)
    case Nic(n) => Lookup(b.net, n)
  }

  /** The rate that the frame reports for a device; zero if it has no entry. */
  function RateIn(flt: Filter, b: Baseline, f: Frame, d: Device, q: Quantity): (v: Float)
    ensures v.Fin?
  {
    var cur, last := Seen(flt, f, d), Last(b, d);
    if cur.None? || last.None? then ZERO else Rate(Counter(cur.value, q), Counter(last.value, q), Elapsed(b.ts, f.now))
  }

  /** That is the rate in the device's entry of the report, and it has one if it was read. */
  lemma DiskEntryHasRate(flt: Filter, b: Baseline, f: Frame, diskIO: seq<DiskIOMetric>, n: string, q: Quantity)
    requires DisksReported(flt, b, f, diskIO) && !flt.hidesDisk(n) && Fits(Disk(n), q)
    ensures Seen(flt, f, Disk(n)).Some? <==> exists i :: 0 <= i < |diskIO| && diskIO[i].name == n
    ensures forall i :: 0 <= i < |diskIO| && diskIO[i].name == n ==>
      DiskRate(diskIO[i], q) == RateIn(flt, b, f, Disk(n), q)
  {
    hide DisksIn, Rate, Utilisation;
    forall c: nat, p: nat ensures Rate(c, p, 0.0) == ZERO {
      NoGapNoRate(c, p);
    }
  }

  lemma NicEntryHasRate(flt: Filter, b: Baseline, f: Frame, nics: seq<NICMetric>, n: string, q: Quantity)
    requires NicsReported(flt, b, f, nics) && !flt.hidesNic(n) && Fits(Nic(n), q)
    ensures Seen(flt, f, Nic(n)).Some? <==> exists i :: 0 <= i < |nics| && nics[i].name == n
    ensures forall i :: 0 <= i < |nics| && nics[i].name == n ==> NicRate(nics[i], q) == RateIn(flt, b, f, Nic(n), q)
  {
    hide Rate, NicEntry, NicRate, RateIn, Find, VisibleNics;
    var visible := if f.nics.Some? then VisibleNics(flt, f.nics.value) else [];
    assert n in multiset(NicNames(nics)) <==> n in multiset(visible);
    assert n in NicNames(nics) <==> n in visible;
    forall i | 0 <= i < |nics| && nics[i].name == n ensures NicRate(nics[i], q) == RateIn(flt, b, f, Nic(n), q) {
      NicEntryRate(flt, b, f, n, q);
    }
  }

  lemma NicEntryRate(flt: Filter, b: Baseline, f: Frame, n: string, q: Quantity)
    requires n in NicsIn(flt, f) && Fits(Nic(n), q)
    ensures NicRate(NicEntry(n, NicsIn(flt, f)[n], Lookup(b.net, n), Elapsed(b.ts, f.now)), q)
      == RateIn(flt, b, f, Nic(n), q)
  {
    hide Rate, NicsIn;
    forall c: nat, p: nat ensures Rate(c, p, 0.0) == ZERO {
      NoGapNoRate(c, p);
    }
  }

  lemma NoGapNoRate(cur: nat, prev: nat)
    ensures Rate(cur, prev, 0.0) == ZERO
  {
  }

  function After(flt: Filter, b: Baseline, fs: seq<Frame>): Baseline {
    if fs == [] then b else Next(flt, After(flt, b, fs[..|fs| - 1]), fs[|fs| - 1])
  }

  /** The seconds between two clock readings in nanoseconds. */
  function Gap(ts: Option<int>, now: int): real {
    if ts.Some? then (now - ts.value) as real / 1_000_000_000.0 else 0.0
  }

  /** The sum of rate times gap. */
  function Volume(flt: Filter, b: Baseline, fs: seq<Frame>, d: Device, q: Quantity): real {
    if fs == [] then 0.0
    else
      var before, f := After(flt, b, fs[..|fs| - 1]), fs[|fs| - 1];
      Volume(flt, b, fs[..|fs| - 1], d, q) + RateIn(flt, before, f, d, q).r * Gap(before.ts, f.now)
  }

  /** The clock advances, and the counter, if read, has not fallen nor risen at more than the limit. */
  predicate Smooth(flt: Filter, b: Baseline, f: Frame, d: Device, q: Quantity) {
    && Gap(b.ts, f.now) > 0.0
    && var cur, last := Seen(flt, f, d), Last(b, d);
       cur.Some? && last.Some? ==>
         && Counter(cur.value, q) >= Counter(last.value, q)
         && (Counter(cur.value, q) - Counter(last.value, q)) as real <= RATE_LIMIT * Gap(b.ts, f.now)
  }

  predicate SmoothRun(flt: Filter, b: Baseline, fs: seq<Frame>, d: Device, q: Quantity) {
    fs == [] || (SmoothRun(flt, b, fs[..|fs| - 1], d, q)
      && Smooth(flt, After(flt, b, fs[..|fs| - 1]), fs[|fs| - 1], d, q))
  }

  lemma KnownStays(flt: Filter, b: Baseline, f: Frame, d: Device)
    ensures Last(Next(flt, b, f), d) == if Seen(flt, f, d).Some? then Seen(flt, f, d) else Last(b, d)
  {
    hide NicsIn, DisksIn;
  }

  /** The device is known in both, and `volume` is the change of its counter up to half a hundredth a second. */
  predicate Tracks(b: Baseline, e: Baseline, d: Device, q: Quantity, volume: real) {
    && b.ts.Some? && e.ts.Some? && b.ts.value <= e.ts.value && Last(b, d).Some? && Last(e, d).Some?
    && Close(volume, Counter(Last(e, d).value, q) - Counter(Last(b, d).value, q), e.ts.value - b.ts.value)
  }

  /**
    Telescoping: once a device is known, the reported rates times the gaps add up to the change of its
    counter, within half a hundredth per second, whatever other devices come and go. It need not be in
    every frame: after an absence the rate covers the whole change, though the gap is only the last one.
   */
  lemma {:induction false} Telescopes(flt: Filter, b: Baseline, fs: seq<Frame>, d: Device, q: Quantity)
    requires b.ts.Some? && Last(b, d).Some? && SmoothRun(flt, b, fs, d, q)
    ensures Tracks(b, After(flt, b, fs), d, q, Volume(flt, b, fs, d, q))
  {
    hide Close, RateIn, Smooth, Last, Elapsed, Gap, After, Volume, SmoothRun, Next, Counter;
    if fs == [] {
      NoFrames(flt, b, fs, d, q);
    } else {
      var front, f := fs[..|fs| - 1], fs[|fs| - 1];
      var m := After(flt, b, front);
      LastFrame(flt, b, fs, d, q);
      Telescopes(flt, b, front, d, q);
      TelescopesOne(flt, m, f, d, q);
      var v, v' := Volume(flt, b, front, d, q), RateIn(flt, m, f, d, q).r * Gap(m.ts, f.now);
      TracksOn(b, m, Next(flt, m, f), d, q, v, v');
      assert After(flt, b, fs) == Next(flt, m, f);
      assert Volume(flt, b, fs, d, q) == v + v';
    }
  }

  lemma NoFrames(flt: Filter, b: Baseline, fs: seq<Frame>, d: Device, q: Quantity)
    requires b.ts.Some? && Last(b, d).Some? && fs == []
    ensures Tracks(b, After(flt, b, fs), d, q, Volume(flt, b, fs, d, q))
  {
  }

  lemma TracksOn(b: Baseline, m: Baseline, e: Baseline, d: Device, q: Quantity, v: real, v': real)
    requires Tracks(b, m, d, q, v) && Tracks(m, e, d, q, v')
    ensures Tracks(b, e, d, q, v + v')
  {
    hide Close, Counter, Last;
    var start: int, middle: int, end: int := Counter(Last(b, d).value, q), Counter(Last(m, d).value, q),
      Counter(Last(e, d).value, q);
    CloseAdds(v, middle - start, m.ts.value - b.ts.value, v', end - middle, e.ts.value - m.ts.value);
  }

  lemma LastFrame(flt: Filter, b: Baseline, fs: seq<Frame>, d: Device, q: Quantity)
    requires fs != []
    ensures var front, f := fs[..|fs| - 1], fs[|fs| - 1]; var m := After(flt, b, front);
      && After(flt, b, fs) == Next(flt, m, f)
      && Volume(flt, b, fs, d, q) == Volume(flt, b, front, d, q) + RateIn(flt, m, f, d, q).r * Gap(m.ts, f.now)
      && (SmoothRun(flt, b, fs, d, q) ==> SmoothRun(flt, b, front, d, q) && Smooth(flt, m, f, d, q))
  {
    hide RateIn, Smooth, Next, Elapsed, Gap;
  }

  /** `volume` is `change` up to half a hundredth for every second of `nanos`. */
  predicate Close(volume: real, change: int, nanos: int) {
    var slack := 0.005 * (nanos as real / 1_000_000_000.0);
    -slack <= volume - change as real <= slack
  }

  lemma CloseAdds(v: real, c: int, n: int, v': real, c': int, n': int)
    requires Close(v, c, n) && Close(v', c', n')
    ensures Close(v + v', c + c', n + n')
  {
    assert (n + n') as real / NANOS_PER_SECOND == n as real / NANOS_PER_SECOND + n' as real / NANOS_PER_SECOND;
  }

  lemma TelescopesOne(flt: Filter, b: Baseline, f: Frame, d: Device, q: Quantity)
    requires b.ts.Some? && Last(b, d).Some? && Smooth(flt, b, f, d, q)
    ensures Tracks(b, Next(flt, b, f), d, q, RateIn(flt, b, f, d, q).r * Gap(b.ts, f.now))
  {
    hide Rate;
    KnownStays(flt, b, f, d);
    var dt := Elapsed(b.ts, f.now);
    if Seen(flt, f, d).Some? {
      RateTimesGap(Counter(Seen(flt, f, d).value, q), Counter(Last(b, d).value, q), dt);
    }
  }

  /** A device read for the first time has an entry, and every rate in it is zero. */
  lemma FirstSight(flt: Filter, b: Baseline, f: Frame, d: Device, q: Quantity)
    requires b.ts.None? || Last(b, d).None?
    ensures RateIn(flt, b, f, d, q) == ZERO
    ensures Seen(flt, f, d).Some? ==> Last(Next(flt, b, f), d) == Seen(flt, f, d)
  {
    KnownStays(flt, b, f, d);
  }
}

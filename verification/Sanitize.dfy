/**
  The last repair of a sample before it is validated (`sanitize` in
  uni_agent/internal/collect/tcp_sensor.go), and exactly which samples it can save.
 */
module Sanitize {
  import opened Options
  import opened Floats
  import opened Metrics

  function Floor0(v: Float): Float {
    if Negative(v) then ZERO else v
  }

  function Floor0Ptr(v: Option<Float>): Option<Float> {
    if v.Some? && Negative(v.value) then Some(ZERO) else v
  }

  function ClampPtr(v: Option<Float>): Option<Float> {
    if v.Some? then Some(ClampPercent(v.value)) else None
  }

  function Each<T, U>(items: seq<T>, f: T -> U): (r: seq<U>)
    ensures |r| == |items| && forall i :: 0 <= i < |items| ==> r[i] == f(items[i])
  {
    seq(|items|, i requires 0 <= i < |items| => f(items[i]))
  }

  function SaneDisk(d: DiskMetric): DiskMetric {
    var used, total := Floor0(d.usedGB), Floor0(d.totalGB);
    d.(usedPercent := ClampPercent(d.usedPercent), inodesUsedPercent := ClampPercent(d.inodesUsedPercent),
       usedGB := if Greater(used, total) then total else used, totalGB := total)
  }

  function SaneDiskIO(d: DiskIOMetric): DiskIOMetric {
    DiskIOMetric(d.name, NonNeg(d.readBytes), NonNeg(d.writeBytes), NonNeg(d.readOps), NonNeg(d.writeOps),
                 ClampPercent(d.ioTimePercent))
  }

  function SaneNIC(n: NICMetric): NICMetric {
    NICMetric(n.name, NonNeg(n.rxBytes), NonNeg(n.txBytes), NonNeg(n.rxPackets), NonNeg(n.txPackets),
              NonNeg(n.rxErrors), NonNeg(n.txErrors), NonNeg(n.rxDropped))
  }

  function Sanitized(s: Sample): Sample {
    s.(cpuUsedPercent := ClampPercent(s.cpuUsedPercent), cpuPerCore := Each(s.cpuPerCore, ClampPercent),
       cpuIOWait := ClampPtr(s.cpuIOWait),
       memUsedPercent := ClampPercent(s.memUsedPercent), memUsedMB := Floor0(s.memUsedMB),
       memAvailableMB := Floor0(s.memAvailableMB),
       swapUsedPercent := ClampPtr(s.swapUsedPercent), swapUsedMB := Floor0Ptr(s.swapUsedMB),
       disks := Each(s.disks, SaneDisk), diskIO := Each(s.diskIO, SaneDiskIO), nics := Each(s.nics, SaneNIC),
       tcpTotal := NonNegInt(s.tcpTotal), tcpEstablished := NonNegInt(s.tcpEstablished),
         tcpListen := NonNegInt(s.tcpListen),
       tcpTimeWait := NonNegInt(s.tcpTimeWait), tcpCloseWait := NonNegInt(s.tcpCloseWait),
         udpTotal := NonNegInt(s.udpTotal),
       procCount := NonNegInt(s.procCount), uptimeSec := if s.uptimeSec < 0 then 0 else s.uptimeSec)
  }

  // ----- what can be repaired -----

  predicate Cappable(v: Float) {
    !v.NaN? && !v.PosInf?
  }

  predicate RepairableDisk(d: DiskMetric) {
    d.mountpoint != "" && !d.usedGB.NaN? && Cappable(d.totalGB)
  }

  predicate RepairableDiskIO(d: DiskIOMetric) {
    d.name != "" && !d.readBytes.PosInf? && !d.writeBytes.PosInf? && !d.readOps.PosInf? && !d.writeOps.PosInf?
  }

  predicate RepairableNIC(n: NICMetric) {
    && n.name != "" && !n.rxBytes.PosInf? && !n.txBytes.PosInf? && !n.rxPackets.PosInf? && !n.txPackets.PosInf?
    && !n.rxErrors.PosInf? && !n.txErrors.PosInf? && !n.rxDropped.PosInf?
  }

  /** Nothing is asked of percentages, of the counts, or of negative sizes and rates. */
  predicate Repairable(s: Sample) {
    && s.t > 0 && Amount(s.load1) && Amount(s.load5) && Amount(s.load15)
    && Cappable(s.memUsedMB) && Cappable(s.memAvailableMB) && (s.swapUsedMB.Some? ==> Cappable(s.swapUsedMB.value))
    && LegalAgent(s.agent)
    && (forall i :: 0 <= i < |s.disks| ==> RepairableDisk(s.disks[i]))
    && (forall i :: 0 <= i < |s.diskIO| ==> RepairableDiskIO(s.diskIO[i]))
    && (forall i :: 0 <= i < |s.nics| ==> RepairableNIC(s.nics[i]))
    && (forall i :: 0 <= i < |s.sensors| ==> LegalSensor(s.sensors[i]))
  }

  lemma DiskRepair(d: DiskMetric)
    ensures LegalDisk(SaneDisk(d)) <==> RepairableDisk(d)
    ensures SaneDisk(SaneDisk(d)) == SaneDisk(d)
  {
    hide ClampPercent;
    ClampedPercent(d.usedPercent);
    ClampedPercent(d.inodesUsedPercent);
  }

  lemma DiskIORepair(d: DiskIOMetric)
    ensures LegalDiskIO(SaneDiskIO(d)) <==> RepairableDiskIO(d)
    ensures SaneDiskIO(SaneDiskIO(d)) == SaneDiskIO(d)
  {
    hide ClampPercent;
    ClampedPercent(d.ioTimePercent);
  }

  lemma NICRepair(n: NICMetric)
    ensures LegalNIC(SaneNIC(n)) <==> RepairableNIC(n)
    ensures SaneNIC(SaneNIC(n)) == SaneNIC(n)
  {
  }

  lemma PercentagesRepair(s: Sample)
    ensures var s' := Sanitized(s);
      && Percentage(s'.cpuUsedPercent) && (forall i :: 0 <= i < |s'.cpuPerCore| ==> Percentage(s'.cpuPerCore[i]))
      && (s'.cpuIOWait.Some? ==> Percentage(s'.cpuIOWait.value))
      && Percentage(s'.memUsedPercent) && (s'.swapUsedPercent.Some? ==> Percentage(s'.swapUsedPercent.value))
  {
    hide ClampPercent;
    forall v ensures Percentage(ClampPercent(v)) {
      ClampedPercent(v);
    }
  }

  lemma ListsRepair(s: Sample)
    ensures var s' := Sanitized(s);
      && ((forall i :: 0 <= i < |s'.disks| ==> LegalDisk(s'.disks[i])) <==>
           (forall i :: 0 <= i < |s.disks| ==> RepairableDisk(s.disks[i])))
      && ((forall i :: 0 <= i < |s'.diskIO| ==> LegalDiskIO(s'.diskIO[i])) <==>
           (forall i :: 0 <= i < |s.diskIO| ==> RepairableDiskIO(s.diskIO[i])))
      && ((forall i :: 0 <= i < |s'.nics| ==> LegalNIC(s'.nics[i])) <==>
           (forall i :: 0 <= i < |s.nics| ==> RepairableNIC(s.nics[i])))
  {
    hide LegalDisk, LegalDiskIO, LegalNIC, RepairableDisk, RepairableDiskIO, RepairableNIC, SaneDisk, SaneDiskIO,
      SaneNIC;
    var s' := Sanitized(s);
    forall i | 0 <= i < |s.disks| ensures LegalDisk(s'.disks[i]) <==> RepairableDisk(s.disks[i]) {
      DiskRepair(s.disks[i]);
    }
    forall i | 0 <= i < |s.diskIO| ensures LegalDiskIO(s'.diskIO[i]) <==> RepairableDiskIO(s.diskIO[i]) {
      DiskIORepair(s.diskIO[i]);
    }
    forall i | 0 <= i < |s.nics| ensures LegalNIC(s'.nics[i]) <==> RepairableNIC(s.nics[i]) { NICRepair(s.nics[i]); }
  }

  /** Validation succeeds after the repair for exactly the repairable samples. */
  lemma RepairSuffices(s: Sample)
    ensures Validate(Sanitized(s)).Pass? <==> Repairable(s)
  {
    hide Validate, ClampPercent, LegalDisk, LegalDiskIO, LegalNIC, LegalAgent, LegalSensor, RepairableDisk,
      RepairableDiskIO, RepairableNIC, Each;
    ValidateIsLegal(Sanitized(s));
    PercentagesRepair(s);
    ListsRepair(s);
  }

  /** A second repair changes nothing. */
  lemma Idempotent(s: Sample)
    ensures Sanitized(Sanitized(s)) == Sanitized(s)
  {
    hide ClampPercent, SaneDisk, SaneDiskIO, SaneNIC;
    forall v ensures ClampPercent(ClampPercent(v)) == ClampPercent(v) {
      ClampedPercent(v);
    }
    forall d ensures SaneDisk(SaneDisk(d)) == SaneDisk(d) { DiskRepair(d); }
    forall d ensures SaneDiskIO(SaneDiskIO(d)) == SaneDiskIO(d) { DiskIORepair(d); }
    forall n ensures SaneNIC(SaneNIC(n)) == SaneNIC(n) { NICRepair(n); }
  }

  // ----- what is kept -----

  predicate Near(a: Float, b: Float) {
    a.Fin? && b.Fin? && -0.005 <= a.r - b.r <= 0.005
  }

  predicate NearPtr(a: Option<Float>, b: Option<Float>) {
    a.Some? == b.Some? && (a.Some? ==> Near(a.value, b.value))
  }

  /** The same measurement: percentages are rounded, nothing else differs. */
  predicate Same(a: Sample, b: Sample) {
    && Near(a.cpuUsedPercent, b.cpuUsedPercent) && NearPtr(a.cpuIOWait, b.cpuIOWait)
       && Near(a.memUsedPercent, b.memUsedPercent)
    && NearPtr(a.swapUsedPercent, b.swapUsedPercent)
    && |a.cpuPerCore| == |b.cpuPerCore| && |a.disks| == |b.disks| && |a.diskIO| == |b.diskIO|
    && (forall i :: 0 <= i < |a.cpuPerCore| ==> Near(a.cpuPerCore[i], b.cpuPerCore[i]))
    && (forall i :: 0 <= i < |a.disks| ==> SameDisk(a.disks[i], b.disks[i]))
    && (forall i :: 0 <= i < |a.diskIO| ==> SameDiskIO(a.diskIO[i], b.diskIO[i]))
    && b == a.(cpuUsedPercent := b.cpuUsedPercent, cpuIOWait := b.cpuIOWait, memUsedPercent := b.memUsedPercent,
               swapUsedPercent := b.swapUsedPercent, cpuPerCore := b.cpuPerCore, disks := b.disks, diskIO := b.diskIO)
  }

  predicate SameDisk(a: DiskMetric, b: DiskMetric) {
    && Near(a.usedPercent, b.usedPercent) && Near(a.inodesUsedPercent, b.inodesUsedPercent)
    && b == a.(usedPercent := b.usedPercent, inodesUsedPercent := b.inodesUsedPercent)
  }

  predicate SameDiskIO(a: DiskIOMetric, b: DiskIOMetric) {
    Near(a.ioTimePercent, b.ioTimePercent) && b == a.(ioTimePercent := b.ioTimePercent)
  }

  /** A sample that was legal already is left as it was measured. */
  lemma Gentle(s: Sample)
    requires Legal(s)
    ensures Same(s, Sanitized(s))
  {
    hide ClampPercent, LegalAgent, LegalSensor;
    forall v | Percentage(v) ensures Near(v, ClampPercent(v)) {
      ClampedPercent(v);
    }
    forall i | 0 <= i < |s.disks| ensures SameDisk(s.disks[i], SaneDisk(s.disks[i])) {
      assert LegalDisk(s.disks[i]);
    }
    forall i | 0 <= i < |s.diskIO| ensures SameDiskIO(s.diskIO[i], SaneDiskIO(s.diskIO[i])) {
      assert LegalDiskIO(s.diskIO[i]);
    }
    assert Each(s.nics, SaneNIC) == s.nics by {
      forall i | 0 <= i < |s.nics| ensures SaneNIC(s.nics[i]) == s.nics[i] {
        assert LegalNIC(s.nics[i]);
      }
    }
  }

  // ----- and no more than necessary is changed -----

  /** `r` is as near to `v` as the legal value `x` is, up to the rounding of percentages. */
  predicate Nearer(v: Float, r: Float, x: Float) {
    v.Fin? && x.Fin? ==> r.Fin? && Distance(r.r, v.r) <= Distance(x.r, v.r) + 0.005
  }

  predicate NearerExactly(v: Float, r: Float, x: Float) {
    v.Fin? && x.Fin? ==> r.Fin? && Distance(r.r, v.r) <= Distance(x.r, v.r)
  }

  predicate NearerPtr(v: Option<Float>, r: Option<Float>, x: Option<Float>) {
    v.Some? == r.Some? && (v.Some? && x.Some? ==> Nearer(v.value, r.value, x.value))
  }

  predicate NearerCount(v: int, r: int, x: int) {
    (if r < v then v - r else r - v) <= (if x < v then v - x else x - v)
  }

  function Distance(a: real, b: real): real {
    if a < b then b - a else a - b
  }

  /** The repaired lists have the same entries in the same order, each repaired. */
  predicate SameShape(a: Sample, b: Sample) {
    && |a.cpuPerCore| == |b.cpuPerCore| && |a.disks| == |b.disks| && |a.diskIO| == |b.diskIO| && |a.nics| == |b.nics|
  }

  /** What is not a percentage, a size, a rate or a count is kept. */
  predicate KeepsTheRest(a: Sample, b: Sample)
    requires SameShape(a, b)
  {
    && b.t == a.t && b.load1 == a.load1 && b.load5 == a.load5 && b.load15 == a.load15
    && b.sensors == a.sensors && b.agent == a.agent
    && (forall i :: 0 <= i < |a.disks| ==>
          && b.disks[i].mountpoint == a.disks[i].mountpoint
          && b.disks[i].fsType == a.disks[i].fsType)
    && (forall i :: 0 <= i < |a.diskIO| ==> b.diskIO[i].name == a.diskIO[i].name)
    && (forall i :: 0 <= i < |a.nics| ==> b.nics[i].name == a.nics[i].name)
  }

  /**
    For every legal sample `x`: no number of the repaired sample is further from what was measured than
    that of `x`, up to the rounding of percentages.
   */
  lemma LeastRepair(s: Sample, x: Sample)
    requires Legal(x)
    ensures var r := Sanitized(s);
      && SameShape(s, r) && KeepsTheRest(s, r)
      && Nearer(s.cpuUsedPercent, r.cpuUsedPercent, x.cpuUsedPercent)
         && NearerPtr(s.cpuIOWait, r.cpuIOWait, x.cpuIOWait)
      && Nearer(s.memUsedPercent, r.memUsedPercent, x.memUsedPercent)
      && NearerPtr(s.swapUsedPercent, r.swapUsedPercent, x.swapUsedPercent)
      && NearerExactly(s.memUsedMB, r.memUsedMB, x.memUsedMB)
      && NearerExactly(s.memAvailableMB, r.memAvailableMB, x.memAvailableMB)
      && NearerPtr(s.swapUsedMB, r.swapUsedMB, x.swapUsedMB)
      && NearerCount(s.tcpTotal, r.tcpTotal, x.tcpTotal)
         && NearerCount(s.tcpEstablished, r.tcpEstablished, x.tcpEstablished)
      && NearerCount(s.tcpListen, r.tcpListen, x.tcpListen) && NearerCount(s.tcpTimeWait, r.tcpTimeWait, x.tcpTimeWait)
      && NearerCount(s.tcpCloseWait, r.tcpCloseWait, x.tcpCloseWait) && NearerCount(s.udpTotal, r.udpTotal, x.udpTotal)
      && NearerCount(s.procCount, r.procCount, x.procCount) && NearerCount(s.uptimeSec, r.uptimeSec, x.uptimeSec)
      && (forall i :: 0 <= i < |s.cpuPerCore| && i < |x.cpuPerCore| ==>
           Nearer(s.cpuPerCore[i], r.cpuPerCore[i], x.cpuPerCore[i]))
  {
    hide ClampPercent, Distance, LegalAgent, LegalSensor;
    forall v, p | Percentage(p) ensures Nearer(v, ClampPercent(v), p) {
      LeastClamp(v, p);
    }
    forall v, a | Amount(a) ensures NearerExactly(v, Floor0(v), a) && Nearer(v, Floor0(v), a) {
      LeastFloor(v, a);
    }
    if s.swapUsedMB.Some? {
      assert Floor0Ptr(s.swapUsedMB) == Some(Floor0(s.swapUsedMB.value));
    }
  }

  lemma LeastClamp(v: Float, x: Float)
    requires Percentage(x)
    ensures Nearer(v, ClampPercent(v), x)
  {
    ClampedPercent(v);
  }

  lemma LeastFloor(v: Float, x: Float)
    requires Amount(x)
    ensures NearerExactly(v, Floor0(v), x) && Nearer(v, Floor0(v), x) && NearerExactly(v, NonNeg(v), x)
  {
  }

  /** The same for the entries of the lists; a used size above the total is lowered to the total. */
  lemma LeastDiskRepair(d: DiskMetric, x: DiskMetric)
    requires LegalDisk(x)
    ensures var r := SaneDisk(d);
      && Nearer(d.usedPercent, r.usedPercent, x.usedPercent)
      && Nearer(d.inodesUsedPercent, r.inodesUsedPercent, x.inodesUsedPercent)
      && NearerExactly(d.totalGB, r.totalGB, x.totalGB)
      && (x.totalGB == r.totalGB ==> NearerExactly(d.usedGB, r.usedGB, x.usedGB))
  {
    hide ClampPercent;
    LeastClamp(d.usedPercent, x.usedPercent);
    LeastClamp(d.inodesUsedPercent, x.inodesUsedPercent);
  }

  lemma LeastDiskIORepair(d: DiskIOMetric, x: DiskIOMetric)
    requires LegalDiskIO(x)
    ensures var r := SaneDiskIO(d);
      && NearerExactly(d.readBytes, r.readBytes, x.readBytes) && NearerExactly(d.writeBytes, r.writeBytes, x.writeBytes)
      && NearerExactly(d.readOps, r.readOps, x.readOps) && NearerExactly(d.writeOps, r.writeOps, x.writeOps)
      && Nearer(d.ioTimePercent, r.ioTimePercent, x.ioTimePercent)
  {
    hide ClampPercent;
    LeastClamp(d.ioTimePercent, x.ioTimePercent);
  }

  lemma LeastNICRepair(n: NICMetric, x: NICMetric)
    requires LegalNIC(x)
    ensures var r := SaneNIC(n);
      && NearerExactly(n.rxBytes, r.rxBytes, x.rxBytes) && NearerExactly(n.txBytes, r.txBytes, x.txBytes)
      && NearerExactly(n.rxPackets, r.rxPackets, x.rxPackets) && NearerExactly(n.txPackets, r.txPackets, x.txPackets)
      && NearerExactly(n.rxErrors, r.rxErrors, x.rxErrors) && NearerExactly(n.txErrors, r.txErrors, x.txErrors)
      && NearerExactly(n.rxDropped, r.rxDropped, x.rxDropped)
  {
  }

  // ----- the code -----

  /** A `*MetricsSample`: the fields and slice elements are rewritten in place. */
  class SampleCell {
    var s: Sample

    constructor (s: Sample)
      ensures this.s == s
    {
      this.s := s;
    }

    method Sanitize()
      modifies this
      ensures s == Sanitized(old(s))
    {
      s := s.(cpuUsedPercent := ClampPercent(s.cpuUsedPercent));
      SanitizeCores();
      if s.cpuIOWait.Some? {
        s := s.(cpuIOWait := Some(ClampPercent(s.cpuIOWait.value)));
      }
      SanitizeMemory();
      SanitizeDisks();
      SanitizeDiskIO();
      SanitizeNICs();
      s := s.(tcpTotal := NonNegInt(s.tcpTotal), tcpEstablished := NonNegInt(s.tcpEstablished));
      s := s.(tcpListen := NonNegInt(s.tcpListen), tcpTimeWait := NonNegInt(s.tcpTimeWait));
      s := s.(tcpCloseWait := NonNegInt(s.tcpCloseWait), udpTotal := NonNegInt(s.udpTotal),
        procCount := NonNegInt(s.procCount));
      if s.uptimeSec < 0 {
        s := s.(uptimeSec := 0);
      }
    }

    method SanitizeCores()
      modifies this
      ensures s == old(s).(cpuPerCore := Each(old(s).cpuPerCore, ClampPercent))
    {
      for i := 0 to |s.cpuPerCore|
        invariant s == old(s).(cpuPerCore := s.cpuPerCore) && |s.cpuPerCore| == |old(s).cpuPerCore|
        invariant forall k :: 0 <= k < i ==> s.cpuPerCore[k] == ClampPercent(old(s).cpuPerCore[k])
        invariant forall k :: i <= k < |s.cpuPerCore| ==> s.cpuPerCore[k] == old(s).cpuPerCore[k]
      {
        s := s.(cpuPerCore := s.cpuPerCore[i := ClampPercent(s.cpuPerCore[i])]);
      }
      assert s.cpuPerCore == Each(old(s).cpuPerCore, ClampPercent);
    }

    method SanitizeMemory()
      modifies this
      ensures s == old(s).(memUsedPercent := ClampPercent(old(s).memUsedPercent), memUsedMB := Floor0(old(s).memUsedMB),
        memAvailableMB := Floor0(old(s).memAvailableMB), swapUsedPercent := ClampPtr(old(s).swapUsedPercent),
        swapUsedMB := Floor0Ptr(old(s).swapUsedMB))
    {
      s := s.(memUsedPercent := ClampPercent(s.memUsedPercent));
      if Negative(s.memUsedMB) {
        s := s.(memUsedMB := ZERO);
      }
      if Negative(s.memAvailableMB) {
        s := s.(memAvailableMB := ZERO);
      }
      if s.swapUsedPercent.Some? {
        s := s.(swapUsedPercent := Some(ClampPercent(s.swapUsedPercent.value)));
      }
      if s.swapUsedMB.Some? && Negative(s.swapUsedMB.value) {
        s := s.(swapUsedMB := Some(ZERO));
      }
    }

    method SanitizeDisks()
      modifies this
      ensures s == old(s).(disks := Each(old(s).disks, SaneDisk))
    {
      for i := 0 to |s.disks|
        invariant s == old(s).(disks := s.disks) && |s.disks| == |old(s).disks|
        invariant forall k :: 0 <= k < i ==> s.disks[k] == SaneDisk(old(s).disks[k])
        invariant forall k :: i <= k < |s.disks| ==> s.disks[k] == old(s).disks[k]
      {
        var d := s.disks[i];
        d := d.(usedPercent := ClampPercent(d.usedPercent), inodesUsedPercent := ClampPercent(d.inodesUsedPercent));
        if Negative(d.usedGB) {
          d := d.(usedGB := ZERO);
        }
        if Negative(d.totalGB) {
          d := d.(totalGB := ZERO);
        }
        if Greater(d.usedGB, d.totalGB) {
          d := d.(usedGB := d.totalGB);
        }
        s := s.(disks := s.disks[i := d]);
      }
      assert s.disks == Each(old(s).disks, SaneDisk);
    }

    method SanitizeDiskIO()
      modifies this
      ensures s == old(s).(diskIO := Each(old(s).diskIO, SaneDiskIO))
    {
      for i := 0 to |s.diskIO|
        invariant s == old(s).(diskIO := s.diskIO) && |s.diskIO| == |old(s).diskIO|
        invariant forall k :: 0 <= k < i ==> s.diskIO[k] == SaneDiskIO(old(s).diskIO[k])
        invariant forall k :: i <= k < |s.diskIO| ==> s.diskIO[k] == old(s).diskIO[k]
      {
        var d := s.diskIO[i];
        d := d.(readBytes := NonNeg(d.readBytes), writeBytes := NonNeg(d.writeBytes));
        d := d.(readOps := NonNeg(d.readOps), writeOps := NonNeg(d.writeOps),
          ioTimePercent := ClampPercent(d.ioTimePercent));
        s := s.(diskIO := s.diskIO[i := d]);
      }
      assert s.diskIO == Each(old(s).diskIO, SaneDiskIO);
    }

    method SanitizeNICs()
      modifies this
      ensures s == old(s).(nics := Each(old(s).nics, SaneNIC))
    {
      for i := 0 to |s.nics|
        invariant s == old(s).(nics := s.nics) && |s.nics| == |old(s).nics|
        invariant forall k :: 0 <= k < i ==> s.nics[k] == SaneNIC(old(s).nics[k])
        invariant forall k :: i <= k < |s.nics| ==> s.nics[k] == old(s).nics[k]
      {
        var n := s.nics[i];
        n := n.(rxBytes := NonNeg(n.rxBytes), txBytes := NonNeg(n.txBytes), rxPackets := NonNeg(n.rxPackets));
        n := n.(txPackets := NonNeg(n.txPackets), rxErrors := NonNeg(n.rxErrors), txErrors := NonNeg(n.txErrors));
        n := n.(rxDropped := NonNeg(n.rxDropped));
        s := s.(nics := s.nics[i := n]);
      }
      assert s.nics == Each(old(s).nics, SaneNIC);
    }

    /** The end of `Collector.Sample`: repair, then validate; the frame is dropped on an error. */
    method Finish() returns (r: Check<SampleError>)
      modifies this
      ensures s == Sanitized(old(s)) && r == Validate(s) && (r.Pass? <==> Repairable(old(s)))
    {
      Sanitize();
      r := Validate(s);
      RepairSuffices(old(s));
    }
  }
}

/** One sample of a machine and its validation (uni_protocol/metrics.go). */
module Metrics {
  import opened Options
  import opened Floats

  datatype DiskMetric = DiskMetric(
    mountpoint: string, fsType: string, usedPercent: Float, usedGB: Float, totalGB: Float, inodesUsedPercent: Float)

  datatype DiskIOMetric = DiskIOMetric(
    name: string, readBytes: Float, writeBytes: Float, readOps: Float, writeOps: Float, ioTimePercent: Float)

  datatype NICMetric = NICMetric(
    name: string, rxBytes: Float, txBytes: Float, rxPackets: Float, txPackets: Float,
    rxErrors: Float, txErrors: Float, rxDropped: Float)

  datatype SensorMetric = SensorMetric(name: string, temperatureC: Option<Float>)

  datatype AgentMetric = AgentMetric(
    collectDurationMs: Float, reportSuccessCount: int, reportErrorCount: int, lastReportError: string,
    wsReconnectCount: int, memResidentMB: Option<Float>, pendingBacklog: Option<int>,
    lastReportLatencyMs: Option<Float>, reportDropCount: Option<int>, agentUptimeSec: Option<int>)

  datatype Sample = Sample(
    t: int,
    cpuUsedPercent: Float, cpuPerCore: seq<Float>, cpuIOWait: Option<Float>, load1: Float, load5: Float, load15: Float,
    memUsedPercent: Float, memUsedMB: Float, memAvailableMB: Float, swapUsedPercent: Option<Float>,
      swapUsedMB: Option<Float>,
    disks: seq<DiskMetric>, diskIO: seq<DiskIOMetric>, nics: seq<NICMetric>,
    tcpTotal: int, tcpEstablished: int, tcpListen: int, tcpTimeWait: int, tcpCloseWait: int, udpTotal: int,
    procCount: int, sensors: seq<SensorMetric>, uptimeSec: int, agent: AgentMetric)

  datatype ErrorKind = InvalidTimestamp | MissingField | Unrepresentable | InvalidPayload

  datatype SampleError = SampleError(field: string, kind: ErrorKind)

  // ----- Validate: the first failing check decides -----

  function Demand(condition: bool, field: string, kind: ErrorKind): Check<SampleError> {
    if condition then Pass else Fail(SampleError(field, kind))
  }

  function CheckFinite(field: string, v: Float): Check<SampleError> {
    Demand(v.Fin?, field, Unrepresentable)
  }

  function CheckPercent(field: string, v: Float): Check<SampleError> {
    CheckFinite(field, v).Then(Demand(!Negative(v) && !Greater(v, HUNDRED), field, InvalidPayload))
  }

  function CheckNonNeg(field: string, v: Float): Check<SampleError> {
    CheckFinite(field, v).Then(Demand(!Negative(v), field, InvalidPayload))
  }

  function CheckCount(field: string, v: int): Check<SampleError> {
    Demand(v >= 0, field, InvalidPayload)
  }

  function CheckPercentPtr(field: string, v: Option<Float>): Check<SampleError> {
    if v.None? then Pass else CheckPercent(field, v.value)
  }

  function CheckNonNegPtr(field: string, v: Option<Float>): Check<SampleError> {
    if v.None? then Pass else CheckNonNeg(field, v.value)
  }

  function CheckCountPtr(field: string, v: Option<int>): Check<SampleError> {
    if v.None? then Pass else CheckCount(field, v.value)
  }

  /** The checks of a list, element after element. */
  function CheckAll<T>(items: seq<T>, check: T -> Check<SampleError>): Check<SampleError> {
    if items == [] then Pass else check(items[0]).Then(CheckAll(items[1..], check))
  }

  function CheckDisk(d: DiskMetric): Check<SampleError> {
    Demand(d.mountpoint != "", "disks.mountpoint", MissingField)
    .Then(CheckPercent("disks.used_percent", d.usedPercent))
    .Then(CheckNonNeg("disks.used_gb", d.usedGB))
    .Then(CheckNonNeg("disks.total_gb", d.totalGB))
    .Then(Demand(!Greater(d.usedGB, d.totalGB), "disks.used_gb", InvalidPayload))
    .Then(CheckPercent("disks.inodes_used_percent", d.inodesUsedPercent))
  }

  function CheckDiskIO(d: DiskIOMetric): Check<SampleError> {
    Demand(d.name != "", "disk_io.name", MissingField)
    .Then(CheckNonNeg("disk_io.read_bytes_per_sec", d.readBytes))
    .Then(CheckNonNeg("disk_io.write_bytes_per_sec", d.writeBytes))
    .Then(CheckNonNeg("disk_io.read_ops_per_sec", d.readOps))
    .Then(CheckNonNeg("disk_io.write_ops_per_sec", d.writeOps))
    .Then(CheckPercent("disk_io.io_time_percent", d.ioTimePercent))
  }

  function CheckNIC(n: NICMetric): Check<SampleError> {
    Demand(n.name != "", "nics.name", MissingField)
    .Then(CheckNonNeg("nics.rx_bytes_per_sec", n.rxBytes))
    .Then(CheckNonNeg("nics.tx_bytes_per_sec", n.txBytes))
    .Then(CheckNonNeg("nics.rx_packets_per_sec", n.rxPackets))
    .Then(CheckNonNeg("nics.tx_packets_per_sec", n.txPackets))
    .Then(CheckNonNeg("nics.rx_errors_per_sec", n.rxErrors))
    .Then(CheckNonNeg("nics.tx_errors_per_sec", n.txErrors))
    .Then(CheckNonNeg("nics.rx_dropped_per_sec", n.rxDropped))
  }

  function CheckSensor(sm: SensorMetric): Check<SampleError> {
    Demand(sm.name != "", "sensors.name", MissingField)
    .Then(if sm.temperatureC.None? then Pass else CheckFinite("sensors.temperature_c", sm.temperatureC.value))
  }

  function CheckAgent(a: AgentMetric): Check<SampleError> {
    CheckNonNeg("agent.collect_duration_ms", a.collectDurationMs)
    .Then(CheckCount("agent.report_success_count", a.reportSuccessCount))
    .Then(CheckCount("agent.report_error_count", a.reportErrorCount))
    .Then(CheckCount("agent.ws_reconnect_count", a.wsReconnectCount))
    .Then(CheckNonNegPtr("agent.mem_resident_mb", a.memResidentMB))
    .Then(CheckCountPtr("agent.pending_backlog", a.pendingBacklog))
    .Then(CheckNonNegPtr("agent.last_report_latency_ms", a.lastReportLatencyMs))
    .Then(CheckCountPtr("agent.report_drop_count", a.reportDropCount))
    .Then(CheckCountPtr("agent.agent_uptime_sec", a.agentUptimeSec))
  }

  function CheckCounts(s: Sample): Check<SampleError> {
    CheckCount("tcp_total", s.tcpTotal)
    .Then(CheckCount("tcp_established", s.tcpEstablished))
    .Then(CheckCount("tcp_listen", s.tcpListen))
    .Then(CheckCount("tcp_time_wait", s.tcpTimeWait))
    .Then(CheckCount("tcp_close_wait", s.tcpCloseWait))
    .Then(CheckCount("udp_total", s.udpTotal))
    .Then(CheckCount("proc_count", s.procCount))
  }

  function Validate(s: Sample): Check<SampleError> {
    Demand(s.t > 0, "t", InvalidTimestamp)
    .Then(CheckPercent("cpu_used_percent", s.cpuUsedPercent))
    .Then(CheckAll(s.cpuPerCore, v => CheckPercent("cpu_per_core", v)))
    .Then(CheckPercentPtr("cpu_iowait", s.cpuIOWait))
    .Then(CheckNonNeg("load1", s.load1))
    .Then(CheckNonNeg("load5", s.load5))
    .Then(CheckNonNeg("load15", s.load15))
    .Then(CheckPercent("mem_used_percent", s.memUsedPercent))
    .Then(CheckNonNeg("mem_used_mb", s.memUsedMB))
    .Then(CheckNonNeg("mem_available_mb", s.memAvailableMB))
    .Then(CheckPercentPtr("swap_used_percent", s.swapUsedPercent))
    .Then(CheckNonNegPtr("swap_used_mb", s.swapUsedMB))
    .Then(CheckAll(s.disks, CheckDisk))
    .Then(CheckAll(s.diskIO, CheckDiskIO))
    .Then(CheckAll(s.nics, CheckNIC))
    .Then(CheckCounts(s))
    .Then(CheckAll(s.sensors, CheckSensor))
    .Then(CheckCount("uptime_sec", s.uptimeSec))
    .Then(CheckAgent(s.agent))
  }

  lemma {:induction false} AllPass<T>(items: seq<T>, check: T -> Check<SampleError>)
    ensures CheckAll(items, check).Pass? <==> forall i :: 0 <= i < |items| ==> check(items[i]).Pass?
  {
    if items != [] {
      AllPass(items[1..], check);
      assert forall i :: 1 <= i < |items| ==> items[i] == items[1..][i - 1];
    }
  }

  // ----- what a sample must be -----

  predicate Percentage(v: Float) {
    v.Fin? && 0.0 <= v.r <= 100.0
  }

  predicate Amount(v: Float) {
    v.Fin? && v.r >= 0.0
  }

  predicate LegalDisk(d: DiskMetric) {
    && d.mountpoint != "" && Percentage(d.usedPercent) && Percentage(d.inodesUsedPercent)
    && Amount(d.usedGB) && Amount(d.totalGB) && d.usedGB.r <= d.totalGB.r
  }

  predicate LegalDiskIO(d: DiskIOMetric) {
    && d.name != "" && Amount(d.readBytes) && Amount(d.writeBytes) && Amount(d.readOps) && Amount(d.writeOps)
    && Percentage(d.ioTimePercent)
  }

  predicate LegalNIC(n: NICMetric) {
    && n.name != "" && Amount(n.rxBytes) && Amount(n.txBytes) && Amount(n.rxPackets) && Amount(n.txPackets)
    && Amount(n.rxErrors) && Amount(n.txErrors) && Amount(n.rxDropped)
  }

  predicate LegalSensor(sm: SensorMetric) {
    sm.name != "" && (sm.temperatureC.Some? ==> sm.temperatureC.value.Fin?)
  }

  predicate LegalAgent(a: AgentMetric) {
    && Amount(a.collectDurationMs) && a.reportSuccessCount >= 0 && a.reportErrorCount >= 0 && a.wsReconnectCount >= 0
    && (a.memResidentMB.Some? ==> Amount(a.memResidentMB.value))
    && (a.pendingBacklog.Some? ==> a.pendingBacklog.value >= 0)
    && (a.lastReportLatencyMs.Some? ==> Amount(a.lastReportLatencyMs.value))
    && (a.reportDropCount.Some? ==> a.reportDropCount.value >= 0)
    && (a.agentUptimeSec.Some? ==> a.agentUptimeSec.value >= 0)
  }

  predicate LegalCpuAndMemory(s: Sample) {
    && Percentage(s.cpuUsedPercent) && (forall i :: 0 <= i < |s.cpuPerCore| ==> Percentage(s.cpuPerCore[i]))
    && (s.cpuIOWait.Some? ==> Percentage(s.cpuIOWait.value))
    && Amount(s.load1) && Amount(s.load5) && Amount(s.load15)
    && Percentage(s.memUsedPercent) && Amount(s.memUsedMB) && Amount(s.memAvailableMB)
    && (s.swapUsedPercent.Some? ==> Percentage(s.swapUsedPercent.value))
    && (s.swapUsedMB.Some? ==> Amount(s.swapUsedMB.value))
  }

  predicate LegalCounts(s: Sample) {
    && s.tcpTotal >= 0 && s.tcpEstablished >= 0 && s.tcpListen >= 0 && s.tcpTimeWait >= 0 && s.tcpCloseWait >= 0
    && s.udpTotal >= 0 && s.procCount >= 0 && s.uptimeSec >= 0
  }

  predicate Legal(s: Sample) {
    && s.t > 0 && LegalCpuAndMemory(s) && LegalCounts(s) && LegalAgent(s.agent)
    && (forall i :: 0 <= i < |s.disks| ==> LegalDisk(s.disks[i]))
    && (forall i :: 0 <= i < |s.diskIO| ==> LegalDiskIO(s.diskIO[i]))
    && (forall i :: 0 <= i < |s.nics| ==> LegalNIC(s.nics[i]))
    && (forall i :: 0 <= i < |s.sensors| ==> LegalSensor(s.sensors[i]))
  }

  lemma DiskChecks(d: DiskMetric)
    ensures CheckDisk(d).Pass? <==> LegalDisk(d)
  {
  }

  lemma DiskIOChecks(d: DiskIOMetric)
    ensures CheckDiskIO(d).Pass? <==> LegalDiskIO(d)
  {
  }

  lemma NICChecks(n: NICMetric)
    ensures CheckNIC(n).Pass? <==> LegalNIC(n)
  {
  }

  lemma AgentChecks(a: AgentMetric)
    ensures CheckAgent(a).Pass? <==> LegalAgent(a)
  {
  }

  lemma ListChecks(s: Sample)
    ensures CheckAll(s.disks, CheckDisk).Pass? <==> forall i :: 0 <= i < |s.disks| ==> LegalDisk(s.disks[i])
    ensures CheckAll(s.diskIO, CheckDiskIO).Pass? <==> forall i :: 0 <= i < |s.diskIO| ==> LegalDiskIO(s.diskIO[i])
    ensures CheckAll(s.nics, CheckNIC).Pass? <==> forall i :: 0 <= i < |s.nics| ==> LegalNIC(s.nics[i])
    ensures CheckAll(s.sensors, CheckSensor).Pass? <==> forall i :: 0 <= i < |s.sensors| ==> LegalSensor(s.sensors[i])
  {
    hide CheckAll, CheckDisk, CheckDiskIO, CheckNIC, LegalDisk, LegalDiskIO, LegalNIC;
    AllPass(s.disks, CheckDisk);
    AllPass(s.diskIO, CheckDiskIO);
    AllPass(s.nics, CheckNIC);
    AllPass(s.sensors, CheckSensor);
    forall i | 0 <= i < |s.disks| ensures CheckDisk(s.disks[i]).Pass? <==> LegalDisk(s.disks[i]) {
      DiskChecks(s.disks[i]);
    }
    forall i | 0 <= i < |s.diskIO| ensures CheckDiskIO(s.diskIO[i]).Pass? <==> LegalDiskIO(s.diskIO[i]) {
      DiskIOChecks(s.diskIO[i]);
    }
    forall i | 0 <= i < |s.nics| ensures CheckNIC(s.nics[i]).Pass? <==> LegalNIC(s.nics[i]) { NICChecks(s.nics[i]); }
  }

  /** `Validate` accepts exactly the legal samples. */
  lemma ValidateIsLegal(s: Sample)
    ensures Validate(s).Pass? <==> Legal(s)
  {
    hide CheckAll, CheckDisk, CheckDiskIO, CheckNIC, CheckSensor, CheckAgent, LegalDisk, LegalDiskIO, LegalNIC,
      LegalSensor, LegalAgent;
    AllPass(s.cpuPerCore, v => CheckPercent("cpu_per_core", v));
    ListChecks(s);
    AgentChecks(s.agent);
  }
}

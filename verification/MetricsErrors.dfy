/**
  Which error the validation of a sample reports (uni_protocol/metrics.go): the rows of a table with the
  wire name of every field, in order, and the first row that is wrong.
 */
module MetricsErrors {
  import opened Options
  import opened Floats
  import opened Metrics

  /** What is demanded of a value. */
  datatype Reading =
    | Time(t: int) | Percent(v: Float) | Size(v: Float) | Plain(v: Float) | Number(n: int) | Name(text: string)
    | Within(used: Float, total: Float)

  datatype Row = Row(field: string, reading: Reading)

  function Wrong(field: string, kind: ErrorKind): Check<SampleError> {
    Fail(SampleError(field, kind))
  }

  function ErrorOf(row: Row): Check<SampleError> {
    match row.reading
    case Time(t) => if t > 0 then Pass else Wrong(row.field, InvalidTimestamp)
    case Percent(v) =>
      if !v.Fin? then Wrong(row.field, Unrepresentable)
      else if v.r < 0.0 || v.r > 100.0 then Wrong(row.field, InvalidPayload) else Pass
    case Size(v) =>
      if !v.Fin? then Wrong(row.field, Unrepresentable)
      else if v.r < 0.0 then Wrong(row.field, InvalidPayload) else Pass
    case Plain(v) => if v.Fin? then Pass else Wrong(row.field, Unrepresentable)
    case Number(n) => if n < 0 then Wrong(row.field, InvalidPayload) else Pass
    case Name(text) => if text == "" then Wrong(row.field, MissingField) else Pass
    case Within(used, total) => if Greater(used, total) then Wrong(row.field, InvalidPayload) else Pass
  }

  function FirstFrom(rows: seq<Row>, k: nat): Check<SampleError>
    requires k <= |rows|
    decreases |rows| - k
  {
    if k == |rows| then Pass
    else if ErrorOf(rows[k]).Fail? then ErrorOf(rows[k])
    else FirstFrom(rows, k + 1)
  }

  /** The error of the first wrong row. */
  function First(rows: seq<Row>): Check<SampleError> {
    FirstFrom(rows, 0)
  }

  // ----- the table -----

  function DiskRows(d: DiskMetric): seq<Row> {
    [Row("disks.mountpoint", Name(d.mountpoint)), Row("disks.used_percent", Percent(d.usedPercent)),
     Row("disks.used_gb", Size(d.usedGB)), Row("disks.total_gb", Size(d.totalGB)),
     Row("disks.used_gb", Within(d.usedGB, d.totalGB)), Row("disks.inodes_used_percent", Percent(d.inodesUsedPercent))]
  }

  function DiskIORows(d: DiskIOMetric): seq<Row> {
    [Row("disk_io.name", Name(d.name)),
     Row("disk_io.read_bytes_per_sec", Size(d.readBytes)), Row("disk_io.write_bytes_per_sec", Size(d.writeBytes)),
     Row("disk_io.read_ops_per_sec", Size(d.readOps)), Row("disk_io.write_ops_per_sec", Size(d.writeOps)),
     Row("disk_io.io_time_percent", Percent(d.ioTimePercent))]
  }

  function NICRows(n: NICMetric): seq<Row> {
    [Row("nics.name", Name(n.name)),
     Row("nics.rx_bytes_per_sec", Size(n.rxBytes)), Row("nics.tx_bytes_per_sec", Size(n.txBytes)),
     Row("nics.rx_packets_per_sec", Size(n.rxPackets)), Row("nics.tx_packets_per_sec", Size(n.txPackets)),
     Row("nics.rx_errors_per_sec", Size(n.rxErrors)), Row("nics.tx_errors_per_sec", Size(n.txErrors)),
     Row("nics.rx_dropped_per_sec", Size(n.rxDropped))]
  }

  function SensorRows(sm: SensorMetric): seq<Row> {
    [Row("sensors.name", Name(sm.name))]
    + if sm.temperatureC.Some? then [Row("sensors.temperature_c", Plain(sm.temperatureC.value))] else []
  }

  function CoreRows(v: Float): seq<Row> {
    [Row("cpu_per_core", Percent(v))]
  }

  function CountRows(s: Sample): seq<Row> {
    [Row("tcp_total", Number(s.tcpTotal)), Row("tcp_established", Number(s.tcpEstablished)),
     Row("tcp_listen", Number(s.tcpListen)), Row("tcp_time_wait", Number(s.tcpTimeWait)),
     Row("tcp_close_wait", Number(s.tcpCloseWait)), Row("udp_total", Number(s.udpTotal)),
     Row("proc_count", Number(s.procCount))]
  }

  function PercentRow(field: string, v: Option<Float>): seq<Row> {
    if v.Some? then [Row(field, Percent(v.value))] else []
  }

  function SizeRow(field: string, v: Option<Float>): seq<Row> {
    if v.Some? then [Row(field, Size(v.value))] else []
  }

  function NumberRow(field: string, v: Option<int>): seq<Row> {
    if v.Some? then [Row(field, Number(v.value))] else []
  }

  function PlainAgentRows(a: AgentMetric): seq<Row> {
    [Row("agent.collect_duration_ms", Size(a.collectDurationMs)),
     Row("agent.report_success_count", Number(a.reportSuccessCount)),
     Row("agent.report_error_count", Number(a.reportErrorCount)),
     Row("agent.ws_reconnect_count", Number(a.wsReconnectCount))]
  }

  function AgentRows(a: AgentMetric): seq<Row> {
    PlainAgentRows(a)
    + SizeRow("agent.mem_resident_mb", a.memResidentMB)
    + NumberRow("agent.pending_backlog", a.pendingBacklog)
    + SizeRow("agent.last_report_latency_ms", a.lastReportLatencyMs)
    + NumberRow("agent.report_drop_count", a.reportDropCount)
    + NumberRow("agent.agent_uptime_sec", a.agentUptimeSec)
  }

  function PlainMemoryRows(s: Sample): seq<Row> {
    [Row("load1", Size(s.load1)), Row("load5", Size(s.load5)), Row("load15", Size(s.load15)),
     Row("mem_used_percent", Percent(s.memUsedPercent)), Row("mem_used_mb", Size(s.memUsedMB)),
     Row("mem_available_mb", Size(s.memAvailableMB))]
  }

  function MemoryRows(s: Sample): seq<Row> {
    PlainMemoryRows(s)
    + PercentRow("swap_used_percent", s.swapUsedPercent) + SizeRow("swap_used_mb", s.swapUsedMB)
  }

  function Flat<T>(items: seq<T>, rows: T -> seq<Row>): seq<Row> {
    if items == [] then [] else rows(items[0]) + Flat(items[1..], rows)
  }

  function Rows(s: Sample): seq<Row> {
    [Row("t", Time(s.t)), Row("cpu_used_percent", Percent(s.cpuUsedPercent))]
    + Flat(s.cpuPerCore, CoreRows) + PercentRow("cpu_iowait", s.cpuIOWait) + MemoryRows(s)
    + Flat(s.disks, DiskRows) + Flat(s.diskIO, DiskIORows) + Flat(s.nics, NICRows) + CountRows(s)
    + Flat(s.sensors, SensorRows) + [Row("uptime_sec", Number(s.uptimeSec))] + AgentRows(s.agent)
  }

  // ----- that this is what the checks report -----

  lemma {:induction false} FirstAppendFrom(a: seq<Row>, b: seq<Row>, k: nat)
    requires k <= |a|
    ensures FirstFrom(a + b, k) == FirstFrom(a, k).Then(First(b))
    decreases |a| - k
  {
    hide ErrorOf;
    if k == |a| {
      Shift(a, b, 0);
    } else {
      FirstAppendFrom(a, b, k + 1);
    }
  }

  lemma {:induction false} Shift(a: seq<Row>, b: seq<Row>, k: nat)
    requires k <= |b|
    ensures FirstFrom(a + b, |a| + k) == FirstFrom(b, k)
    decreases |b| - k
  {
    hide ErrorOf;
    if k < |b| {
      Shift(a, b, k + 1);
    }
  }

  lemma FirstAppend(a: seq<Row>, b: seq<Row>)
    ensures First(a + b) == First(a).Then(First(b))
  {
    FirstAppendFrom(a, b, 0);
  }

  lemma {:induction false} FlatFirst<T(!new)>(items: seq<T>, check: T -> Check<SampleError>, rows: T -> seq<Row>)
    requires forall x :: check(x) == First(rows(x))
    ensures CheckAll(items, check) == First(Flat(items, rows))
  {
    if items != [] {
      FlatFirst(items[1..], check, rows);
      FirstAppend(rows(items[0]), Flat(items[1..], rows));
    }
  }

  lemma RowErrors(field: string, v: Float, n: int)
    ensures ErrorOf(Row(field, Percent(v))) == CheckPercent(field, v)
    ensures ErrorOf(Row(field, Size(v))) == CheckNonNeg(field, v)
    ensures ErrorOf(Row(field, Plain(v))) == CheckFinite(field, v)
    ensures ErrorOf(Row(field, Number(n))) == CheckCount(field, n)
  {
  }

  lemma NameErrors(field: string, text: string, used: Float, total: Float)
    ensures ErrorOf(Row(field, Name(text))) == Demand(text != "", field, MissingField)
    ensures ErrorOf(Row(field, Within(used, total))) == Demand(!Greater(used, total), field, InvalidPayload)
  {
  }

  lemma Unroll(rows: seq<Row>, k: nat)
    requires k < |rows|
    ensures FirstFrom(rows, k) == ErrorOf(rows[k]).Then(FirstFrom(rows, k + 1))
  {
  }

  lemma AtEnd(rows: seq<Row>)
    ensures FirstFrom(rows, |rows|) == Pass
  {
  }

  lemma One(a: Row)
    ensures First([a]) == ErrorOf(a)
  {
    AtEnd([a]);
    Unroll([a], 0);
  }

  lemma Two(a: Row, b: Row)
    ensures First([a, b]) == ErrorOf(a).Then(ErrorOf(b))
  {
    AtEnd([a, b]);
    Unroll([a, b], 1);
    Unroll([a, b], 0);
  }

  lemma DiskErrors(d: DiskMetric)
    ensures CheckDisk(d) == First(DiskRows(d))
  {
    NameErrors("disks.mountpoint", d.mountpoint, ZERO, ZERO);
    NameErrors("disks.used_gb", "", d.usedGB, d.totalGB);
    RowErrors("disks.used_percent", d.usedPercent, 0);
    RowErrors("disks.used_gb", d.usedGB, 0);
    RowErrors("disks.total_gb", d.totalGB, 0);
    RowErrors("disks.inodes_used_percent", d.inodesUsedPercent, 0);
    hide ErrorOf, CheckPercent, CheckNonNeg, CheckCount, CheckFinite, Demand, FirstFrom;
    var rows := DiskRows(d);
    AtEnd(rows);
    Unroll(rows, 5);
    Unroll(rows, 4);
    Unroll(rows, 3);
    Unroll(rows, 2);
    Unroll(rows, 1);
    Unroll(rows, 0);
  }

  lemma DiskIOErrors(d: DiskIOMetric)
    ensures CheckDiskIO(d) == First(DiskIORows(d))
  {
    NameErrors("disk_io.name", d.name, ZERO, ZERO);
    RowErrors("disk_io.read_bytes_per_sec", d.readBytes, 0);
    RowErrors("disk_io.write_bytes_per_sec", d.writeBytes, 0);
    RowErrors("disk_io.read_ops_per_sec", d.readOps, 0);
    RowErrors("disk_io.write_ops_per_sec", d.writeOps, 0);
    RowErrors("disk_io.io_time_percent", d.ioTimePercent, 0);
    hide ErrorOf, CheckPercent, CheckNonNeg, CheckCount, CheckFinite, Demand, FirstFrom;
    var rows := DiskIORows(d);
    AtEnd(rows);
    Unroll(rows, 5);
    Unroll(rows, 4);
    Unroll(rows, 3);
    Unroll(rows, 2);
    Unroll(rows, 1);
    Unroll(rows, 0);
  }

  lemma NICErrors(n: NICMetric)
    ensures CheckNIC(n) == First(NICRows(n))
  {
    NameErrors("nics.name", n.name, ZERO, ZERO);
    RowErrors("nics.rx_bytes_per_sec", n.rxBytes, 0);
    RowErrors("nics.tx_bytes_per_sec", n.txBytes, 0);
    RowErrors("nics.rx_packets_per_sec", n.rxPackets, 0);
    RowErrors("nics.tx_packets_per_sec", n.txPackets, 0);
    RowErrors("nics.rx_errors_per_sec", n.rxErrors, 0);
    RowErrors("nics.tx_errors_per_sec", n.txErrors, 0);
    RowErrors("nics.rx_dropped_per_sec", n.rxDropped, 0);
    hide ErrorOf, CheckPercent, CheckNonNeg, CheckCount, CheckFinite, Demand, FirstFrom;
    var rows := NICRows(n);
    AtEnd(rows);
    Unroll(rows, 7);
    Unroll(rows, 6);
    Unroll(rows, 5);
    Unroll(rows, 4);
    Unroll(rows, 3);
    Unroll(rows, 2);
    Unroll(rows, 1);
    Unroll(rows, 0);
  }

  lemma SensorErrors(sm: SensorMetric)
    ensures CheckSensor(sm) == First(SensorRows(sm))
  {
    NameErrors("sensors.name", sm.name, ZERO, ZERO);
    One(Row("sensors.name", Name(sm.name)));
    if sm.temperatureC.Some? {
      RowErrors("sensors.temperature_c", sm.temperatureC.value, 0);
      Two(Row("sensors.name", Name(sm.name)), Row("sensors.temperature_c", Plain(sm.temperatureC.value)));
    }
    hide First, ErrorOf, Demand, CheckFinite;
    var row := Row("sensors.name", Name(sm.name));
    assert [row] + [] == [row];
    if sm.temperatureC.Some? {
      var next := Row("sensors.temperature_c", Plain(sm.temperatureC.value));
      assert [row] + [next] == [row, next];
    }
  }

  lemma CountErrors(s: Sample)
    ensures CheckCounts(s) == First(CountRows(s))
  {
    RowErrors("tcp_total", ZERO, s.tcpTotal);
    RowErrors("tcp_established", ZERO, s.tcpEstablished);
    RowErrors("tcp_listen", ZERO, s.tcpListen);
    RowErrors("tcp_time_wait", ZERO, s.tcpTimeWait);
    RowErrors("tcp_close_wait", ZERO, s.tcpCloseWait);
    RowErrors("udp_total", ZERO, s.udpTotal);
    RowErrors("proc_count", ZERO, s.procCount);
    hide ErrorOf, CheckPercent, CheckNonNeg, CheckCount, CheckFinite, Demand, FirstFrom;
    var rows := CountRows(s);
    AtEnd(rows);
    Unroll(rows, 6);
    Unroll(rows, 5);
    Unroll(rows, 4);
    Unroll(rows, 3);
    Unroll(rows, 2);
    Unroll(rows, 1);
    Unroll(rows, 0);
  }

  lemma OptionalErrors(field: string, v: Option<Float>, n: Option<int>)
    ensures CheckPercentPtr(field, v) == First(PercentRow(field, v))
    ensures CheckNonNegPtr(field, v) == First(SizeRow(field, v))
    ensures CheckCountPtr(field, n) == First(NumberRow(field, n))
  {
    if v.Some? {
      RowErrors(field, v.value, 0);
      One(Row(field, Percent(v.value)));
      One(Row(field, Size(v.value)));
    }
    if n.Some? {
      RowErrors(field, ZERO, n.value);
      One(Row(field, Number(n.value)));
    }
    AtEnd([]);
    hide ErrorOf, CheckPercent, CheckNonNeg, CheckCount;
  }

  lemma PlainAgentErrors(a: AgentMetric)
    ensures First(PlainAgentRows(a)) == CheckNonNeg("agent.collect_duration_ms", a.collectDurationMs)
      .Then(CheckCount("agent.report_success_count", a.reportSuccessCount))
      .Then(CheckCount("agent.report_error_count", a.reportErrorCount))
      .Then(CheckCount("agent.ws_reconnect_count", a.wsReconnectCount))
  {
    RowErrors("agent.collect_duration_ms", a.collectDurationMs, 0);
    RowErrors("agent.report_success_count", ZERO, a.reportSuccessCount);
    RowErrors("agent.report_error_count", ZERO, a.reportErrorCount);
    RowErrors("agent.ws_reconnect_count", ZERO, a.wsReconnectCount);
    hide ErrorOf, CheckPercent, CheckNonNeg, CheckCount, CheckFinite, Demand, FirstFrom;
    var rows := PlainAgentRows(a);
    AtEnd(rows);
    Unroll(rows, 3);
    Unroll(rows, 2);
    Unroll(rows, 1);
    Unroll(rows, 0);
  }

  lemma AgentErrors(a: AgentMetric)
    ensures CheckAgent(a) == First(AgentRows(a))
  {
    PlainAgentErrors(a);
    var plain := PlainAgentRows(a);
    OptionalErrors("agent.mem_resident_mb", a.memResidentMB, None);
    OptionalErrors("agent.pending_backlog", None, a.pendingBacklog);
    OptionalErrors("agent.last_report_latency_ms", a.lastReportLatencyMs, None);
    OptionalErrors("agent.report_drop_count", None, a.reportDropCount);
    OptionalErrors("agent.agent_uptime_sec", None, a.agentUptimeSec);
    hide First, CheckNonNeg, CheckCount, CheckNonNegPtr, CheckCountPtr, PlainAgentRows, SizeRow, NumberRow;
    var b, c := SizeRow("agent.mem_resident_mb", a.memResidentMB), NumberRow("agent.pending_backlog", a.pendingBacklog);
    var d := SizeRow("agent.last_report_latency_ms", a.lastReportLatencyMs);
    var e, f := NumberRow("agent.report_drop_count", a.reportDropCount),
      NumberRow("agent.agent_uptime_sec", a.agentUptimeSec);
    FirstAppend(plain, b);
    FirstAppend(plain + b, c);
    FirstAppend(plain + b + c, d);
    FirstAppend(plain + b + c + d, e);
    FirstAppend(plain + b + c + d + e, f);
  }

  /** From the load on to the swap, the checks of `Validate`. */
  function CheckLoadAndMemory(s: Sample): Check<SampleError> {
    CheckNonNeg("load1", s.load1).Then(CheckNonNeg("load5", s.load5)).Then(CheckNonNeg("load15", s.load15))
    .Then(CheckPercent("mem_used_percent", s.memUsedPercent))
    .Then(CheckNonNeg("mem_used_mb", s.memUsedMB)).Then(CheckNonNeg("mem_available_mb", s.memAvailableMB))
    .Then(CheckPercentPtr("swap_used_percent", s.swapUsedPercent)).Then(CheckNonNegPtr("swap_used_mb", s.swapUsedMB))
  }

  lemma PlainMemoryErrors(s: Sample)
    ensures First(PlainMemoryRows(s)) ==
      CheckNonNeg("load1", s.load1).Then(CheckNonNeg("load5", s.load5)).Then(CheckNonNeg("load15", s.load15))
      .Then(CheckPercent("mem_used_percent", s.memUsedPercent))
      .Then(CheckNonNeg("mem_used_mb", s.memUsedMB)).Then(CheckNonNeg("mem_available_mb", s.memAvailableMB))
  {
    RowErrors("load1", s.load1, 0);
    RowErrors("load5", s.load5, 0);
    RowErrors("load15", s.load15, 0);
    RowErrors("mem_used_percent", s.memUsedPercent, 0);
    RowErrors("mem_used_mb", s.memUsedMB, 0);
    RowErrors("mem_available_mb", s.memAvailableMB, 0);
    hide ErrorOf, CheckPercent, CheckNonNeg, CheckCount, CheckFinite, Demand, FirstFrom;
    var rows := PlainMemoryRows(s);
    AtEnd(rows);
    Unroll(rows, 5);
    Unroll(rows, 4);
    Unroll(rows, 3);
    Unroll(rows, 2);
    Unroll(rows, 1);
    Unroll(rows, 0);
  }

  lemma MemoryErrors(s: Sample)
    ensures First(MemoryRows(s)) == CheckLoadAndMemory(s)
  {
    PlainMemoryErrors(s);
    OptionalErrors("swap_used_percent", s.swapUsedPercent, None);
    OptionalErrors("swap_used_mb", s.swapUsedMB, None);
    hide First, CheckNonNeg, CheckPercent, CheckPercentPtr, CheckNonNegPtr, PlainMemoryRows, SizeRow, PercentRow;
    FirstAppend(PlainMemoryRows(s), PercentRow("swap_used_percent", s.swapUsedPercent));
    FirstAppend(PlainMemoryRows(s) + PercentRow("swap_used_percent", s.swapUsedPercent),
      SizeRow("swap_used_mb", s.swapUsedMB));
  }

  lemma CoreErrors(v: Float)
    ensures CheckPercent("cpu_per_core", v) == First(CoreRows(v))
  {
    One(Row("cpu_per_core", Percent(v)));
    RowErrors("cpu_per_core", v, 0);
  }

  lemma ListErrors(s: Sample)
    ensures CheckAll(s.cpuPerCore, v => CheckPercent("cpu_per_core", v)) == First(Flat(s.cpuPerCore, CoreRows))
    ensures CheckAll(s.disks, CheckDisk) == First(Flat(s.disks, DiskRows))
    ensures CheckAll(s.diskIO, CheckDiskIO) == First(Flat(s.diskIO, DiskIORows))
    ensures CheckAll(s.nics, CheckNIC) == First(Flat(s.nics, NICRows))
    ensures CheckAll(s.sensors, CheckSensor) == First(Flat(s.sensors, SensorRows))
  {
    hide First, CoreRows, CheckPercent, Flat, CheckAll, CheckDisk, CheckDiskIO, CheckNIC, CheckSensor, DiskRows,
      DiskIORows, NICRows, SensorRows;
    forall v ensures CheckPercent("cpu_per_core", v) == First(CoreRows(v)) { CoreErrors(v); }
    FlatFirst(s.cpuPerCore, v => CheckPercent("cpu_per_core", v), CoreRows);
    forall d ensures CheckDisk(d) == First(DiskRows(d)) { DiskErrors(d); }
    forall d ensures CheckDiskIO(d) == First(DiskIORows(d)) { DiskIOErrors(d); }
    forall n ensures CheckNIC(n) == First(NICRows(n)) { NICErrors(n); }
    forall sm ensures CheckSensor(sm) == First(SensorRows(sm)) { SensorErrors(sm); }
    FlatFirst(s.disks, CheckDisk, DiskRows);
    FlatFirst(s.diskIO, CheckDiskIO, DiskIORows);
    FlatFirst(s.nics, CheckNIC, NICRows);
    FlatFirst(s.sensors, CheckSensor, SensorRows);
  }

  /** `Validate` reports the first wrong row of the table, and succeeds if there is none. */
  lemma ReportsFirstWrongRow(s: Sample)
    ensures Validate(s) == First(Rows(s))
  {
    FirstHalf(s);
    SecondHalf(s);
    hide First, Validate;
    FirstAppend(UpperRows(s), LowerRows(s));
    Regroup(s);
    SplitRows(s);
  }

  function UpperRows(s: Sample): seq<Row> {
    [Row("t", Time(s.t)), Row("cpu_used_percent", Percent(s.cpuUsedPercent))]
    + Flat(s.cpuPerCore, CoreRows) + PercentRow("cpu_iowait", s.cpuIOWait) + MemoryRows(s)
  }

  function LowerRows(s: Sample): seq<Row> {
    Flat(s.disks, DiskRows) + Flat(s.diskIO, DiskIORows) + Flat(s.nics, NICRows) + CountRows(s)
    + Flat(s.sensors, SensorRows) + [Row("uptime_sec", Number(s.uptimeSec))] + AgentRows(s.agent)
  }

  lemma SplitRows(s: Sample)
    ensures Rows(s) == UpperRows(s) + LowerRows(s)
  {
    hide Flat, MemoryRows, CountRows, AgentRows, PercentRow;
  }

  function UpperChecks(s: Sample): Check<SampleError> {
    Demand(s.t > 0, "t", InvalidTimestamp)
    .Then(CheckPercent("cpu_used_percent", s.cpuUsedPercent))
    .Then(CheckAll(s.cpuPerCore, v => CheckPercent("cpu_per_core", v)))
    .Then(CheckPercentPtr("cpu_iowait", s.cpuIOWait))
    .Then(CheckLoadAndMemory(s))
  }

  function LowerChecks(s: Sample): Check<SampleError> {
    CheckAll(s.disks, CheckDisk)
    .Then(CheckAll(s.diskIO, CheckDiskIO))
    .Then(CheckAll(s.nics, CheckNIC))
    .Then(CheckCounts(s))
    .Then(CheckAll(s.sensors, CheckSensor))
    .Then(CheckCount("uptime_sec", s.uptimeSec))
    .Then(CheckAgent(s.agent))
  }

  lemma Regroup(s: Sample)
    ensures Validate(s) == UpperChecks(s).Then(LowerChecks(s))
  {
    hide CheckAll, CheckDisk, CheckDiskIO, CheckNIC, CheckSensor, CheckCounts, CheckAgent, CheckPercent, CheckNonNeg,
      CheckPercentPtr, CheckNonNegPtr, CheckCount, Demand;
  }

  lemma FirstHalf(s: Sample)
    ensures UpperChecks(s) == First(UpperRows(s))
  {
    ListErrors(s);
    MemoryErrors(s);
    OptionalErrors("cpu_iowait", s.cpuIOWait, None);
    TimeErrors(s);
    hide First, Flat, CheckAll, CheckLoadAndMemory, CheckPercent, CheckPercentPtr, Demand, MemoryRows, PercentRow;
    var a := [Row("t", Time(s.t)), Row("cpu_used_percent", Percent(s.cpuUsedPercent))];
    var b, c := Flat(s.cpuPerCore, CoreRows), PercentRow("cpu_iowait", s.cpuIOWait);
    FirstAppend(a, b);
    FirstAppend(a + b, c);
    FirstAppend(a + b + c, MemoryRows(s));
  }

  lemma TimeErrors(s: Sample)
    ensures First([Row("t", Time(s.t)), Row("cpu_used_percent", Percent(s.cpuUsedPercent))])
      == Demand(s.t > 0, "t", InvalidTimestamp).Then(CheckPercent("cpu_used_percent", s.cpuUsedPercent))
  {
    Two(Row("t", Time(s.t)), Row("cpu_used_percent", Percent(s.cpuUsedPercent)));
    RowErrors("cpu_used_percent", s.cpuUsedPercent, 0);
  }

  lemma SecondHalf(s: Sample)
    ensures LowerChecks(s) == First(LowerRows(s))
  {
    ListErrors(s);
    CountErrors(s);
    AgentErrors(s.agent);
    One(Row("uptime_sec", Number(s.uptimeSec)));
    RowErrors("uptime_sec", ZERO, s.uptimeSec);
    hide First, Flat, ErrorOf, CheckAll, CheckDisk, CheckDiskIO, CheckNIC, CheckSensor, CheckCounts, CheckAgent,
      CheckCount, CountRows, AgentRows;
    var e, f, g := Flat(s.disks, DiskRows), Flat(s.diskIO, DiskIORows), Flat(s.nics, NICRows);
    var h, k, l := CountRows(s), Flat(s.sensors, SensorRows), [Row("uptime_sec", Number(s.uptimeSec))];
    FirstAppend(e, f);
    FirstAppend(e + f, g);
    FirstAppend(e + f + g, h);
    FirstAppend(e + f + g + h, k);
    FirstAppend(e + f + g + h + k, l);
    FirstAppend(e + f + g + h + k + l, AgentRows(s.agent));
  }
}

/**
  The collector's differencing as code (`collectIOAndNICs`, `setBaselines`), proved to report and
  remember exactly what module Rates says, and the rates it hands to the repair.
 */
module Collector {
  import opened Options
  import opened Floats
  import opened Metrics
  import opened Rates
  import opened Sanitize
  import opened Sorting

  function DiskNames(diskIO: seq<DiskIOMetric>): (names: seq<string>)
    ensures |names| == |diskIO| && forall i :: 0 <= i < |diskIO| ==> names[i] == diskIO[i].name
  {
    seq(|diskIO|, i requires 0 <= i < |diskIO| => diskIO[i].name)
  }

  predicate Distinct(names: seq<string>) {
    forall i, j :: 0 <= i < j < |names| ==> names[i] != names[j]
  }

  lemma DistinctCounts(names: seq<string>)
    ensures Distinct(names) <==> forall n :: multiset(names)[n] <= 1
  {
    if names != [] {
      var front, last := names[..|names| - 1], names[|names| - 1];
      assert names == front + [last];
      DistinctCounts(front);
      if last in front {
        assert multiset(names)[last] >= 2;
      }
      if Distinct(names) {
        assert forall n :: multiset(names)[n] <= 1;
      }
      if forall n :: multiset(names)[n] <= 1 {
        forall n ensures multiset(front)[n] <= 1 {
          assert multiset(front)[n] <= multiset(names)[n];
        }
      }
    }
  }

  lemma VisibleStep(flt: Filter, nics: seq<NicStat>, i: nat)
    requires i < |nics|
    ensures VisibleNics(flt, nics[i..]) == (if flt.hidesNic(nics[i].name) then [] else [nics[i].name])
      + VisibleNics(flt, nics[i + 1..])
  {
    assert nics[i..][1..] == nics[i + 1..];
  }

  lemma NicEntryName(name: string, cur: IoCounters, last: Option<IoCounters>, dt: real)
    ensures NicEntry(name, cur, last, dt).name == name
  {
  }

  lemma NicMapComplete(flt: Filter, f: Frame, m: map<string, IoCounters>)
    requires f.nics.Some? && forall n :: n in m <==> n in VisibleNics(flt, f.nics.value)
    requires forall n :: n in m ==> Find(f.nics.value, n) == Some(m[n])
    ensures m == NicsIn(flt, f)
  {
  }

  lemma NoneVisible(flt: Filter, nics: seq<NicStat>)
    requires nics == []
    ensures VisibleNics(flt, nics) == []
  {
  }

  lemma SameNames(a: seq<string>, b: seq<string>)
    requires multiset(a) == multiset(b)
    ensures forall n :: n in a <==> n in b
  {
    forall n ensures n in a <==> n in b {
      assert n in a <==> n in multiset(a);
    }
  }

  /** The counters of these names, as they were read. */
  ghost predicate Noted(counters: map<string, IoCounters>, names: seq<string>, m: map<string, IoCounters>) {
    (forall n :: n in m <==> n in names) && forall n :: n in m ==> n in counters && m[n] == counters[n]
  }

  /** The names of the disks that are not hidden. */
  function Shown(flt: Filter, names: seq<string>): seq<string> {
    if names == [] then []
    else
      var last := names[|names| - 1];
      Shown(flt, names[..|names| - 1]) + if flt.hidesDisk(last) then [] else [last]
  }

  lemma {:induction false} ShownNames(flt: Filter, names: seq<string>)
    ensures forall n :: n in Shown(flt, names) <==> n in names && !flt.hidesDisk(n)
  {
    if names != [] {
      ShownNames(flt, names[..|names| - 1]);
      assert names == names[..|names| - 1] + [names[|names| - 1]];
    }
  }

  lemma ShownStep(flt: Filter, names: seq<string>, i: nat)
    requires i < |names|
    ensures Shown(flt, names[..i + 1]) == Shown(flt, names[..i]) + if flt.hidesDisk(names[i]) then [] else [names[i]]
    ensures names[..i + 1] == names[..i] + [names[i]]
  {
    assert names[..i + 1][..i] == names[..i];
  }

  lemma NamesAppend(diskIO: seq<DiskIOMetric>, d: DiskIOMetric)
    ensures DiskNames(diskIO + [d]) == DiskNames(diskIO) + [d.name]
  {
  }

  lemma {:induction false} ShownInOrder(flt: Filter, names: seq<string>)
    requires Sorted(names) && Distinct(names)
    ensures Sorted(Shown(flt, names)) && Distinct(Shown(flt, names))
  {
    hide AtMost;
    if names != [] {
      var front, last := names[..|names| - 1], names[|names| - 1];
      ShownInOrder(flt, front);
      ShownNames(flt, front);
      var r := Shown(flt, front);
      forall i | 0 <= i < |r| ensures AtMost(r[i], last) && r[i] != last {
        assert r[i] in front;
      }
    }
  }

  /** The first loop over the disks, after these names. */
  ghost predicate Listed(flt: Filter, counters: map<string, IoCounters>, names: seq<string>,
                         diskIO: seq<DiskIOMetric>, diskCur: map<string, IoCounters>)
  {
    && Noted(counters, names, diskCur) && DiskNames(diskIO) == Shown(flt, names)
    && forall k :: 0 <= k < |diskIO| ==> diskIO[k] == NewDisk(diskIO[k].name)
  }

  lemma NothingListed(flt: Filter, counters: map<string, IoCounters>)
    ensures Listed(flt, counters, [], [], map[])
  {
  }

  lemma ListedNext(flt: Filter, counters: map<string, IoCounters>, names: seq<string>, i: nat,
                   diskIO: seq<DiskIOMetric>, diskCur: map<string, IoCounters>)
    requires i < |names| && names[i] in counters && Listed(flt, counters, names[..i], diskIO, diskCur)
    ensures var d := if flt.hidesDisk(names[i]) then diskIO else diskIO + [NewDisk(names[i])];
      Listed(flt, counters, names[..i + 1], d, diskCur[names[i] := counters[names[i]]])
  {
    ShownStep(flt, names, i);
    NamesAppend(diskIO, NewDisk(names[i]));
    hide Shown, DiskNames;
  }

  lemma AllListed(flt: Filter, counters: map<string, IoCounters>, names: seq<string>,
                  diskIO: seq<DiskIOMetric>, diskCur: map<string, IoCounters>)
    requires Sorted(names) && Distinct(names) && (forall n :: n in names <==> n in counters)
    requires Listed(flt, counters, names, diskIO, diskCur)
    ensures diskCur == counters && Sorted(DiskNames(diskIO)) && Distinct(DiskNames(diskIO))
    ensures forall i :: 0 <= i < |diskIO| ==>
      diskIO[i] == NewDisk(diskIO[i].name) && diskIO[i].name in counters && !flt.hidesDisk(diskIO[i].name)
    ensures forall n :: n in counters && !flt.hidesDisk(n) ==> n in DiskNames(diskIO)
  {
    ShownDisks(flt, names, diskIO);
    hide Shown, DiskNames, Sorted, Distinct, NewDisk;
  }

  /** Entries for exactly the shown names are listed as they should be. */
  lemma ShownDisks(flt: Filter, names: seq<string>, diskIO: seq<DiskIOMetric>)
    requires Sorted(names) && Distinct(names) && DiskNames(diskIO) == Shown(flt, names)
    ensures Sorted(DiskNames(diskIO)) && Distinct(DiskNames(diskIO))
    ensures forall i :: 0 <= i < |diskIO| ==> diskIO[i].name in names && !flt.hidesDisk(diskIO[i].name)
    ensures forall n :: n in names && !flt.hidesDisk(n) ==> n in DiskNames(diskIO)
  {
    ShownInOrder(flt, names);
    ShownNames(flt, names);
    hide Sorted, Distinct, Shown;
    forall i | 0 <= i < |diskIO| ensures diskIO[i].name in Shown(flt, names) {
      assert DiskNames(diskIO)[i] == diskIO[i].name;
    }
  }

  /** A new entry: the device is listed before its rates are known. */
  function NewDisk(name: string): DiskIOMetric {
    DiskIOMetric(name, ZERO, ZERO, ZERO, ZERO, ZERO)
  }

  class Collector {
    const flt: Filter
    var prevIO: map<string, IoCounters>
    var prevNet: map<string, IoCounters>
    var prevTS: Option<int>

    function Base(): Baseline
      reads this
    {
      Baseline(prevIO, prevNet, prevTS)
    }

    constructor (flt: Filter)
      ensures this.flt == flt && Base() == Baseline(map[], map[], None)
    {
      this.flt := flt;
      prevIO, prevNet, prevTS := map[], map[], None;
    }

    method CollectIOAndNICs(f: Frame) returns (diskIO: seq<DiskIOMetric>, nics: seq<NICMetric>)
      modifies this
      ensures Base() == Next(flt, old(Base()), f)
      ensures Reported(flt, old(Base()), f, diskIO, nics) && Sorted(DiskNames(diskIO)) && Sorted(NicNames(nics))
    {
      var diskCur: map<string, IoCounters>, nicCur: map<string, IoCounters> := map[], map[];
      diskIO, nics := [], [];
      if f.disks.Some? {
        diskIO, diskCur := ListDisks(f.disks.value);
        diskIO := FillDiskRates(diskIO, diskCur, f.now);
      }
      if f.nics.Some? {
        nics, nicCur := CollectNICs(f.nics.value, f.now);
      }
      SetBaselines(diskCur, nicCur, f.now);
    }

    /** The first loop over the disks: note every counter, list the visible disks. */
    method ListDisks(counters: map<string, IoCounters>)
        returns (diskIO: seq<DiskIOMetric>, diskCur: map<string, IoCounters>)
      ensures diskCur == counters && Sorted(DiskNames(diskIO)) && Distinct(DiskNames(diskIO))
      ensures forall i :: 0 <= i < |diskIO| ==>
        diskIO[i] == NewDisk(diskIO[i].name) && diskIO[i].name in counters && !flt.hidesDisk(diskIO[i].name)
      ensures forall n :: n in counters && !flt.hidesDisk(n) ==> n in DiskNames(diskIO)
    {
      hide Listed, Sorted, Distinct, DiskNames, NewDisk;
      NothingListed(flt, counters);
      var names := SortedNames(counters);
      diskIO, diskCur := [], map[];
      for i := 0 to |names|
        invariant Listed(flt, counters, names[..i], diskIO, diskCur)
      {
        var name := names[i];
        ListedNext(flt, counters, names, i, diskIO, diskCur);
        diskCur := diskCur[name := counters[name]];
        if flt.hidesDisk(name) {
          continue;
        }
        diskIO := diskIO + [NewDisk(name)];
      }
      assert names[..|names|] == names;
      AllListed(flt, counters, names, diskIO, diskCur);
    }

    /** The second loop: rates for the disks that have a baseline. */
    method FillDiskRates(listed: seq<DiskIOMetric>, diskCur: map<string, IoCounters>, now: int)
        returns (diskIO: seq<DiskIOMetric>)
      requires forall i :: 0 <= i < |listed| ==> listed[i] == NewDisk(listed[i].name) && listed[i].name in diskCur
      ensures DiskNames(diskIO) == DiskNames(listed)
      ensures forall i :: 0 <= i < |diskIO| ==>
        diskIO[i]
        == DiskEntry(listed[i].name, diskCur[listed[i].name], Lookup(prevIO, listed[i].name), Elapsed(prevTS, now))
    {
      diskIO := listed;
      var dt := Elapsed(prevTS, now);
      if dt <= 0.0 {
        return;
      }
      for i := 0 to |diskIO|
        invariant |diskIO| == |listed|
        invariant forall k :: i <= k < |diskIO| ==> diskIO[k] == listed[k]
        invariant forall k :: 0 <= k < i ==>
          diskIO[k] == DiskEntry(listed[k].name, diskCur[listed[k].name], Lookup(prevIO, listed[k].name), dt)
      {
        var name := diskIO[i].name;
        if name !in prevIO {
          continue;
        }
        var prev, cur, e := prevIO[name], diskCur[name], diskIO[i];
        e := e.(readBytes := Rate(cur.readBytes, prev.readBytes, dt),
          writeBytes := Rate(cur.writeBytes, prev.writeBytes, dt));
        e := e.(readOps := Rate(cur.readOps, prev.readOps, dt), writeOps := Rate(cur.writeOps, prev.writeOps, dt));
        if cur.ioTimeMs >= prev.ioTimeMs {
          e := e.(ioTimePercent := Utilisation(cur.ioTimeMs - prev.ioTimeMs, dt));
        }
        diskIO := diskIO[i := e];
      }
    }

    method CollectNICs(counters: seq<NicStat>, now: int) returns (nics: seq<NICMetric>, nicCur: map<string, IoCounters>)
      ensures var f := Frame(now, None, Some(counters));
        NicsReported(flt, Base(), f, nics) && nicCur == NicsIn(flt, f)
      ensures Sorted(NicNames(nics))
    {
      var visible := ListNICs(counters);
      var names := SortStrings(visible);
      SameNames(names, visible);
      nics, nicCur := NicRates(names, counters, Elapsed(prevTS, now));
      NicMapComplete(flt, Frame(now, None, Some(counters)), nicCur);
      hide Find, NicEntry, Sorted, VisibleNics, NicsIn, Elapsed, Lookup;
    }

    method NicRates(names: seq<string>, counters: seq<NicStat>, dt: real)
        returns (nics: seq<NICMetric>, nicCur: map<string, IoCounters>)
      requires forall n :: n in names ==> Find(counters, n).Some?
      ensures NicNames(nics) == names && nicCur.Keys == (set n | n in names)
      ensures forall n :: n in nicCur ==> Find(counters, n) == Some(nicCur[n])
      ensures forall k :: 0 <= k < |nics| ==>
        nics[k] == NicEntry(names[k], nicCur[names[k]], Lookup(prevNet, names[k]), dt)
    {
      hide Find, NicEntry, Lookup;
      nics, nicCur := [], map[];
      for i := 0 to |names|
        invariant NicNames(nics) == names[..i] && nicCur.Keys == (set n | n in names[..i])
        invariant forall n :: n in nicCur ==> Find(counters, n) == Some(nicCur[n])
        invariant forall k :: 0 <= k < i ==>
          nics[k] == NicEntry(names[k], nicCur[names[k]], Lookup(prevNet, names[k]), dt)
      {
        var name := names[i];
        assert names[..i + 1] == names[..i] + [name];
        var ct := FirstReading(counters, name);
        var m := NewNIC(name, ct, dt);
        NicEntryName(name, ct, Lookup(prevNet, name), dt);
        assert forall k :: 0 <= k < i ==> names[k] in nicCur;
        assert name in nicCur ==> nicCur[name] == ct;
        nicCur := nicCur[name := ct];
        nics := nics + [m];
        assert NicNames(nics) == names[..i] + [name];
      }
      assert names[..|names|] == names;
    }

    method NewNIC(name: string, ct: IoCounters, dt: real) returns (m: NICMetric)
      ensures m == NicEntry(name, ct, Lookup(prevNet, name), dt)
    {
      m := NICMetric(name, ZERO, ZERO, ZERO, ZERO, ZERO, ZERO, ZERO);
      if dt > 0.0 {
        if name in prevNet {
          var prev := prevNet[name];
          m := m.(rxBytes := Rate(ct.rxBytes, prev.rxBytes, dt), txBytes := Rate(ct.txBytes, prev.txBytes, dt));
          m := m.(rxPackets := Rate(ct.rxPackets, prev.rxPackets, dt),
            txPackets := Rate(ct.txPackets, prev.txPackets, dt));
          m := m.(rxErrors := Rate(ct.rxErrors, prev.rxErrors, dt), txErrors := Rate(ct.txErrors, prev.txErrors, dt));
          m := m.(rxDropped := Rate(ct.rxDropped, prev.rxDropped, dt));
        }
      }
    }

    method ListNICs(counters: seq<NicStat>) returns (names: seq<string>)
      ensures names == VisibleNics(flt, counters)
    {
      hide VisibleNics;
      names := [];
      assert counters[0..] == counters;
      for i := 0 to |counters|
        invariant names + VisibleNics(flt, counters[i..]) == VisibleNics(flt, counters)
      {
        VisibleStep(flt, counters, i);
        if flt.hidesNic(counters[i].name) {
          continue;
        }
        names := names + [counters[i].name];
      }
      NoneVisible(flt, counters[|counters|..]);
    }

    /** The inner loop over the readings stops at the first with the name. */
    method FirstReading(counters: seq<NicStat>, name: string) returns (ct: IoCounters)
      requires Find(counters, name).Some?
      ensures Find(counters, name) == Some(ct)
    {
      var i := 0;
      while counters[i].name != name
        invariant i < |counters| && Find(counters[i..], name) == Find(counters, name)
        decreases |counters| - i
      {
        assert counters[i..][1..] == counters[i + 1..];
        i := i + 1;
      }
      ct := counters[i].counters;
    }

    method SetBaselines(disk: map<string, IoCounters>, nic: map<string, IoCounters>, now: int)
      modifies this
      ensures Base() == Baseline(old(prevIO) + disk, old(prevNet) + nic, Some(now))
    {
      prevIO := Merge(prevIO, disk);
      prevNet := Merge(prevNet, nic);
      prevTS := Some(now);
    }
  }

  /** A loop over a map that overwrites another one entry by entry, in any order. */
  method Merge(into: map<string, IoCounters>, m: map<string, IoCounters>) returns (r: map<string, IoCounters>)
    ensures r == into + m
  {
    r := into;
    var rest := m.Keys;
    while rest != {}
      invariant rest <= m.Keys
      invariant r.Keys == into.Keys + (m.Keys - rest)
      invariant forall k :: k in r ==> r[k] == if k in m && k !in rest then m[k] else into[k]
      decreases |rest|
    {
      var k :| k in rest;
      rest := rest - {k};
      r := r[k := m[k]];
    }
  }

  /** `sortedNames`: the keys in whatever order the map yields them, then sorted. */
  method SortedNames(m: map<string, IoCounters>) returns (names: seq<string>)
    ensures Sorted(names) && Distinct(names) && forall n :: n in names <==> n in m
  {
    var keys: seq<string>, rest := [], m.Keys;
    while rest != {}
      invariant rest <= m.Keys && Distinct(keys)
      invariant forall n :: n in keys <==> n in m && n !in rest
      decreases |rest|
    {
      var k :| k in rest;
      rest := rest - {k};
      keys := keys + [k];
    }
    names := SortStrings(keys);
    DistinctCounts(keys);
    DistinctCounts(names);
    SameNames(names, keys);
  }

  // ----- into the repair -----

  /** Reported rates are numbers between zero and the limit, so every entry with a name is legal already. */
  lemma ReportIsRepairable(flt: Filter, b: Baseline, f: Frame, diskIO: seq<DiskIOMetric>, nics: seq<NICMetric>)
    requires Reported(flt, b, f, diskIO, nics)
    ensures forall i :: 0 <= i < |diskIO| ==>
      (LegalDiskIO(diskIO[i]) <==> diskIO[i].name != "") && (RepairableDiskIO(diskIO[i]) <==> diskIO[i].name != "")
    ensures forall i :: 0 <= i < |nics| ==>
      (LegalNIC(nics[i]) <==> nics[i].name != "") && (RepairableNIC(nics[i]) <==> nics[i].name != "")
  {
    hide Rate, Utilisation, NicsIn, DisksIn;
    forall c: nat, p: nat, dt: real ensures Amount(Rate(c, p, dt)) {
      RateBounds(c, p, dt);
    }
    forall busy: nat, dt: real | dt > 0.0 ensures Percentage(Utilisation(busy, dt)) {
      UtilisationIsPercentage(busy, dt);
    }
  }

  lemma UtilisationIsPercentage(busyMs: nat, dt: real)
    requires dt > 0.0
    ensures Percentage(Utilisation(busyMs, dt))
  {
    ClampedPercent(Fin(busyMs as real / (dt * 1000.0) * 100.0));
  }

  /** So the rates never cost a frame, only a reported device without a name: what else the platform reads decides. */
  lemma RatesNeverDropAFrame(s: Sample, flt: Filter, b: Baseline, f: Frame)
    requires Reported(flt, b, f, s.diskIO, s.nics)
    ensures Validate(Sanitized(s)).Pass? <==>
      && Repairable(s.(diskIO := [], nics := []))
      && (forall i :: 0 <= i < |s.diskIO| ==> s.diskIO[i].name != "")
      && (forall i :: 0 <= i < |s.nics| ==> s.nics[i].name != "")
  {
    hide Validate, Sanitized, Reported, LegalAgent, RepairableDisk, RepairableDiskIO, RepairableNIC, LegalSensor,
      LegalDiskIO, LegalNIC;
    ReportIsRepairable(flt, b, f, s.diskIO, s.nics);
    RepairSuffices(s);
  }
}

/**
 * The tracker object: the allocation map it updates in place and the report
 * file it writes, from construction to its shutdown report.
 */
module Tracker {
  import opened Wrappers
  import opened Records
  import opened Registry
  import opened ReportLines
  import Decimal

  /** One leak line per key, for the entries under those keys, in key order. */
  function LeakLines(m: Entries, keys: seq<Addr>): seq<string>
    requires forall k :: k in keys ==> k in m
  {
    seq(|keys|, i requires 0 <= i < |keys| => LeakLine(m[keys[i]]))
  }

  lemma LeakLinesAppend(m: Entries, keys: seq<Addr>, k: Addr)
    requires forall x :: x in keys ==> x in m
    requires k in m
    ensures LeakLines(m, keys + [k]) == LeakLines(m, keys) + [LeakLine(m[k])]
  {
  }

  /** One step of the walk: the least remaining key moves to the visited ones. */
  lemma WalkStep(visited: seq<Addr>, remaining: set<Addr>)
    requires remaining != {}
    ensures visited + AscendingKeys(remaining)
         == (visited + [Least(remaining)]) + AscendingKeys(remaining - {Least(remaining)})
  {
    AscendingKeysUnfold(remaining);
  }

  /** The leak lines the shutdown walk writes: every entry, in ascending address order. */
  ghost function DumpLines(m: Entries): (lines: seq<string>)
    ensures |lines| == |m|
  {
    assert |m.Keys| == |m|;
    AscendingKeysSpec(m.Keys);
    LeakLines(m, AscendingKeys(m.Keys))
  }

  /** Everything the shutdown writes after the "Initialize" line. */
  ghost function ShutdownReport(m: Entries): (report: seq<string>)
    ensures |report| == |m| + 2
  {
    [SummaryLine(|m|)] + DumpLines(m) + [ShutdownLine]
  }

  /**
   * The allocation tracker. `trackerFile` holds the lines written so far to
   * the report file; `closed` records that the shutdown report has been
   * written and the file closed.
   */
  class MemoryTracker {
    var memoryStructMap: Entries
    var trackerFile: seq<string>
    var closed: bool

    /** Opens the report with its first line and starts with no entries. */
    constructor ()
      ensures memoryStructMap == map[] && trackerFile == [InitializeLine] && !closed
    {
      memoryStructMap := map[];
      trackerFile := [InitializeLine];
      closed := false;
    }

    /**
     * Records an allocation of `size` bytes of type `typeName` made at
     * `file`:`line` in `functionAlloc`, and hands the address back.
     */
    method TrackMemory(ptr: Addr, size: nat, file: string, line: int, functionAlloc: string, typeName: string)
      returns (r: Addr)
      requires !closed
      modifies this`memoryStructMap
      ensures r == ptr
      ensures memoryStructMap
           == Tracked(old(memoryStructMap), ptr, MemoryStruct(typeName, file, line, functionAlloc, size))
    {
      var memoryData := MemoryStruct(typeName, file, line, functionAlloc, size);
      memoryStructMap := memoryStructMap[ptr := memoryData];
      r := ptr;
    }

    /** Forgets the allocation at `ptr`; an address not tracked is ignored. */
    method UnTrackMemory(ptr: Addr)
      requires !closed
      modifies this`memoryStructMap
      ensures memoryStructMap == UnTracked(old(memoryStructMap), ptr)
    {
      if |memoryStructMap| == 0 {
        return;
      }
      if ptr in memoryStructMap {
        memoryStructMap := memoryStructMap - {ptr};
      }
    }

    /** Writes one leak line per entry, walking the map in ascending address order. */
    method DumpTrackMemory()
      modifies this`trackerFile
      ensures trackerFile == old(trackerFile) + DumpLines(memoryStructMap)
    {
      var remaining := memoryStructMap.Keys;
      ghost var visited: seq<Addr> := [];
      while remaining != {}
        invariant remaining <= memoryStructMap.Keys
        invariant forall k :: k in visited ==> k in memoryStructMap
        invariant visited + AscendingKeys(remaining) == AscendingKeys(memoryStructMap.Keys)
        invariant trackerFile == old(trackerFile) + LeakLines(memoryStructMap, visited)
        decreases remaining
      {
        LeastExists(remaining);
        var k :| IsLeast(k, remaining);
        assert k == Least(remaining);
        var memoryData := memoryStructMap[k];
        trackerFile := trackerFile + [LeakLine(memoryData)];
        LeakLinesAppend(memoryStructMap, visited, k);
        WalkStep(visited, remaining);
        visited := visited + [k];
        remaining := remaining - {k};
      }
      assert visited == AscendingKeys(memoryStructMap.Keys);
    }

    /**
     * The destructor: writes the leak summary, one line per remaining entry
     * and the shutdown marker, then closes the report.
     */
    method Shutdown()
      requires !closed
      modifies this`trackerFile, this`closed
      ensures closed
      ensures trackerFile == old(trackerFile) + ShutdownReport(memoryStructMap)
    {
      var numberOfLeaks := |memoryStructMap|;
      if numberOfLeaks == 0 {
        trackerFile := trackerFile + [NoLeaksLine];
        assert memoryStructMap.Keys == {};
        assert DumpLines(memoryStructMap) == [];
      } else {
        trackerFile := trackerFile + [SummaryLine(numberOfLeaks)];
        DumpTrackMemory();
      }
      trackerFile := trackerFile + [ShutdownLine];
      closed := true;
    }
  }

  // ----- what the shutdown report says -----

  /** The number of lines a reader recognises as leak lines. */
  function CountLeakLines(lines: seq<string>): nat
    decreases |lines|
  {
    if lines == [] then 0
    else CountLeakLines(lines[..|lines| - 1]) + (if IsLeakLine(lines[|lines| - 1]) then 1 else 0)
  }

  lemma {:induction false} CountLeakLinesAppend(a: seq<string>, b: seq<string>)
    ensures CountLeakLines(a + b) == CountLeakLines(a) + CountLeakLines(b)
    decreases |b|
  {
    if b == [] {
      assert a + b == a;
    } else {
      assert (a + b)[..|a + b| - 1] == a + b[..|b| - 1];
      CountLeakLinesAppend(a, b[..|b| - 1]);
    }
  }

  lemma {:induction false} CountOfLeakLines(m: Entries, keys: seq<Addr>)
    requires forall k :: k in keys ==> k in m
    ensures CountLeakLines(LeakLines(m, keys)) == |keys|
    decreases |keys|
  {
    if keys != [] {
      var front := keys[..|keys| - 1];
      var last := keys[|keys| - 1];
      assert LeakLines(m, keys)[..|keys| - 1] == LeakLines(m, front);
      CountOfLeakLines(m, front);
    }
  }

  /**
   * The shutdown report is the summary line, then the leak line of each
   * entry in ascending address order, then the shutdown marker.
   */
  lemma ShutdownReportShape(m: Entries)
    ensures |AscendingKeys(m.Keys)| == |m|
    ensures forall i :: 0 <= i < |m| ==> AscendingKeys(m.Keys)[i] in m
    ensures forall i, j :: 0 <= i < j < |m| ==> AscendingKeys(m.Keys)[i] < AscendingKeys(m.Keys)[j]
    ensures |ShutdownReport(m)| == |m| + 2
    ensures ShutdownReport(m)[0] == SummaryLine(|m|)
    ensures ShutdownReport(m)[|m| + 1] == ShutdownLine
    ensures forall i :: 0 <= i < |m| ==> ShutdownReport(m)[i + 1] == LeakLine(m[AscendingKeys(m.Keys)[i]])
  {
    KeysOfEntries(m);
    ReportLinesAt(m, AscendingKeys(m.Keys));
  }

  /** The walk over a map's keys, stated in terms of the map. */
  lemma KeysOfEntries(m: Entries)
    ensures |AscendingKeys(m.Keys)| == |m|
    ensures forall i :: 0 <= i < |m| ==> AscendingKeys(m.Keys)[i] in m
    ensures forall i, j :: 0 <= i < j < |m| ==> AscendingKeys(m.Keys)[i] < AscendingKeys(m.Keys)[j]
  {
    AscendingKeysSpec(m.Keys);
    assert |m.Keys| == |m|;
  }

  /** Position i + 1 of the report is the leak line of the i-th key walked. */
  lemma ReportLinesAt(m: Entries, keys: seq<Addr>)
    requires keys == AscendingKeys(m.Keys)
    requires forall k :: k in keys ==> k in m
    ensures forall i :: 0 <= i < |keys| ==> ShutdownReport(m)[i + 1] == LeakLine(m[keys[i]])
  {
    var report := ShutdownReport(m);
    assert report == [SummaryLine(|m|)] + LeakLines(m, keys) + [ShutdownLine];
    forall i | 0 <= i < |keys| ensures report[i + 1] == LeakLine(m[keys[i]]) {
      assert report[i + 1] == LeakLines(m, keys)[i];
    }
  }

  /**
   * The count a reader takes from the summary line equals the number of
   * leak lines, and both equal the number of entries left.
   */
  lemma ShutdownReportCounts(m: Entries)
    ensures ParseSummary(ShutdownReport(m)[0]) == Some(|m|)
    ensures CountLeakLines(ShutdownReport(m)) == |m|
  {
    ShutdownReportShape(m);
    SummaryLineParses(|m|);
    AscendingKeysSpec(m.Keys);
    CountOfLeakLines(m, AscendingKeys(m.Keys));
    OnlyLeakLinesAreLeakLines(|m|);
    CountLeakLinesAppend([SummaryLine(|m|)], DumpLines(m));
    CountLeakLinesAppend([SummaryLine(|m|)] + DumpLines(m), [ShutdownLine]);
    assert [SummaryLine(|m|)][..0] == [];
    assert [ShutdownLine][..0] == [];
  }

  /**
   * Every entry left has a leak line in the report, and every leak line of
   * the report is the line of an entry left.
   */
  lemma ShutdownReportAttribution(m: Entries)
    ensures forall p :: p in m ==> exists i :: 1 <= i <= |m| && ShutdownReport(m)[i] == LeakLine(m[p])
    ensures forall i :: 0 <= i < |ShutdownReport(m)| && IsLeakLine(ShutdownReport(m)[i]) ==>
              1 <= i <= |m| && exists p :: p in m && ShutdownReport(m)[i] == LeakLine(m[p])
  {
    ShutdownReportShape(m);
    AscendingKeysSpec(m.Keys);
    var keys := AscendingKeys(m.Keys);
    var r := ShutdownReport(m);
    forall p | p in m ensures exists i :: 1 <= i <= |m| && r[i] == LeakLine(m[p]) {
      var j :| 0 <= j < |keys| && keys[j] == p;
      assert r[j + 1] == LeakLine(m[p]);
    }
    OnlyLeakLinesAreLeakLines(|m|);
    forall i | 0 <= i < |r| && IsLeakLine(r[i])
      ensures 1 <= i <= |m| && exists p :: p in m && r[i] == LeakLine(m[p])
    {
      assert i != 0 && i != |m| + 1;
      assert r[i] == LeakLine(m[keys[i - 1]]);
    }
  }

  /**
   * A reader of the report gets back, from some leak line, exactly the
   * function, type name, line and file recorded for each entry left
   * (names free of the format's quote delimiter).
   */
  lemma LeakAttributionReadBack(m: Entries, p: Addr)
    requires p in m && NoQuote(m[p].functionAlloc) && NoQuote(m[p].typeName)
    ensures exists i :: 1 <= i <= |m| && ParseLeakLine(ShutdownReport(m)[i]) == Some(AttributionOf(m[p]))
  {
    ShutdownReportAttribution(m);
    var i :| 1 <= i <= |m| && ShutdownReport(m)[i] == LeakLine(m[p]);
    LeakLineRoundTrip(m[p]);
  }

  // ----- reports after whole histories of calls -----

  /**
   * Recording each of a series of allocations on a fresh tracker and
   * releasing it straight away leaves nothing to report: "No memory leaks"
   * and no leak line.
   */
  lemma NoLeaksAfterPairedCalls(allocations: seq<(Addr, MemoryStruct)>)
    ensures ShutdownReport(Run(map[], Paired(allocations))) == [NoLeaksLine, ShutdownLine]
  {
    PairedLeavesMap(map[], allocations);
    var m: Entries := map[];
    assert m.Keys == {};
    assert DumpLines(m) == [];
  }

  /**
   * On a fresh tracker, the count the shutdown report states and the number
   * of its leak lines are the number of addresses recorded and not released.
   */
  lemma LeakCountAfterCalls(calls: seq<Call>)
    ensures ParseSummary(ShutdownReport(Run(map[], calls))[0]) == Some(|Unreleased(calls)|)
    ensures CountLeakLines(ShutdownReport(Run(map[], calls))) == |Unreleased(calls)|
  {
    var m := Run(map[], calls);
    RunFromEmpty(calls);
    assert |m| == |m.Keys|;
    ShutdownReportCounts(m);
  }

  /** The report for a single remaining entry. */
  lemma ReportOfOne(p: Addr, data: MemoryStruct)
    ensures ShutdownReport(map[p := data]) == [SummaryLine(1), LeakLine(data), ShutdownLine]
  {
  }

  /**
   * Recording the same address twice without releasing it in between
   * leaves one leak, reported with the second record's metadata.
   */
  lemma DoubleRecordReport(ptr: Addr, first: MemoryStruct, second: MemoryStruct)
    ensures ShutdownReport(Run(map[], [Track(ptr, first), Track(ptr, second)]))
         == [SummaryLine(1), LeakLine(second), ShutdownLine]
  {
    var calls := [Track(ptr, first), Track(ptr, second)];
    assert calls[..1][..0] == [];
    assert Run(map[], calls[..1]) == Tracked(map[], ptr, first);
    var m := Run(map[], calls);
    assert m == Tracked(Tracked(map[], ptr, first), ptr, second);
    assert m == map[ptr := second];
    ReportOfOne(ptr, second);
  }

  const Foo := MemoryStruct("Foo", "a.cpp", 10, "f", 8)
  const Bar := MemoryStruct("Bar", "a.cpp", 12, "g", 16)

  lemma SummaryOfOneText()
    ensures SummaryLine(1) == "1 memory leak occurence detected"
  {
    assert Decimal.DigitChar(1) == '1';
    assert Decimal.NatToString(1) == "1";
    assert "1" + SingularSuffix == "1 memory leak occurence detected";
  }

  lemma TwelveText()
    ensures Decimal.IntToString(12) == "12"
  {
  }

  lemma BarHeadText()
    ensures LeakPrefix + "g" + TypeSeparator + "Bar" == "Leak in 'g' when allocating 'Bar"
  {
    assert LeakPrefix + "g" == "Leak in 'g";
  }

  lemma LeakLineOfBarText()
    ensures LeakLine(Bar) == "Leak in 'g' when allocating 'Bar' on line 12 in file a.cpp"
  {
    TwelveText();
    BarHeadText();
    assert "Leak in 'g' when allocating 'Bar" + LineSeparator + "12" + FileSeparator + "a.cpp"
        == "Leak in 'g' when allocating 'Bar' on line 12 in file a.cpp";
  }

  lemma ExampleLines()
    ensures SummaryLine(1) == "1 memory leak occurence detected"
    ensures LeakLine(Bar) == "Leak in 'g' when allocating 'Bar' on line 12 in file a.cpp"
  {
    SummaryOfOneText();
    LeakLineOfBarText();
  }

  /**
   * Two allocations, the first released: the report states one leak and
   * attributes it to the second allocation.
   */
  lemma TwoAllocationsOneReleased()
    ensures ShutdownReport(Run(map[], [Track(1, Foo), Track(2, Bar), UnTrack(1)]))
         == ["1 memory leak occurence detected",
             "Leak in 'g' when allocating 'Bar' on line 12 in file a.cpp",
             "Shutdown MemoryTracker"]
  {
    ExampleCallsLeaveBar();
    ReportOfOne(2, Bar);
    ExampleLines();
  }

  /** The map the calls of TwoAllocationsOneReleased leave behind. */
  lemma ExampleCallsLeaveBar()
    ensures Run(map[], [Track(1, Foo), Track(2, Bar), UnTrack(1)]) == map[2 := Bar]
  {
    var calls := [Track(1, Foo), Track(2, Bar), UnTrack(1)];
    assert calls[..2][..1][..0] == [];
    assert Run(map[], calls[..2][..1]) == Tracked(map[], 1, Foo);
    assert Run(map[], calls[..2]) == Tracked(Tracked(map[], 1, Foo), 2, Bar);
    assert Run(map[], calls) == UnTracked(Tracked(Tracked(map[], 1, Foo), 2, Bar), 1);
  }

  /**
   * A concrete session: two allocations are recorded, the first is
   * released, and the tracker shuts down. The report file then holds
   * exactly these lines.
   */
  method ExampleSession() returns (report: seq<string>)
    ensures report == ["Initialize MemoryTracker",
                       "1 memory leak occurence detected",
                       "Leak in 'g' when allocating 'Bar' on line 12 in file a.cpp",
                       "Shutdown MemoryTracker"]
  {
    var tracker := new MemoryTracker();
    var t1 := tracker.TrackMemory(1, 8, "a.cpp", 10, "f", "Foo");
    var t2 := tracker.TrackMemory(2, 16, "a.cpp", 12, "g", "Bar");
    tracker.UnTrackMemory(t1);
    assert tracker.memoryStructMap == map[2 := Bar];
    tracker.Shutdown();
    ReportOfOne(2, Bar);
    assert tracker.trackerFile == [InitializeLine, SummaryLine(1), LeakLine(Bar), ShutdownLine];
    ExampleLines();
    report := tracker.trackerFile;
  }

  /**
   * A whole session on a fresh tracker: the calls are made in order through
   * TrackMemory and UnTrackMemory, then the tracker shuts down. The report
   * file is the "Initialize" line followed by the shutdown report of the map
   * Run(map[], calls), which ties every lemma above about Run to the
   * tracker object itself.
   */
  method Session(calls: seq<Call>) returns (report: seq<string>)
    ensures report == [InitializeLine] + ShutdownReport(Run(map[], calls))
  {
    var tracker := new MemoryTracker();
    var i := 0;
    while i < |calls|
      invariant 0 <= i <= |calls|
      invariant tracker.memoryStructMap == Run(map[], calls[..i])
      invariant tracker.trackerFile == [InitializeLine] && !tracker.closed
    {
      assert calls[..i + 1][..i] == calls[..i];
      match calls[i] {
        case Track(ptr, data) =>
          var _ := tracker.TrackMemory(ptr, data.allocatedBytes, data.file, data.line,
                                       data.functionAlloc, data.typeName);
        case UnTrack(ptr) =>
          tracker.UnTrackMemory(ptr);
      }
      i := i + 1;
    }
    assert calls[..|calls|] == calls;
    tracker.Shutdown();
    report := tracker.trackerFile;
  }
}

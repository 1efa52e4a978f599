# MemoryTracker in Dafny

This project models `MemoryTracker`, the allocation registry of the one-header
leak tracker `MemoryTracker.h`. Tracked allocations are recorded in a map from
allocation address to a `MemoryStruct` record. The record holds the type
name, the file, the line, the allocating function and the byte count. Releasing
an address erases its entry. An address that is not tracked is silently
ignored. When the tracker is destroyed, it writes a leak report to
`MemoryTracker.txt`. The report has a count summary, one "Leak in ..." line per
entry still in the map, in ascending address order, and a shutdown marker.

Layout:

- `wrappers.dfy` (`Wrappers`): the `Option` type.
- `decimal.dfy` (`Decimal`): base-ten rendering of the numbers the report
  streams, with parsers proved inverse to it.
- `records.dfy` (`Records`): `Addr`, an opaque address that is never
  dereferenced, and the `MemoryStruct` record.
- `report_lines.dfy` (`ReportLines`): the exact text of every report line.
  Its parsers show that a reader gets the count and the attribution back
  from each line.
- `registry.dfy` (`Registry`): recording and releasing as functions on the
  map, the ascending walk order, and the map left after any sequence of calls.
- `tracker.dfy` (`Tracker`): the `MemoryTracker` class. Its fields are
  `memoryStructMap`, `trackerFile` and `closed`. `trackerFile` holds the
  report file's lines, and `closed` records that the destructor has run.
  The file also holds the specification of the shutdown report and the
  lemmas about it.

Every method of the class is proved against a specification function.
`TrackMemory` is proved against `Registry.Tracked`, `UnTrackMemory` against
`Registry.UnTracked`, `DumpTrackMemory` against `Tracker.DumpLines` and
`Shutdown` against `Tracker.ShutdownReport`. The lemmas then prove what the
source promises about those functions.

The map is a `std::map<void*, MemoryStruct>` (MemoryTracker.h:130), and the
shutdown walk goes from `begin()` to `end()` (MemoryTracker.h:136-151). So
leak lines come out in ascending address order, and the model writes them in
that order (`Registry.AscendingKeys`).

## Model

| member | source | states |
|---|---|---|
| Decimal.NatToString | MemoryTracker.h:74-75 | the rendered count is a non-empty digit string with no leading zero unless it is 0 |
| Decimal.IntToString | MemoryTracker.h:146-147 | the rendered line number is digits, with a leading '-' exactly when the line is negative |
| Decimal.ParseNatExact | MemoryTracker.h:74-75 | a string parses as n exactly when it is the rendering of n, so rendering and parsing are inverse |
| Decimal.ParseIntToString | MemoryTracker.h:146-147 | parsing the rendered line number gives the line back, for every int |
| ReportLines.SummaryLine | MemoryTracker.h:66-75 | the summary text for a count; it is never taken for a leak line, and its wording and count are pinned by SummaryWording and SummaryLineExact |
| ReportLines.SummaryLineExact | MemoryTracker.h:66-75 | the summary line is read back as exactly its count; no other count's line reads as that count |
| ReportLines.SummaryWording | MemoryTracker.h:66-75 | "No memory leaks" exactly for 0, the singular "occurence" wording exactly for 1, the plural exactly for 2 or more |
| ReportLines.LeakLine | MemoryTracker.h:142-150 | the text of one leak line; it always starts with "Leak in '", and LeakLineRoundTrip pins the fields it carries |
| ReportLines.OnlyLeakLinesAreLeakLines | MemoryTracker.h:59-79 | the initialize, summary and shutdown lines are never taken for leak lines |
| ReportLines.LeakLineRoundTrip | MemoryTracker.h:142-150 | a leak line gives back the function, type name, line and file of its record (names without a single quote) |
| Registry.Tracked | MemoryTracker.h:97-103 | after recording, the address holds exactly the new record; every other entry is unchanged; the size grows by one exactly when the address was new |
| Registry.UnTracked | MemoryTracker.h:110-124 | after releasing, the address is absent; every other entry is unchanged; an absent address or an empty map leaves the map as it was |
| Registry.UnTrackedIsErase | MemoryTracker.h:112-122 | the early return on an empty map agrees with a plain erase |
| Registry.UnTrackedIdempotent | MemoryTracker.h:112-123 | releasing twice gives the same map as releasing once |
| Registry.TrackedOverwrites | MemoryTracker.h:103 | recording an address again is the same as recording only the second record |
| Registry.TrackThenUnTrack | MemoryTracker.h:103-122 | recording a fresh address and releasing it restores the map |
| Registry.Least | MemoryTracker.h:136 | the walk starts at the least remaining address |
| Registry.AscendingKeys | MemoryTracker.h:136-151 | the order the map's iterator visits the keys, one position per key; AscendingKeysSpec pins it as every key once, ascending |
| Registry.AscendingKeysSpec | MemoryTracker.h:136-151 | the walk visits every key exactly once, and only keys, in strictly ascending order |
| Registry.RunEntry | MemoryTracker.h:94-124 | after any sequence of calls, an address is tracked exactly when its last call recorded it, and then it holds that call's record; untouched addresses keep their entry |
| Registry.PairedLeavesMap | MemoryTracker.h:103-122 | record/release pairs on addresses not tracked at the start leave the map unchanged |
| Registry.RunFromEmpty | MemoryTracker.h:94-124 | from an empty map, the addresses left are exactly those recorded and not released afterwards |
| Tracker.DumpLines | MemoryTracker.h:134-153 | the walk writes one line per entry |
| Tracker.ShutdownReport | MemoryTracker.h:63-81 | the destructor writes the entry count plus two lines |
| Tracker.MemoryTracker.constructor | MemoryTracker.h:55-60 | a new tracker has an empty map and the report holds "Initialize MemoryTracker" |
| Tracker.MemoryTracker.TrackMemory | MemoryTracker.h:94-105 | returns the address it was given; the map becomes Tracked(old map, address, record of exactly the given values) |
| Tracker.MemoryTracker.UnTrackMemory | MemoryTracker.h:110-124 | the map becomes UnTracked(old map, address) |
| Tracker.MemoryTracker.DumpTrackMemory | MemoryTracker.h:134-153 | the loop appends exactly DumpLines of the map: one leak line per entry, in ascending address order |
| Tracker.MemoryTracker.Shutdown | MemoryTracker.h:63-81 | appends exactly ShutdownReport of the map and closes the report; the map is not changed |
| Tracker.ShutdownReportShape | MemoryTracker.h:63-81 | the report is the summary for the entry count, then the entries' leak lines by ascending address, then "Shutdown MemoryTracker" |
| Tracker.ShutdownReportCounts | MemoryTracker.h:66-79 | the count read from the summary line equals the number of leak lines, and both equal the number of entries |
| Tracker.ShutdownReportAttribution | MemoryTracker.h:139-152 | every remaining entry has its leak line in the report, and every leak line belongs to a remaining entry |
| Tracker.LeakAttributionReadBack | MemoryTracker.h:141-150 | for each remaining entry, a reader recovers its function, type, line and file from the report (names without a single quote) |
| Tracker.NoLeaksAfterPairedCalls | MemoryTracker.h:66-69 | from an empty map (a fresh tracker, via Session), record/release pairs give exactly "No memory leaks" then "Shutdown MemoryTracker" |
| Tracker.LeakCountAfterCalls | MemoryTracker.h:66-79 | from an empty map (a fresh tracker, via Session), the reported count and the number of leak lines both equal the number of unreleased addresses |
| Tracker.DoubleRecordReport | MemoryTracker.h:103 | recording one address twice gives one leak line, with the second record's metadata |
| Tracker.TwoAllocationsOneReleased | MemoryTracker.h:66-79 | two records with the first released give exactly the one-leak summary, the second record's leak line and the marker |
| Tracker.ExampleSession | MemoryTracker.h:55-153 | a fresh tracker with two recorded allocations, the first released, then shut down, writes exactly the four expected report lines |
| Tracker.Session | MemoryTracker.h:55-153 | a fresh tracker driven through any sequence of TrackMemory/UnTrackMemory calls and then shut down writes "Initialize MemoryTracker" followed by ShutdownReport(Run(map[], calls)) |

## Left out

- File output is a sequence of lines, and each line is modelled without its trailing "\n". Opening and closing `MemoryTracker.txt`, and what happens when it cannot be opened, are not modelled. The `closed` flag only records that the destructor ran.
- `typeid(T).name()` depends on the compiler, so the type name is a parameter of `TrackMemory`.
- The lazily built singleton in `getInstance` and its static lifetime are left out. A tracker is constructed explicitly, and `Shutdown` stands for the destructor that runs once at process exit. The deleted copy constructor and copy assignment have nothing to model.
- The `MT_NEW`/`MT_DELETE` templates and macros are left out. So are the `__FILE__`/`__LINE__`/`__FUNCTION__` capture and the `ENABLED_MEMORY_TRACKER` compile-time switch. They do real allocation and freeing, and their only registry logic is "record, then return the pointer" and "release, then free". The model states that logic in `TrackMemory` and `UnTrackMemory`. Because they are left out, the model says nothing about builds with tracking disabled. It also does not reproduce `MT_DELETE` releasing `new`-allocated memory with `free`.
- Machine widths are not modelled. `size_t` (the byte count and the leak count) is an unbounded `nat`, and `int` (the line) is an unbounded `int`. Nothing in the core does arithmetic that could wrap.
- Address order is the order of natural numbers. Pointer comparison in `std::less<void*>` is taken to agree with it.
- Concurrency is left out. The source has no synchronisation and promises nothing for concurrent use.
- Report fields are assumed to hold no newline and no NUL character. A newline inside a field would split a physical line of MemoryTracker.txt, and `string::assign` of a C string stops at the first NUL; the model keeps each written line as one string, whatever it contains.
- ReportLines.LeakLineRoundTrip and Tracker.LeakAttributionReadBack: the read-back needs function and type names that contain no single quote. The line format uses quotes as delimiters, so with such names a line can be ambiguous.

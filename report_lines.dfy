/**
 * The lines the tracker writes to its report file, MemoryTracker.txt. Each
 * line is modelled without its trailing newline. The parsers are the reading
 * side of the format: they state which count and which attribution a reader
 * of the report gets back from a line.
 */
module ReportLines {
  import opened Wrappers
  import opened Decimal
  import opened Records

  const InitializeLine: string := "Initialize MemoryTracker"
  const NoLeaksLine: string := "No memory leaks"
  // The report's own spelling ("occurence") is kept.
  const SingularSuffix: string := " memory leak occurence detected"
  const PluralSuffix: string := " memory leak occurences detected"
  const ShutdownLine: string := "Shutdown MemoryTracker"

  const LeakPrefix: string := "Leak in '"
  const TypeSeparator: string := "' when allocating '"
  const LineSeparator: string := "' on line "
  const FileSeparator: string := " in file "

  /**
   * The summary line written at shutdown for n remaining entries. It is
   * never taken for a leak line; SummaryWording and SummaryLineExact below
   * pin its wording and the count it states.
   */
  function SummaryLine(n: nat): (line: string)
    ensures !IsLeakLine(line)
  {
    assert LeakPrefix[0] == 'L' && IsDigit(NatToString(n)[0]);
    if n == 0 then NoLeaksLine
    else if n == 1 then NatToString(n) + SingularSuffix
    else NatToString(n) + PluralSuffix
  }

  /**
   * The line written for one remaining (leaked) entry. Every such line is
   * recognised as a leak line; LeakLineRoundTrip below shows that it carries
   * the entry's function, type name, line and file.
   */
  function LeakLine(m: MemoryStruct): (line: string)
    ensures IsLeakLine(line)
  {
    var line := LeakPrefix + m.functionAlloc + TypeSeparator + m.typeName + LineSeparator
      + IntToString(m.line) + FileSeparator + m.file;
    assert line[..|LeakPrefix|] == LeakPrefix;
    line
  }

  /** What a leak line tells its reader about an allocation. */
  datatype Attribution = Attribution(functionAlloc: string, typeName: string, line: int, file: string)

  function AttributionOf(m: MemoryStruct): Attribution {
    Attribution(m.functionAlloc, m.typeName, m.line, m.file)
  }

  predicate StartsWith(s: string, p: string) {
    |p| <= |s| && s[..|p|] == p
  }

  predicate EndsWith(s: string, p: string) {
    |p| <= |s| && s[|s| - |p|..] == p
  }

  predicate IsLeakLine(s: string) {
    StartsWith(s, LeakPrefix)
  }

  predicate NoQuote(s: string) {
    forall i :: 0 <= i < |s| ==> s[i] != '\''
  }

  /** The count a summary line states, or None for any other line. */
  function ParseSummary(s: string): Option<nat> {
    if s == NoLeaksLine then Some(0)
    else if EndsWith(s, SingularSuffix) then
      if ParseNat(s[..|s| - |SingularSuffix|]) == Some(1) then Some(1) else None
    else if EndsWith(s, PluralSuffix) then
      match ParseNat(s[..|s| - |PluralSuffix|])
      case Some(n) => if n >= 2 then Some(n) else None
      case None => None
    else None
  }

  /** Length of the longest prefix of s without a single quote. */
  function UntilQuote(s: string): (n: nat)
    ensures n <= |s|
  {
    if s == [] || s[0] == '\'' then 0 else 1 + UntilQuote(s[1..])
  }

  /** Length of the longest prefix of s made of digits. */
  function DigitRun(s: string): (n: nat)
    ensures n <= |s|
  {
    if s == [] || !IsDigit(s[0]) then 0 else 1 + DigitRun(s[1..])
  }

  /** Length of the number at the front of s: an optional '-', then digits. */
  function NumberLength(s: string): (n: nat)
    ensures n <= |s|
  {
    if |s| > 0 && s[0] == '-' then 1 + DigitRun(s[1..]) else DigitRun(s)
  }

  /** The attribution a leak line states, or None for any other line. */
  function ParseLeakLine(s: string): Option<Attribution> {
    if StartsWith(s, LeakPrefix) then ParseFunctionField(s[|LeakPrefix|..]) else None
  }

  /** Reads "<function>' when allocating '" and the fields after it. */
  function ParseFunctionField(r: string): Option<Attribution> {
    var i := UntilQuote(r);
    if StartsWith(r[i..], TypeSeparator) then ParseTypeField(r[..i], r[i + |TypeSeparator|..]) else None
  }

  /** Reads "<type>' on line " and the fields after it. */
  function ParseTypeField(fn: string, r: string): Option<Attribution> {
    var i := UntilQuote(r);
    if StartsWith(r[i..], LineSeparator) then ParseLineField(fn, r[..i], r[i + |LineSeparator|..]) else None
  }

  /** Reads "<line> in file <file>". */
  function ParseLineField(fn: string, ty: string, r: string): Option<Attribution> {
    var i := NumberLength(r);
    if !StartsWith(r[i..], FileSeparator) then None else
    match ParseInt(r[..i])
    case None => None
    case Some(line) => Some(Attribution(fn, ty, line, r[i + |FileSeparator|..]))
  }

  lemma {:induction false} UntilQuoteAppend(x: string, y: string)
    requires NoQuote(x) && |y| > 0 && y[0] == '\''
    ensures UntilQuote(x + y) == |x|
    decreases |x|
  {
    if x != [] {
      assert (x + y)[1..] == x[1..] + y;
      UntilQuoteAppend(x[1..], y);
    }
  }

  lemma {:induction false} DigitRunAppend(x: string, y: string)
    requires AllDigits(x) && |y| > 0 && !IsDigit(y[0])
    ensures DigitRun(x + y) == |x|
    decreases |x|
  {
    if x != [] {
      assert (x + y)[1..] == x[1..] + y;
      DigitRunAppend(x[1..], y);
    }
  }

  lemma NumberLengthAppend(i: int, y: string)
    requires |y| > 0 && !IsDigit(y[0]) && y[0] != '-'
    ensures NumberLength(IntToString(i) + y) == |IntToString(i)|
  {
    var t := IntToString(i);
    if i < 0 {
      assert (t + y)[1..] == t[1..] + y;
      DigitRunAppend(t[1..], y);
    } else {
      DigitRunAppend(t, y);
    }
  }

  lemma SplitAt(x: string, y: string)
    ensures (x + y)[..|x|] == x && (x + y)[|x|..] == y
  {
  }

  lemma SummaryLineParses(n: nat)
    ensures ParseSummary(SummaryLine(n)) == Some(n)
  {
    if n >= 1 {
      var digits := NatToString(n);
      ParseNatToString(n);
      assert SummaryLine(n) != NoLeaksLine by {
        assert SummaryLine(n)[0] == digits[0];
        assert NoLeaksLine[0] == 'N';
      }
      if n == 1 {
        SplitAt(digits, SingularSuffix);
      } else {
        PluralSummaryParses(n);
      }
    }
  }

  lemma PluralSummaryParses(n: nat)
    requires n >= 2 && SummaryLine(n) != NoLeaksLine
    requires ParseNat(NatToString(n)) == Some(n)
    ensures ParseSummary(SummaryLine(n)) == Some(n)
  {
    var s := SummaryLine(n);
    var digits := NatToString(n);
    SplitAt(digits, PluralSuffix);
    assert !EndsWith(s, SingularSuffix) by {
      assert |s| == |digits| + |PluralSuffix|;
      assert s[|s| - |SingularSuffix|] == PluralSuffix[1];
      assert SingularSuffix[0] == ' ' && PluralSuffix[1] == 'm';
      assert s[|s| - |SingularSuffix|..][0] != SingularSuffix[0];
    }
  }

  /** A line ending in `suffix` whose front parses as n is NatToString(n) + suffix. */
  lemma SuffixedReadBack(s: string, suffix: string, n: nat)
    requires EndsWith(s, suffix) && ParseNat(s[..|s| - |suffix|]) == Some(n)
    ensures s == NatToString(n) + suffix
  {
    var digits := s[..|s| - |suffix|];
    ParseNatExact(digits, n);
    assert s == digits + suffix;
  }

  lemma ParsedSummaryIsSummaryLine(s: string, n: nat)
    requires ParseSummary(s) == Some(n)
    ensures s == SummaryLine(n)
  {
    if s != NoLeaksLine {
      if EndsWith(s, SingularSuffix) {
        SuffixedReadBack(s, SingularSuffix, 1);
      } else {
        SuffixedReadBack(s, PluralSuffix, n);
      }
    }
  }

  /**
   * A summary line is read back as exactly the count it was written for,
   * and no other line is read as that count: ParseSummary(s) == Some(n)
   * holds precisely when s is the summary line for n.
   */
  lemma SummaryLineExact(s: string, n: nat)
    ensures ParseSummary(s) == Some(n) <==> s == SummaryLine(n)
  {
    if s == SummaryLine(n) {
      SummaryLineParses(n);
    }
    if ParseSummary(s) == Some(n) {
      ParsedSummaryIsSummaryLine(s, n);
    }
  }

  /**
   * Singular wording is used exactly for one leak and the "no leaks"
   * wording exactly for none.
   */
  lemma SummaryWording(n: nat)
    ensures SummaryLine(n) == NoLeaksLine <==> n == 0
    ensures EndsWith(SummaryLine(n), SingularSuffix) <==> n == 1
    ensures EndsWith(SummaryLine(n), PluralSuffix) <==> n >= 2
  {
    var s := SummaryLine(n);
    SummaryLineExact(s, n);
    if n >= 2 {
      assert s[|s| - |SingularSuffix|] == PluralSuffix[1];
    }
    if n == 1 {
      assert s[|s| - |PluralSuffix|] != PluralSuffix[0] by {
        assert |s| == |PluralSuffix|;
      }
    }
  }

  lemma ParseLineFieldRoundTrip(fn: string, ty: string, line: int, file: string)
    ensures ParseLineField(fn, ty, IntToString(line) + FileSeparator + file)
         == Some(Attribution(fn, ty, line, file))
  {
    var num := IntToString(line);
    var r6 := FileSeparator + file;
    assert num + FileSeparator + file == num + r6;
    NumberLengthAppend(line, r6);
    SplitAt(num, r6);
    SplitAt(FileSeparator, file);
    ParseIntToString(line);
  }

  lemma ParseTypeFieldRoundTrip(fn: string, ty: string, rest: string)
    requires NoQuote(ty)
    ensures ParseTypeField(fn, ty + LineSeparator + rest)
         == ParseLineField(fn, ty, rest)
  {
    var r := LineSeparator + rest;
    assert ty + LineSeparator + rest == ty + r;
    UntilQuoteAppend(ty, r);
    SplitAt(ty, r);
    SplitAt(LineSeparator, rest);
    assert (ty + r)[|ty| + |LineSeparator|..] == r[|LineSeparator|..];
  }

  lemma ParseFunctionFieldRoundTrip(fn: string, rest: string)
    requires NoQuote(fn)
    ensures ParseFunctionField(fn + TypeSeparator + rest)
         == ParseTypeField(fn, rest)
  {
    var r := TypeSeparator + rest;
    assert fn + TypeSeparator + rest == fn + r;
    UntilQuoteAppend(fn, r);
    SplitAt(fn, r);
    SplitAt(TypeSeparator, rest);
    assert (fn + r)[|fn| + |TypeSeparator|..] == r[|TypeSeparator|..];
  }

  /**
   * A leak line carries the allocating function, type name, line and file of
   * its entry, and a reader gets them back unchanged (as long as the function
   * and type names contain no single quote, the format's field delimiter).
   */
  lemma LeakLineRoundTrip(m: MemoryStruct)
    requires NoQuote(m.functionAlloc) && NoQuote(m.typeName)
    ensures ParseLeakLine(LeakLine(m)) == Some(AttributionOf(m))
  {
    var lineRest := IntToString(m.line) + FileSeparator + m.file;
    var typeRest := m.typeName + LineSeparator + lineRest;
    var fnRest := m.functionAlloc + TypeSeparator + typeRest;
    assert LeakLine(m) == LeakPrefix + fnRest;
    SplitAt(LeakPrefix, fnRest);
    ParseFunctionFieldRoundTrip(m.functionAlloc, typeRest);
    ParseTypeFieldRoundTrip(m.functionAlloc, m.typeName, lineRest);
    ParseLineFieldRoundTrip(m.functionAlloc, m.typeName, m.line, m.file);
  }

  /** Leak lines are told apart from every other line of the report. */
  lemma OnlyLeakLinesAreLeakLines(n: nat)
    ensures !IsLeakLine(SummaryLine(n))
    ensures !IsLeakLine(InitializeLine) && !IsLeakLine(ShutdownLine)
  {
    assert LeakPrefix[0] == 'L';
  }
}

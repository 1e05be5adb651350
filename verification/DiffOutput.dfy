// Reading the -z output of git diff: one list of statuses and one of line
// counts, joined by path.
module DiffOutput {
  import opened Options
  import opened Texts

  const NUL := '\0'
  const TAB := '\t'
  const MAX_FILES := 10_000
  const INT64_MAX := 0x7FFF_FFFF_FFFF_FFFF

  datatype File = File(status: char, oldPath: string, newPath: string)

  // Added and deleted lines; a binary file has no counts.
  datatype Counts = Binary | Lines(additions: nat, deletions: nat)

  datatype Error = Unterminated | EmptyStatus | Unsupported | MissingPath | OutputLimit | FieldCount | InvalidCount | Duplicate
    | MissingStatistics | CountMismatch

  predicate TwoPaths(code: char) { code == 'R' || code == 'C' }

  function FileOf(code: char, first: string, second: string): File {
    if code == 'A' then File(code, "", first)
    else if code == 'D' then File(code, first, "")
    else if TwoPaths(code) then File(code, first, second)
    else File(code, first, first)
  }

  function PathCount(code: char): nat { if TwoPaths(code) then 2 else 1 }

  // --- Statuses -------------------------------------------------------------------

  // The records of the fields, of which at most `room` are accepted.
  function ParseStatusFields(fields: seq<string>, room: int): Result<seq<File>, Error> {
    if fields == [] then Ok([])
    else if fields[0] == "" then Err(EmptyStatus)
    else if fields[0][0] !in "AMDRCT" then Err(Unsupported)
    else
      var code := fields[0][0];
      if 1 + PathCount(code) > |fields| then Err(MissingPath)
      else if room <= 0 then Err(OutputLimit)
      else match ParseStatusFields(fields[1 + PathCount(code)..], room - 1)
        case Ok(rest) => Ok([FileOf(code, fields[1], fields[PathCount(code)])] + rest)
        case Err(error) => Err(error)
  }

  // The fields before the final separator.
  function Fields(output: string): Result<seq<string>, Error> {
    if output == "" then Ok([])
    else
      var parts := Split(output, NUL);
      if parts[|parts| - 1] != "" then Err(Unterminated) else Ok(parts[..|parts| - 1])
  }

  function ParsedStatus(output: string): Result<seq<File>, Error> {
    match Fields(output)
    case Ok(fields) => ParseStatusFields(fields, MAX_FILES)
    case Err(error) => Err(error)
  }

  // What the fields from here on add to the files found so far.
  function Onto(files: seq<File>, rest: Result<seq<File>, Error>): Result<seq<File>, Error> {
    match rest
    case Ok(more) => Ok(files + more)
    case Err(error) => Err(error)
  }

  lemma OntoStep(files: seq<File>, file: File, rest: Result<seq<File>, Error>)
    ensures Onto([], rest) == rest
    ensures Onto(files, Onto([file], rest)) == Onto(files + [file], rest)
  {
    if rest.Ok? {
      assert [] + rest.value == rest.value;
      assert files + ([file] + rest.value) == files + [file] + rest.value;
    }
  }

  // One record further.
  lemma StatusStep(fields: seq<string>, index: nat, files: seq<File>, room: int)
    requires index < |fields| && fields[index] != "" && fields[index][0] in "AMDRCT"
    requires index + 1 + PathCount(fields[index][0]) <= |fields| && room > 0
    ensures
      var code, count := fields[index][0], PathCount(fields[index][0]);
      Onto(files, ParseStatusFields(fields[index..], room)) ==
        Onto(files + [FileOf(code, fields[index + 1], fields[index + count])], ParseStatusFields(fields[index + 1 + count..], room - 1))
  {
    var code, count := fields[index][0], PathCount(fields[index][0]);
    var here := fields[index..];
    assert here[0] == fields[index] && here[1] == fields[index + 1] && here[count] == fields[index + count];
    assert here[1 + count..] == fields[index + 1 + count..];
    OntoStep(files, FileOf(code, fields[index + 1], fields[index + count]), ParseStatusFields(fields[index + 1 + count..], room - 1));
  }

  method ParseDiffStatus(output: string) returns (result: Result<seq<File>, Error>)
    ensures result == ParsedStatus(output)
  {
    if |output| == 0 {
      return Ok([]);
    }
    var fields := Split(output, NUL);
    if fields[|fields| - 1] != "" {
      return Err(Unterminated);
    }
    result := ParseStatusRecords(fields[..|fields| - 1]);
  }

  method ParseStatusRecords(fields: seq<string>) returns (result: Result<seq<File>, Error>)
    ensures result == ParseStatusFields(fields, MAX_FILES)
  {
    var files: seq<File> := [];
    var index := 0;
    assert fields[0..] == fields;
    OntoStep([], File('A', "", ""), ParseStatusFields(fields, MAX_FILES));
    while index < |fields|
      invariant 0 <= index <= |fields| && |files| <= MAX_FILES
      invariant ParseStatusFields(fields, MAX_FILES) == Onto(files, ParseStatusFields(fields[index..], MAX_FILES - |files|))
    {
      var status := fields[index];
      assert fields[index..][0] == status;
      index := index + 1;
      if |status| == 0 {
        return Err(EmptyStatus);
      }
      var code := status[0];
      if code !in "AMDRCT" {
        return Err(Unsupported);
      }
      var pathCount := PathCount(code);
      if index + pathCount > |fields| {
        return Err(MissingPath);
      }
      var file := FileOf(code, fields[index], fields[index + pathCount - 1]);
      ghost var found := files;
      files := files + [file];
      if |files| > MAX_FILES {
        return Err(OutputLimit);
      }
      StatusStep(fields, index - 1, found, MAX_FILES - |found|);
      index := index + pathCount;
    }
    assert fields[index..] == [] && files + [] == files;
    return Ok(files);
  }

  // --- Line counts ------------------------------------------------------------------

  // strconv.Atoi, for the results that the caller accepts.
  function ParseCount(s: string): Option<nat> {
    var digits := if s != "" && s[0] in "+-" then s[1..] else s;
    if !IsDecimal(digits) then None
    else if s[0] == '-' then (if Value(digits) == 0 then Some(0) else None)
    else if Value(digits) > INT64_MAX then None
    else Some(Value(digits))
  }

  function ParseCounts(additions: string, deletions: string): Option<Counts> {
    if additions == "-" && deletions == "-" then Some(Binary)
    else match (ParseCount(additions), ParseCount(deletions))
      case (Some(a), Some(d)) => Some(Lines(a, d))
      case _ => None
  }

  function PathKey(oldPath: string, newPath: string): string { oldPath + [NUL] + newPath }

  // The first record of the fields: its key, its counts and its size.
  function ParseStatistic(fields: seq<string>): Result<(string, Counts, nat), Error>
    requires fields != []
    ensures ParseStatistic(fields).Ok? ==> 1 <= ParseStatistic(fields).value.2 <= |fields|
  {
    var header := Split(fields[0], TAB);
    if |header| != 3 then Err(FieldCount)
    else if header[2] == "" && |fields| < 3 then Err(MissingPath)
    else match ParseCounts(header[0], header[1])
      case None => Err(InvalidCount)
      case Some(counts) =>
        if header[2] == "" then Ok((PathKey(fields[1], fields[2]), counts, 3)) else Ok((PathKey(header[2], header[2]), counts, 1))
  }

  function ParseNumstatFields(fields: seq<string>, found: map<string, Counts>): Result<map<string, Counts>, Error>
    decreases |fields|
  {
    if fields == [] then Ok(found)
    else match ParseStatistic(fields)
      case Err(error) => Err(error)
      case Ok((key, counts, size)) =>
        if key in found then Err(Duplicate)
        else if |found[key := counts]| > MAX_FILES then Err(OutputLimit)
        else ParseNumstatFields(fields[size..], found[key := counts])
  }

  function ParsedNumstat(output: string): Result<map<string, Counts>, Error> {
    match Fields(output)
    case Ok(fields) => ParseNumstatFields(fields, map[])
    case Err(error) => Err(error)
  }

  method ParseDiffNumstat(output: string) returns (result: Result<map<string, Counts>, Error>)
    ensures result == ParsedNumstat(output)
  {
    var statistics: map<string, Counts> := map[];
    if |output| == 0 {
      return Ok(statistics);
    }
    var fields := Split(output, NUL);
    if fields[|fields| - 1] != "" {
      return Err(Unterminated);
    }
    fields := fields[..|fields| - 1];
    var index := 0;
    while index < |fields|
      invariant 0 <= index <= |fields|
      invariant ParseNumstatFields(fields, map[]) == ParseNumstatFields(fields[index..], statistics)
    {
      ghost var rest := fields[index..];
      assert rest[0] == fields[index];
      var header := Split(fields[index], TAB);
      if |header| != 3 {
        return Err(FieldCount);
      }
      var oldPath, newPath := header[2], header[2];
      ghost var size := 1;
      if |header[2]| == 0 {
        if index + 2 >= |fields| {
          return Err(MissingPath);
        }
        oldPath, newPath := fields[index + 1], fields[index + 2];
        assert rest[1] == oldPath && rest[2] == newPath;
        index := index + 2;
        size := 3;
      }
      var counts := ParseCounts(header[0], header[1]);
      if counts.None? {
        return Err(InvalidCount);
      }
      var key := PathKey(oldPath, newPath);
      if key in statistics {
        return Err(Duplicate);
      }
      statistics := statistics[key := counts.value];
      if |statistics| > MAX_FILES {
        return Err(OutputLimit);
      }
      index := index + 1;
      assert rest[size..] == fields[index..];
    }
    assert fields[index..] == [];
    return Ok(statistics);
  }

  // --- The join -----------------------------------------------------------------------

  function FileKey(f: File): string {
    PathKey(if f.oldPath == "" then f.newPath else f.oldPath, if f.newPath == "" then f.oldPath else f.newPath)
  }

  method Join(files: seq<File>, statistics: map<string, Counts>) returns (result: Result<seq<(File, Counts)>, Error>)
    ensures result.Ok? <==> (forall f | f in files :: FileKey(f) in statistics) && |statistics| == |files|
    ensures result.Ok? ==>
              |result.value| == |files| &&
              forall n | 0 <= n < |files| :: result.value[n] == (files[n], statistics[FileKey(files[n])])
  {
    var joined: seq<(File, Counts)> := [];
    for index := 0 to |files|
      invariant |joined| == index
      invariant forall n | 0 <= n < index :: FileKey(files[n]) in statistics && joined[n] == (files[n], statistics[FileKey(files[n])])
    {
      var key := FileKey(files[index]);
      if key !in statistics {
        return Err(MissingStatistics);
      }
      joined := joined + [(files[index], statistics[key])];
    }
    if |statistics| != |files| {
      return Err(CountMismatch);
    }
    return Ok(joined);
  }

  function Keys(files: seq<File>): set<string> { set f | f in files :: FileKey(f) }

  predicate DistinctKeys(files: seq<File>) {
    forall m, n | 0 <= m < n < |files| :: FileKey(files[m]) != FileKey(files[n])
  }

  lemma {:induction false} DistinctKeysCount(files: seq<File>)
    requires DistinctKeys(files)
    ensures |Keys(files)| == |files|
  {
    if files != [] {
      var last := |files| - 1;
      DistinctKeysCount(files[..last]);
      assert files == files[..last] + [files[last]];
      assert Keys(files) == Keys(files[..last]) + {FileKey(files[last])};
      assert FileKey(files[last]) !in Keys(files[..last]);
    }
  }

  // With distinct status keys, a join that succeeds pairs every file with one
  // statistic and leaves no statistic over.
  lemma JoinIsBijection(files: seq<File>, statistics: map<string, Counts>)
    requires DistinctKeys(files)
    ensures (forall f | f in files :: FileKey(f) in statistics) && |statistics| == |files| <==> Keys(files) == statistics.Keys
  {
    DistinctKeysCount(files);
    assert |statistics| == |statistics.Keys|;
    assert forall f | f in files :: FileKey(f) in Keys(files);
    if (forall f | f in files :: FileKey(f) in statistics) && |statistics| == |files| {
      SameSize(Keys(files), statistics.Keys);
    }
  }

  lemma SameSize(small: set<string>, large: set<string>)
    requires small <= large && |small| == |large|
    ensures small == large
  {
    assert large == small + (large - small);
  }

  // Keys tell paths apart.
  lemma PathKeyIsInjective(a: string, b: string, c: string, d: string)
    requires NUL !in a && NUL !in c && PathKey(a, b) == PathKey(c, d)
    ensures a == c && b == d
  {
    FirstSplit(a, b, c, d, NUL);
  }

  // --- What Git prints --------------------------------------------------------------------

  // One changed file: its status letter, with a score for renames and copies,
  // which have two paths.
  datatype Entry = Entry(code: char, score: string, first: string, second: string, counts: Counts) {
    predicate IsMove() { code in "RC" }
  }

  predicate Printable(path: string) { path != "" && NUL !in path }

  predicate IsEntry(e: Entry) { IsChange(e) && TabFree(e) }

  // Only a path that stands beside its counts must have no tab.
  predicate TabFree(e: Entry) { !e.IsMove() ==> TAB !in e.first }

  predicate IsChange(e: Entry) {
    && e.code in "AMDRCT" && NUL !in e.score && Printable(e.first) && Printable(e.second)
    && (!e.IsMove() ==> e.first == e.second)
    && (e.counts.Lines? ==> e.counts.additions <= INT64_MAX && e.counts.deletions <= INT64_MAX)
  }

  // An added file has only a new path, a deleted one only an old one.
  function EntryFile(e: Entry): File {
    File(e.code, if e.code == 'A' then "" else e.first, if e.code == 'D' then "" else if e.IsMove() then e.second else e.first)
  }

  function StatusFields(e: Entry): seq<string> {
    [[e.code] + e.score, e.first] + (if e.IsMove() then [e.second] else [])
  }

  function PrintStatus(entries: seq<Entry>): seq<string> {
    if entries == [] then [] else StatusFields(entries[0]) + PrintStatus(entries[1..])
  }

  function CountTexts(c: Counts): string {
    if c.Binary? then ['-', TAB, '-'] else Decimal(c.additions) + [TAB] + Decimal(c.deletions)
  }

  function StatisticFields(e: Entry): seq<string> {
    if e.IsMove() then [CountTexts(e.counts) + [TAB], e.first, e.second] else [CountTexts(e.counts) + [TAB] + e.first]
  }

  function PrintNumstat(entries: seq<Entry>): seq<string> {
    if entries == [] then [] else StatisticFields(entries[0]) + PrintNumstat(entries[1..])
  }

  function Output(fields: seq<string>): string { Terminated(fields, NUL) }

  lemma FieldsRoundTrip(fields: seq<string>)
    requires forall f | f in fields :: NUL !in f
    ensures Fields(Output(fields)) == Ok(fields)
  {
    if fields != [] {
      SplitTerminated(fields, NUL);
      assert (fields + [""])[..|fields|] == fields;
    }
  }

  // What the status output holds of an entry.
  predicate IsStatusEntry(e: Entry) {
    && e.code in "AMDRCT" && NUL !in e.score && NUL !in e.first && NUL !in e.second && (!e.IsMove() ==> e.first == e.second)
  }

  // Up to `room` entries are read back, and more are refused.
  lemma {:induction false} StatusFieldsRoundTrip(entries: seq<Entry>, room: nat)
    requires forall e | e in entries :: IsStatusEntry(e)
    ensures ParseStatusFields(PrintStatus(entries), room) == if |entries| <= room then Ok(Files(entries)) else Err(OutputLimit)
    ensures forall f | f in PrintStatus(entries) :: NUL !in f
  {
    if entries == [] {
      assert Files(entries) == [];
    } else {
      var e, rest := entries[0], PrintStatus(entries[1..]);
      assert IsStatusEntry(e);
      StatusFieldsRoundTrip(entries[1..], if room == 0 then 0 else room - 1);
      FirstStatusFields(e, rest);
      var all := PrintStatus(entries);
      assert all == StatusFields(e) + rest;
      assert Files(entries) == [EntryFile(e)] + Files(entries[1..]);
    }
  }

  lemma FirstStatusFields(e: Entry, rest: seq<string>)
    requires IsStatusEntry(e)
    ensures
      var all := StatusFields(e) + rest;
      && |StatusFields(e)| == 1 + PathCount(e.code) && all[0] != "" && all[0][0] == e.code && all[|StatusFields(e)|..] == rest
      && FileOf(e.code, all[1], all[PathCount(e.code)]) == EntryFile(e)
    ensures forall f | f in StatusFields(e) :: NUL !in f
  {
  }

  function Files(entries: seq<Entry>): seq<File> { seq(|entries|, n requires 0 <= n < |entries| => EntryFile(entries[n])) }

  lemma CountRoundTrip(n: nat)
    requires n <= INT64_MAX
    ensures ParseCount(Decimal(n)) == Some(n) && TAB !in Decimal(n) && NUL !in Decimal(n) && Decimal(n) != "-"
  {
    DecimalRoundTrip(n);
    assert Decimal(n)[0] in Decimal(n);
  }

  lemma HeaderRoundTrip(a: string, d: string, path: string)
    requires TAB !in a && TAB !in d && TAB !in path
    ensures Split(a + [TAB] + d + [TAB] + path, TAB) == [a, d, path]
  {
    assert a + [TAB] + d + [TAB] + path == a + [TAB] + (d + [TAB] + path);
    SplitAtFirst(a, d + [TAB] + path, TAB);
    SplitAtFirst(d, path, TAB);
    SplitNothing(path, TAB);
  }

  lemma CountsRoundTrip(c: Counts, path: string)
    requires c.Lines? ==> c.additions <= INT64_MAX && c.deletions <= INT64_MAX
    requires TAB !in path
    ensures
      var header := Split(CountTexts(c) + [TAB] + path, TAB);
      |header| == 3 && header[2] == path && ParseCounts(header[0], header[1]) == Some(c)
    ensures NUL !in CountTexts(c)
  {
    if c.Binary? {
      assert CountTexts(c) == "-" + [TAB] + "-";
      HeaderRoundTrip("-", "-", path);
    } else {
      CountRoundTrip(c.additions);
      CountRoundTrip(c.deletions);
      HeaderRoundTrip(Decimal(c.additions), Decimal(c.deletions), path);
    }
  }

  function EntryKey(e: Entry): string { PathKey(e.first, e.second) }

  lemma StatisticRoundTrip(e: Entry, rest: seq<string>)
    requires IsEntry(e)
    ensures ParseStatistic(StatisticFields(e) + rest) == Ok((EntryKey(e), e.counts, |StatisticFields(e)|))
    ensures forall f | f in StatisticFields(e) :: NUL !in f
  {
    CountsRoundTrip(e.counts, if e.IsMove() then "" else e.first);
    assert CountTexts(e.counts) + [TAB] + "" == CountTexts(e.counts) + [TAB];
  }

  // The statistics that a list of entries adds to those already found.
  function Statistics(entries: seq<Entry>, found: map<string, Counts>): map<string, Counts> {
    if entries == [] then found else Statistics(entries[1..], found[EntryKey(entries[0]) := entries[0].counts])
  }

  predicate DistinctEntries(entries: seq<Entry>) {
    forall m, n | 0 <= m < n < |entries| :: EntryKey(entries[m]) != EntryKey(entries[n])
  }

  // After the first entry's statistic the others are still to come.
  lemma OtherEntriesAreNew(entries: seq<Entry>, found: map<string, Counts>)
    requires entries != [] && DistinctEntries(entries) && forall e | e in entries :: EntryKey(e) !in found
    ensures
      var found' := found[EntryKey(entries[0]) := entries[0].counts];
      && |found'| == |found| + 1 && DistinctEntries(entries[1..])
      && forall e | e in entries[1..] :: e in entries && EntryKey(e) !in found'
  {
    var found' := found[EntryKey(entries[0]) := entries[0].counts];
    assert found'.Keys == found.Keys + {EntryKey(entries[0])};
    forall x | x in entries[1..] ensures x in entries && EntryKey(x) !in found' {
      var n :| 0 <= n < |entries[1..]| && entries[1..][n] == x;
      assert entries[n + 1] == x;
    }
  }

  lemma {:induction false} NumstatRoundTrip(entries: seq<Entry>, found: map<string, Counts>)
    requires (forall e | e in entries :: IsEntry(e)) && DistinctEntries(entries) && |found| + |entries| <= MAX_FILES
    requires forall e | e in entries :: EntryKey(e) !in found
    ensures ParseNumstatFields(PrintNumstat(entries), found) == Ok(Statistics(entries, found))
    ensures forall f | f in PrintNumstat(entries) :: NUL !in f
    decreases |entries|
  {
    if entries != [] {
      var e, rest := entries[0], PrintNumstat(entries[1..]);
      assert IsEntry(e);
      var found' := found[EntryKey(e) := e.counts];
      OtherEntriesAreNew(entries, found);
      NumstatRoundTrip(entries[1..], found');
      StatisticRoundTrip(e, rest);
      var all := PrintNumstat(entries);
      assert all == StatisticFields(e) + rest;
      assert all[|StatisticFields(e)|..] == rest;
    }
  }

  lemma {:induction false} StatisticsHold(entries: seq<Entry>, found: map<string, Counts>)
    requires DistinctEntries(entries) && forall e | e in entries :: EntryKey(e) !in found
    ensures Statistics(entries, found).Keys == found.Keys + set e | e in entries :: EntryKey(e)
    ensures forall e | e in entries :: EntryKey(e) in Statistics(entries, found) && Statistics(entries, found)[EntryKey(e)] == e.counts
    ensures forall k | k in found :: k in Statistics(entries, found) && Statistics(entries, found)[k] == found[k]
    decreases |entries|
  {
    if entries != [] {
      var found' := found[EntryKey(entries[0]) := entries[0].counts];
      forall x | x in entries[1..] ensures x in entries && EntryKey(x) !in found' {
        var n :| 0 <= n < |entries[1..]| && entries[1..][n] == x;
        assert entries[n + 1] == x;
      }
      StatisticsHold(entries[1..], found');
      assert entries == [entries[0]] + entries[1..];
    }
  }

  lemma EntryKeyIsFileKey(e: Entry)
    requires IsEntry(e)
    ensures FileKey(EntryFile(e)) == EntryKey(e)
  {
  }

  // Printing the statuses of any list of entries and reading them back gives the
  // files back, in order.
  lemma StatusRoundTrip(entries: seq<Entry>)
    requires (forall e | e in entries :: IsEntry(e)) && |entries| <= MAX_FILES
    ensures ParsedStatus(Output(PrintStatus(entries))) == Ok(Files(entries))
  {
    StatusFieldsRoundTrip(entries, MAX_FILES);
    FieldsRoundTrip(PrintStatus(entries));
  }

  // Whatever is accepted is the printed form of some entries.
  lemma {:induction false} AcceptedStatusIsPrinted(fields: seq<string>, room: int) returns (entries: seq<Entry>)
    requires ParseStatusFields(fields, room).Ok? && forall f | f in fields :: NUL !in f
    ensures (forall e | e in entries :: IsStatusEntry(e)) && PrintStatus(entries) == fields && (fields != [] ==> |entries| <= room)
    decreases |fields|
  {
    if fields == [] {
      entries := [];
    } else {
      var code, count := fields[0][0], PathCount(fields[0][0]);
      assert fields[0] in fields && fields[1] in fields && fields[count] in fields;
      var e := Entry(code, fields[0][1..], fields[1], fields[count], Binary);
      var rest := AcceptedStatusIsPrinted(fields[1 + count..], room - 1);
      entries := [e] + rest;
      assert [code] + fields[0][1..] == fields[0];
      assert fields == StatusFields(e) + fields[1 + count..];
    }
  }

  lemma TerminatedFields(output: string)
    requires Fields(output).Ok?
    ensures output == Output(Fields(output).value) && forall f | f in Fields(output).value :: NUL !in f
  {
    SplitIsTerminated(output, NUL);
  }

  // A status output is accepted if and only if it is what is printed for some
  // list of entries that is not too long.
  lemma StatusAcceptedIff(output: string)
    ensures ParsedStatus(output).Ok? <==>
            exists entries :: (forall e | e in entries :: IsStatusEntry(e)) && |entries| <= 10_000 && output == Output(PrintStatus(entries))
  {
    if ParsedStatus(output).Ok? {
      TerminatedFields(output);
      var entries := AcceptedStatusIsPrinted(Fields(output).value, MAX_FILES);
      if Fields(output).value == [] {
        assert PrintStatus([]) == [];
        assert output == Output(PrintStatus([]));
      }
    }
    forall entries | (forall e | e in entries :: IsStatusEntry(e)) && |entries| <= MAX_FILES && output == Output(PrintStatus(entries))
      ensures ParsedStatus(output).Ok? {
      StatusFieldsRoundTrip(entries, MAX_FILES);
      FieldsRoundTrip(PrintStatus(entries));
    }
  }

  lemma DigitsAreRead(s: string)
    requires IsDecimal(s)
    ensures ParseCount(s) == if Value(s) <= INT64_MAX then Some(Value(s)) else None
  {
    assert IsDigit(s[0]) by { assert s[0] in s; }
  }

  lemma NegativeIsRead(s: string)
    requires IsDecimal(s)
    ensures ParseCount("-" + s) == if Value(s) == 0 then Some(0) else None
  {
    assert ("-" + s)[1..] == s;
  }

  // A count is read back up to the largest int64, and a negative one is refused.
  lemma CountReadIff(n: nat)
    ensures ParseCount(Decimal(n)) == if n <= INT64_MAX then Some(n) else None
    ensures ParseCount("-" + Decimal(n)) == if n == 0 then Some(0) else None
  {
    DecimalRoundTrip(n);
    DigitsAreRead(Decimal(n));
    NegativeIsRead(Decimal(n));
  }

  // Printing their line counts and reading those back gives each entry's counts
  // under its own key, and nothing else.
  lemma StatisticsRoundTrip(entries: seq<Entry>)
    requires (forall e | e in entries :: IsEntry(e)) && DistinctEntries(entries) && |entries| <= MAX_FILES
    ensures
      var read := ParsedNumstat(Output(PrintNumstat(entries)));
      && read.Ok? && read.value.Keys == (set e | e in entries :: EntryKey(e))
      && (forall e | e in entries :: read.value[EntryKey(e)] == e.counts)
  {
    NumstatRoundTrip(entries, map[]);
    FieldsRoundTrip(PrintNumstat(entries));
    StatisticsHold(entries, map[]);
  }

  lemma FileKeys(entries: seq<Entry>)
    requires (forall e | e in entries :: IsEntry(e)) && DistinctEntries(entries)
    ensures DistinctKeys(Files(entries)) && Keys(Files(entries)) == set e | e in entries :: EntryKey(e)
    ensures forall n | 0 <= n < |entries| :: FileKey(Files(entries)[n]) == EntryKey(entries[n])
  {
    var files := Files(entries);
    forall n | 0 <= n < |entries| ensures FileKey(files[n]) == EntryKey(entries[n]) && files[n] in files && entries[n] in entries {
      EntryKeyIsFileKey(entries[n]);
    }
  }

  // The two outputs of one list of entries always join, and give the list back.
  lemma DiffRoundTrip(entries: seq<Entry>)
    requires (forall e | e in entries :: IsEntry(e)) && DistinctEntries(entries) && |entries| <= MAX_FILES
    ensures
      var files, statistics := ParsedStatus(Output(PrintStatus(entries))), ParsedNumstat(Output(PrintNumstat(entries)));
      && files.Ok? && statistics.Ok? && |files.value| == |statistics.value| == |entries|
      && forall n | 0 <= n < |entries| ::
           && files.value[n] == EntryFile(entries[n]) && FileKey(files.value[n]) in statistics.value
           && statistics.value[FileKey(files.value[n])] == entries[n].counts
  {
    StatusRoundTrip(entries);
    StatisticsRoundTrip(entries);
    FileKeys(entries);
    DistinctKeysCount(Files(entries));
    var statistics := ParsedNumstat(Output(PrintNumstat(entries))).value;
    assert |statistics| == |statistics.Keys|;
    forall n | 0 <= n < |entries| ensures entries[n] in entries {
    }
  }

  // A path with a tab is not read back: its line of counts has too many fields.
  lemma TabInPathIsRefused(c: Counts, a: string, b: string, rest: seq<string>)
    requires TAB !in a && (c.Lines? ==> c.additions <= INT64_MAX && c.deletions <= INT64_MAX)
    ensures ParseStatistic([CountTexts(c) + [TAB] + (a + [TAB] + b)] + rest) == Err(FieldCount)
  {
    var line := CountTexts(c) + [TAB] + (a + [TAB] + b);
    var first, second := if c.Binary? then "-" else Decimal(c.additions), if c.Binary? then "-" else Decimal(c.deletions);
    if c.Lines? {
      CountRoundTrip(c.additions);
      CountRoundTrip(c.deletions);
    }
    assert line == first + [TAB] + (second + [TAB] + (a + [TAB] + b));
    SplitAtFirst(first, second + [TAB] + (a + [TAB] + b), TAB);
    SplitAtFirst(second, a + [TAB] + b, TAB);
    SplitAtFirst(a, b, TAB);
  }

  // The first tab of a path, and what is around it.
  lemma TabSplitsPath(path: string) returns (a: string, b: string)
    requires TAB in path
    ensures path == a + [TAB] + b && TAB !in a
  {
    FirstTab(path);
    var n :| 0 <= n < |path| && path[n] == TAB && TAB !in path[..n];
    a, b := path[..n], path[n + 1..];
    assert path == a + [path[n]] + b;
  }

  lemma {:induction false} FirstTab(path: string)
    requires TAB in path
    ensures exists n :: 0 <= n < |path| && path[n] == TAB && TAB !in path[..n]
  {
    if path[0] == TAB {
      assert path[..0] == "";
    } else {
      FirstTab(path[1..]);
      var n :| 0 <= n < |path[1..]| && path[1..][n] == TAB && TAB !in path[1..][..n];
      assert path[..n + 1] == [path[0]] + path[1..][..n];
      assert path[n + 1] == TAB;
    }
  }

  lemma StatisticIsRead(e: Entry, rest: seq<string>)
    requires IsChange(e)
    ensures ParseStatistic(StatisticFields(e) + rest).Ok? <==> TabFree(e)
    ensures forall f | f in StatisticFields(e) :: NUL !in f
  {
    CountsRoundTrip(e.counts, "");
    if TabFree(e) {
      StatisticRoundTrip(e, rest);
    } else {
      var a, b := TabSplitsPath(e.first);
      TabInPathIsRefused(e.counts, a, b, rest);
    }
  }

  lemma {:induction false} NumstatIsReadIff(entries: seq<Entry>, found: map<string, Counts>)
    requires (forall e | e in entries :: IsChange(e)) && DistinctEntries(entries) && |found| + |entries| <= MAX_FILES
    requires forall e | e in entries :: EntryKey(e) !in found
    ensures ParseNumstatFields(PrintNumstat(entries), found).Ok? <==> forall e | e in entries :: TabFree(e)
    ensures forall f | f in PrintNumstat(entries) :: NUL !in f
    decreases |entries|
  {
    if entries != [] {
      var e, rest := entries[0], PrintNumstat(entries[1..]);
      var found' := found[EntryKey(e) := e.counts];
      StatisticIsRead(e, rest);
      OtherEntriesAreNew(entries, found);
      NumstatIsReadIff(entries[1..], found');
      assert entries == [e] + entries[1..];
      assert PrintNumstat(entries)[|StatisticFields(e)|..] == rest;
      if TabFree(e) {
        StatisticRoundTrip(e, rest);
      }
    }
  }

  // The line counts of a list of changes are readable if and only if no path
  // that stands beside its counts has a tab, wherever it is in the list.
  lemma ReadableIff(entries: seq<Entry>)
    requires (forall e | e in entries :: IsChange(e)) && DistinctEntries(entries) && |entries| <= MAX_FILES
    ensures ParsedNumstat(Output(PrintNumstat(entries))).Ok? <==> forall e | e in entries :: TabFree(e)
  {
    NumstatIsReadIff(entries, map[]);
    FieldsRoundTrip(PrintNumstat(entries));
  }
}

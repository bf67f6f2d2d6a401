/** The dataset scanner (src/veritensor/engines/data/dataset_engine.py):
    Parquet, CSV and JSON Lines files are turned into a stream of text
    chunks, each of which is checked for prompt injections (fail fast) and
    for suspicious strings, up to a sampling limit. */
module Dataset {
  import opened PyText
  import opened PyJson
  import opened Rules

  const MAX_ROWS_DEFAULT: nat := 10000
  const CHUNK_SIZE: nat := 1000
  /** Chunks are cut to this many characters before matching. */
  const MAX_CHUNK: nat := 4096
  /** Shorter chunks are skipped. */
  const MIN_CHUNK: nat := 5

  const HIGH := "HIGH: "
  const MEDIUM := "MEDIUM: "
  const DATASET_ERROR := "WARNING: Dataset Scan Error: "
  const NO_PYARROW := "WARNING: pyarrow not installed. Run 'pip install veritensor[data]'"

  /** What a generator yielded before it was exhausted, and the text of the
      exception it raises at that point, if any. The exception only surfaces
      if the consumer asks for the next item. */
  datatype Stream = Stream(items: seq<string>, error: Option<string>)

  /** `limit and count >= limit` */
  predicate LimitReached(limit: Option<nat>, count: nat) {
    limit.Some? && limit.value != 0 && count >= limit.value
  }

  // ---------------------------------------------------------------------
  // Readers. Each reads groups (CSV rows, JSONL lines, Parquet batches),
  // yields the strings of a group, adds `per` to a counter and stops once
  // the counter reaches the limit.

  function Then(items: seq<string>, s: Stream): Stream {
    Stream(items + s.items, s.error)
  }

  /** The stream from group `k` on. */
  function ReadFrom(groups: seq<seq<string>>, error: Option<string>, per: nat, limit: Option<nat>, k: nat): Stream
    requires k <= |groups|
    decreases |groups| - k
  {
    if k == |groups| then Stream([], error)
    else if LimitReached(limit, (k + 1) * per) then Stream(groups[k], None)
    else Then(groups[k], ReadFrom(groups, error, per, limit, k + 1))
  }

  /** The counting loop the three readers share. */
  method ReadGroups(groups: seq<seq<string>>, error: Option<string>, per: nat, limit: Option<nat>) returns (s: Stream)
    ensures s == ReadFrom(groups, error, per, limit, 0)
  {
    var items: seq<string> := [];
    var count := 0;
    var k := 0;
    assert Then([], ReadFrom(groups, error, per, limit, 0)) == ReadFrom(groups, error, per, limit, 0);
    while k < |groups|
      invariant 0 <= k <= |groups|
      invariant count == k * per
      invariant Then(items, ReadFrom(groups, error, per, limit, k)) == ReadFrom(groups, error, per, limit, 0)
    {
      assert items + (groups[k] + ReadFrom(groups, error, per, limit, k + 1).items) ==
             (items + groups[k]) + ReadFrom(groups, error, per, limit, k + 1).items;
      items := items + groups[k];
      count := count + per;
      if LimitReached(limit, count) {
        return Stream(items, None);
      }
      k := k + 1;
    }
    assert items + [] == items;
    s := Stream(items, error);
  }

  /** All groups, in order. */
  function Flatten(groups: seq<seq<string>>): seq<string>
    decreases |groups|
  {
    if groups == [] then [] else groups[0] + Flatten(groups[1..])
  }

  /** How many groups a reader with a positive limit `limit` and step `per`
      reads at most: the fewest whose count reaches the limit. */
  function GroupsNeeded(limit: nat, per: nat): nat
    requires limit > 0 && per > 0
  {
    (limit + per - 1) / per
  }

  /** Without a limit a reader yields everything and then raises the
      source's error; with a positive limit it reads the first
      `GroupsNeeded` groups only, and if there are that many it never
      reaches the end of the source, so no error is raised. */
  lemma ReadLimits(groups: seq<seq<string>>, error: Option<string>, per: nat, limit: Option<nat>)
    requires per > 0
    ensures !(limit.Some? && limit.value != 0) ==> ReadFrom(groups, error, per, limit, 0) == Stream(Flatten(groups), error)
    ensures limit.Some? && limit.value != 0 ==>
      var need := GroupsNeeded(limit.value, per);
      ReadFrom(groups, error, per, limit, 0) ==
        if need <= |groups| then Stream(Flatten(groups[..need]), None) else Stream(Flatten(groups), error)
  {
    if limit.Some? && limit.value != 0 {
      var need := GroupsNeeded(limit.value, per);
      NeededIsLeast(limit.value, per);
      ReadFromLimited(groups, error, per, limit, 0, need);
    } else {
      ReadFromUnlimited(groups, error, per, limit, 0);
    }
    assert groups[0..] == groups;
  }

  lemma NeededIsLeast(limit: nat, per: nat)
    requires limit > 0 && per > 0
    ensures GroupsNeeded(limit, per) >= 1
    ensures GroupsNeeded(limit, per) * per >= limit
    ensures forall m: nat :: m < GroupsNeeded(limit, per) ==> m * per < limit
  {
    var need := GroupsNeeded(limit, per);
    var q := (limit + per - 1) / per;
    var r := (limit + per - 1) % per;
    assert q * per + r == limit + per - 1;
    forall m: nat | m < need
      ensures m * per < limit
    {
      assert m <= q - 1;
      assert m * per <= (q - 1) * per;
    }
  }

  lemma {:induction false} ReadFromUnlimited(groups: seq<seq<string>>, error: Option<string>, per: nat, limit: Option<nat>, k: nat)
    requires k <= |groups| && !(limit.Some? && limit.value != 0)
    ensures ReadFrom(groups, error, per, limit, k) == Stream(Flatten(groups[k..]), error)
    decreases |groups| - k
  {
    if k < |groups| {
      ReadFromUnlimited(groups, error, per, limit, k + 1);
      assert groups[k..][1..] == groups[k + 1..];
    }
  }

  lemma {:induction false} ReadFromLimited(groups: seq<seq<string>>, error: Option<string>, per: nat, limit: Option<nat>, k: nat, need: nat)
    requires k <= |groups| && limit.Some? && limit.value != 0 && per > 0
    requires need == GroupsNeeded(limit.value, per) && k < need
    requires forall m: nat :: m < need ==> m * per < limit.value
    requires need * per >= limit.value
    ensures ReadFrom(groups, error, per, limit, k) ==
      if need <= |groups| then Stream(Flatten(groups[k..need]), None) else Stream(Flatten(groups[k..]), error)
    decreases |groups| - k
  {
    if k < |groups| {
      if k + 1 == need {
        assert LimitReached(limit, (k + 1) * per);
        assert groups[k..need] == [groups[k]];
        assert Flatten([groups[k]]) == groups[k] + Flatten([]);
      } else {
        assert (k + 1) * per < limit.value;
        ReadFromLimited(groups, error, per, limit, k + 1, need);
        if need <= |groups| {
          assert groups[k..need][1..] == groups[k + 1..need];
        } else {
          assert groups[k..][1..] == groups[k + 1..];
        }
      }
    }
  }

  /** A CSV file: the rows the reader parses, then the error that ends the
      reading, if any (an unreadable file fails before the first row). */
  datatype CsvSource = CsvSource(rows: seq<seq<string>>, error: Option<string>)

  /** `_stream_csv`: every cell of every row. */
  method StreamCsv(src: CsvSource, limit: Option<nat>) returns (s: Stream)
    ensures s == ReadFrom(src.rows, src.error, 1, limit, 0)
  {
    s := ReadGroups(src.rows, src.error, 1, limit);
  }

  /** A JSON Lines file: each line's parse (`None` when `json.loads` raises
      a decode error), then the error that ends the reading, if any. */
  datatype JsonlSource = JsonlSource(lines: seq<Option<Json>>, error: Option<string>)

  function LineStrings(line: Option<Json>): seq<string> {
    if line.Some? then ExtractStrings(line.value) else []
  }

  function JsonlGroups(lines: seq<Option<Json>>): (r: seq<seq<string>>)
    ensures |r| == |lines|
    ensures forall k :: 0 <= k < |lines| ==> r[k] == LineStrings(lines[k])
  {
    seq(|lines|, k requires 0 <= k < |lines| => LineStrings(lines[k]))
  }

  /** `_stream_jsonl`: the strings of every line that parses; a line that
      does not parse yields nothing but still counts. */
  method StreamJsonl(src: JsonlSource, limit: Option<nat>) returns (s: Stream)
    ensures s == ReadFrom(JsonlGroups(src.lines), src.error, 1, limit, 0)
  {
    s := ReadGroups(JsonlGroups(src.lines), src.error, 1, limit);
  }

  /** A Parquet file: whether it opens, whether its schema has a string
      column, and for each batch of 1000 rows the values of each string
      column (`None` for a null cell), then the error that ends the
      reading. */
  datatype ParquetSource = ParquetSource(
    openError: Option<string>,
    hasStringColumns: bool,
    batches: seq<seq<seq<Option<string>>>>,
    error: Option<string>)

  /** `str(val)` of a null pyarrow scalar. Iterating a pyarrow array yields
      scalars, never Python's `None`, so `val is not None` holds for every
      cell and a null cell is yielded as this text. */
  const NULL_TEXT := "None"

  /** `str(val)` of one cell. */
  function CellText(v: Option<string>): string {
    if v.Some? then v.value else NULL_TEXT
  }

  /** What the loop over one column yields: one text per cell, in order. */
  function ColumnTexts(values: seq<Option<string>>): (r: seq<string>)
    ensures |r| == |values|
    ensures forall k :: 0 <= k < |values| ==> r[k] == CellText(values[k])
  {
    if values == [] then []
    else [CellText(values[0])] + ColumnTexts(values[1..])
  }

  /** The strings of one batch: column by column, the text of every cell. */
  function BatchStrings(batch: seq<seq<Option<string>>>): (r: seq<string>)
    ensures forall s :: s in r <==>
      exists c, k :: 0 <= c < |batch| && 0 <= k < |batch[c]| && s == CellText(batch[c][k])
  {
    if batch == [] then []
    else
      var rest := BatchStrings(batch[1..]);
      forall s | exists c, k :: 0 <= c < |batch| && 0 <= k < |batch[c]| && s == CellText(batch[c][k])
        ensures s in ColumnTexts(batch[0]) + rest
      {
        var c, k :| 0 <= c < |batch| && 0 <= k < |batch[c]| && s == CellText(batch[c][k]);
        if c == 0 {
          assert ColumnTexts(batch[0])[k] == s;
        } else {
          assert batch[1..][c - 1] == batch[c];
        }
      }
      forall s | s in ColumnTexts(batch[0]) + rest
        ensures exists c, k :: 0 <= c < |batch| && 0 <= k < |batch[c]| && s == CellText(batch[c][k])
      {
        if s in ColumnTexts(batch[0]) {
          var k :| 0 <= k < |batch[0]| && ColumnTexts(batch[0])[k] == s;
          assert 0 <= 0 < |batch| && s == CellText(batch[0][k]);
        } else {
          var c, k :| 0 <= c < |batch[1..]| && 0 <= k < |batch[1..][c]| && s == CellText(batch[1..][c][k]);
          assert batch[1..][c] == batch[c + 1];
          assert 0 <= c + 1 < |batch| && 0 <= k < |batch[c + 1]| && s == CellText(batch[c + 1][k]);
        }
      }
      ColumnTexts(batch[0]) + rest
  }

  function ParquetGroups(batches: seq<seq<seq<Option<string>>>>): (r: seq<seq<string>>)
    ensures |r| == |batches|
    ensures forall k :: 0 <= k < |batches| ==> r[k] == BatchStrings(batches[k])
  {
    seq(|batches|, k requires 0 <= k < |batches| => BatchStrings(batches[k]))
  }

  /** `_stream_parquet`: nothing when no column is a string column; the
      counter steps by the batch size. */
  method StreamParquet(src: ParquetSource, limit: Option<nat>) returns (s: Stream)
    ensures src.openError.Some? ==> s == Stream([], src.openError)
    ensures src.openError.None? && !src.hasStringColumns ==> s == Stream([], None)
    ensures src.openError.None? && src.hasStringColumns ==>
      s == ReadFrom(ParquetGroups(src.batches), src.error, CHUNK_SIZE, limit, 0)
  {
    if src.openError.Some? {
      return Stream([], src.openError);
    }
    if !src.hasStringColumns {
      return Stream([], None);
    }
    s := ReadGroups(ParquetGroups(src.batches), src.error, CHUNK_SIZE, limit);
  }

  function ParquetStream(src: ParquetSource, limit: Option<nat>): Stream {
    if src.openError.Some? then Stream([], src.openError)
    else if !src.hasStringColumns then Stream([], None)
    else ReadFrom(ParquetGroups(src.batches), src.error, CHUNK_SIZE, limit, 0)
  }

  // ---------------------------------------------------------------------
  // _extract_strings_from_json

  function Values(fields: seq<(string, Json)>): (r: seq<Json>)
    ensures |r| == |fields|
    ensures forall k :: 0 <= k < |fields| ==> r[k] == fields[k].1 && r[k] < JObj(fields)
  {
    seq(|fields|, k requires 0 <= k < |fields| => assert fields[k] in fields; fields[k].1)
  }

  /** Every string in a JSON value, depth first: dict values in order (keys
      are skipped), list items in order; other scalars yield nothing. */
  function ExtractStrings(j: Json): seq<string>
    decreases j, 1
  {
    match j
    case JStr(s) => [s]
    case JObj(fields) => ExtractFrom(j, Values(fields), 0)
    case JArr(items) => ExtractFrom(j, items, 0)
    case _ => []
  }

  function ExtractFrom(ghost parent: Json, items: seq<Json>, i: nat): seq<string>
    requires i <= |items|
    requires forall k :: 0 <= k < |items| ==> items[k] < parent
    decreases parent, 0, |items| - i
  {
    if i == |items| then [] else ExtractStrings(items[i]) + ExtractFrom(parent, items, i + 1)
  }

  /** The result does not depend on which value the items belong to. */
  lemma {:induction false} ExtractFromAnyParent(p: Json, q: Json, items: seq<Json>, i: nat)
    requires i <= |items|
    requires forall k :: 0 <= k < |items| ==> items[k] < p
    requires forall k :: 0 <= k < |items| ==> items[k] < q
    ensures ExtractFrom(p, items, i) == ExtractFrom(q, items, i)
    decreases |items| - i
  {
    if i < |items| {
      ExtractFromAnyParent(p, q, items, i + 1);
    }
  }

  /** A dict yields what the list of its values yields: keys never appear. */
  lemma ExtractSkipsKeys(fields: seq<(string, Json)>)
    ensures ExtractStrings(JObj(fields)) == ExtractStrings(JArr(Values(fields)))
  {
    var vs := Values(fields);
    assert forall k :: 0 <= k < |vs| ==> vs[k] < JArr(vs);
    ExtractFromAnyParent(JObj(fields), JArr(vs), vs, 0);
  }

  /** A list's strings are its parts' strings, concatenated. */
  lemma {:induction false} ExtractSplits(a: seq<Json>, b: seq<Json>, i: nat)
    requires i <= |a|
    ensures ExtractFrom(JArr(a + b), a + b, i) == ExtractFrom(JArr(a), a, i) + ExtractStrings(JArr(b))
    decreases |a| - i
  {
    var ab := a + b;
    assert forall k :: 0 <= k < |ab| ==> ab[k] in ab;
    assert forall k :: 0 <= k < |a| ==> a[k] in a;
    if i == |a| {
      ExtractTail(a, b);
    } else {
      ExtractSplits(a, b, i + 1);
      assert ab[i] == a[i];
      calc {
        ExtractFrom(JArr(ab), ab, i);
        ExtractStrings(a[i]) + ExtractFrom(JArr(ab), ab, i + 1);
        ExtractStrings(a[i]) + (ExtractFrom(JArr(a), a, i + 1) + ExtractStrings(JArr(b)));
        (ExtractStrings(a[i]) + ExtractFrom(JArr(a), a, i + 1)) + ExtractStrings(JArr(b));
        ExtractFrom(JArr(a), a, i) + ExtractStrings(JArr(b));
      }
    }
  }

  /** The items of `a + b` after those of `a` yield what `b` yields. */
  lemma ExtractTail(a: seq<Json>, b: seq<Json>)
    ensures var ab := a + b;
      (forall k :: 0 <= k < |ab| ==> ab[k] < JArr(ab)) &&
      ExtractFrom(JArr(ab), ab, |a|) == ExtractStrings(JArr(b))
  {
    var ab := a + b;
    assert forall k :: 0 <= k < |ab| ==> ab[k] in ab;
    assert forall k :: 0 <= k < |b| ==> b[k] in b;
    ShiftFrom(ab, b, |a|, 0);
  }

  lemma {:induction false} ShiftFrom(ab: seq<Json>, b: seq<Json>, off: nat, i: nat)
    requires off + |b| == |ab| && i <= |b|
    requires forall k :: 0 <= k < |b| ==> b[k] == ab[off + k]
    requires forall k :: 0 <= k < |ab| ==> ab[k] < JArr(ab)
    requires forall k :: 0 <= k < |b| ==> b[k] < JArr(b)
    ensures ExtractFrom(JArr(ab), ab, off + i) == ExtractFrom(JArr(b), b, i)
    decreases |b| - i
  {
    if i < |b| {
      ShiftFrom(ab, b, off, i + 1);
    }
  }

  lemma ExtractConcat(a: seq<Json>, b: seq<Json>)
    ensures ExtractStrings(JArr(a + b)) == ExtractStrings(JArr(a)) + ExtractStrings(JArr(b))
  {
    ExtractSplits(a, b, 0);
  }

  // ---------------------------------------------------------------------
  // The scan.

  function InjectionThreat(name: string, pat: string): string {
    HIGH + "Data Poisoning (Injection) detected in " + name + ": '" + pat + "'"
  }

  function Label(pat: string): string {
    if Contains(pat, "http") then "Malicious URL" else "Secret/PII"
  }

  function SuspiciousThreat(name: string, pat: string): string {
    MEDIUM + SuspiciousDetail(name, pat)
  }

  function SuspiciousDetail(name: string, pat: string): string {
    Label(pat) + " detected in dataset " + name + ": '" + pat + "'"
  }

  /** The signature lists and the matcher the scan uses. */
  datatype Signatures = Signatures(isMatch: Matcher, injections: seq<string>, suspicious: seq<string>)

  /** The threats from chunk `i` of the stream on, when `count` long chunks
      have been scanned before it. */
  function ScanFrom(sig: Signatures, name: string, s: Stream, limit: Option<nat>, i: nat, count: nat): seq<string>
    requires i <= |s.items|
    decreases |s.items| - i
  {
    if i == |s.items| then (if s.error.Some? then [DATASET_ERROR + s.error.value] else [])
    else if |s.items[i]| < MIN_CHUNK then ScanFrom(sig, name, s, limit, i + 1, count)
    else
      var chunk := Take(s.items[i], MAX_CHUNK);
      match FirstMatch(sig.isMatch, chunk, sig.injections)
      case Some(pat) => [InjectionThreat(name, pat)]
      case None =>
        var found := Tagged(Matched(sig.isMatch, chunk, sig.suspicious), p => SuspiciousThreat(name, p));
        if LimitReached(limit, count + 1) then found
        else found + ScanFrom(sig, name, s, limit, i + 1, count + 1)
  }

  /** A dataset file, as each reader would see it. */
  datatype DatasetFile = DatasetFile(name: string, parquet: ParquetSource, csv: CsvSource, jsonl: JsonlSource)

  /** `scan_dataset` */
  function DatasetSpec(sig: Signatures, pyarrowAvailable: bool, f: DatasetFile, fullScan: bool): seq<string> {
    var ext := Extension(f.name);
    var limit := if fullScan then None else Some(MAX_ROWS_DEFAULT);
    if ext == ".parquet" then
      if !pyarrowAvailable then [NO_PYARROW]
      else ScanFrom(sig, f.name, ParquetStream(f.parquet, limit), limit, 0, 0)
    else if ext == ".csv" then ScanFrom(sig, f.name, ReadFrom(f.csv.rows, f.csv.error, 1, limit, 0), limit, 0, 0)
    else if ext == ".jsonl" then ScanFrom(sig, f.name, ReadFrom(JsonlGroups(f.jsonl.lines), f.jsonl.error, 1, limit, 0), limit, 0, 0)
    else []
  }

  /** The loop over the stream. */
  method ScanStream(sig: Signatures, name: string, s: Stream, limit: Option<nat>) returns (threats: seq<string>)
    ensures threats == ScanFrom(sig, name, s, limit, 0, 0)
  {
    threats := [];
    var rowCount := 0;
    var i := 0;
    while i < |s.items|
      invariant 0 <= i <= |s.items|
      invariant threats + ScanFrom(sig, name, s, limit, i, rowCount) == ScanFrom(sig, name, s, limit, 0, 0)
    {
      var chunk := s.items[i];
      if |chunk| < MIN_CHUNK {
        i := i + 1;
        continue;
      }
      if |chunk| > MAX_CHUNK {
        chunk := chunk[..MAX_CHUNK];
      }
      assert chunk == Take(s.items[i], MAX_CHUNK);
      var injection := FindFirst(sig.isMatch, chunk, sig.injections);
      if injection.Some? {
        threats := threats + [InjectionThreat(name, injection.value)];
        return;
      }
      var found := TagMatches(sig.isMatch, chunk, sig.suspicious, p => SuspiciousThreat(name, p));
      ghost var rest := ScanFrom(sig, name, s, limit, i + 1, rowCount + 1);
      rowCount := rowCount + 1;
      if LimitReached(limit, rowCount) {
        threats := threats + found;
        return;
      }
      assert threats + (found + rest) == (threats + found) + rest;
      threats := threats + found;
      i := i + 1;
    }
    if s.error.Some? {
      threats := threats + [DATASET_ERROR + s.error.value];
    } else {
      assert threats + [] == threats;
    }
  }

  method ScanDataset(sig: Signatures, pyarrowAvailable: bool, f: DatasetFile, fullScan: bool) returns (threats: seq<string>)
    ensures threats == DatasetSpec(sig, pyarrowAvailable, f, fullScan)
  {
    var ext := Extension(f.name);
    var limit := if fullScan then None else Some(MAX_ROWS_DEFAULT);
    var stream: Stream;
    if ext == ".parquet" {
      if !pyarrowAvailable {
        return [NO_PYARROW];
      }
      stream := StreamParquet(f.parquet, limit);
    } else if ext == ".csv" {
      stream := StreamCsv(f.csv, limit);
    } else if ext == ".jsonl" {
      stream := StreamJsonl(f.jsonl, limit);
    } else {
      return [];
    }
    threats := ScanStream(sig, f.name, stream, limit);
  }

  // ---------------------------------------------------------------------
  // Properties of the scan.

  predicate MediumUntilLast(r: seq<string>) {
    forall k :: 0 <= k < |r| - 1 ==> StartsWith(r[k], MEDIUM)
  }

  /** Only the last threat can be something other than a MEDIUM finding:
      an injection ends the scan, and so does a read error. */
  lemma {:induction false} OnlyLastNotMedium(sig: Signatures, name: string, s: Stream, limit: Option<nat>, i: nat, count: nat)
    requires i <= |s.items|
    ensures MediumUntilLast(ScanFrom(sig, name, s, limit, i, count))
    decreases |s.items| - i
  {
    if i < |s.items| {
      if |s.items[i]| < MIN_CHUNK {
        OnlyLastNotMedium(sig, name, s, limit, i + 1, count);
      } else {
        var chunk := Take(s.items[i], MAX_CHUNK);
        if FirstMatch(sig.isMatch, chunk, sig.injections).None? {
          var found := Tagged(Matched(sig.isMatch, chunk, sig.suspicious), p => SuspiciousThreat(name, p));
          AllMedium(name, Matched(sig.isMatch, chunk, sig.suspicious));
          if !LimitReached(limit, count + 1) {
            OnlyLastNotMedium(sig, name, s, limit, i + 1, count + 1);
            MediumAppend(found, ScanFrom(sig, name, s, limit, i + 1, count + 1));
          }
        }
      }
    }
  }

  lemma AllMedium(name: string, m: seq<string>)
    ensures var found := Tagged(m, p => SuspiciousThreat(name, p));
      forall k :: 0 <= k < |found| ==> StartsWith(found[k], MEDIUM)
  {
    var found := Tagged(m, p => SuspiciousThreat(name, p));
    forall k | 0 <= k < |found|
      ensures StartsWith(found[k], MEDIUM)
    {
      SuspiciousIsMedium(name, m[k]);
    }
  }

  lemma SuspiciousIsMedium(name: string, pat: string)
    ensures StartsWith(SuspiciousThreat(name, pat), MEDIUM)
  {
    StartsWithAppend(MEDIUM, SuspiciousDetail(name, pat));
  }

  lemma MediumAppend(a: seq<string>, b: seq<string>)
    requires forall k :: 0 <= k < |a| ==> StartsWith(a[k], MEDIUM)
    requires MediumUntilLast(b)
    ensures MediumUntilLast(a + b)
  {
    forall k | 0 <= k < |a + b| - 1
      ensures StartsWith((a + b)[k], MEDIUM)
    {
      if k >= |a| {
        assert (a + b)[k] == b[k - |a|];
      }
    }
  }

  /** How many chunks long enough to be scanned `items` holds. */
  function LongChunks(items: seq<string>): nat {
    if |items| == 0 then 0 else (if |items[0]| >= MIN_CHUNK then 1 else 0) + LongChunks(items[1..])
  }

  /** Sampling: once `limit` long chunks have been scanned nothing after them
      is looked at — neither later chunks nor a read error at the end. */
  lemma {:induction false} SamplingStops(sig: Signatures, name: string, items: seq<string>, more: seq<string>,
                                         e1: Option<string>, e2: Option<string>, limit: Option<nat>, i: nat, count: nat)
    requires i <= |items| && limit.Some? && limit.value != 0
    requires count + LongChunks(items[i..]) >= limit.value && count < limit.value
    ensures ScanFrom(sig, name, Stream(items + more, e1), limit, i, count) ==
            ScanFrom(sig, name, Stream(items, e2), limit, i, count)
    decreases |items| - i
  {
    var s1 := Stream(items + more, e1);
    var s2 := Stream(items, e2);
    if i == |items| {
      assert false;
    } else {
      assert s1.items[i] == items[i];
      assert items[i..][1..] == items[i + 1..];
      if |items[i]| < MIN_CHUNK {
        SamplingStops(sig, name, items, more, e1, e2, limit, i + 1, count);
      } else if count + 1 < limit.value {
        SamplingStops(sig, name, items, more, e1, e2, limit, i + 1, count + 1);
      }
    }
  }

  /** Chunks shorter than five characters change nothing: neither threats
      nor the sampling count. */
  lemma ShortChunkIgnored(sig: Signatures, name: string, items: seq<string>, chunk: string,
                          e: Option<string>, limit: Option<nat>, count: nat)
    requires |chunk| < MIN_CHUNK
    ensures ScanFrom(sig, name, Stream([chunk] + items, e), limit, 0, count) ==
            ScanFrom(sig, name, Stream(items, e), limit, 0, count)
  {
    ScanShift(sig, name, [chunk], items, e, limit, 0, count);
  }

  lemma {:induction false} ScanShift(sig: Signatures, name: string, pre: seq<string>, items: seq<string>,
                                     e: Option<string>, limit: Option<nat>, i: nat, count: nat)
    requires i <= |items|
    ensures ScanFrom(sig, name, Stream(pre + items, e), limit, |pre| + i, count) ==
            ScanFrom(sig, name, Stream(items, e), limit, i, count)
    decreases |items| - i
  {
    if i < |items| {
      assert (pre + items)[|pre| + i] == items[i];
      if |items[i]| < MIN_CHUNK {
        ScanShift(sig, name, pre, items, e, limit, i + 1, count);
      } else {
        ScanShift(sig, name, pre, items, e, limit, i + 1, count + 1);
      }
    }
  }

  /** The chunks of `items` long enough to be scanned, in order. */
  function Scanned(items: seq<string>): seq<string> {
    if items == [] then [] else (if |items[0]| >= MIN_CHUNK then [items[0]] else []) + Scanned(items[1..])
  }

  lemma {:induction false} ScannedAppend(a: seq<string>, b: seq<string>)
    ensures Scanned(a + b) == Scanned(a) + Scanned(b)
    decreases |a|
  {
    if a != [] {
      assert (a + b)[0] == a[0] && (a + b)[1..] == a[1..] + b;
      ScannedAppend(a[1..], b);
    } else {
      assert a + b == b;
    }
  }

  /** The scan sees only the long chunks: dropping every short one changes
      neither the threats nor the sampling count. */
  lemma {:induction false} ScanSeesOnlyScanned(sig: Signatures, name: string, items: seq<string>,
                                               e: Option<string>, limit: Option<nat>, count: nat)
    ensures ScanFrom(sig, name, Stream(items, e), limit, 0, count) ==
            ScanFrom(sig, name, Stream(Scanned(items), e), limit, 0, count)
    decreases |items|
  {
    if items != [] {
      var x, rest := items[0], items[1..];
      assert items == [x] + rest;
      if |x| < MIN_CHUNK {
        ShortChunkIgnored(sig, name, rest, x, e, limit, count);
        ScanSeesOnlyScanned(sig, name, rest, e, limit, count);
        assert Scanned(items) == Scanned(rest);
      } else {
        var long := [x] + Scanned(rest);
        assert Scanned(items) == long;
        ScanShift(sig, name, [x], rest, e, limit, 0, count + 1);
        ScanSeesOnlyScanned(sig, name, rest, e, limit, count + 1);
        ScanShift(sig, name, [x], Scanned(rest), e, limit, 0, count + 1);
        assert long[0] == x;
      }
    }
  }

  /** The non-null cells of a column. */
  function Present(values: seq<Option<string>>): seq<Option<string>> {
    if values == [] then [] else (if values[0].Some? then [values[0]] else []) + Present(values[1..])
  }

  function PresentColumns(batch: seq<seq<Option<string>>>): (r: seq<seq<Option<string>>>)
    ensures |r| == |batch|
  {
    if batch == [] then [] else [Present(batch[0])] + PresentColumns(batch[1..])
  }

  /** The same file with every null cell removed. */
  function WithoutNulls(src: ParquetSource): ParquetSource {
    src.(batches := seq(|src.batches|, k requires 0 <= k < |src.batches| => PresentColumns(src.batches[k])))
  }

  lemma {:induction false} NullTextIgnoredInColumn(values: seq<Option<string>>)
    ensures Scanned(ColumnTexts(values)) == Scanned(ColumnTexts(Present(values)))
    decreases |values|
  {
    if values != [] {
      NullTextIgnoredInColumn(values[1..]);
      assert ColumnTexts(values)[1..] == ColumnTexts(values[1..]);
      if values[0].Some? {
        var p := [values[0]] + Present(values[1..]);
        assert ColumnTexts(p)[0] == values[0].value;
        assert p[1..] == Present(values[1..]);
        assert ColumnTexts(p)[1..] == ColumnTexts(Present(values[1..]));
      } else {
        var t := ColumnTexts(values);
        assert |t[0]| < MIN_CHUNK;
        assert Scanned(t) == Scanned(t[1..]);
        assert Present(values) == Present(values[1..]);
      }
    }
  }

  lemma {:induction false} NullTextIgnoredInBatch(batch: seq<seq<Option<string>>>)
    ensures Scanned(BatchStrings(batch)) == Scanned(BatchStrings(PresentColumns(batch)))
    decreases |batch|
  {
    if batch != [] {
      var p := PresentColumns(batch);
      assert p[0] == Present(batch[0]) && p[1..] == PresentColumns(batch[1..]);
      NullTextIgnoredInColumn(batch[0]);
      NullTextIgnoredInBatch(batch[1..]);
      ScannedAppend(ColumnTexts(batch[0]), BatchStrings(batch[1..]));
      ScannedAppend(ColumnTexts(p[0]), BatchStrings(p[1..]));
    }
  }

  /** Two readers whose groups have the same long chunks yield streams with
      the same long chunks and the same error. */
  lemma {:induction false} ReadFromScanned(g1: seq<seq<string>>, g2: seq<seq<string>>, error: Option<string>,
                                           per: nat, limit: Option<nat>, k: nat)
    requires |g1| == |g2| && k <= |g1|
    requires forall j :: 0 <= j < |g1| ==> Scanned(g1[j]) == Scanned(g2[j])
    ensures ReadFrom(g1, error, per, limit, k).error == ReadFrom(g2, error, per, limit, k).error
    ensures Scanned(ReadFrom(g1, error, per, limit, k).items) == Scanned(ReadFrom(g2, error, per, limit, k).items)
    decreases |g1| - k
  {
    if k < |g1| && !LimitReached(limit, (k + 1) * per) {
      ReadFromScanned(g1, g2, error, per, limit, k + 1);
      ScannedAppend(g1[k], ReadFrom(g1, error, per, limit, k + 1).items);
      ScannedAppend(g2[k], ReadFrom(g2, error, per, limit, k + 1).items);
    }
  }

  /** A null Parquet cell is yielded as "None", which is too short to be
      scanned: the threats of a file are those of the same file without its
      null cells. */
  lemma ParquetNullsIgnored(sig: Signatures, pyarrowAvailable: bool, f: DatasetFile, fullScan: bool)
    ensures DatasetSpec(sig, pyarrowAvailable, f, fullScan) ==
            DatasetSpec(sig, pyarrowAvailable, f.(parquet := WithoutNulls(f.parquet)), fullScan)
  {
    var src, lean := f.parquet, WithoutNulls(f.parquet);
    var limit := if fullScan then None else Some(MAX_ROWS_DEFAULT);
    if src.openError.None? && src.hasStringColumns {
      var g1, g2 := ParquetGroups(src.batches), ParquetGroups(lean.batches);
      forall j | 0 <= j < |g1|
        ensures Scanned(g1[j]) == Scanned(g2[j])
      {
        NullTextIgnoredInBatch(src.batches[j]);
      }
      ReadFromScanned(g1, g2, src.error, CHUNK_SIZE, limit, 0);
      var s1, s2 := ParquetStream(src, limit), ParquetStream(lean, limit);
      ScanSeesOnlyScanned(sig, f.name, s1.items, s1.error, limit, 0);
      ScanSeesOnlyScanned(sig, f.name, s2.items, s2.error, limit, 0);
      assert s1 == Stream(s1.items, s1.error) && s2 == Stream(s2.items, s2.error);
    }
  }

  /** A file whose extension is none of the three dataset extensions is not
      a dataset; a Parquet file without pyarrow yields only the warning. */
  lemma DispatchCases(sig: Signatures, pyarrowAvailable: bool, f: DatasetFile, fullScan: bool)
    ensures Extension(f.name) !in {".parquet", ".csv", ".jsonl"} ==> DatasetSpec(sig, pyarrowAvailable, f, fullScan) == []
    ensures Extension(f.name) == ".parquet" && !pyarrowAvailable ==> DatasetSpec(sig, pyarrowAvailable, f, fullScan) == [NO_PYARROW]
  {
  }
}

/**
 * The script's main body: select the buckets, then search every selected
 * bucket's keys for the term and present the hits in one of four modes.
 * Raw, stacked and CSV output stream each hit as the scan finds it; the
 * table collects every hit first, so that it can size its columns.
 *
 * A run is modelled by what it leaves behind: the console output, the CSV
 * file's rows when one was written, and whether it completed. An error from
 * the store is not caught anywhere in the script, so it ends the run after
 * whatever was already printed or written.
 */
module Driver {
  import opened Seqs
  import opened Text
  import opened Storage
  import opened Selector
  import opened Scanner
  import opened Format
  import opened Render

  /** One unit of console output: a printed line, or a row handed to `csv.writer`. */
  datatype Emit = Line(text: string) | Row(fields: seq<string>)

  function AsLine(s: string): Emit { Line(s) }

  function AsRow(fields: seq<string>): Emit { Row(fields) }

  /** Why a run stopped early: an error from the store, or the table's negative key width. */
  datatype Abort = Api(error: ApiError) | SignInFormatSpec

  datatype Status = Completed | Aborted(cause: Abort)

  /** The console output, the rows of the CSV file if one was opened, and how the run ended. */
  datatype RunResult = RunResult(console: seq<Emit>, csvFile: Option<seq<seq<string>>>, status: Status)

  datatype Mode = Raw | Stacked | Csv | Table

  /** The `if raw / elif stacked / elif csv / else` chain: the first flag set wins, the table is the default. */
  function SelectMode(raw: bool, stacked: bool, csv: bool): (m: Mode)
    ensures m == Raw <==> raw
    ensures m == Stacked <==> !raw && stacked
    ensures m == Csv <==> !raw && !stacked && csv
    ensures m == Table <==> !raw && !stacked && !csv
  {
    if raw then Raw else if stacked then Stacked else if csv then Csv else Table
  }

  /** The hits the scan of the selected buckets delivers, and the error that stopped it, if any. */
  datatype Scan = Scan(records: seq<Record>, failure: Option<ApiError>)

  /** What `list_hits_contains(bucket, term)` yields before it ends, and the error it raises, if any. */
  function BucketScan(store: Store, bucket: string, term: string): Scan
  {
    Scan(Hits(bucket, term, Flatten(ListObjects(store, bucket, "").pages)), ListObjects(store, bucket, "").failure)
  }

  /** The scans of `buckets`, one per bucket, in order. */
  function Scans(store: Store, buckets: seq<string>, term: string): (s: seq<Scan>)
    ensures |s| == |buckets|
  {
    seq(|buckets|, i requires 0 <= i < |buckets| => BucketScan(store, buckets[i], term))
  }

  /**
   * The hits of the bucket scans `scans`, taken in order; the first scan that
   * raised contributes the hits delivered before its error and ends the run.
   */
  function Collect(scans: seq<Scan>): Scan
  {
    if scans == [] then Scan([], None)
    else
      var prev := Collect(scans[..|scans| - 1]);
      var last := scans[|scans| - 1];
      if prev.failure.Some? then prev else Scan(prev.records + last.records, last.failure)
  }

  /** Every collected hit is a hit of one of the scans. */
  lemma {:induction false} CollectFrom(scans: seq<Scan>, r: Record)
    requires r in Collect(scans).records
    ensures exists i :: 0 <= i < |scans| && r in scans[i].records
  {
    var n := |scans| - 1;
    var prev := Collect(scans[..n]);
    if r in prev.records {
      CollectFrom(scans[..n], r);
      var i :| 0 <= i < n && r in scans[..n][i].records;
      assert scans[..n][i] == scans[i];
    } else {
      assert r in scans[n].records;
    }
  }

  /** Once a scan has raised, the later scans are never looked at. */
  lemma {:induction false} CollectStops(scans: seq<Scan>, k: nat)
    requires k <= |scans|
    requires Collect(scans[..k]).failure.Some?
    ensures Collect(scans) == Collect(scans[..k])
    decreases |scans| - k
  {
    if k < |scans| {
      var n := |scans| - 1;
      assert scans[..n][..k] == scans[..k];
      CollectStops(scans[..n], k);
    } else {
      assert scans[..k] == scans;
    }
  }

  /** One more scan extends the collection, unless an earlier scan already raised. */
  lemma CollectSnoc(scans: seq<Scan>, s: Scan)
    ensures Collect(scans + [s]) ==
      var prev := Collect(scans);
      if prev.failure.Some? then prev else Scan(prev.records + s.records, s.failure)
  {
    assert (scans + [s])[..|scans|] == scans;
  }

  /**
   * Buckets are scanned one after another: collecting `a + b` is collecting
   * `a`, and, unless that raised, collecting `b` after it.
   */
  lemma {:induction false} CollectAppend(a: seq<Scan>, b: seq<Scan>)
    ensures Collect(a + b) ==
      var sa := Collect(a);
      var sb := Collect(b);
      if sa.failure.Some? then sa else Scan(sa.records + sb.records, sb.failure)
    decreases |b|
  {
    if Collect(a).failure.Some? {
      assert (a + b)[..|a|] == a;
      CollectStops(a + b, |a|);
    } else if b == [] {
      assert a + b == a;
    } else {
      var n := |b| - 1;
      assert a + b == (a + b[..n]) + [b[n]];
      assert b == b[..n] + [b[n]];
      CollectAppend(a, b[..n]);
      CollectSnoc(a + b[..n], b[n]);
      CollectSnoc(b[..n], b[n]);
    }
  }

  /** A run in which no scan raised collects every scan's hits, each whole and in order. */
  lemma {:induction false} CollectComplete(scans: seq<Scan>, i: nat, r: Record)
    requires i < |scans|
    requires Collect(scans).failure.None?
    requires r in scans[i].records
    ensures r in Collect(scans).records
    decreases |scans|
  {
    var n := |scans| - 1;
    if Collect(scans[..n]).failure.Some? {
      assert false;
    }
    if i < n {
      assert scans[..n][i] == scans[i];
      CollectComplete(scans[..n], i, r);
    }
  }

  /** Every hit of a run comes from one of the selected buckets, and its key contains `term`. */
  lemma ScanSound(store: Store, buckets: seq<string>, term: string, r: Record)
    requires r in Collect(Scans(store, buckets, term)).records
    ensures r.bucket in buckets && Contains(r.key, term)
  {
    var scans := Scans(store, buckets, term);
    CollectFrom(scans, r);
    var i :| 0 <= i < |scans| && r in scans[i].records;
    HitsSound(buckets[i], term, Flatten(ListObjects(store, buckets[i], "").pages), r);
  }

  /**
   * A run that raised nothing missed nothing: every object of every selected
   * bucket whose key contains `term` appears among the hits.
   */
  lemma ScanComplete(store: Store, buckets: seq<string>, term: string, i: nat, o: Obj)
    requires i < |buckets|
    requires Collect(Scans(store, buckets, term)).failure.None?
    requires o in Flatten(ListObjects(store, buckets[i], "").pages) && Contains(o.key, term)
    ensures ToRecord(buckets[i], o) in Collect(Scans(store, buckets, term)).records
  {
    var objs := Flatten(ListObjects(store, buckets[i], "").pages);
    FilterComplete(objs, KeyContains(term), o);
    var kept := Filter(objs, KeyContains(term));
    var j :| 0 <= j < |kept| && kept[j] == o;
    assert Records(buckets[i], kept)[j] == ToRecord(buckets[i], o);
    CollectComplete(Scans(store, buckets, term), i, ToRecord(buckets[i], o));
  }

  /** The hits of each scan, scan by scan. */
  function HitLists(scans: seq<Scan>): (l: seq<seq<Record>>)
    ensures |l| == |scans|
  {
    seq(|scans|, i requires 0 <= i < |scans| => scans[i].records)
  }

  /**
   * A run in which no scan raised delivers the hits bucket by bucket in the
   * order the buckets were selected, each bucket's hits in scan order.
   */
  lemma {:induction false} CollectInOrder(scans: seq<Scan>)
    requires Collect(scans).failure.None?
    ensures Collect(scans).records == Flatten(HitLists(scans))
    decreases |scans|
  {
    if scans != [] {
      var n := |scans| - 1;
      if Collect(scans[..n]).failure.Some? {
        assert false;
      }
      CollectInOrder(scans[..n]);
      assert HitLists(scans)[..n] == HitLists(scans[..n]);
    }
  }

  /** How a run that did not stop on its own account ends: aborted by the scan's error, if any. */
  function Ending(scan: Scan): Status
  {
    if scan.failure.Some? then Aborted(Api(scan.failure.value)) else Completed
  }

  /** Raw mode: the header line, then a line per hit, even when there are none. */
  function RawOutcome(scan: Scan): RunResult
  {
    RunResult(Map([RawHeader] + RawLines(scan.records), AsLine), None, Ending(scan))
  }

  /** Stacked mode: the numbered blocks of the hits. */
  function StackedOutcome(scan: Scan): RunResult
  {
    RunResult(Map(StackedLines(scan.records), AsLine), None, Ending(scan))
  }

  /**
   * CSV mode: the header row and a row per hit go to the named file, or to
   * the console when the name is absent or empty; "Results saved to" is
   * printed only after the file was written completely.
   */
  function CsvOutcome(scan: Scan, csvFile: Option<string>): RunResult
  {
    var rows := [CsvHeader] + CsvRows(scan.records);
    if csvFile.Some? && csvFile.value != "" then
      RunResult(if scan.failure.None? then [Line("Results saved to " + csvFile.value)] else [], Some(rows), Ending(scan))
    else
      RunResult(Map(rows, AsRow), None, Ending(scan))
  }

  /** Table mode: nothing unless the whole scan succeeded, then what `display_results` prints. */
  function TableOutcome(scan: Scan, termWidth: nat): RunResult
  {
    if scan.failure.Some? then RunResult([], None, Ending(scan))
    else
      match Display(scan.records, false, false, termWidth)
      case None => RunResult([], None, Aborted(SignInFormatSpec))
      case Some(lines) => RunResult(Map(lines, AsLine), None, Completed)
  }

  /** What a run leaves behind in `mode`, given the scan of the selected buckets. */
  function Outcome(mode: Mode, scan: Scan, csvFile: Option<string>, termWidth: nat): RunResult
  {
    match mode
    case Raw => RawOutcome(scan)
    case Stacked => StackedOutcome(scan)
    case Csv => CsvOutcome(scan, csvFile)
    case Table => TableOutcome(scan, termWidth)
  }

  /** The whole run: the selected buckets scanned for `term` and presented in the chosen mode. */
  function Expected(store: Store, term: string, rootDir: Option<string>, raw: bool, stacked: bool, csv: bool,
                    csvFile: Option<string>, termWidth: nat): RunResult
  {
    Outcome(SelectMode(raw, stacked, csv), Collect(Scans(store, GetBuckets(store.buckets, rootDir), term)), csvFile, termWidth)
  }

  /** One more bucket scanned: its hits follow those collected so far, and its error, if any, ends the run. */
  lemma StepCollect(scans: seq<Scan>, i: nat, done: seq<Record>, hits: seq<Record>, failure: Option<ApiError>)
    requires i < |scans| && scans[i] == Scan(hits, failure)
    requires Collect(scans[..i]) == Scan(done, None)
    ensures Collect(scans[..i + 1]) == Scan(done + hits, failure)
  {
    assert scans[..i + 1] == scans[..i] + [scans[i]];
    CollectSnoc(scans[..i], scans[i]);
  }

  /**
   * Raw mode prints its header first, even when nothing matched, then one
   * line per hit in order: line `i + 1` is hit `i`, and never a second header.
   */
  lemma RawHeaderFirst(scan: Scan)
    ensures var out := RawOutcome(scan).console;
      && |out| == |scan.records| + 1
      && out[0] == Line(RawHeader)
      && forall i :: 0 <= i < |scan.records| ==>
           out[i + 1] == Line(RawLine(scan.records[i])) && out[i + 1] != Line(RawHeader)
  {
    var lines := [RawHeader] + RawLines(scan.records);
    MapAt(lines, AsLine, 0);
    forall i | 0 <= i < |scan.records|
      ensures RawOutcome(scan).console[i + 1] == Line(RawLine(scan.records[i]))
      ensures RawOutcome(scan).console[i + 1] != Line(RawHeader)
    {
      MapAt(lines, AsLine, i + 1);
      MapAt(scan.records, RawLine, i);
      RawLineIsNotHeader(scan.records[i]);
    }
  }

  /**
   * CSV mode writes its header row exactly once, first, even when nothing
   * matched, then one row per hit in order; with a file name the rows go to
   * the file and the console carries at most the closing message.
   */
  lemma CsvHeaderOnce(scan: Scan, csvFile: Option<string>)
    ensures var result := CsvOutcome(scan, csvFile);
      var rows := [CsvHeader] + CsvRows(scan.records);
      && |rows| == |scan.records| + 1
      && rows[0] == CsvHeader
      && (forall i :: 0 <= i < |scan.records| ==> rows[i + 1] == CsvFields(scan.records[i]) && rows[i + 1] != CsvHeader)
      && (csvFile.Some? && csvFile.value != "" ==> result.csvFile == Some(rows))
      && (!(csvFile.Some? && csvFile.value != "") ==>
            result.csvFile == None && |result.console| == |rows| && forall j :: 0 <= j < |rows| ==> result.console[j] == Row(rows[j]))
  {
    var rows := [CsvHeader] + CsvRows(scan.records);
    forall i | 0 <= i < |scan.records|
      ensures rows[i + 1] == CsvFields(scan.records[i]) && rows[i + 1] != CsvHeader
    {
      MapAt(scan.records, CsvFields, i);
      CsvRowIsNotHeader(scan.records[i]);
    }
    forall j | 0 <= j < |rows|
      ensures Map(rows, AsRow)[j] == Row(rows[j])
    {
      MapAt(rows, AsRow, j);
    }
  }

  /** "Results saved to <file>" is printed exactly when a file was named and every bucket was scanned without error. */
  lemma CsvSavedMessage(scan: Scan, f: string)
    requires f != ""
    ensures CsvOutcome(scan, Some(f)).console == (if scan.failure.None? then [Line("Results saved to " + f)] else [])
  {
  }

  /**
   * Stacked mode numbers the hits of all buckets with one counter: the block
   * of the `i`-th hit overall (from 0) is the seven lines from `7 * i`,
   * headed `=== Object i+1 ===` and closed by a blank line. No hits print nothing.
   */
  lemma StackedNumbering(scan: Scan)
    ensures var out := StackedOutcome(scan).console;
      && |out| == 7 * |scan.records|
      && forall i :: 0 <= i < |scan.records| ==>
           && out[7 * i] == Line("=== Object " + NatToString(i + 1) + " ===")
           && out[7 * i + 1] == Line("Bucket:     " + scan.records[i].bucket)
           && out[7 * i + 6] == Line("")
  {
    var lines := StackedLines(scan.records);
    StackedLinesLength(scan.records);
    forall i | 0 <= i < |scan.records|
      ensures StackedOutcome(scan).console[7 * i] == Line("=== Object " + NatToString(i + 1) + " ===")
      ensures StackedOutcome(scan).console[7 * i + 1] == Line("Bucket:     " + scan.records[i].bucket)
      ensures StackedOutcome(scan).console[7 * i + 6] == Line("")
    {
      StackedBlockLines(scan.records, i);
      MapAt(lines, AsLine, 7 * i);
      MapAt(lines, AsLine, 7 * i + 1);
      MapAt(lines, AsLine, 7 * i + 6);
    }
  }

  /**
   * Table mode prints nothing until every bucket was scanned: an error leaves
   * the console empty. A complete scan with no hits prints "No results found."
   * alone; otherwise the table is printed, or the run aborts on the key width's
   * sign exactly when the terminal is narrower than the bucket column plus 35.
   */
  lemma TableWaitsForScan(scan: Scan, termWidth: nat)
    ensures var result := TableOutcome(scan, termWidth);
      && (scan.failure.Some? ==> result.console == [] && result.status == Aborted(Api(scan.failure.value)))
      && (scan.failure.None? && scan.records == [] ==> result == RunResult([Line("No results found.")], None, Completed))
      && (scan.failure.None? && scan.records != [] ==>
            var bw := BucketColumnWidth(LongestLength(Buckets(scan.records)));
            && (result.status == Aborted(SignInFormatSpec) <==> termWidth < bw + 35)
            && (result.status == Completed ==> |result.console| == |scan.records| + 2))
  {
    if scan.failure.None? && scan.records != [] {
      TableShape(scan.records, termWidth);
    } else if scan.failure.None? {
      MapSingle("No results found.", AsLine);
    }
  }

  /** A streaming mode ends the run on a store error, after what was already printed; the table also on a too narrow terminal. */
  lemma RunStatus(mode: Mode, scan: Scan, csvFile: Option<string>, termWidth: nat)
    ensures var status := Outcome(mode, scan, csvFile, termWidth).status;
      && (scan.failure.Some? ==> status == Aborted(Api(scan.failure.value)))
      && (scan.failure.None? && mode != Table ==> status == Completed)
      && (status.Aborted? && status.cause.Api? ==> scan.failure == Some(status.cause.error))
  {
  }

  /** The inner loop of raw mode: a tab-separated line for each hit of one bucket. */
  method PrintRawHits(lines: seq<string>, hits: seq<Record>) returns (out: seq<string>)
    ensures out == lines + RawLines(hits)
  {
    out := lines;
    for j := 0 to |hits|
      invariant out == lines + RawLines(hits[..j])
    {
      var r := hits[j];
      var size := FormatSize(r.size);
      var line := r.bucket + "\t" + r.key + "\t" + size + "\t" + r.lastModified + "\t" + r.storageClass;
      assert RawLines(hits[..j + 1]) == RawLines(hits[..j]) + [line] by {
        assert hits[..j + 1] == hits[..j] + [r];
        MapAppend(hits[..j], [r], RawLine);
        MapSingle(r, RawLine);
      }
      AppendAssoc(lines, RawLines(hits[..j]), [line]);
      out := out + [line];
    }
    assert hits[..|hits|] == hits;
  }

  /** The raw lines of more hits extend those already printed. */
  lemma RawLinesGrow(done: seq<Record>, hits: seq<Record>)
    ensures [RawHeader] + RawLines(done) + RawLines(hits) == [RawHeader] + RawLines(done + hits)
  {
    MapAppend(done, hits, RawLine);
    AppendAssoc([RawHeader], RawLines(done), RawLines(hits));
  }

  /** The loop of raw mode: the header, then a line per hit of each bucket in turn, up to the error that stopped the scan, if any. */
  method StreamRawLines(store: Store, buckets: seq<string>, term: string) returns (lines: seq<string>, failure: Option<ApiError>)
    ensures lines == [RawHeader] + RawLines(Collect(Scans(store, buckets, term)).records)
    ensures failure == Collect(Scans(store, buckets, term)).failure
  {
    lines := [RawHeader];
    ghost var scans := Scans(store, buckets, term);
    ghost var done: seq<Record> := [];
    var i := 0;
    while i < |buckets|
      invariant 0 <= i <= |buckets|
      invariant Collect(scans[..i]) == Scan(done, None)
      invariant lines == [RawHeader] + RawLines(done)
    {
      var hits, err := ListHitsContains(store, buckets[i], term);
      StepCollect(scans, i, done, hits, err);
      lines := PrintRawHits(lines, hits);
      RawLinesGrow(done, hits);
      done := done + hits;
      if err.Some? {
        CollectStops(scans, i + 1);
        return lines, err;
      }
      i := i + 1;
    }
    assert scans[..i] == scans;
    failure := None;
  }

  /** Raw mode: the header, then one tab-separated line per hit as it is found. */
  method RunRaw(store: Store, buckets: seq<string>, term: string) returns (result: RunResult)
    ensures result == RawOutcome(Collect(Scans(store, buckets, term)))
  {
    var lines, failure := StreamRawLines(store, buckets, term);
    var status := if failure.Some? then Aborted(Api(failure.value)) else Completed;
    result := RunResult(Map(lines, AsLine), None, status);
  }

  /**
   * The inner loop of stacked mode: a block for each hit of one bucket,
   * numbered on from `objectCount`, the number of hits printed before.
   */
  method PrintStackedHits(lines: seq<string>, objectCount: nat, hits: seq<Record>, ghost done: seq<Record>)
    returns (out: seq<string>, count: nat)
    requires lines == StackedLines(done) && objectCount == |done|
    ensures out == StackedLines(done + hits) && count == objectCount + |hits|
  {
    out, count := lines, objectCount;
    ghost var all := done + hits;
    assert all[..|done|] == done;
    for j := 0 to |hits|
      invariant count == |done| + j
      invariant out == StackedLines(all[..count])
    {
      var block := PrintBlock(count + 1, hits[j]);
      assert hits[j] == all[count];
      StackedPrefixStep(all, count);
      out, count := out + block, count + 1;
    }
    assert all[..count] == all;
  }

  /** The loop of stacked mode: a block per hit of each bucket in turn, numbered across buckets, up to the error that stopped the scan, if any. */
  method StreamStackedLines(store: Store, buckets: seq<string>, term: string) returns (lines: seq<string>, failure: Option<ApiError>)
    ensures lines == StackedLines(Collect(Scans(store, buckets, term)).records)
    ensures failure == Collect(Scans(store, buckets, term)).failure
  {
    lines := [];
    var objectCount := 0;
    ghost var scans := Scans(store, buckets, term);
    ghost var done: seq<Record> := [];
    var i := 0;
    while i < |buckets|
      invariant 0 <= i <= |buckets|
      invariant Collect(scans[..i]) == Scan(done, None)
      invariant lines == StackedLines(done) && objectCount == |done|
    {
      var hits, err := ListHitsContains(store, buckets[i], term);
      StepCollect(scans, i, done, hits, err);
      lines, objectCount := PrintStackedHits(lines, objectCount, hits, done);
      done := done + hits;
      if err.Some? {
        CollectStops(scans, i + 1);
        return lines, err;
      }
      i := i + 1;
    }
    assert scans[..i] == scans;
    failure := None;
  }

  /** Stacked mode: a seven-line block per hit, numbered by one counter across all buckets. */
  method RunStacked(store: Store, buckets: seq<string>, term: string) returns (result: RunResult)
    ensures result == StackedOutcome(Collect(Scans(store, buckets, term)))
  {
    var lines, failure := StreamStackedLines(store, buckets, term);
    var status := if failure.Some? then Aborted(Api(failure.value)) else Completed;
    result := RunResult(Map(lines, AsLine), None, status);
  }

  /** The inner loop of CSV mode: `writer.writerow` for each hit of one bucket. */
  method WriteCsvHits(rows: seq<seq<string>>, hits: seq<Record>) returns (out: seq<seq<string>>)
    ensures out == rows + CsvRows(hits)
  {
    out := rows;
    for j := 0 to |hits|
      invariant out == rows + CsvRows(hits[..j])
    {
      var r := hits[j];
      var size := FormatSize(r.size);
      var row := [r.bucket, r.key, size, r.lastModified, r.storageClass];
      assert CsvRows(hits[..j + 1]) == CsvRows(hits[..j]) + [row] by {
        assert hits[..j + 1] == hits[..j] + [r];
        MapAppend(hits[..j], [r], CsvFields);
        MapSingle(r, CsvFields);
      }
      AppendAssoc(rows, CsvRows(hits[..j]), [row]);
      out := out + [row];
    }
    assert hits[..|hits|] == hits;
  }

  /** The CSV rows of more hits extend those already written. */
  lemma CsvRowsGrow(done: seq<Record>, hits: seq<Record>)
    ensures [CsvHeader] + CsvRows(done) + CsvRows(hits) == [CsvHeader] + CsvRows(done + hits)
  {
    MapAppend(done, hits, CsvFields);
    AppendAssoc([CsvHeader], CsvRows(done), CsvRows(hits));
  }

  /**
   * The loop CSV mode runs, whether into the file or onto the console: the
   * header row, then a row per hit of each bucket in turn, up to the error
   * that stopped the scan, if any.
   */
  method StreamCsvRows(store: Store, buckets: seq<string>, term: string) returns (rows: seq<seq<string>>, failure: Option<ApiError>)
    ensures rows == [CsvHeader] + CsvRows(Collect(Scans(store, buckets, term)).records)
    ensures failure == Collect(Scans(store, buckets, term)).failure
  {
    rows := [CsvHeader];
    ghost var scans := Scans(store, buckets, term);
    ghost var done: seq<Record> := [];
    var i := 0;
    while i < |buckets|
      invariant 0 <= i <= |buckets|
      invariant Collect(scans[..i]) == Scan(done, None)
      invariant rows == [CsvHeader] + CsvRows(done)
    {
      var hits, err := ListHitsContains(store, buckets[i], term);
      StepCollect(scans, i, done, hits, err);
      rows := WriteCsvHits(rows, hits);
      CsvRowsGrow(done, hits);
      done := done + hits;
      if err.Some? {
        CollectStops(scans, i + 1);
        return rows, err;
      }
      i := i + 1;
    }
    assert scans[..i] == scans;
    failure := None;
  }

  /**
   * CSV mode: the header row, then one row per hit, written to the named file
   * (followed by "Results saved to <file>" on the console) or, when no file
   * name is given, to the console.
   */
  method RunCsv(store: Store, buckets: seq<string>, term: string, csvFile: Option<string>) returns (result: RunResult)
    ensures result == CsvOutcome(Collect(Scans(store, buckets, term)), csvFile)
  {
    var rows, failure := StreamCsvRows(store, buckets, term);
    var status := if failure.Some? then Aborted(Api(failure.value)) else Completed;
    if csvFile.Some? && csvFile.value != "" {
      var console := if failure.None? then [Line("Results saved to " + csvFile.value)] else [];
      result := RunResult(console, Some(rows), status);
    } else {
      result := RunResult(Map(rows, AsRow), None, status);
    }
  }

  /** The collecting loop of table mode: `all_results.append(r)` for every hit of every bucket, up to the first error. */
  method CollectHits(store: Store, buckets: seq<string>, term: string) returns (allResults: seq<Record>, failure: Option<ApiError>)
    ensures Scan(allResults, failure) == Collect(Scans(store, buckets, term))
  {
    allResults := [];
    ghost var scans := Scans(store, buckets, term);
    var i := 0;
    while i < |buckets|
      invariant 0 <= i <= |buckets|
      invariant Collect(scans[..i]) == Scan(allResults, None)
    {
      var hits, err := ListHitsContains(store, buckets[i], term);
      StepCollect(scans, i, allResults, hits, err);
      allResults := AppendEach(allResults, hits);
      if err.Some? {
        CollectStops(scans, i + 1);
        return allResults, err;
      }
      i := i + 1;
    }
    assert scans[..i] == scans;
    failure := None;
  }

  /** Table mode: collect every hit of every bucket, then `display_results` with both flags off. */
  method RunTable(store: Store, buckets: seq<string>, term: string, termWidth: nat) returns (result: RunResult)
    ensures result == TableOutcome(Collect(Scans(store, buckets, term)), termWidth)
  {
    var allResults, failure := CollectHits(store, buckets, term);
    if failure.Some? {
      return RunResult([], None, Aborted(Api(failure.value)));
    }
    var lines, ok := DisplayResults(allResults, false, false, termWidth);
    if ok {
      return RunResult(Map(lines, AsLine), None, Completed);
    }
    return RunResult([], None, Aborted(SignInFormatSpec));
  }

  /**
   * The script from `buckets = get_buckets()` on: `term` is the search term,
   * `rootDir` the optional bucket-name fragment, `raw`/`stacked`/`csv` the
   * mode flags, `csvFile` the optional output file and `termWidth` the
   * terminal width the table would use.
   */
  method Run(store: Store, term: string, rootDir: Option<string>, raw: bool, stacked: bool, csv: bool,
             csvFile: Option<string>, termWidth: nat) returns (result: RunResult)
    ensures result == Expected(store, term, rootDir, raw, stacked, csv, csvFile, termWidth)
  {
    var buckets := GetBuckets(store.buckets, rootDir);
    if raw {
      result := RunRaw(store, buckets, term);
    } else if stacked {
      result := RunStacked(store, buckets, term);
    } else if csv {
      result := RunCsv(store, buckets, term, csvFile);
    } else {
      result := RunTable(store, buckets, term, termWidth);
    }
  }

  /** A bucket holding one page with one object: its scan is that object's record if the key matches, else nothing. */
  lemma OneObjectScan(store: Store, bucket: string, term: string, o: Obj)
    requires bucket in store.objects && store.objects[bucket] == Paged([[o]], None)
    ensures BucketScan(store, bucket, term) == Scan(if Contains(o.key, term) then [ToRecord(bucket, o)] else [], None)
  {
    ListObjectsNoPrefix(store, bucket);
    assert Flatten([[o]]) == [o];
    FilterSnoc([], o, KeyContains(term));
  }

  /**
   * Two buckets of one object each, scanned without error: the run's hits
   * are the first object's record when only its key contains `term`.
   */
  lemma TwoBucketRun(store: Store, term: string, a: string, b: string, o1: Obj, o2: Obj)
    requires store.buckets == [a, b]
    requires a in store.objects && store.objects[a] == Paged([[o1]], None)
    requires b in store.objects && store.objects[b] == Paged([[o2]], None)
    requires Contains(o1.key, term) && !Contains(o2.key, term)
    ensures Collect(Scans(store, store.buckets, term)) == Scan([ToRecord(a, o1)], None)
  {
    var scans := Scans(store, store.buckets, term);
    assert scans[0] == Scan([ToRecord(a, o1)], None) by {
      OneObjectScan(store, a, term, o1);
    }
    assert scans[1] == Scan([], None) by {
      OneObjectScan(store, b, term, o2);
    }
    CollectSnoc([], scans[0]);
    CollectSnoc([scans[0]], scans[1]);
    assert [scans[0]] + [scans[1]] == scans;
  }

  /**
   * Worked run: a store whose bucket "app-logs" holds "2024/app.log" (2048
   * bytes, no storage class) and whose bucket "assets" holds "img/a.png",
   * searched for "log" in raw mode, prints the header and one line, the size
   * shown as "2.0KB" and the missing storage class as "STANDARD".
   */
  lemma RawExample(store: Store)
    requires store.buckets == ["app-logs", "assets"]
    requires store.objects == map[
      "app-logs" := Paged([[Obj("2024/app.log", 2048, "2024-01-01T00:00:00+00:00", None)]], None),
      "assets" := Paged([[Obj("img/a.png", 10, "2024-01-02T00:00:00+00:00", Some("GLACIER"))]], None)]
    ensures Expected(store, "log", None, true, false, false, None, 80) ==
      RunResult([Line(RawHeader),
                 Line("app-logs" + "\t" + "2024/app.log" + "\t" + "2.0KB" + "\t" + "2024-01-01T00:00:00+00:00" + "\t" + "STANDARD")], None, Completed)
  {
    var log := Obj("2024/app.log", 2048, "2024-01-01T00:00:00+00:00", None);
    var png := Obj("img/a.png", 10, "2024-01-02T00:00:00+00:00", Some("GLACIER"));
    var hit := ToRecord("app-logs", log);
    assert GetBuckets(store.buckets, None) == store.buckets;
    assert Collect(Scans(store, store.buckets, "log")) == Scan([hit], None) by {
      ExampleKeys();
      TwoBucketRun(store, "log", "app-logs", "assets", log, png);
    }
    assert Expected(store, "log", None, true, false, false, None, 80) == RawOutcome(Scan([hit], None));
    RawOneHit(hit);
    ExampleLine();
  }

  /** Of the example keys, only "2024/app.log" contains "log". */
  lemma ExampleKeys()
    ensures Contains("2024/app.log", "log") && !Contains("img/a.png", "log")
  {
    ContainsInfix("2024/app.", "log", "");
    assert "2024/app." + "log" + "" == "2024/app.log";
    ContainsNeedsFirst("img/a.png", "log");
  }

  /** The raw line of the example hit. */
  lemma ExampleLine()
    ensures RawLine(Record("app-logs", "2024/app.log", 2048, "2024-01-01T00:00:00+00:00", "STANDARD")) ==
      "app-logs" + "\t" + "2024/app.log" + "\t" + "2.0KB" + "\t" + "2024-01-01T00:00:00+00:00" + "\t" + "STANDARD"
  {
    SizeTextTwoKilobytes();
  }

  /** Raw mode with a single hit and no error prints the header and that hit's line. */
  lemma RawOneHit(hit: Record)
    ensures RawOutcome(Scan([hit], None)) == RunResult([Line(RawHeader), Line(RawLine(hit))], None, Completed)
  {
    MapSingle(hit, RawLine);
    var lines := [RawHeader, RawLine(hit)];
    assert [RawHeader] + RawLines([hit]) == lines;
    MapAt(lines, AsLine, 0);
    MapAt(lines, AsLine, 1);
  }
}

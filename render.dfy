/**
 * The result renderers: the raw (tab-separated), stacked, CSV and table line
 * shapes, the table's column-width arithmetic, and `display_results`, which
 * prints a collected result list one line at a time.
 */
module Render {
  import opened Seqs
  import opened Text
  import opened Storage
  import opened Scanner
  import opened Format

  const RawHeader: string := "Bucket\tKey\tSize\tLastModified\tStorageClass"

  /** One raw line: the five fields separated by tabs, size human-readable. */
  function RawLine(r: Record): string
  {
    r.bucket + "\t" + r.key + "\t" + SizeText(r.size) + "\t" + r.lastModified + "\t" + r.storageClass
  }

  function RawLines(rs: seq<Record>): seq<string>
  {
    Map(rs, RawLine)
  }

  /** The raw header holds no digit. */
  lemma RawHeaderHasNoDigit()
    ensures forall i :: 0 <= i < |RawHeader| ==> !IsDigit(RawHeader[i])
  {
  }

  /** In five tab-separated fields, the third begins right after the first two fields and their tabs. */
  lemma ThirdFieldStart(b: string, k: string, s: string, m: string, c: string)
    requires s != []
    ensures var line := b + "\t" + k + "\t" + s + "\t" + m + "\t" + c;
      |b| + |k| + 2 < |line| && line[|b| + |k| + 2] == s[0]
  {
  }

  /**
   * No raw line is the header line: the size field of a line starts with a
   * digit, and the header holds none, whatever tabs the bucket or key contain.
   */
  lemma RawLineIsNotHeader(r: Record)
    ensures RawLine(r) != RawHeader
  {
    SizeTextStartsWithDigit(r.size);
    ThirdFieldStart(r.bucket, r.key, SizeText(r.size), r.lastModified, r.storageClass);
    RawHeaderHasNoDigit();
  }

  const CsvHeader: seq<string> := ["Bucket", "Key", "Size", "LastModified", "StorageClass"]

  /** The five fields `writer.writerow` receives for a record. */
  function CsvFields(r: Record): seq<string>
  {
    [r.bucket, r.key, SizeText(r.size), r.lastModified, r.storageClass]
  }

  function CsvRows(rs: seq<Record>): seq<seq<string>>
  {
    Map(rs, CsvFields)
  }

  /** A record's CSV row is never the header row: its size field starts with a digit, "Size" does not. */
  lemma CsvRowIsNotHeader(r: Record)
    ensures CsvFields(r) != CsvHeader
  {
    SizeTextStartsWithDigit(r.size);
    assert CsvFields(r)[2][0] != CsvHeader[2][0];
  }

  /** The seven lines printed for the `n`-th object in stacked form, the last one blank. */
  function StackedBlock(n: nat, r: Record): seq<string>
  {
    [ "=== Object " + NatToString(n) + " ===",
      "Bucket:     " + r.bucket,
      "Key:        " + r.key,
      "Size:       " + SizeText(r.size),
      "Modified:   " + r.lastModified,
      "Class:      " + r.storageClass,
      "" ]
  }

  /** The stacked output for `rs`, objects numbered from 1. */
  function StackedLines(rs: seq<Record>): seq<string>
  {
    if rs == [] then []
    else StackedLines(rs[..|rs| - 1]) + StackedBlock(|rs|, rs[|rs| - 1])
  }

  /** One more record adds its block, numbered after all the earlier ones. */
  lemma StackedLinesSnoc(rs: seq<Record>, r: Record)
    ensures StackedLines(rs + [r]) == StackedLines(rs) + StackedBlock(|rs| + 1, r)
  {
    var s := rs + [r];
    assert s[..|s| - 1] == rs;
    assert s[|s| - 1] == r;
  }

  /** The stacked output of a prefix one record longer adds that record's block. */
  lemma StackedPrefixStep(rs: seq<Record>, i: nat)
    requires i < |rs|
    ensures StackedLines(rs[..i + 1]) == StackedLines(rs[..i]) + StackedBlock(i + 1, rs[i])
  {
    var p := rs[..i];
    assert rs[..i + 1] == p + [rs[i]];
    StackedLinesSnoc(p, rs[i]);
  }

  lemma {:induction false} StackedLinesLength(rs: seq<Record>)
    ensures |StackedLines(rs)| == 7 * |rs|
    decreases |rs|
  {
    if rs != [] {
      StackedLinesLength(rs[..|rs| - 1]);
    }
  }

  /** The `i`-th group of seven in `head + block`, where `head` holds `m` groups and `block` one more. */
  lemma GroupOfSeven<T>(head: seq<T>, block: seq<T>, m: nat, i: nat)
    requires |head| == 7 * m && |block| == 7 && i <= m
    ensures i < m ==> (head + block)[7 * i..7 * i + 7] == head[7 * i..7 * i + 7]
    ensures i == m ==> (head + block)[7 * i..7 * i + 7] == block
  {
    if i == m {
      assert (head + block)[7 * i..7 * i + 7] == block;
    }
  }

  lemma {:induction false} StackedLinesAt(rs: seq<Record>, i: nat)
    requires i < |rs|
    ensures |StackedLines(rs)| == 7 * |rs|
    ensures StackedLines(rs)[7 * i..7 * i + 7] == StackedBlock(i + 1, rs[i])
    decreases |rs|
  {
    var n := |rs| - 1;
    var prev := rs[..n];
    var head := StackedLines(prev);
    var block := StackedBlock(n + 1, rs[n]);
    StackedLinesLength(rs);
    StackedLinesLength(prev);
    assert StackedLines(rs) == head + block;
    GroupOfSeven(head, block, n, i);
    if i < n {
      StackedLinesAt(prev, i);
      assert prev[i] == rs[i];
    }
  }

  /**
   * Stacked output is seven lines per record: the `i`-th block (from 0) is
   * the block of record `i` numbered `i + 1`, opening with its
   * "=== Object N ===" line and closing with a blank line.
   */
  lemma StackedLinesShape(rs: seq<Record>)
    ensures |StackedLines(rs)| == 7 * |rs|
    ensures forall i :: 0 <= i < |rs| ==> StackedLines(rs)[7 * i..7 * i + 7] == StackedBlock(i + 1, rs[i])
    ensures forall i :: 0 <= i < |rs| ==>
      StackedLines(rs)[7 * i] == "=== Object " + NatToString(i + 1) + " ===" && StackedLines(rs)[7 * i + 6] == ""
  {
    StackedLinesLength(rs);
    var out := StackedLines(rs);
    forall i | 0 <= i < |rs|
      ensures out[7 * i..7 * i + 7] == StackedBlock(i + 1, rs[i])
      ensures out[7 * i] == "=== Object " + NatToString(i + 1) + " ===" && out[7 * i + 6] == ""
    {
      StackedLinesAt(rs, i);
      assert out[7 * i] == out[7 * i..7 * i + 7][0];
      assert out[7 * i + 6] == out[7 * i..7 * i + 7][6];
    }
  }

  /** The opening, bucket and closing lines of the `i`-th block (from 0) of stacked output. */
  lemma StackedBlockLines(rs: seq<Record>, i: nat)
    requires i < |rs|
    ensures |StackedLines(rs)| == 7 * |rs|
    ensures StackedLines(rs)[7 * i] == "=== Object " + NatToString(i + 1) + " ==="
    ensures StackedLines(rs)[7 * i + 1] == "Bucket:     " + rs[i].bucket
    ensures StackedLines(rs)[7 * i + 6] == ""
  {
    var out := StackedLines(rs);
    StackedLinesAt(rs, i);
    var block := out[7 * i..7 * i + 7];
    assert out[7 * i] == block[0];
    assert out[7 * i + 1] == block[1];
    assert out[7 * i + 6] == block[6];
  }

  /** The length of the longest name (`len(max(names, key=len))`), 0 for none. */
  function LongestLength(names: seq<string>): (n: nat)
    ensures forall i :: 0 <= i < |names| ==> |names[i]| <= n
    ensures names != [] ==> exists i :: 0 <= i < |names| && |names[i]| == n
    ensures names == [] ==> n == 0
  {
    if names == [] then 0
    else
      var rest := LongestLength(names[..|names| - 1]);
      if |names[|names| - 1]| > rest then |names[|names| - 1]| else rest
  }

  function Min(a: int, b: int): int { if a <= b then a else b }
  function Max(a: int, b: int): int { if a >= b then a else b }

  /**
   * The bucket column width `min(50, max(20, min(longest, 50)))`: the longest
   * bucket name clamped to [20, 50].
   */
  function BucketColumnWidth(longestBucket: nat): (w: nat)
    ensures 20 <= w <= 50
    ensures longestBucket < 20 ==> w == 20
    ensures 20 <= longestBucket <= 50 ==> w == longestBucket
    ensures longestBucket > 50 ==> w == 50
  {
    Min(50, Max(20, Min(longestBucket, 50)))
  }

  /**
   * The key column width `min(room, max(30, min(longest, room)))` where
   * `room` is what the terminal leaves after the bucket column and the fixed
   * 35 columns. It never exceeds `room`; when `room` is at least 30 it lies
   * in [30, room]; when `room` is below 30 it is `room` itself, which can be
   * negative, since the terminal width is never clamped.
   */
  function KeyColumnWidth(termWidth: int, bucketWidth: int, longestKey: nat): (w: int)
    ensures var room := termWidth - bucketWidth - 35;
      && w <= room
      && (room >= 30 ==> 30 <= w)
      && (room < 30 ==> w == room)
      && (30 <= longestKey <= room ==> w == longestKey)
      && (longestKey < 30 <= room ==> w == 30)
  {
    var room := termWidth - bucketWidth - 35;
    Min(room, Max(30, Min(longestKey, room)))
  }

  function Buckets(rs: seq<Record>): seq<string>
  {
    seq(|rs|, i requires 0 <= i < |rs| => rs[i].bucket)
  }

  function Keys(rs: seq<Record>): seq<string>
  {
    seq(|rs|, i requires 0 <= i < |rs| => rs[i].key)
  }

  function TableHeader(bucketWidth: nat, keyWidth: nat): string
  {
    PadRight("Bucket", bucketWidth) + " " + PadRight("Key", keyWidth) + " " + PadRight("Size", 10) + " "
      + PadRight("Modified", 25) + " " + PadRight("Class", 15)
  }

  /** A table row: every field padded, none cut, except LastModified, shown to its first 25 characters. */
  function TableRow(r: Record, bucketWidth: nat, keyWidth: nat): string
  {
    PadRight(r.bucket, bucketWidth) + " " + PadRight(r.key, keyWidth) + " " + PadRight(SizeText(r.size), 10) + " "
      + PadRight(SliceTo(r.lastModified, 25), 25) + " " + PadRight(r.storageClass, 15)
  }

  /**
   * The table for a non-empty result list: header, a rule of `termWidth`
   * dashes, one row per record. `None` when the key width is negative: the
   * format spec `<-n` makes Python raise ValueError ("Sign not allowed in
   * string format specifier") while building the header, so nothing prints.
   */
  function TableLines(rs: seq<Record>, termWidth: nat): Option<seq<string>>
    requires rs != []
  {
    var bw := BucketColumnWidth(LongestLength(Buckets(rs)));
    var kw := KeyColumnWidth(termWidth, bw, LongestLength(Keys(rs)));
    if kw < 0 then None
    else Some([TableHeader(bw, kw), Repeat('-', termWidth)] + TableRows(rs, bw, kw))
  }

  function TableRows(rs: seq<Record>, bucketWidth: nat, keyWidth: nat): seq<string>
  {
    seq(|rs|, i requires 0 <= i < |rs| => TableRow(rs[i], bucketWidth, keyWidth))
  }

  lemma TableRowsSnoc(rs: seq<Record>, r: Record, bucketWidth: nat, keyWidth: nat)
    ensures TableRows(rs + [r], bucketWidth, keyWidth) == TableRows(rs, bucketWidth, keyWidth) + [TableRow(r, bucketWidth, keyWidth)]
  {
    var rows := TableRows(rs, bucketWidth, keyWidth) + [TableRow(r, bucketWidth, keyWidth)];
    assert forall i :: 0 <= i < |rs| + 1 ==> TableRows(rs + [r], bucketWidth, keyWidth)[i] == rows[i];
  }

  /** What `display_results(results, raw_output, stacked_output)` prints; `None` when it raises. */
  function Display(rs: seq<Record>, raw: bool, stacked: bool, termWidth: nat): Option<seq<string>>
  {
    if rs == [] then Some(["No results found."])
    else if raw then Some([RawHeader] + RawLines(rs))
    else if stacked then Some(StackedLines(rs))
    else TableLines(rs, termWidth)
  }

  /**
   * The table can only fail on a terminal narrower than the bucket column
   * plus 35; otherwise it prints a header, `termWidth` dashes and one row per
   * record in order, and the bucket width depends on the bucket names alone.
   */
  lemma TableShape(rs: seq<Record>, termWidth: nat)
    requires rs != []
    ensures var bw := BucketColumnWidth(LongestLength(Buckets(rs)));
      var kw := KeyColumnWidth(termWidth, bw, LongestLength(Keys(rs)));
      && 20 <= bw <= 50
      && (TableLines(rs, termWidth).None? <==> termWidth < bw + 35)
      && (TableLines(rs, termWidth).Some? ==>
            var lines := TableLines(rs, termWidth).value;
            && kw >= 0
            && |lines| == |rs| + 2
            && lines[0] == TableHeader(bw, kw)
            && lines[1] == Repeat('-', termWidth)
            && forall i :: 0 <= i < |rs| ==> lines[i + 2] == TableRow(rs[i], bw, kw))
  {
    var bw := BucketColumnWidth(LongestLength(Buckets(rs)));
    var kw := KeyColumnWidth(termWidth, bw, LongestLength(Keys(rs)));
    assert kw < 0 <==> termWidth < bw + 35;
    if kw >= 0 {
      var rows := TableRows(rs, bw, kw);
      var lines := [TableHeader(bw, kw), Repeat('-', termWidth)] + rows;
      assert TableLines(rs, termWidth) == Some(lines);
      assert forall i :: 0 <= i < |rs| ==> lines[i + 2] == rows[i];
    }
  }

  /**
   * No row cuts a value: the row starts with the bucket name whole, and the
   * key follows, whole, after the bucket column and one space.
   */
  lemma TableRowKeepsValues(r: Record, bucketWidth: nat, keyWidth: nat)
    ensures var row := TableRow(r, bucketWidth, keyWidth);
      var keyAt := if |r.bucket| < bucketWidth then bucketWidth + 1 else |r.bucket| + 1;
      && StartsWith(row, r.bucket)
      && keyAt + |r.key| <= |row|
      && row[keyAt..keyAt + |r.key|] == r.key
  {
    var b := PadRight(r.bucket, bucketWidth);
    var k := PadRight(r.key, keyWidth);
    var rest := " " + PadRight(SizeText(r.size), 10) + " " + PadRight(SliceTo(r.lastModified, 25), 25) + " " + PadRight(r.storageClass, 15);
    TableRowSplit(r, bucketWidth, keyWidth);
    TwoColumns(r.bucket, b, r.key, k, rest);
  }

  /**
   * Nor does it cut the size text or the storage class: each follows, whole,
   * one space after the padded column before it (LastModified is always 25 wide).
   */
  lemma TableRowKeepsSizeAndClass(r: Record, bucketWidth: nat, keyWidth: nat)
    ensures var row := TableRow(r, bucketWidth, keyWidth);
      var size := SizeText(r.size);
      var keyAt := if |r.bucket| < bucketWidth then bucketWidth + 1 else |r.bucket| + 1;
      var sizeAt := keyAt + (if |r.key| < keyWidth then keyWidth else |r.key|) + 1;
      var classAt := sizeAt + (if |size| < 10 then 10 else |size|) + 1 + 25 + 1;
      && sizeAt + |size| <= |row|
      && row[sizeAt..sizeAt + |size|] == size
      && classAt + |r.storageClass| <= |row|
      && row[classAt..classAt + |r.storageClass|] == r.storageClass
  {
    RowColumns(r.bucket, r.key, SizeText(r.size), r.lastModified, r.storageClass, bucketWidth, keyWidth);
  }

  /** `TableRowKeepsSizeAndClass` for any five column values, the size text among them. */
  lemma RowColumns(bucket: string, key: string, size: string, modified: string, storageClass: string,
                   bucketWidth: nat, keyWidth: nat)
    ensures var row := PadRight(bucket, bucketWidth) + " " + PadRight(key, keyWidth) + " " + PadRight(size, 10)
                       + " " + PadRight(SliceTo(modified, 25), 25) + " " + PadRight(storageClass, 15);
      var keyAt := if |bucket| < bucketWidth then bucketWidth + 1 else |bucket| + 1;
      var sizeAt := keyAt + (if |key| < keyWidth then keyWidth else |key|) + 1;
      var classAt := sizeAt + (if |size| < 10 then 10 else |size|) + 1 + 25 + 1;
      && sizeAt + |size| <= |row|
      && row[sizeAt..sizeAt + |size|] == size
      && classAt + |storageClass| <= |row|
      && row[classAt..classAt + |storageClass|] == storageClass
  {
    var b := PadRight(bucket, bucketWidth);
    var k := PadRight(key, keyWidth);
    var s := PadRight(size, 10);
    var m := PadRight(SliceTo(modified, 25), 25);
    var c := PadRight(storageClass, 15);
    var row := b + " " + k + " " + s + " " + m + " " + c;
    var keyAt := if |bucket| < bucketWidth then bucketWidth + 1 else |bucket| + 1;
    var sizeAt := keyAt + (if |key| < keyWidth then keyWidth else |key|) + 1;
    var classAt := sizeAt + (if |size| < 10 then 10 else |size|) + 1 + 25 + 1;
    OuterColumns(row, b, k, s, m, c, size, storageClass, sizeAt, classAt);
  }

  /**
   * In five space-separated columns, a `size` that starts the third column
   * and a `storageClass` that starts the fifth appear whole at those columns' offsets.
   */
  lemma OuterColumns(row: string, p0: string, p1: string, p2: string, p3: string, p4: string,
                     size: string, storageClass: string, sizeAt: nat, classAt: nat)
    requires row == p0 + " " + p1 + " " + p2 + " " + p3 + " " + p4
    requires StartsWith(p2, size) && StartsWith(p4, storageClass)
    requires sizeAt == |p0| + 1 + |p1| + 1 && classAt == sizeAt + |p2| + 1 + |p3| + 1
    ensures sizeAt + |size| <= |row| && row[sizeAt..sizeAt + |size|] == size
    ensures classAt + |storageClass| <= |row| && row[classAt..classAt + |storageClass|] == storageClass
  {
    assert row[sizeAt..sizeAt + |size|] == p2[..|size|];
    assert row[classAt..classAt + |storageClass|] == p4[..|storageClass|];
  }

  /** A row is its first two columns, then everything after them. */
  lemma TableRowSplit(r: Record, bucketWidth: nat, keyWidth: nat)
    ensures TableRow(r, bucketWidth, keyWidth) == PadRight(r.bucket, bucketWidth) + " " + PadRight(r.key, keyWidth)
      + (" " + PadRight(SizeText(r.size), 10) + " " + PadRight(SliceTo(r.lastModified, 25), 25) + " " + PadRight(r.storageClass, 15))
  {
    var p2 := PadRight(r.bucket, bucketWidth) + " " + PadRight(r.key, keyWidth);
    var s := PadRight(SizeText(r.size), 10);
    var m := PadRight(SliceTo(r.lastModified, 25), 25);
    var c := PadRight(r.storageClass, 15);
    AppendAssoc(p2, " ", s);
    AppendAssoc(p2, " " + s, " ");
    AppendAssoc(p2, " " + s + " ", m);
    AppendAssoc(p2, " " + s + " " + m, " ");
    AppendAssoc(p2, " " + s + " " + m + " ", c);
  }

  /** In `b + " " + k + rest`, a `bucket` that starts `b` starts the whole, and a `key` that starts `k` follows the space. */
  lemma TwoColumns(bucket: string, b: string, key: string, k: string, rest: string)
    requires StartsWith(b, bucket) && StartsWith(k, key)
    ensures var row := b + " " + k + rest;
      && StartsWith(row, bucket)
      && |b| + 1 + |key| <= |row|
      && row[|b| + 1..|b| + 1 + |key|] == key
  {
    var row := b + " " + k + rest;
    assert row[..|bucket|] == b[..|bucket|];
    assert row[|b| + 1..|b| + 1 + |key|] == k[..|key|];
  }

  /** Table rows show exactly the first 25 characters of LastModified, or all of a shorter one. */
  lemma TableRowModified(r: Record, bucketWidth: nat, keyWidth: nat)
    ensures var m := SliceTo(r.lastModified, 25);
      && |m| == Min(|r.lastModified|, 25)
      && StartsWith(r.lastModified, m)
      && Contains(TableRow(r, bucketWidth, keyWidth), m)
  {
    var m := SliceTo(r.lastModified, 25);
    var head := PadRight(r.bucket, bucketWidth) + " " + PadRight(r.key, keyWidth) + " " + PadRight(SizeText(r.size), 10) + " ";
    var pm := PadRight(m, 25);
    var tail := " " + PadRight(r.storageClass, 15);
    assert TableRow(r, bucketWidth, keyWidth) == head + pm + tail;
    assert pm == m + pm[|m|..];
    assert TableRow(r, bucketWidth, keyWidth) == head + m + (pm[|m|..] + tail);
    ContainsInfix(head, m, pm[|m|..] + tail);
  }

  /** The raw branch of `display_results`: the header, then one tab-separated line per record. */
  method PrintRaw(results: seq<Record>) returns (lines: seq<string>)
    ensures lines == [RawHeader] + RawLines(results)
  {
    lines := [RawHeader];
    for i := 0 to |results|
      invariant lines == [RawHeader] + RawLines(results[..i])
    {
      var r := results[i];
      var size := FormatSize(r.size);
      assert RawLines(results[..i + 1]) == RawLines(results[..i]) + [RawLine(r)];
      lines := lines + [r.bucket + "\t" + r.key + "\t" + size + "\t" + r.lastModified + "\t" + r.storageClass];
    }
    assert results[..|results|] == results;
  }

  /** The seven `print` calls for the `n`-th object in stacked form. */
  method PrintBlock(n: nat, r: Record) returns (block: seq<string>)
    ensures block == StackedBlock(n, r)
  {
    var size := FormatSize(r.size);
    block := ["=== Object " + NatToString(n) + " ===",
              "Bucket:     " + r.bucket,
              "Key:        " + r.key,
              "Size:       " + size,
              "Modified:   " + r.lastModified,
              "Class:      " + r.storageClass,
              ""];
  }

  /** The stacked branch of `display_results`: a numbered seven-line block per record. */
  method PrintStacked(results: seq<Record>) returns (lines: seq<string>)
    ensures lines == StackedLines(results)
  {
    lines := [];
    for i := 0 to |results|
      invariant lines == StackedLines(results[..i])
    {
      var r := results[i];
      var block := PrintBlock(i + 1, r);
      StackedPrefixStep(results, i);
      lines := lines + block;
    }
    assert results[..|results|] == results;
  }

  /** The table branch of `display_results`, once the widths are known and valid. */
  method PrintTable(results: seq<Record>, bucketWidth: nat, keyWidth: nat, termWidth: nat) returns (lines: seq<string>)
    ensures lines == [TableHeader(bucketWidth, keyWidth), Repeat('-', termWidth)] + TableRows(results, bucketWidth, keyWidth)
  {
    lines := [TableHeader(bucketWidth, keyWidth)];
    lines := lines + [Repeat('-', termWidth)];
    ghost var top := lines;
    for i := 0 to |results|
      invariant lines == top + TableRows(results[..i], bucketWidth, keyWidth)
    {
      var r := results[i];
      var size := FormatSize(r.size);
      var modified := SliceTo(r.lastModified, 25);
      var row := PadRight(r.bucket, bucketWidth) + " " + PadRight(r.key, keyWidth) + " " + PadRight(size, 10) + " "
        + PadRight(modified, 25) + " " + PadRight(r.storageClass, 15);
      assert row == TableRow(r, bucketWidth, keyWidth);
      assert results[..i + 1] == results[..i] + [r];
      TableRowsSnoc(results[..i], r, bucketWidth, keyWidth);
      AppendAssoc(top, TableRows(results[..i], bucketWidth, keyWidth), [row]);
      lines := lines + [row];
    }
    assert results[..|results|] == results;
  }

  /**
   * `display_results`: "No results found." alone for an empty list; else the
   * raw or stacked lines when asked for; else the table, whose widths are
   * computed first and whose lines are printed one at a time.
   */
  method DisplayResults(results: seq<Record>, raw: bool, stacked: bool, termWidth: nat)
    returns (lines: seq<string>, ok: bool)
    ensures ok <==> Display(results, raw, stacked, termWidth).Some?
    ensures ok ==> lines == Display(results, raw, stacked, termWidth).value
    ensures !ok ==> lines == []
  {
    if results == [] {
      return ["No results found."], true;
    }
    if raw {
      lines := PrintRaw(results);
      return lines, true;
    }
    if stacked {
      lines := PrintStacked(results);
      return lines, true;
    }
    var bucketWidth := BucketColumnWidth(LongestLength(Buckets(results)));
    var keyWidth := KeyColumnWidth(termWidth, bucketWidth, LongestLength(Keys(results)));
    if keyWidth < 0 {
      return [], false;
    }
    lines := PrintTable(results, bucketWidth, keyWidth, termWidth);
    ok := true;
  }
}

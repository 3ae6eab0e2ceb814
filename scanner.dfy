/**
 * The object scanners: the three generators that walk a paginated listing
 * page by page and object by object (`list_hits_contains`,
 * `list_hits_prefix`, `list_versions`). Each is a method with the nested loop
 * of the source; what it yields is collected into a sequence, and what it
 * must yield is given by a function of the listing.
 */
module Scanner {
  import opened Seqs
  import opened Text
  import opened Storage

  /** The dictionary each scanner yields for a matched object. */
  datatype Record = Record(bucket: string, key: string, size: nat, lastModified: string, storageClass: string)

  /** The record for object `o` of `bucket`; a missing StorageClass reads as "STANDARD". */
  function ToRecord(bucket: string, o: Obj): Record
  {
    Record(bucket, o.key, o.size, o.lastModified,
           if o.storageClass.Some? then o.storageClass.value else "STANDARD")
  }

  /** The records of `objs`, one per object, in order. */
  function Records(bucket: string, objs: seq<Obj>): seq<Record>
  {
    seq(|objs|, i requires 0 <= i < |objs| => ToRecord(bucket, objs[i]))
  }

  lemma RecordsAppend(bucket: string, a: seq<Obj>, b: seq<Obj>)
    ensures Records(bucket, a + b) == Records(bucket, a) + Records(bucket, b)
  {
    assert forall i :: 0 <= i < |a + b| ==> Records(bucket, a + b)[i] == (Records(bucket, a) + Records(bucket, b))[i];
  }

  function KeyContains(substr: string): Obj -> bool
  {
    (o: Obj) => Contains(o.key, substr)
  }

  /** What `list_hits_contains` yields for the objects `objs`: those whose key contains `substr`. */
  function Hits(bucket: string, substr: string, objs: seq<Obj>): seq<Record>
  {
    Records(bucket, Filter(objs, KeyContains(substr)))
  }

  lemma HitsSnoc(bucket: string, substr: string, objs: seq<Obj>, o: Obj)
    ensures Hits(bucket, substr, objs + [o]) ==
      Hits(bucket, substr, objs) + (if Contains(o.key, substr) then [ToRecord(bucket, o)] else [])
  {
    FilterSnoc(objs, o, KeyContains(substr));
  }

  /**
   * `list_hits_contains` yields exactly the objects whose key contains
   * `substr`, once each, in listing order: hit `j` is the record of object
   * `ps[j]`, the positions increase strictly, and every matching object's
   * position is among them. Each record carries `bucket` and the object's own
   * fields, with "STANDARD" for a missing storage class.
   */
  lemma HitsExact(bucket: string, substr: string, objs: seq<Obj>)
    ensures var hits := Hits(bucket, substr, objs);
      var ps := Positions(objs, KeyContains(substr));
      && |hits| == |ps|
      && (forall j :: 0 <= j < |ps| ==>
            && ps[j] < |objs|
            && hits[j] == ToRecord(bucket, objs[ps[j]])
            && hits[j].bucket == bucket
            && Contains(hits[j].key, substr)
            && hits[j].storageClass == (if objs[ps[j]].storageClass.Some? then objs[ps[j]].storageClass.value else "STANDARD"))
      && (forall j, k :: 0 <= j < k < |ps| ==> ps[j] < ps[k])
      && (forall i :: 0 <= i < |objs| && Contains(objs[i].key, substr) ==> i in ps)
  {
    FilterPositions(objs, KeyContains(substr));
  }

  /** Scanning object `j` of a page adds its record when its key contains `substr`, and nothing otherwise. */
  lemma HitsStep(bucket: string, substr: string, seen: seq<Obj>, page: Page, j: nat)
    requires j < |page|
    ensures Hits(bucket, substr, seen + page[..j + 1]) ==
      Hits(bucket, substr, seen + page[..j]) + (if Contains(page[j].key, substr) then [ToRecord(bucket, page[j])] else [])
  {
    assert page[..j + 1] == page[..j] + [page[j]];
    AppendAssoc(seen, page[..j], [page[j]]);
    HitsSnoc(bucket, substr, seen + page[..j], page[j]);
  }

  /** Every hit belongs to `bucket` and its key contains `substr`. */
  lemma HitsSound(bucket: string, substr: string, objs: seq<Obj>, r: Record)
    requires r in Hits(bucket, substr, objs)
    ensures r.bucket == bucket && Contains(r.key, substr)
  {
    var kept := Filter(objs, KeyContains(substr));
    var i :| 0 <= i < |kept| && r == Records(bucket, kept)[i];
    assert kept[i] in kept;
  }

  /** Page boundaries do not matter: the hits of two runs of pages are the hits of each, in order. */
  lemma HitsAcrossPages(bucket: string, substr: string, a: seq<Page>, b: seq<Page>)
    ensures Hits(bucket, substr, Flatten(a + b)) == Hits(bucket, substr, Flatten(a)) + Hits(bucket, substr, Flatten(b))
  {
    FlattenAppend(a, b);
    FilterAppend(Flatten(a), Flatten(b), KeyContains(substr));
    RecordsAppend(bucket, Filter(Flatten(a), KeyContains(substr)), Filter(Flatten(b), KeyContains(substr)));
  }

  /** The body of `list_hits_contains` for one page: the record of every object on it whose key contains `substr`. */
  method ScanPage(bucket: string, substr: string, page: Page, hits: seq<Record>, ghost seen: seq<Obj>) returns (out: seq<Record>)
    requires hits == Hits(bucket, substr, seen)
    ensures out == Hits(bucket, substr, seen + page)
  {
    out := hits;
    assert seen + page[..0] == seen;
    for j := 0 to |page|
      invariant out == Hits(bucket, substr, seen + page[..j])
    {
      var obj := page[j];
      HitsStep(bucket, substr, seen, page, j);
      if Contains(obj.key, substr) {
        out := out + [ToRecord(bucket, obj)];
      }
    }
    assert page[..|page|] == page;
  }

  /**
   * `list_hits_contains(bucket, substr)`: pages the bucket's unrestricted
   * listing and yields the record of every object whose key contains
   * `substr`. An error raised by the paginator ends the scan after the pages
   * already delivered and is passed on.
   */
  method ListHitsContains(store: Store, bucket: string, substr: string) returns (hits: seq<Record>, failure: Option<ApiError>)
    ensures hits == Hits(bucket, substr, Flatten(ListObjects(store, bucket, "").pages))
    ensures failure == ListObjects(store, bucket, "").failure
  {
    var listing := ListObjects(store, bucket, "");
    hits := [];
    var i := 0;
    while i < |listing.pages|
      invariant 0 <= i <= |listing.pages|
      invariant hits == Hits(bucket, substr, Flatten(listing.pages[..i]))
    {
      FlattenSnoc(listing.pages, i);
      hits := ScanPage(bucket, substr, listing.pages[i], hits, Flatten(listing.pages[..i]));
      i := i + 1;
    }
    assert listing.pages[..i] == listing.pages;
    failure := listing.failure;
  }

  /** The body of `list_hits_prefix` for one page: a record for every object on it. */
  method RecordPage(bucket: string, page: Page, hits: seq<Record>, ghost seen: seq<Obj>) returns (out: seq<Record>)
    requires hits == Records(bucket, seen)
    ensures out == Records(bucket, seen + page)
  {
    out := hits;
    assert seen + page[..0] == seen;
    for j := 0 to |page|
      invariant out == Records(bucket, seen + page[..j])
    {
      assert seen + page[..j + 1] == seen + page[..j] + [page[j]];
      out := out + [ToRecord(bucket, page[j])];
    }
    assert page[..|page|] == page;
  }

  /**
   * `list_hits_prefix(bucket, prefix)`: pages the listing restricted to
   * `prefix` by the server and yields a record for every object, unfiltered.
   */
  method ListHitsPrefix(store: Store, bucket: string, prefix: string) returns (hits: seq<Record>, failure: Option<ApiError>)
    ensures var objs := Flatten(ListObjects(store, bucket, prefix).pages);
      |hits| == |objs| && forall i :: 0 <= i < |objs| ==> hits[i] == ToRecord(bucket, objs[i])
    ensures failure == ListObjects(store, bucket, prefix).failure
  {
    var listing := ListObjects(store, bucket, prefix);
    hits := [];
    var i := 0;
    while i < |listing.pages|
      invariant 0 <= i <= |listing.pages|
      invariant hits == Records(bucket, Flatten(listing.pages[..i]))
    {
      FlattenSnoc(listing.pages, i);
      hits := RecordPage(bucket, listing.pages[i], hits, Flatten(listing.pages[..i]));
      i := i + 1;
    }
    assert listing.pages[..i] == listing.pages;
    failure := listing.failure;
  }

  /**
   * The prefix scan yields exactly the bucket's objects whose key starts with
   * `prefix`, in listing order; for a bucket the store does not hold it
   * yields nothing and reports `NoSuchBucket`.
   */
  lemma PrefixListingExact(store: Store, bucket: string, prefix: string)
    ensures bucket in store.objects ==>
      Flatten(ListObjects(store, bucket, prefix).pages) == Filter(Flatten(store.objects[bucket].pages), KeyStartsWith(prefix))
    ensures bucket !in store.objects ==>
      Flatten(ListObjects(store, bucket, prefix).pages) == [] && ListObjects(store, bucket, prefix).failure == Some(NoSuchBucket)
  {
    if bucket in store.objects {
      FlattenFiltered(store.objects[bucket].pages, ListObjects(store, bucket, prefix).pages, KeyStartsWith(prefix));
    }
  }

  /** What `list_versions` yields: each page's Versions, then that page's DeleteMarkers. */
  function VersionsOf(pages: seq<VersionPage>): seq<VersionEntry>
  {
    if pages == [] then []
    else VersionsOf(pages[..|pages| - 1]) + pages[|pages| - 1].versions + pages[|pages| - 1].deleteMarkers
  }

  lemma VersionsOfSnoc(pages: seq<VersionPage>, p: VersionPage)
    ensures VersionsOf(pages + [p]) == VersionsOf(pages) + (p.versions + p.deleteMarkers)
  {
    assert (pages + [p])[..|pages|] == pages;
  }

  /** The pages up to and including page `i` yield those before it, then page `i`'s versions and delete markers. */
  lemma VersionsOfStep(pages: seq<VersionPage>, i: nat)
    requires i < |pages|
    ensures VersionsOf(pages[..i + 1]) == VersionsOf(pages[..i]) + (pages[i].versions + pages[i].deleteMarkers)
  {
    assert pages[..i + 1][..i] == pages[..i];
  }

  /** An entry is yielded exactly when some page lists it as a version or a delete marker. */
  lemma {:induction false} VersionsOfMembers(pages: seq<VersionPage>, e: VersionEntry)
    ensures e in VersionsOf(pages) <==>
      exists i :: 0 <= i < |pages| && (e in pages[i].versions || e in pages[i].deleteMarkers)
    decreases |pages|
  {
    if pages != [] {
      var p' := pages[..|pages| - 1];
      VersionsOfMembers(p', e);
      assert forall i :: 0 <= i < |p'| ==> p'[i] == pages[i];
    }
  }

  /** Page order is kept: the entries of two runs of pages are those of the first, then of the second. */
  lemma {:induction false} VersionsOfAppend(a: seq<VersionPage>, b: seq<VersionPage>)
    ensures VersionsOf(a + b) == VersionsOf(a) + VersionsOf(b)
    decreases |b|
  {
    if b == [] {
      assert a + b == a;
    } else {
      var b' := b[..|b| - 1];
      var p := b[|b| - 1];
      assert a + b == (a + b') + [p];
      assert b == b' + [p];
      VersionsOfAppend(a, b');
      VersionsOfSnoc(a + b', p);
      VersionsOfSnoc(b', p);
      AppendAssoc(VersionsOf(a), VersionsOf(b'), p.versions + p.deleteMarkers);
    }
  }

  /**
   * `list_versions(bucket, key_prefix)`: yields every version and delete
   * marker under the prefix. `NoSuchBucket` is swallowed (the entries
   * delivered before it stand and the scan just ends); any other error is
   * passed on.
   */
  method ListVersions(store: Store, bucket: string, keyPrefix: string) returns (entries: seq<VersionEntry>, failure: Option<ApiError>)
    ensures entries == VersionsOf(ListObjectVersions(store, bucket, keyPrefix).pages)
    ensures var f := ListObjectVersions(store, bucket, keyPrefix).failure;
      failure == if f == Some(NoSuchBucket) then None else f
    ensures bucket !in store.versions ==> entries == [] && failure == None
  {
    var listing := ListObjectVersions(store, bucket, keyPrefix);
    var pages := listing.pages;
    entries := [];
    var i := 0;
    while i < |pages|
      invariant 0 <= i <= |pages|
      invariant entries == VersionsOf(pages[..i])
    {
      entries := AppendEach(entries, pages[i].versions + pages[i].deleteMarkers);
      VersionsOfStep(pages, i);
      i := i + 1;
    }
    assert pages[..i] == pages;
    failure := if listing.failure == Some(NoSuchBucket) then None else listing.failure;
  }
}

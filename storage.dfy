/**
 * The object store as plain data, standing in for the S3 client.
 *
 * `list_buckets` becomes the sequence `Store.buckets`; a paginated
 * `list_objects_v2` or `list_object_versions` call becomes a `Paged` value:
 * the pages the paginator delivered, and the error (if any) raised when it
 * went for the next page. A bucket the store does not hold raises
 * `NoSuchBucket` on its first page, as S3 does.
 */
module Storage {
  import opened Seqs
  import opened Text

  datatype Option<T> = None | Some(value: T)

  /** One entry of a page's "Contents": key, size, LastModified as text, optional StorageClass. */
  datatype Obj = Obj(key: string, size: nat, lastModified: string, storageClass: Option<string>)

  /** A page's "Contents" (empty when the page has none). */
  type Page = seq<Obj>

  /** One entry of "Versions" or "DeleteMarkers"; the tool passes these through untouched. */
  datatype VersionEntry = VersionEntry(key: string, versionId: string, lastModified: string)

  /** One page of `list_object_versions`; an absent list is empty. */
  datatype VersionPage = VersionPage(versions: seq<VersionEntry>, deleteMarkers: seq<VersionEntry>)

  datatype ApiError = NoSuchBucket | ServiceError(code: string)

  /** What a paginator produced: the pages fetched, then possibly the error that ended it. */
  datatype Paged<P> = Paged(pages: seq<P>, failure: Option<ApiError>)

  datatype Store = Store(
    buckets: seq<string>,
    objects: map<string, Paged<Page>>,
    versions: map<string, Paged<VersionPage>>)

  function KeyStartsWith(prefix: string): Obj -> bool
  {
    (o: Obj) => StartsWith(o.key, prefix)
  }

  function EntryStartsWith(prefix: string): VersionEntry -> bool
  {
    (e: VersionEntry) => StartsWith(e.key, prefix)
  }

  /**
   * `list_objects_v2(Bucket=bucket, Prefix=prefix)` as paginated. The model
   * applies the prefix to each page of the bucket's whole listing. S3 itself
   * paginates the already restricted listing, so its page boundaries, and the
   * page after which an error falls, may differ; what agrees is the sequence
   * of keys once the pages are joined (`Scanner.PrefixListingExact`).
   */
  function ListObjects(store: Store, bucket: string, prefix: string): (l: Paged<Page>)
    ensures bucket !in store.objects ==> l == Paged([], Some(NoSuchBucket))
    ensures bucket in store.objects ==>
      && |l.pages| == |store.objects[bucket].pages|
      && l.failure == store.objects[bucket].failure
      && forall i :: 0 <= i < |l.pages| ==> l.pages[i] == Filter(store.objects[bucket].pages[i], KeyStartsWith(prefix))
  {
    if bucket in store.objects then
      var all := store.objects[bucket];
      Paged(seq(|all.pages|, i requires 0 <= i < |all.pages| => Filter(all.pages[i], KeyStartsWith(prefix))), all.failure)
    else
      Paged([], Some(NoSuchBucket))
  }

  /** A listing with the empty prefix is the bucket's whole listing. */
  lemma ListObjectsNoPrefix(store: Store, bucket: string)
    requires bucket in store.objects
    ensures ListObjects(store, bucket, "") == store.objects[bucket]
  {
    var all := store.objects[bucket];
    var l := ListObjects(store, bucket, "");
    forall i | 0 <= i < |all.pages|
      ensures l.pages[i] == all.pages[i]
    {
      forall j | 0 <= j < |all.pages[i]|
        ensures KeyStartsWith("")(all.pages[i][j])
      {
        assert StartsWith(all.pages[i][j].key, "");
      }
      FilterKeepsAll(all.pages[i], KeyStartsWith(""));
    }
  }

  /** `list_object_versions(Bucket=bucket, Prefix=prefix)` as paginated. */
  function ListObjectVersions(store: Store, bucket: string, prefix: string): (l: Paged<VersionPage>)
    ensures bucket !in store.versions ==> l == Paged([], Some(NoSuchBucket))
    ensures bucket in store.versions ==>
      && |l.pages| == |store.versions[bucket].pages|
      && l.failure == store.versions[bucket].failure
  {
    if bucket in store.versions then
      var all := store.versions[bucket];
      Paged(seq(|all.pages|, i requires 0 <= i < |all.pages| =>
              VersionPage(Filter(all.pages[i].versions, EntryStartsWith(prefix)),
                          Filter(all.pages[i].deleteMarkers, EntryStartsWith(prefix)))),
            all.failure)
    else
      Paged([], Some(NoSuchBucket))
  }
}

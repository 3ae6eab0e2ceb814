/**
 * The bucket selector (`get_buckets`): the names that `list_buckets` returned,
 * kept in listing order, narrowed to those containing the optional name
 * fragment.
 */
module Selector {
  import opened Seqs
  import opened Text
  import opened Storage

  /** Whether bucket `name` is wanted under the optional fragment `rootDir`. */
  function Wanted(rootDir: Option<string>): string -> bool
  {
    (name: string) => rootDir.None? || Contains(name, rootDir.value)
  }

  /**
   * `get_buckets`: with a non-empty fragment, the comprehension keeps the names
   * containing it; when the fragment is absent or empty (falsy in Python) every
   * name is returned unchanged.
   */
  function GetBuckets(names: seq<string>, rootDir: Option<string>): (r: seq<string>)
    ensures |r| <= |names|
    ensures forall n :: n in r ==> n in names
  {
    if rootDir.Some? && rootDir.value != "" then
      Filter(names, Wanted(rootDir))
    else
      names
  }

  /**
   * Both branches of `get_buckets` are one filter: skipping the comprehension
   * for an empty fragment loses nothing, since every name contains "".
   */
  lemma GetBucketsIsFilter(names: seq<string>, rootDir: Option<string>)
    ensures GetBuckets(names, rootDir) == Filter(names, Wanted(rootDir))
  {
    if rootDir.None? || rootDir.value == "" {
      forall i | 0 <= i < |names|
        ensures Wanted(rootDir)(names[i])
      {
        if rootDir.Some? {
          ContainsEmpty(names[i]);
        }
      }
      FilterKeepsAll(names, Wanted(rootDir));
    }
  }

  /**
   * The selection is exactly the ordered subsequence of the listing whose
   * names contain the fragment: position `j` of the result is the listing's
   * `ps[j]`-th name, the positions increase, and every wanted name is among them.
   * With no fragment, or an empty one, the result is the listing itself.
   */
  lemma GetBucketsExact(names: seq<string>, rootDir: Option<string>)
    ensures var r := GetBuckets(names, rootDir);
      var ps := Positions(names, Wanted(rootDir));
      && |r| == |ps|
      && (forall j :: 0 <= j < |ps| ==> ps[j] < |names| && r[j] == names[ps[j]])
      && (forall j :: 0 <= j < |r| ==> rootDir.None? || Contains(r[j], rootDir.value))
      && (forall j, k :: 0 <= j < k < |ps| ==> ps[j] < ps[k])
      && (forall i :: 0 <= i < |names| && (rootDir.None? || Contains(names[i], rootDir.value)) ==> i in ps)
    ensures rootDir.None? || rootDir.value == "" ==> GetBuckets(names, rootDir) == names
  {
    GetBucketsIsFilter(names, rootDir);
    FilterPositions(names, Wanted(rootDir));
  }

  /** Each wanted name appears in the selection as often as in the listing; other names never. */
  lemma GetBucketsCount(names: seq<string>, rootDir: Option<string>, name: string)
    ensures multiset(GetBuckets(names, rootDir))[name] ==
      if rootDir.None? || Contains(name, rootDir.value) then multiset(names)[name] else 0
  {
    GetBucketsIsFilter(names, rootDir);
    FilterCount(names, Wanted(rootDir), name);
  }
}

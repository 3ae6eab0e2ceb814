/**
 * Sequence building blocks shared by the bucket selector and the object
 * scanners: filtering in order (a list comprehension with an `if`, or a
 * generator loop with an `if ... yield`) and flattening a list of pages.
 */
module Seqs {

  /** Concatenation is associative; stated once so that proofs need not rediscover it. */
  lemma AppendAssoc<T>(a: seq<T>, b: seq<T>, c: seq<T>)
    ensures a + b + c == a + (b + c)
  {
  }

  /** The elements of `s` that satisfy `keep`, in their original order. */
  function Filter<T>(s: seq<T>, keep: T -> bool): (r: seq<T>)
    ensures |r| <= |s|
    ensures forall x :: x in r ==> x in s && keep(x)
  {
    if s == [] then []
    else Filter(s[..|s| - 1], keep) + (if keep(s[|s| - 1]) then [s[|s| - 1]] else [])
  }

  /** Filtering one more element at the end extends the result by at most that element. */
  lemma FilterSnoc<T>(s: seq<T>, x: T, keep: T -> bool)
    ensures Filter(s + [x], keep) == Filter(s, keep) + (if keep(x) then [x] else [])
  {
    assert (s + [x])[..|s + [x]| - 1] == s;
  }

  /** Filtering distributes over concatenation: nothing is lost or reordered at a boundary. */
  lemma {:induction false} FilterAppend<T>(a: seq<T>, b: seq<T>, keep: T -> bool)
    ensures Filter(a + b, keep) == Filter(a, keep) + Filter(b, keep)
    decreases |b|
  {
    if b == [] {
      assert a + b == a;
    } else {
      var b' := b[..|b| - 1];
      var x := b[|b| - 1];
      assert a + b == (a + b') + [x];
      assert b == b' + [x];
      FilterSnoc(a + b', x, keep);
      FilterSnoc(b', x, keep);
      FilterAppend(a, b', keep);
      AppendAssoc(Filter(a, keep), Filter(b', keep), if keep(x) then [x] else []);
    }
  }

  /** Every element of `s` that satisfies `keep` survives the filter. */
  lemma {:induction false} FilterComplete<T>(s: seq<T>, keep: T -> bool, x: T)
    requires x in s && keep(x)
    ensures x in Filter(s, keep)
    decreases |s|
  {
    var s' := s[..|s| - 1];
    assert s == s' + [s[|s| - 1]];
    if x != s[|s| - 1] {
      FilterComplete(s', keep, x);
    }
  }

  /** An element is kept exactly as many times as it occurs in `s` when it satisfies `keep`, and never otherwise. */
  lemma {:induction false} FilterCount<T>(s: seq<T>, keep: T -> bool, x: T)
    ensures multiset(Filter(s, keep))[x] == if keep(x) then multiset(s)[x] else 0
    decreases |s|
  {
    if s != [] {
      var s' := s[..|s| - 1];
      assert s == s' + [s[|s| - 1]];
      FilterCount(s', keep, x);
    }
  }

  /** When every element satisfies `keep`, filtering changes nothing. */
  lemma {:induction false} FilterKeepsAll<T>(s: seq<T>, keep: T -> bool)
    requires forall i :: 0 <= i < |s| ==> keep(s[i])
    ensures Filter(s, keep) == s
    decreases |s|
  {
    if s != [] {
      var s' := s[..|s| - 1];
      var x := s[|s| - 1];
      assert forall i :: 0 <= i < |s'| ==> keep(s'[i]) by {
        assert forall i :: 0 <= i < |s'| ==> s'[i] == s[i];
      }
      FilterKeepsAll(s', keep);
      assert keep(x) by {
        assert keep(s[|s| - 1]);
      }
      calc {
        Filter(s, keep);
        Filter(s', keep) + [x];
        s' + [x];
        { SnocSlice(s); }
        s;
      }
    }
  }

  /** The indices of the elements of `s` that satisfy `keep`, in increasing order. */
  function Positions<T>(s: seq<T>, keep: T -> bool): seq<nat>
  {
    if s == [] then []
    else Positions(s[..|s| - 1], keep) + (if keep(s[|s| - 1]) then [|s| - 1] else [])
  }

  /**
   * The filter result is exactly the subsequence of `s` at the kept positions:
   * the positions increase strictly (order kept, nothing twice), each names an
   * element that satisfies `keep`, and every such element's position is among them.
   */
  lemma {:induction false} FilterPositions<T>(s: seq<T>, keep: T -> bool)
    ensures var ps := Positions(s, keep);
      && |ps| == |Filter(s, keep)|
      && (forall j :: 0 <= j < |ps| ==> ps[j] < |s| && keep(s[ps[j]]) && Filter(s, keep)[j] == s[ps[j]])
      && (forall j, k :: 0 <= j < k < |ps| ==> ps[j] < ps[k])
      && (forall i :: 0 <= i < |s| && keep(s[i]) ==> i in ps)
    decreases |s|
  {
    if s != [] {
      var s' := s[..|s| - 1];
      FilterPositions(s', keep);
      var ps' := Positions(s', keep);
      var ps := Positions(s, keep);
      assert forall j :: 0 <= j < |ps'| ==> ps'[j] < |s'|;
      assert forall i :: 0 <= i < |s'| ==> s'[i] == s[i];
      if keep(s[|s| - 1]) {
        assert ps == ps' + [|s| - 1];
      } else {
        assert ps == ps';
      }
    }
  }

  /** Appends the elements of `xs` to `acc` one at a time, as a loop of `append` calls or `yield`s does. */
  method AppendEach<T>(acc: seq<T>, xs: seq<T>) returns (out: seq<T>)
    ensures out == acc + xs
  {
    out := acc;
    for j := 0 to |xs|
      invariant out == acc + xs[..j]
    {
      assert xs[..j + 1] == xs[..j] + [xs[j]];
      out := out + [xs[j]];
    }
    assert xs[..|xs|] == xs;
  }

  /** The pages of a listing joined into one sequence, first page first. */
  function Flatten<T>(pages: seq<seq<T>>): seq<T>
  {
    if pages == [] then [] else Flatten(pages[..|pages| - 1]) + pages[|pages| - 1]
  }

  /** The pages up to and including page `i` flatten to those before it, then page `i`. */
  lemma FlattenSnoc<T>(pages: seq<seq<T>>, i: nat)
    requires i < |pages|
    ensures Flatten(pages[..i + 1]) == Flatten(pages[..i]) + pages[i]
  {
    assert pages[..i + 1][..i] == pages[..i];
  }

  /** Flattening distributes over concatenation of page lists. */
  lemma {:induction false} FlattenAppend<T>(a: seq<seq<T>>, b: seq<seq<T>>)
    ensures Flatten(a + b) == Flatten(a) + Flatten(b)
    decreases |b|
  {
    if b == [] {
      assert a + b == a;
    } else {
      var b' := b[..|b| - 1];
      var p := b[|b| - 1];
      assert (a + b)[..|a + b| - 1] == a + b';
      assert (a + b)[|a + b| - 1] == p;
      FlattenAppend(a, b');
      AppendAssoc(Flatten(a), Flatten(b'), p);
    }
  }

  /** Filtering each page and then flattening equals flattening and then filtering. */
  lemma {:induction false} FlattenFiltered<T>(pages: seq<seq<T>>, filtered: seq<seq<T>>, keep: T -> bool)
    requires |filtered| == |pages|
    requires forall i :: 0 <= i < |pages| ==> filtered[i] == Filter(pages[i], keep)
    ensures Flatten(filtered) == Filter(Flatten(pages), keep)
    decreases |pages|
  {
    if pages != [] {
      var n := |pages| - 1;
      FlattenFiltered(pages[..n], filtered[..n], keep);
      FilterAppend(Flatten(pages[..n]), pages[n], keep);
    }
  }

  /** `f` applied to every element, in order. */
  function Map<A, B>(s: seq<A>, f: A -> B): (r: seq<B>)
    ensures |r| == |s|
  {
    seq(|s|, i requires 0 <= i < |s| => f(s[i]))
  }

  lemma MapAppend<A, B>(a: seq<A>, b: seq<A>, f: A -> B)
    ensures Map(a + b, f) == Map(a, f) + Map(b, f)
  {
    assert forall i :: 0 <= i < |a + b| ==> Map(a + b, f)[i] == (Map(a, f) + Map(b, f))[i];
  }

  lemma MapAt<A, B>(s: seq<A>, f: A -> B, i: nat)
    requires i < |s|
    ensures Map(s, f)[i] == f(s[i])
  {
  }

  lemma MapSingle<A, B>(x: A, f: A -> B)
    ensures Map([x], f) == [f(x)]
  {
  }

  /** A non-empty sequence is its front with its last element put back. */
  lemma SnocSlice<T>(s: seq<T>)
    requires s != []
    ensures s[..|s| - 1] + [s[|s| - 1]] == s
  {
  }
}

/** The plugin container of plugin_container.go: an ordered list of plugins
    with append, remove-every-equal and an in-order visit. */
module Plugins {

  /** `s` with every element equal to `p` dropped, the others kept in order. */
  function Without<P(==)>(s: seq<P>, p: P): seq<P>
    decreases |s|
  {
    if s == [] then []
    else Without(s[..|s| - 1], p) + (if s[|s| - 1] == p then [] else [s[|s| - 1]])
  }

  /** Removal distributes over concatenation. */
  lemma {:induction false} WithoutConcat<P>(a: seq<P>, b: seq<P>, p: P)
    ensures Without(a + b, p) == Without(a, p) + Without(b, p)
    decreases |b|
  {
    if b == [] {
      assert a + b == a;
    } else {
      var b' := b[..|b| - 1];
      var x := b[|b| - 1];
      assert (a + b)[..|a + b| - 1] == a + b';
      WithoutConcat(a, b', p);
    }
  }

  /** No element equal to `p` survives. */
  lemma {:induction false} WithoutRemovesAll<P>(s: seq<P>, p: P)
    ensures p !in Without(s, p)
    decreases |s|
  {
    if s != [] {
      WithoutRemovesAll(s[..|s| - 1], p);
    }
  }

  /** Every other value keeps its number of occurrences, and the length
      drops by exactly the number of occurrences of `p`. */
  lemma {:induction false} WithoutCounts<P>(s: seq<P>, p: P)
    ensures multiset(Without(s, p)) == multiset(s)[p := 0]
    ensures |Without(s, p)| == |s| - multiset(s)[p]
    decreases |s|
  {
    if s != [] {
      var s' := s[..|s| - 1];
      var x := s[|s| - 1];
      assert s == s' + [x];
      WithoutCounts(s', p);
    }
  }

  /** `a` can be obtained from `b` by deleting elements. */
  predicate IsSubsequence<P(==)>(a: seq<P>, b: seq<P>)
    decreases |b|
  {
    if a == [] then true
    else if b == [] then false
    else if a[|a| - 1] == b[|b| - 1] then IsSubsequence(a[..|a| - 1], b[..|b| - 1])
    else IsSubsequence(a, b[..|b| - 1])
  }

  /** The survivors keep their original relative order. */
  lemma {:induction false} WithoutIsSubsequence<P>(s: seq<P>, p: P)
    ensures IsSubsequence(Without(s, p), s)
    decreases |s|
  {
    if s != [] {
      var s' := s[..|s| - 1];
      var w := Without(s', p);
      WithoutIsSubsequence(s', p);
      if s[|s| - 1] == p {
        assert Without(s, p) == w;
        SubsequenceDropLast(w, s);
      } else {
        var r := w + [s[|s| - 1]];
        assert Without(s, p) == r;
        assert r[..|r| - 1] == w;
      }
    }
  }

  /** A subsequence of all but the last element is a subsequence of the whole. */
  lemma {:induction false} SubsequenceDropLast<P>(a: seq<P>, b: seq<P>)
    requires b != [] && IsSubsequence(a, b[..|b| - 1])
    ensures IsSubsequence(a, b)
    decreases |a| + |b|
  {
    if a != [] && a[|a| - 1] == b[|b| - 1] {
      SubsequenceShorten(a, b[..|b| - 1]);
    }
  }

  /** Dropping the last element of a subsequence keeps it a subsequence. */
  lemma {:induction false} SubsequenceShorten<P>(a: seq<P>, c: seq<P>)
    requires a != [] && IsSubsequence(a, c)
    ensures IsSubsequence(a[..|a| - 1], c)
    decreases |a| + |c|
  {
    var a' := a[..|a| - 1];
    var c' := c[..|c| - 1];
    if a[|a| - 1] != c[|c| - 1] {
      SubsequenceShorten(a, c');
    }
    SubsequenceDropLast(a', c);
  }

  /** Removing a value that is not there changes nothing. */
  lemma {:induction false} WithoutAbsent<P>(s: seq<P>, p: P)
    requires p !in s
    ensures Without(s, p) == s
    decreases |s|
  {
    if s != [] {
      WithoutAbsent(s[..|s| - 1], p);
    }
  }

  /** Removing twice is removing once. */
  lemma WithoutIdempotent<P>(s: seq<P>, p: P)
    ensures Without(Without(s, p), p) == Without(s, p)
  {
    WithoutRemovesAll(s, p);
    WithoutAbsent(Without(s, p), p);
  }

  /** Removing `p` undoes adding it, and removes earlier copies too. */
  lemma RemoveUndoesAdd<P>(s: seq<P>, p: P)
    ensures Without(s + [p], p) == Without(s, p)
  {
    WithoutConcat(s, [p], p);
    assert Without([p], p) == [];
  }

  class PluginContainer<P(==)> {
    var plugins: seq<P>

    constructor ()
      ensures plugins == []
    {
      plugins := [];
    }

    /** `Add` (plugin_container.go:7-9). */
    method Add(p: P)
      modifies this
      ensures plugins == old(plugins) + [p]
    {
      plugins := plugins + [p];
    }

    /** `Remove` (plugin_container.go:11-20): rebuilds the list without `p`. */
    method Remove(p: P)
      modifies this
      ensures plugins == Without(old(plugins), p)
    {
      var kept: seq<P> := [];
      var i := 0;
      while i < |plugins|
        invariant 0 <= i <= |plugins|
        invariant kept == Without(plugins[..i], p)
      {
        assert plugins[..i + 1][..i] == plugins[..i];
        if plugins[i] != p {
          kept := kept + [plugins[i]];
        }
        i := i + 1;
      }
      assert plugins[..i] == plugins;
      plugins := kept;
    }

    /** `Range` (plugin_container.go:21-25): the plugins handed to the
        callback, one call per element in list order. */
    method Range() returns (visited: seq<P>)
      ensures visited == plugins
    {
      visited := [];
      var i := 0;
      while i < |plugins|
        invariant 0 <= i <= |plugins|
        invariant visited == plugins[..i]
      {
        visited := visited + [plugins[i]];
        i := i + 1;
      }
    }
  }
}

/**
 * The writer's font list: one entry per font object, with the file the
 * font's metrics were loaded from. Lookup is a linear scan by path; the
 * list is kept sorted by object identity (the object number).
 */
module FontCache {

  import opened Wrappers

  /** A font object (by object number) and its metrics file name. */
  datatype FontEntry = FontEntry(id: nat, path: string)

  predicate SortedById(s: seq<FontEntry>) {
    forall i, j :: 0 <= i < j < |s| ==> s[i].id <= s[j].id
  }

  predicate DistinctIds(s: seq<FontEntry>) {
    forall i, j :: 0 <= i < j < |s| ==> s[i].id != s[j].id
  }

  /** No two entries were loaded from the same file. */
  predicate UniquePaths(s: seq<FontEntry>) {
    forall i, j :: 0 <= i < j < |s| ==> s[i].path != s[j].path
  }

  /** The invariant the writer keeps on its font list. */
  predicate FontsValid(s: seq<FontEntry>) {
    SortedById(s) && DistinctIds(s) && UniquePaths(s)
  }

  /** The position of the first entry whose metrics file is `path`, if any. */
  function FindFont(fonts: seq<FontEntry>, path: string): (r: Option<nat>)
    ensures r.Some? ==> r.value < |fonts| && fonts[r.value].path == path
    ensures r.Some? ==> forall k :: 0 <= k < r.value ==> fonts[k].path != path
    ensures r.None? <==> forall k :: 0 <= k < |fonts| ==> fonts[k].path != path
  {
    if fonts == [] then None
    else if fonts[0].path == path then Some(0)
    else
      match FindFont(fonts[1..], path)
      case Some(k) => Some(k + 1)
      case None => None
  }

  /** The first n entries are in identity order. */
  predicate SortedPrefix(s: seq<FontEntry>, n: nat)
    requires n <= |s|
  {
    forall a, b :: 0 <= a < b < n ==> s[a].id <= s[b].id
  }

  /**
   * After the insertion step stops at position j, the first i + 1 entries
   * are in identity order.
   */
  lemma SiftedSorted(t: seq<FontEntry>, u: seq<FontEntry>, i: nat, j: nat)
    requires j <= i < |t| == |u| && SortedPrefix(t, i)
    requires forall k :: 0 <= k < j ==> u[k] == t[k]
    requires u[j] == t[i]
    requires forall k :: j < k <= i ==> u[k] == t[k - 1] && t[i].id < u[k].id
    requires j > 0 ==> u[j - 1].id <= u[j].id
    ensures SortedPrefix(u, i + 1)
  {
    forall a, b | 0 <= a < b <= i ensures u[a].id <= u[b].id {
      if b < j {
      } else if b == j {
        assert u[a] == t[a] && a <= j - 1;
      } else if a < j {
        assert u[b] == t[b - 1];
      } else if a == j {
      } else {
        assert u[a] == t[a - 1] && u[b] == t[b - 1];
      }
    }
  }

  /** Exchanges the entries at positions j - 1 and j. */
  function SwapDown(s: seq<FontEntry>, j: nat): (r: seq<FontEntry>)
    requires 0 < j < |s|
    ensures |r| == |s| && r[j - 1] == s[j] && r[j] == s[j - 1]
    ensures forall k :: 0 <= k < |s| && k != j - 1 && k != j ==> r[k] == s[k]
    ensures multiset(r) == multiset(s)
  {
    s[j - 1 := s[j]][j := s[j - 1]]
  }

  /**
   * One insertion step: moves t[i] left into place within the sorted
   * prefix t[..i], leaving everything after position i alone.
   */
  method SiftInto(t: seq<FontEntry>, i: nat) returns (u: seq<FontEntry>)
    requires i < |t| && SortedPrefix(t, i)
    ensures |u| == |t| && SortedPrefix(u, i + 1)
    ensures forall k :: i < k < |t| ==> u[k] == t[k]
    ensures multiset(u) == multiset(t)
  {
    u := t;
    var j := i;
    while j > 0 && u[j - 1].id > u[j].id
      invariant 0 <= j <= i && |u| == |t|
      invariant forall k :: 0 <= k < j ==> u[k] == t[k]
      invariant u[j] == t[i]
      invariant forall k :: j < k <= i ==> u[k] == t[k - 1] && t[i].id < u[k].id
      invariant forall k :: i < k < |t| ==> u[k] == t[k]
      invariant multiset(u) == multiset(t)
    {
      u := SwapDown(u, j);
      j := j - 1;
    }
    SiftedSorted(t, u, i, j);
  }

  /** Sorts the font list by object identity, as the writer's re-sort does. */
  method SortById(s: seq<FontEntry>) returns (t: seq<FontEntry>)
    ensures SortedById(t)
    ensures multiset(t) == multiset(s)
  {
    t := s;
    var i := 0;
    while i < |t|
      invariant 0 <= i <= |t| && |t| == |s|
      invariant SortedPrefix(t, i)
      invariant multiset(t) == multiset(s)
    {
      t := SiftInto(t, i);
      i := i + 1;
    }
  }

  /** Removing an equal first element from two lists with the same elements leaves the same elements. */
  lemma TailsSameElements(a: seq<FontEntry>, b: seq<FontEntry>)
    requires |a| > 0 && |b| > 0 && a[0] == b[0]
    requires multiset(a) == multiset(b)
    ensures multiset(a[1..]) == multiset(b[1..])
  {
    assert a == [a[0]] + a[1..];
    assert b == [b[0]] + b[1..];
    assert multiset(a) == multiset{a[0]} + multiset(a[1..]);
    assert multiset(b) == multiset{a[0]} + multiset(b[1..]);
    forall x ensures multiset(a[1..])[x] == multiset(b[1..])[x] {
      assert multiset(a)[x] == multiset{a[0]}[x] + multiset(a[1..])[x];
      assert multiset(b)[x] == multiset{a[0]}[x] + multiset(b[1..])[x];
    }
  }

  /** Two sorted lists with the same elements, the first of distinct identities, start alike. */
  lemma SortedHeadsEqual(a: seq<FontEntry>, b: seq<FontEntry>)
    requires |a| > 0 && |b| > 0
    requires SortedById(a) && SortedById(b) && DistinctIds(a)
    requires multiset(a) == multiset(b)
    ensures a[0] == b[0]
  {
    assert a[0] in multiset(b) && b[0] in multiset(a);
    var k :| 0 <= k < |b| && b[k] == a[0];
    var m :| 0 <= m < |a| && a[m] == b[0];
    assert a[m].id == a[0].id;
  }

  /**
   * A list of distinct identities has exactly one sorted arrangement: two
   * sorted lists with the same elements are the same list.
   */
  lemma {:induction false} SortedUnique(a: seq<FontEntry>, b: seq<FontEntry>)
    requires SortedById(a) && SortedById(b) && DistinctIds(a)
    requires multiset(a) == multiset(b)
    ensures a == b
    decreases |a|
  {
    assert |a| == |multiset(a)| == |multiset(b)| == |b|;
    if |a| > 0 {
      SortedHeadsEqual(a, b);
      TailsSameElements(a, b);
      SortedUnique(a[1..], b[1..]);
      assert a == [a[0]] + a[1..] && b == [b[0]] + b[1..];
    }
  }

  /**
   * Appending an entry whose identity exceeds all others to a valid list
   * with no entry for its path keeps the list valid, and re-sorting the
   * result leaves it as it is.
   */
  lemma AppendFresh(fonts: seq<FontEntry>, e: FontEntry, sorted: seq<FontEntry>)
    requires FontsValid(fonts)
    requires forall k :: 0 <= k < |fonts| ==> fonts[k].id < e.id && fonts[k].path != e.path
    requires SortedById(sorted) && multiset(sorted) == multiset(fonts + [e])
    ensures sorted == fonts + [e]
    ensures FontsValid(sorted)
  {
    var appended := fonts + [e];
    assert SortedById(appended) && DistinctIds(appended) && UniquePaths(appended);
    SortedUnique(appended, sorted);
  }
}

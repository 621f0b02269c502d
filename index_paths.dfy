/**
 * Index paths (section, item) with their lexicographic order, the enumeration of
 * every index path a collection view reports, the rank of a path among a set of
 * paths, and sorting a set of paths into display order.
 */
module IndexPaths {

  datatype IndexPath = IndexPath(section: int, item: int)

  /** Display order: by section, then by item within the section. */
  predicate Before(a: IndexPath, b: IndexPath) {
    a.section < b.section || (a.section == b.section && a.item < b.item)
  }

  lemma BeforeIsStrictTotal(a: IndexPath, b: IndexPath, c: IndexPath)
    ensures !Before(a, a)
    ensures Before(a, b) ==> !Before(b, a)
    ensures Before(a, b) && Before(b, c) ==> Before(a, c)
    ensures a == b || Before(a, b) || Before(b, a)
  {
  }

  /** The paths of `s` appear strictly in display order (so without repetition). */
  predicate Increasing(s: seq<IndexPath>) {
    forall i, j :: 0 <= i < j < |s| ==> Before(s[i], s[j])
  }

  function Elements(s: seq<IndexPath>): set<IndexPath> {
    set p | p in s
  }

  /** The index paths (section, 0), ..., (section, count - 1). */
  function SectionPaths(section: nat, count: nat): (r: seq<IndexPath>)
    ensures |r| == count
    ensures forall i :: 0 <= i < count ==> r[i] == IndexPath(section, i)
  {
    seq(count, i => IndexPath(section, i))
  }

  lemma {:induction false} IncreasingConcat(a: seq<IndexPath>, b: seq<IndexPath>)
    requires Increasing(a) && Increasing(b)
    requires forall i, j :: 0 <= i < |a| && 0 <= j < |b| ==> Before(a[i], b[j])
    ensures Increasing(a + b)
  {
    forall i, j | 0 <= i < j < |a + b|
      ensures Before((a + b)[i], (a + b)[j])
    {
      if j < |a| {
        assert (a + b)[i] == a[i] && (a + b)[j] == a[j];
      } else if i < |a| {
        assert (a + b)[i] == a[i] && (a + b)[j] == b[j - |a|];
      } else {
        assert (a + b)[i] == b[i - |a|] && (a + b)[j] == b[j - |a|];
      }
    }
  }

  /**
   * The index paths of sections `section` onwards, section by section, each
   * section's items in order: the `flatMap` over the reported sections.
   */
  function EnumerateFrom(counts: seq<nat>, section: nat): (r: seq<IndexPath>)
    decreases |counts| - section
    ensures forall p :: p in r <==> section <= p.section < |counts| && 0 <= p.item < counts[p.section]
    ensures forall i :: 0 <= i < |r| ==> r[i].section >= section
    ensures Increasing(r)
  {
    if section >= |counts| then []
    else
      var here := SectionPaths(section, counts[section]);
      var rest := EnumerateFrom(counts, section + 1);
      IncreasingConcat(here, rest);
      here + rest
  }

  /**
   * Every index path a collection view with `counts[s]` items in section `s`
   * reports, in display order.
   */
  function Enumerate(counts: seq<nat>): (r: seq<IndexPath>)
    ensures forall p :: p in r <==> 0 <= p.section < |counts| && 0 <= p.item < counts[p.section]
    ensures Increasing(r)
  {
    EnumerateFrom(counts, 0)
  }

  /** The number of paths in `keys` displayed before `k`. */
  function Rank(keys: set<IndexPath>, k: IndexPath): nat {
    |set j | j in keys && Before(j, k)|
  }

  lemma {:induction false} IncreasingCardinality(s: seq<IndexPath>)
    requires Increasing(s)
    ensures |Elements(s)| == |s|
  {
    if s != [] {
      var init := s[..|s| - 1];
      assert Increasing(init);
      IncreasingCardinality(init);
      assert Elements(s) == Elements(init) + {s[|s| - 1]};
      assert s[|s| - 1] !in Elements(init) by {
        forall i | 0 <= i < |init| ensures init[i] != s[|s| - 1] {
          assert Before(s[i], s[|s| - 1]);
        }
      }
    }
  }

  /** In an increasing sequence, the path at position `i` has rank `i`. */
  lemma RankAt(s: seq<IndexPath>, i: int)
    requires Increasing(s) && 0 <= i < |s|
    ensures Rank(Elements(s), s[i]) == i
  {
    var below := set j | j in Elements(s) && Before(j, s[i]);
    assert below == Elements(s[..i]) by {
      forall j | j in below ensures j in Elements(s[..i]) {
        var m :| 0 <= m < |s| && s[m] == j;
        if m >= i {
          assert false;
        }
        assert s[..i][m] == j;
      }
      forall j | j in Elements(s[..i]) ensures j in below {
        var m :| 0 <= m < i && s[..i][m] == j;
        assert Before(s[m], s[i]);
      }
    }
    assert Increasing(s[..i]);
    IncreasingCardinality(s[..i]);
  }

  /** Inserts `k` into the increasing sequence `s` at its place in display order. */
  function Insert(s: seq<IndexPath>, k: IndexPath): (r: seq<IndexPath>)
    requires Increasing(s) && k !in s
    ensures Increasing(r)
    ensures Elements(r) == Elements(s) + {k}
    ensures |r| == |s| + 1
  {
    if s == [] then [k]
    else if Before(k, s[0]) then
      IncreasingConcat([k], s);
      [k] + s
    else
      var rest := Insert(s[1..], k);
      assert Elements(s) == {s[0]} + Elements(s[1..]);
      assert forall j :: 0 <= j < |rest| ==> Before(s[0], rest[j]) by {
        forall j | 0 <= j < |rest| ensures Before(s[0], rest[j]) {
          assert rest[j] in Elements(rest);
          if rest[j] != k {
            var m :| 0 <= m < |s[1..]| && s[1..][m] == rest[j];
            assert s[m + 1] == rest[j];
          }
        }
      }
      IncreasingConcat([s[0]], rest);
      [s[0]] + rest
  }

  /**
   * The paths of `keys` in display order: what sorting a dictionary's values by
   * their index paths yields (the sorting algorithm itself is not modelled).
   */
  method SortIndexPaths(keys: set<IndexPath>) returns (s: seq<IndexPath>)
    ensures Increasing(s)
    ensures Elements(s) == keys
  {
    s := [];
    var rest := keys;
    while rest != {}
      invariant Increasing(s)
      invariant Elements(s) + rest == keys
      invariant Elements(s) !! rest
      decreases |rest|
    {
      var k :| k in rest;
      s := Insert(s, k);
      rest := rest - {k};
    }
  }
}

/**
 * The natural order of paths (lexicographic on characters, a proper prefix first)
 * and the sorted set of paths built from a list, as ImmutableSortedSet holds it.
 */
module PathOrder {

  import opened Paths

  predicate Less(a: Path, b: Path)
  {
    if a == [] then b != []
    else if b == [] then false
    else if a[0] != b[0] then a[0] < b[0]
    else Less(a[1..], b[1..])
  }

  lemma {:induction false} LessIrreflexive(a: Path)
    ensures !Less(a, a)
  {
    if a != [] {
      LessIrreflexive(a[1..]);
    }
  }

  lemma {:induction false} LessAsymmetric(a: Path, b: Path)
    requires Less(a, b)
    ensures !Less(b, a)
  {
    if a != [] && b != [] && a[0] == b[0] {
      LessAsymmetric(a[1..], b[1..]);
    }
  }

  lemma {:induction false} LessTransitive(a: Path, b: Path, c: Path)
    requires Less(a, b) && Less(b, c)
    ensures Less(a, c)
  {
    if a != [] && a[0] == b[0] && b[0] == c[0] {
      LessTransitive(a[1..], b[1..], c[1..]);
    }
  }

  lemma {:induction false} LessTotal(a: Path, b: Path)
    requires a != b
    ensures Less(a, b) || Less(b, a)
  {
    if a != [] && b != [] && a[0] == b[0] {
      assert a == [a[0]] + a[1..] && b == [b[0]] + b[1..];
      LessTotal(a[1..], b[1..]);
    }
  }

  /** Paths with a common leading part compare as their remainders do. */
  lemma {:induction false} LessCommonPrefix(p: Path, a: Path, b: Path)
    ensures Less(p + a, p + b) <==> Less(a, b)
  {
    if p != [] {
      assert (p + a)[0] == (p + b)[0];
      assert (p + a)[1..] == p[1..] + a;
      assert (p + b)[1..] == p[1..] + b;
      assert Less(p + a, p + b) == Less(p[1..] + a, p[1..] + b);
      LessCommonPrefix(p[1..], a, b);
    } else {
      assert p + a == a && p + b == b;
    }
  }

  function Elems(s: seq<Path>): set<Path>
  {
    set x | x in s
  }

  /** Strictly increasing, hence also free of duplicates. */
  predicate StrictlySorted(s: seq<Path>)
  {
    forall i, j :: 0 <= i < j < |s| ==> Less(s[i], s[j])
  }

  /** Adds `x` to a sorted set of paths. */
  function Insert(x: Path, s: seq<Path>): (r: seq<Path>)
    requires StrictlySorted(s)
    ensures StrictlySorted(r)
    ensures Elems(r) == Elems(s) + {x}
  {
    InsertSpec(x, s);
    InsertRaw(x, s)
  }

  function InsertRaw(x: Path, s: seq<Path>): seq<Path>
  {
    if s == [] then [x]
    else if x == s[0] then s
    else if Less(x, s[0]) then [x] + s
    else [s[0]] + InsertRaw(x, s[1..])
  }

  lemma {:induction false} InsertSpec(x: Path, s: seq<Path>)
    requires StrictlySorted(s)
    ensures StrictlySorted(InsertRaw(x, s))
    ensures Elems(InsertRaw(x, s)) == Elems(s) + {x}
    ensures |InsertRaw(x, s)| > 0
    ensures InsertRaw(x, s)[0] == x || InsertRaw(x, s)[0] == s[0]
    decreases |s|, 1
  {
    if s == [] {
    } else if x == s[0] {
    } else if Less(x, s[0]) {
      PrependSorted(x, s);
    } else {
      InsertSpecAfterHead(x, s);
    }
  }

  lemma {:induction false} InsertSpecAfterHead(x: Path, s: seq<Path>)
    requires StrictlySorted(s) && s != [] && x != s[0] && !Less(x, s[0])
    ensures StrictlySorted(InsertRaw(x, s))
    ensures Elems(InsertRaw(x, s)) == Elems(s) + {x}
    ensures |InsertRaw(x, s)| > 0 && InsertRaw(x, s)[0] == s[0]
    decreases |s|, 0
  {
    LessTotal(x, s[0]);
    assert s == [s[0]] + s[1..];
    InsertSpec(x, s[1..]);
    var tail := InsertRaw(x, s[1..]);
    PrependSorted(s[0], tail);
    assert InsertRaw(x, s) == [s[0]] + tail;
    assert Elems([s[0]] + tail) == {s[0]} + Elems(tail);
    assert Elems(s) == {s[0]} + Elems(s[1..]);
  }

  lemma PrependSorted(x: Path, s: seq<Path>)
    requires StrictlySorted(s)
    requires s != [] ==> Less(x, s[0])
    ensures StrictlySorted([x] + s)
  {
    var r := [x] + s;
    forall i, j | 0 <= i < j < |r| ensures Less(r[i], r[j]) {
      if i == 0 && j > 1 { LessTransitive(x, s[0], s[j - 1]); }
    }
  }

  lemma ElemsEmpty(s: seq<Path>)
    ensures Elems(s) == {} <==> s == []
  {
    if s != [] { assert s[0] in Elems(s); }
  }

  /** The sorted set of the paths of `xs`, whatever their order and repetitions. */
  function ToSortedSet(xs: seq<Path>): (r: seq<Path>)
    ensures StrictlySorted(r)
    ensures Elems(r) == Elems(xs)
  {
    if xs == [] then []
    else
      assert Elems(xs) == Elems(xs[..|xs| - 1]) + {xs[|xs| - 1]} by {
        assert xs == xs[..|xs| - 1] + [xs[|xs| - 1]];
      }
      Insert(xs[|xs| - 1], ToSortedSet(xs[..|xs| - 1]))
  }

  /** A sorted set is determined by its elements. */
  lemma {:induction false} SortedUnique(a: seq<Path>, b: seq<Path>)
    requires StrictlySorted(a) && StrictlySorted(b)
    requires Elems(a) == Elems(b)
    ensures a == b
  {
    ElemsEmpty(a);
    ElemsEmpty(b);
    if a != [] && b != [] {
      assert b[0] in Elems(a) && a[0] in Elems(b);
      if a[0] != b[0] {
        var i :| 0 <= i < |a| && a[i] == b[0];
        var j :| 0 <= j < |b| && b[j] == a[0];
        assert Less(a[0], a[i]) && Less(b[0], b[j]);
        LessAsymmetric(a[0], b[0]);
      }
      assert a == [a[0]] + a[1..] && b == [b[0]] + b[1..];
      assert a[0] !in Elems(a[1..]) by {
        if a[0] in Elems(a[1..]) {
          var k :| 0 <= k < |a[1..]| && a[1..][k] == a[0];
          assert Less(a[0], a[k + 1]);
          LessIrreflexive(a[0]);
        }
      }
      assert b[0] !in Elems(b[1..]) by {
        if b[0] in Elems(b[1..]) {
          var k :| 0 <= k < |b[1..]| && b[1..][k] == b[0];
          assert Less(b[0], b[k + 1]);
          LessIrreflexive(b[0]);
        }
      }
      assert Elems(a[1..]) == Elems(a) - {a[0]};
      assert Elems(b[1..]) == Elems(b) - {b[0]};
      SortedUnique(a[1..], b[1..]);
    }
  }

  /** The sorted set depends only on which paths occur, not on their declared order. */
  lemma ToSortedSetOrderIndependent(xs: seq<Path>, ys: seq<Path>)
    requires Elems(xs) == Elems(ys)
    ensures ToSortedSet(xs) == ToSortedSet(ys)
  {
    SortedUnique(ToSortedSet(xs), ToSortedSet(ys));
  }
}

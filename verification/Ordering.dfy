/** Byte-wise lexicographic order on aliases, and the sorted sequence of a finite set of them. */
module Ordering {
  import opened Tables

  predicate Less(a: Alias, b: Alias)
    decreases b
  {
    b != [] && (a == [] || a[0] < b[0] || (a[0] == b[0] && Less(a[1..], b[1..])))
  }

  lemma {:induction false} Irreflexive(a: Alias)
    ensures !Less(a, a)
  {
    if a != [] { Irreflexive(a[1..]); }
  }

  lemma {:induction false} Transitive(a: Alias, b: Alias, c: Alias)
    requires Less(a, b) && Less(b, c)
    ensures Less(a, c)
    decreases a
  {
    if a != [] && a[0] == b[0] && b[0] == c[0] { Transitive(a[1..], b[1..], c[1..]); }
  }

  lemma {:induction false} Total(a: Alias, b: Alias)
    ensures a == b || Less(a, b) || Less(b, a)
    decreases a
  {
    if a != [] && b != [] && a[0] == b[0] {
      Total(a[1..], b[1..]);
      assert a == [a[0]] + a[1..] && b == [b[0]] + b[1..];
    }
  }

  lemma Asymmetric(a: Alias, b: Alias)
    requires Less(a, b)
    ensures !Less(b, a)
  {
    if Less(b, a) { Transitive(a, b, a); Irreflexive(a); }
  }

  // ---------- Sorting a set ----------

  function Elements(s: seq<Alias>): set<Alias> {
    set x | x in s
  }

  ghost predicate Increasing(s: seq<Alias>) {
    forall i, j :: 0 <= i < j < |s| ==> Less(s[i], s[j])
  }

  lemma Inhabited(s: set<Alias>)
    ensures s == {} || exists x :: x in s
  {
    if !exists x :: x in s {
      assert forall y :: y !in s;
      assert s == {};
    }
  }

  ghost predicate IsFirst(s: set<Alias>, m: Alias) {
    m in s && forall y :: y in s ==> y == m || Less(m, y)
  }

  lemma {:induction false} HasFirst(s: set<Alias>)
    requires s != {}
    ensures exists m :: IsFirst(s, m)
    decreases |s|
  {
    Inhabited(s);
    var x :| x in s;
    var rest := s - {x};
    assert forall y :: y in s ==> y == x || y in rest;
    if rest == {} {
      assert IsFirst(s, x);
    } else {
      HasFirst(rest);
      var m :| IsFirst(rest, m);
      Total(x, m);
      if Less(x, m) {
        forall y | y in s ensures y == x || Less(x, y) {
          if y != x && y != m { Transitive(x, m, y); }
        }
        assert IsFirst(s, x);
      } else {
        assert IsFirst(s, m);
      }
    }
  }

  ghost function First(s: set<Alias>): (m: Alias)
    requires s != {}
    ensures IsFirst(s, m)
  {
    HasFirst(s);
    var m :| IsFirst(s, m);
    m
  }

  /** The members of a set in increasing order: what ORDER BY alias ASC returns for distinct rows. */
  ghost function Sorted(s: set<Alias>): (r: seq<Alias>)
    ensures Increasing(r) && Elements(r) == s && |r| == |s|
    decreases |s|
  {
    if s == {} then [] else
      var m := First(s);
      var rest := Sorted(s - {m});
      assert forall i :: 0 <= i < |rest| ==> rest[i] in Elements(rest);
      assert forall x :: x in s ==> x == m || x in Elements(rest);
      assert Elements([m] + rest) == s;
      [m] + rest
  }

  lemma IncreasingAreDistinct(s: seq<Alias>, i: int, j: int)
    requires Increasing(s) && 0 <= i < |s| && 0 <= j < |s| && s[i] == s[j]
    ensures i == j
  {
    Irreflexive(s[i]);
  }

  lemma HeadIsFirst(s: seq<Alias>)
    requires s != [] && Increasing(s)
    ensures IsFirst(Elements(s), s[0])
    ensures Elements(s[1..]) == Elements(s) - {s[0]}
  {
    forall x | x in Elements(s[1..]) ensures x in Elements(s) && x != s[0] {
      var i :| 0 <= i < |s[1..]| && s[1..][i] == x;
      assert s[i + 1] == x && Less(s[0], s[i + 1]);
      Irreflexive(x);
    }
    forall x | x in Elements(s) && x != s[0] ensures x in Elements(s[1..]) {
      var i :| 0 <= i < |s| && s[i] == x;
      assert s[1..][i - 1] == x;
    }
  }

  lemma FirstUnique(s: set<Alias>, a: Alias, b: Alias)
    requires IsFirst(s, a) && IsFirst(s, b)
    ensures a == b
  {
    if a != b { Asymmetric(a, b); }
  }

  /** An increasing sequence is determined by its elements. */
  lemma {:induction false} SortedUnique(s: seq<Alias>)
    requires Increasing(s)
    ensures s == Sorted(Elements(s))
  {
    var t := Sorted(Elements(s));
    if s == [] {
      assert Elements(s) == {};
    } else {
      HeadIsFirst(s);
      assert s[0] in Elements(s);
      FirstUnique(Elements(s), s[0], First(Elements(s)));
      SortedUnique(s[1..]);
      assert s == [s[0]] + s[1..];
    }
  }

  lemma SortedIs(s: seq<Alias>, elements: set<Alias>)
    requires Increasing(s) && Elements(s) == elements
    ensures Sorted(elements) == s
  {
    SortedUnique(s);
  }

  lemma PrefixIncreases(s: seq<Alias>, n: nat)
    requires Increasing(s) && n <= |s|
    ensures Increasing(s[..n])
  {
    assert forall i :: 0 <= i < n ==> s[..n][i] == s[i];
  }

  lemma AppendedIncreases(s: seq<Alias>, z: Alias)
    requires Increasing(s) && forall i :: 0 <= i < |s| ==> Less(s[i], z)
    ensures Increasing(s + [z])
  {
    assert forall i :: 0 <= i < |s| ==> (s + [z])[i] == s[i];
  }

  lemma TailElements(all: seq<Alias>, n: nat)
    requires Increasing(all) && n <= |all|
    ensures Elements(all[n..]) == Elements(all) - Elements(all[..n])
  {
    var head, tail := all[..n], all[n..];
    forall x | x in tail ensures x in all && x !in head {
      var b :| 0 <= b < |tail| && tail[b] == x;
      assert all[n + b] == x;
      forall a | 0 <= a < |head| ensures head[a] != x {
        Irreflexive(x);
        assert Less(all[a], all[n + b]);
      }
    }
    forall x | x in all && x !in head ensures x in tail {
      var i :| 0 <= i < |all| && all[i] == x;
      assert all == head + tail;
    }
  }

  lemma TailIsLater(all: seq<Alias>, n: nat, x: Alias)
    requires Increasing(all) && 0 < n <= |all| && x in all
    ensures x in all[n..] <==> Less(all[n - 1], x)
  {
    var i :| 0 <= i < |all| && all[i] == x;
    if i >= n {
      assert all[n..][i - n] == x;
    } else {
      forall b | 0 <= b < |all[n..]| ensures all[n..][b] != x {
        if all[n + b] == x { IncreasingAreDistinct(all, i, n + b); }
      }
      if i < n - 1 { Asymmetric(all[i], all[n - 1]); } else { Irreflexive(x); }
    }
  }

  /** What remains of an increasing sequence after its first `n` members: the later ones, sorted. */
  lemma SortedSplits(all: seq<Alias>, n: nat)
    requires Increasing(all) && n <= |all|
    ensures all[n..] == Sorted(Elements(all) - Elements(all[..n]))
    ensures n > 0 ==>
      forall x :: x in Elements(all) ==> (x in Elements(all) - Elements(all[..n]) <==> Less(all[n - 1], x))
  {
    TailElements(all, n);
    var tail := all[n..];
    assert Increasing(tail) by {
      assert forall i :: 0 <= i < |tail| ==> tail[i] == all[n + i];
    }
    SortedUnique(tail);
    if n > 0 {
      forall x | x in Elements(all) ensures x in Elements(all) - Elements(all[..n]) <==> Less(all[n - 1], x) {
        TailIsLater(all, n, x);
        assert x in tail <==> x in Elements(tail);
      }
    }
  }

  lemma Joined(a: seq<Alias>, b: seq<Alias>)
    ensures Elements(a + b) == Elements(a) + Elements(b)
  {
  }

  // ---------- Sorting and removing duplicates ----------

  predicate AtMost(a: Alias, b: Alias) {
    a == b || Less(a, b)
  }

  ghost predicate NonDecreasing(s: seq<Alias>) {
    forall i, j :: 0 <= i < j < |s| ==> AtMost(s[i], s[j])
  }

  lemma AtMostTransitive(a: Alias, b: Alias, c: Alias)
    requires AtMost(a, b) && AtMost(b, c)
    ensures AtMost(a, c)
  {
    if a != b && b != c {
      Transitive(a, b, c);
    }
  }

  function Insert(x: Alias, s: seq<Alias>): (r: seq<Alias>)
    ensures Elements(r) == Elements(s) + {x}
  {
    if s == [] then [x]
    else if AtMost(x, s[0]) then Joined([x], s); [x] + s
    else
      Joined([s[0]], s[1..]);
      Joined([s[0]], Insert(x, s[1..]));
      assert s == [s[0]] + s[1..];
      [s[0]] + Insert(x, s[1..])
  }

  /** Stands for the library's sort. */
  function SortUnstable(s: seq<Alias>): (r: seq<Alias>)
    ensures Elements(r) == Elements(s)
  {
    if s == [] then [] else
      Joined([s[0]], s[1..]);
      assert s == [s[0]] + s[1..];
      Insert(s[0], SortUnstable(s[1..]))
  }

  lemma {:induction false} InsertKeepsOrder(x: Alias, s: seq<Alias>)
    requires NonDecreasing(s)
    ensures NonDecreasing(Insert(x, s))
  {
    var r := Insert(x, s);
    if s == [] {
    } else if AtMost(x, s[0]) {
      forall j | 0 < j < |r| ensures AtMost(r[0], r[j]) {
        assert r[j] == s[j - 1];
        AtMostTransitive(x, s[0], s[j - 1]);
      }
    } else {
      var tail := Insert(x, s[1..]);
      InsertKeepsOrder(x, s[1..]);
      Total(x, s[0]);
      forall j | 0 < j < |r| ensures AtMost(r[0], r[j]) {
        assert r[j] == tail[j - 1] && tail[j - 1] in Elements(tail);
        if r[j] != x {
          assert r[j] in Elements(s[1..]);
          var k :| 0 <= k < |s[1..]| && s[1..][k] == r[j];
          assert s[k + 1] == r[j];
        }
      }
    }
  }

  lemma {:induction false} Sorts(s: seq<Alias>)
    ensures NonDecreasing(SortUnstable(s))
  {
    if s != [] {
      Sorts(s[1..]);
      InsertKeepsOrder(s[0], SortUnstable(s[1..]));
    }
  }

  /** dedup: of equal neighbours the first one stays. */
  method Dedup(s: seq<Alias>) returns (r: seq<Alias>)
    requires NonDecreasing(s)
    ensures Increasing(r) && Elements(r) == Elements(s)
  {
    r := [];
    for i := 0 to |s|
      invariant Increasing(r) && Elements(r) == Elements(s[..i])
      invariant if i == 0 then r == [] else r != [] && r[|r| - 1] == s[i - 1]
    {
      assert s[..i + 1] == s[..i] + [s[i]];
      Joined(s[..i], [s[i]]);
      Joined(r, [s[i]]);
      if i == 0 || s[i] != r[|r| - 1] {
        if i > 0 {
          forall j | 0 <= j < |r| ensures Less(r[j], s[i]) {
            if j < |r| - 1 {
              Transitive(r[j], r[|r| - 1], s[i]);
            }
          }
        }
        r := r + [s[i]];
      }
    }
    assert s[..|s|] == s;
  }
}

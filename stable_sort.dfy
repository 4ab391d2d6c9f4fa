/** The `entries.sort((a, b) => a[1] - b[1])` step of the LRC parser: a stable
    ascending sort of lyric entries by timestamp, done in place on an array.

    The specification is a functional insertion sort. Its properties are
    proved below: the result is ordered, is a permutation of the input, keeps
    the input order among entries with equal timestamps, and is the only
    sequence with those three properties (so every stable sort, whatever
    algorithm a JavaScript engine uses, returns it). */
module StableSort {
  import opened Types

  predicate SortedByTime(s: seq<Entry>)
  {
    forall i, j :: 0 <= i < j < |s| ==> s[i].time <= s[j].time
  }

  /** The entries of `s` whose timestamp is `t`, in their order in `s`. */
  function AtTime(s: seq<Entry>, t: int): (r: seq<Entry>)
  {
    if s == [] then []
    else AtTime(s[..|s| - 1], t) + (if s[|s| - 1].time == t then [s[|s| - 1]] else [])
  }

  /** Inserts `x` after the last entry whose timestamp is not above its own,
      scanning from the right as the array sort below shifts. */
  function Insert(p: seq<Entry>, x: Entry): (r: seq<Entry>)
    ensures |r| == |p| + 1
  {
    if p == [] then [x]
    else if p[|p| - 1].time <= x.time then p + [x]
    else Insert(p[..|p| - 1], x) + [p[|p| - 1]]
  }

  /** The stable sort: each entry in turn is inserted into the sorted prefix. */
  function Sorted(s: seq<Entry>): (r: seq<Entry>)
    ensures |r| == |s|
  {
    if s == [] then [] else Insert(Sorted(s[..|s| - 1]), s[|s| - 1])
  }

  /** A list already ordered by time is left as it is. */
  lemma {:induction false} SortedKeepsOrdered(s: seq<Entry>)
    requires SortedByTime(s)
    ensures Sorted(s) == s
  {
    if s != [] {
      var q, x := s[..|s| - 1], s[|s| - 1];
      assert SortedByTime(q);
      SortedKeepsOrdered(q);
      assert q == [] || q[|q| - 1].time <= x.time;
      assert Insert(q, x) == q + [x];
      assert q + [x] == s;
    }
  }

  lemma SortedOne(e: Entry)
    ensures Sorted([e]) == [e]
  {
    assert [e][..0] == [];
  }

  /** Two entries: the later one goes second, and on a tie the first stays first. */
  lemma SortedTwo(x: Entry, y: Entry)
    ensures Sorted([x, y]) == if y.time < x.time then [y, x] else [x, y]
  {
    assert [x, y][..1] == [x];
    SortedOne(x);
    assert Sorted([x, y]) == Insert([x], y);
    assert [x][..0] == [];
    if y.time < x.time {
      assert Insert([x], y) == Insert([], y) + [x];
    } else {
      assert Insert([x], y) == [x] + [y];
    }
  }

  lemma {:induction false} AtTimeAppend(a: seq<Entry>, b: seq<Entry>, t: int)
    ensures AtTime(a + b, t) == AtTime(a, t) + AtTime(b, t)
  {
    if b == [] {
      assert a + b == a;
    } else {
      assert (a + b)[..|a + b| - 1] == a + b[..|b| - 1];
      AtTimeAppend(a, b[..|b| - 1], t);
    }
  }

  /** Where the insertion lands: after the prefix that is not above `x`. */
  lemma {:induction false} InsertAt(p: seq<Entry>, x: Entry, j: nat)
    requires j <= |p|
    requires j == 0 || p[j - 1].time <= x.time
    requires forall k :: j <= k < |p| ==> p[k].time > x.time
    ensures Insert(p, x) == p[..j] + [x] + p[j..]
    decreases |p|
  {
    if p == [] {
    } else if j == |p| {
      assert p[..j] == p;
    } else {
      var q := p[..|p| - 1];
      InsertAt(q, x, j);
      assert q[..j] == p[..j];
      assert q[j..] + [p[|p| - 1]] == p[j..];
    }
  }

  lemma {:induction false} InsertKeepsOrder(p: seq<Entry>, x: Entry)
    requires SortedByTime(p)
    ensures SortedByTime(Insert(p, x))
    ensures |Insert(p, x)| == |p| + 1
    ensures forall k :: 0 <= k < |Insert(p, x)| ==> Insert(p, x)[k] == x || Insert(p, x)[k] in p
    decreases |p|
  {
    if p == [] || p[|p| - 1].time <= x.time {
    } else {
      var q := p[..|p| - 1];
      var last := p[|p| - 1];
      InsertKeepsOrder(q, x);
      var r := Insert(q, x);
      forall k | 0 <= k < |r| ensures r[k].time <= last.time {
        if r[k] != x {
          var m :| 0 <= m < |q| && q[m] == r[k];
        }
      }
      forall k | 0 <= k < |r| ensures r[k] == x || r[k] in p {
        if r[k] != x {
          var m :| 0 <= m < |q| && q[m] == r[k];
          assert p[m] == r[k];
        }
      }
    }
  }

  lemma {:induction false} InsertMultiset(p: seq<Entry>, x: Entry)
    ensures multiset(Insert(p, x)) == multiset(p) + multiset{x}
    decreases |p|
  {
    if p == [] || p[|p| - 1].time <= x.time {
    } else {
      var q := p[..|p| - 1];
      InsertMultiset(q, x);
      assert p == q + [p[|p| - 1]];
    }
  }

  lemma {:induction false} InsertAtTime(p: seq<Entry>, x: Entry, t: int)
    ensures AtTime(Insert(p, x), t) == AtTime(p, t) + (if x.time == t then [x] else [])
    decreases |p|
  {
    AtTimeSingle(x, t);
    if p == [] {
      assert Insert(p, x) == [x];
    } else if p[|p| - 1].time <= x.time {
      assert Insert(p, x) == p + [x];
      AtTimeAppend(p, [x], t);
    } else {
      var q := p[..|p| - 1];
      var last := p[|p| - 1];
      InsertAtTime(q, x, t);
      assert Insert(p, x) == Insert(q, x) + [last];
      AtTimeAppend(Insert(q, x), [last], t);
      AtTimeSingle(last, t);
      assert AtTime(p, t) == AtTime(q, t) + AtTime([last], t);
      // `last` is later than `x`, so at most one of them has timestamp `t`
      assert AtTime([last], t) == [] || x.time != t;
    }
  }

  /** The sort orders its input by timestamp. */
  lemma {:induction false} SortedIsOrdered(s: seq<Entry>)
    ensures SortedByTime(Sorted(s))
    ensures |Sorted(s)| == |s|
    ensures forall e :: e in Sorted(s) ==> e in s
  {
    if s != [] {
      var q := s[..|s| - 1];
      SortedIsOrdered(q);
      InsertKeepsOrder(Sorted(q), s[|s| - 1]);
      var r := Sorted(s);
      forall e | e in r ensures e in s {
        if e != s[|s| - 1] {
          assert e in Sorted(q);
          var m :| 0 <= m < |q| && q[m] == e;
          assert s[m] == e;
        }
      }
    }
  }

  /** The sort is a permutation of its input. */
  lemma {:induction false} SortedIsPermutation(s: seq<Entry>)
    ensures multiset(Sorted(s)) == multiset(s)
  {
    if s != [] {
      var q := s[..|s| - 1];
      var last := s[|s| - 1];
      SplitLast(s);
      SortedIsPermutation(q);
      InsertMultiset(Sorted(q), last);
      MultisetStep(q, last, Sorted(q), Sorted(s));
    }
  }

  lemma SplitLast(s: seq<Entry>)
    requires s != []
    ensures s == s[..|s| - 1] + [s[|s| - 1]]
  {
  }

  lemma MultisetStep(q: seq<Entry>, last: Entry, sorted: seq<Entry>, inserted: seq<Entry>)
    requires multiset(sorted) == multiset(q)
    requires multiset(inserted) == multiset(sorted) + multiset{last}
    ensures multiset(inserted) == multiset(q + [last])
  {
  }

  /** The sort is stable: among entries with one timestamp, the input order is kept. */
  lemma {:induction false} SortedIsStable(s: seq<Entry>, t: int)
    ensures AtTime(Sorted(s), t) == AtTime(s, t)
  {
    if s != [] {
      var q := s[..|s| - 1];
      SortedIsStable(q, t);
      InsertAtTime(Sorted(q), s[|s| - 1], t);
    }
  }

  lemma {:induction false} AtTimeMembers(s: seq<Entry>, t: int)
    ensures forall e :: e in AtTime(s, t) <==> e in s && e.time == t
  {
    if s != [] {
      AtTimeMembers(s[..|s| - 1], t);
      assert s == s[..|s| - 1] + [s[|s| - 1]];
    }
  }

  lemma AtTimeHasAll(s: seq<Entry>, i: nat)
    requires i < |s|
    ensures s[i] in AtTime(s, s[i].time)
    decreases |s|
  {
    if i < |s| - 1 {
      AtTimeHasAll(s[..|s| - 1], i);
    }
  }

  lemma AtTimeSingle(e: Entry, u: int)
    ensures AtTime([e], u) == if e.time == u then [e] else []
  {
    assert [e][..0] == [];
  }

  lemma {:induction false} AtTimeOfFirst(s: seq<Entry>, u: int)
    requires s != []
    ensures AtTime(s, u) == (if s[0].time == u then [s[0]] else []) + AtTime(s[1..], u)
  {
    assert s == [s[0]] + s[1..];
    AtTimeAppend([s[0]], s[1..], u);
    AtTimeSingle(s[0], u);
  }

  /** Two non-empty orderings that agree within every timestamp start alike. */
  lemma FirstsAgree(a: seq<Entry>, b: seq<Entry>)
    requires a != [] && b != []
    requires SortedByTime(a) && SortedByTime(b)
    requires forall t :: AtTime(a, t) == AtTime(b, t)
    ensures a[0] == b[0]
  {
    AtTimeHasAll(a, 0);
    AtTimeHasAll(b, 0);
    assert a[0] in AtTime(b, a[0].time);
    assert b[0] in AtTime(a, b[0].time);
    AtTimeMembers(a, b[0].time);
    AtTimeMembers(b, a[0].time);
    assert a[0].time == b[0].time by {
      var i :| 0 <= i < |b| && b[i] == a[0];
      var j :| 0 <= j < |a| && a[j] == b[0];
      assert b[0].time <= b[i].time;
      assert a[0].time <= a[j].time;
    }
    var t := a[0].time;
    AtTimeOfFirst(a, t);
    AtTimeOfFirst(b, t);
    assert AtTime(a, t)[0] == a[0];
    assert AtTime(b, t)[0] == b[0];
  }

  lemma TailsAgree(a: seq<Entry>, b: seq<Entry>, u: int)
    requires a != [] && b != [] && a[0] == b[0]
    requires AtTime(a, u) == AtTime(b, u)
    ensures AtTime(a[1..], u) == AtTime(b[1..], u)
  {
    AtTimeOfFirst(a, u);
    AtTimeOfFirst(b, u);
    var head := if a[0].time == u then [a[0]] else [];
    assert (head + AtTime(a[1..], u))[|head|..] == AtTime(a[1..], u);
    assert (head + AtTime(b[1..], u))[|head|..] == AtTime(b[1..], u);
  }

  lemma EmptyAgree(a: seq<Entry>, b: seq<Entry>)
    requires a == []
    requires forall t :: AtTime(a, t) == AtTime(b, t)
    ensures b == []
  {
    if b != [] {
      AtTimeHasAll(b, 0);
    }
  }

  /** Two orderings by timestamp that agree on the order within every timestamp are equal. */
  lemma {:induction false} OrderedUnique(a: seq<Entry>, b: seq<Entry>)
    requires SortedByTime(a) && SortedByTime(b)
    requires forall t :: AtTime(a, t) == AtTime(b, t)
    ensures a == b
    decreases |a|
  {
    if a == [] {
      EmptyAgree(a, b);
    } else if b == [] {
      EmptyAgree(b, a);
    } else {
      FirstsAgree(a, b);
      forall u ensures AtTime(a[1..], u) == AtTime(b[1..], u) {
        TailsAgree(a, b, u);
      }
      OrderedUnique(a[1..], b[1..]);
      assert a == [a[0]] + a[1..];
      assert b == [b[0]] + b[1..];
    }
  }

  /** Any ordering by timestamp that keeps the input order within each timestamp
      and draws on the same entries is `Sorted(s)`. */
  lemma StableSortIsUnique(s: seq<Entry>, r: seq<Entry>)
    requires SortedByTime(r)
    requires forall t :: AtTime(r, t) == AtTime(s, t)
    ensures r == Sorted(s)
  {
    SortedIsOrdered(s);
    forall t ensures AtTime(r, t) == AtTime(Sorted(s), t) {
      SortedIsStable(s, t);
    }
    OrderedUnique(r, Sorted(s));
  }

  /** Moves `a[i]` left past every entry of `a[..i]` with a later timestamp. */
  method InsertLast(a: array<Entry>, i: nat)
    requires i < a.Length
    modifies a
    ensures a[..i + 1] == Insert(old(a[..i]), old(a[i]))
    ensures a[i + 1..] == old(a[i + 1..])
  {
    var x := a[i];
    ghost var p := a[..i];
    var j := OpenGap(a, i, x);
    a[j] := x;
    InsertAt(p, x, j);
    Shifted(a[..i + 1], p, x, j);
  }

  /** The shifting loop: every entry of `a[..i]` later than `x`, a suffix of
      them, moves one step right, which leaves a gap at `j`. */
  method OpenGap(a: array<Entry>, i: nat, x: Entry) returns (j: nat)
    requires i < a.Length
    modifies a
    ensures j <= i
    ensures forall k :: 0 <= k < j ==> a[k] == old(a[k])
    ensures forall k :: j < k <= i ==> a[k] == old(a[k - 1])
    ensures forall k :: j <= k < i ==> old(a[k]).time > x.time
    ensures j > 0 ==> old(a[j - 1]).time <= x.time
    ensures forall k :: i < k < a.Length ==> a[k] == old(a[k])
  {
    j := i;
    while j > 0 && a[j - 1].time > x.time
      invariant 0 <= j <= i
      invariant forall k :: 0 <= k < j ==> a[k] == old(a[k])
      invariant forall k :: j < k <= i ==> a[k] == old(a[k - 1])
      invariant forall k :: j <= k < i ==> old(a[k]).time > x.time
      invariant forall k :: i < k < a.Length ==> a[k] == old(a[k])
    {
      a[j] := a[j - 1];
      j := j - 1;
    }
  }

  /** The array after the shifting loop, as a sequence: `x` placed at `j`
      with the rest of `p` moved one step right. */
  lemma Shifted(b: seq<Entry>, p: seq<Entry>, x: Entry, j: nat)
    requires |b| == |p| + 1 && j <= |p|
    requires forall k :: 0 <= k < j ==> b[k] == p[k]
    requires b[j] == x
    requires forall k :: j < k < |b| ==> b[k] == p[k - 1]
    ensures b == p[..j] + [x] + p[j..]
  {
  }

  /** Sorts `a` in place, ascending by timestamp, keeping the order of equal
      timestamps: an insertion sort that shifts later entries to the right. */
  method SortByTime(a: array<Entry>)
    modifies a
    ensures a[..] == Sorted(old(a[..]))
  {
    ghost var s := a[..];
    var i := 0;
    while i < a.Length
      invariant 0 <= i <= a.Length
      invariant a[..i] == Sorted(s[..i])
      invariant a[i..] == s[i..]
    {
      assert a[i] == s[i];
      InsertLast(a, i);
      assert s[..i + 1][..i] == s[..i];
      assert Sorted(s[..i + 1]) == Insert(Sorted(s[..i]), s[i]);
      i := i + 1;
    }
    assert a[..] == a[..a.Length];
    assert s[..a.Length] == s;
  }
}

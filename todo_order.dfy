/**
  Ordering todos by creation time. The client view sorts with the comparator
  of app/contexts/TodoContext.tsx:124-129, and ECMAScript's
  `Array.prototype.sort` is stable, so ties keep their incoming order. The
  same ordering (newest first) is what the list endpoint promises.
 */
module TodoOrder {
  import opened Todos

  /** `SortOrder` of the client cache. */
  datatype SortOrder = Newest | Oldest

  /** The comparator handed to `sort`: negative when `a` goes before `b`,
      positive when after, zero for a tie. */
  function Compare(order: SortOrder, a: Todo, b: Todo): int
  {
    match order
    case Newest => b.createdAt - a.createdAt
    case Oldest => a.createdAt - b.createdAt
  }

  /** `a` may stand before `b`: non-increasing creation time for `Newest`,
      non-decreasing for `Oldest`. */
  predicate InOrder(order: SortOrder, a: Todo, b: Todo)
  {
    match order
    case Newest => a.createdAt >= b.createdAt
    case Oldest => a.createdAt <= b.createdAt
  }

  predicate Sorted(order: SortOrder, s: seq<Todo>)
  {
    forall i, j :: 0 <= i < j < |s| ==> InOrder(order, s[i], s[j])
  }

  /** The comparator and the intended order agree. */
  lemma CompareMeansInOrder(order: SortOrder, a: Todo, b: Todo)
    ensures Compare(order, a, b) <= 0 <==> InOrder(order, a, b)
  {
  }

  /** Where a stable sort places `x`, which came before every element of the
      already sorted `s`: after the elements that compare strictly before it,
      ahead of the first one that does not. */
  function InsertionPoint(order: SortOrder, x: Todo, s: seq<Todo>): (k: nat)
    ensures k <= |s|
    ensures forall i :: 0 <= i < k ==> Compare(order, s[i], x) < 0
    ensures k < |s| ==> Compare(order, s[k], x) >= 0
  {
    if s == [] || Compare(order, s[0], x) >= 0 then 0
    else 1 + InsertionPoint(order, x, s[1..])
  }

  /** `x` placed into `s` at its insertion point. */
  function Insert(order: SortOrder, x: Todo, s: seq<Todo>): (r: seq<Todo>)
    ensures |r| == |s| + 1
    ensures multiset(r) == multiset(s) + multiset{x}
    ensures Sorted(order, s) ==> Sorted(order, r)
  {
    var k := InsertionPoint(order, x, s);
    assert s == s[..k] + s[k..];
    if Sorted(order, s) then InsertKeepsSorted(order, x, s, k); s[..k] + [x] + s[k..]
    else s[..k] + [x] + s[k..]
  }

  lemma InsertKeepsSorted(order: SortOrder, x: Todo, s: seq<Todo>, k: nat)
    requires Sorted(order, s) && k == InsertionPoint(order, x, s)
    ensures Sorted(order, s[..k] + [x] + s[k..])
  {
    var r := s[..k] + [x] + s[k..];
    forall i, j | 0 <= i < j < |r| ensures InOrder(order, r[i], r[j]) {
      if j < k {
        assert r[i] == s[i] && r[j] == s[j];
      } else if j == k {
        assert r[i] == s[i] && Compare(order, s[i], x) < 0;
      } else if i == k {
        assert r[j] == s[j - 1];
        assert Compare(order, s[k], x) >= 0;
        assert k == j - 1 || InOrder(order, s[k], s[j - 1]);
      } else if i < k {
        assert r[i] == s[i] && r[j] == s[j - 1];
      } else {
        assert r[i] == s[i - 1] && r[j] == s[j - 1];
      }
    }
  }

  /** Where every element of `Insert(order, x, s)` comes from. */
  lemma InsertPlaces(order: SortOrder, x: Todo, s: seq<Todo>)
    ensures var k := InsertionPoint(order, x, s);
      var r := Insert(order, x, s);
      forall i :: 0 <= i < |r| ==>
        r[i] == if i < k then s[i] else if i == k then x else s[i - 1]
  {
  }

  /** `s.sort(comparator)`: each element, taken from the back, is placed
      ahead of its ties, which makes the sort stable. */
  function SortByCreatedAt(order: SortOrder, s: seq<Todo>): (r: seq<Todo>)
    ensures Sorted(order, r)
    ensures multiset(r) == multiset(s)
    ensures |r| == |s|
  {
    if s == [] then [] else
      assert s == [s[0]] + s[1..];
      Insert(order, s[0], SortByCreatedAt(order, s[1..]))
  }

  /** The todos of `s` created at time `t`, in their order in `s`. */
  function AtTime(s: seq<Todo>, t: int): seq<Todo>
  {
    if s == [] then []
    else if s[0].createdAt == t then [s[0]] + AtTime(s[1..], t)
    else AtTime(s[1..], t)
  }

  lemma {:induction false} AtTimeAppend(a: seq<Todo>, b: seq<Todo>, t: int)
    ensures AtTime(a + b, t) == AtTime(a, t) + AtTime(b, t)
  {
    if a == [] {
      assert a + b == b;
    } else {
      assert (a + b)[0] == a[0];
      assert (a + b)[1..] == a[1..] + b;
      AtTimeAppend(a[1..], b, t);
    }
  }

  lemma AtTimeCons(x: Todo, rest: seq<Todo>, t: int)
    ensures AtTime([x] + rest, t) == (if x.createdAt == t then [x] else []) + AtTime(rest, t)
  {
    assert ([x] + rest)[1..] == rest;
  }

  lemma {:induction false} AtTimeNone(s: seq<Todo>, t: int)
    requires forall i :: 0 <= i < |s| ==> s[i].createdAt != t
    ensures AtTime(s, t) == []
  {
    if s != [] {
      AtTimeNone(s[1..], t);
    }
  }

  /** Inserting `x` puts it ahead of every todo created at the same time and
      leaves the order among the others alone. */
  lemma InsertAtTime(order: SortOrder, x: Todo, s: seq<Todo>, t: int)
    ensures AtTime(Insert(order, x, s), t)
         == if x.createdAt == t then [x] + AtTime(s, t) else AtTime(s, t)
  {
    var k := InsertionPoint(order, x, s);
    var f, b := AtTime(s[..k], t), AtTime(s[k..], t);
    InsertSplitsAtTime(order, x, s, t);
    AtTimeSplit(s, k, t);
    AtTimeSingle(x, t);
    if x.createdAt == t {
      NoTieBeforeInsertionPoint(order, x, s);
      assert f == [];
      calc {
        AtTime(Insert(order, x, s), t);
        f + [x] + b;
        { assert f + [x] == [x]; }
        [x] + b;
        { assert f + b == b; }
        [x] + AtTime(s, t);
      }
    } else {
      calc {
        AtTime(Insert(order, x, s), t);
        f + [] + b;
        { assert f + [] == f; }
        AtTime(s, t);
      }
    }
  }

  lemma InsertSplitsAtTime(order: SortOrder, x: Todo, s: seq<Todo>, t: int)
    ensures var k := InsertionPoint(order, x, s);
      AtTime(Insert(order, x, s), t) == AtTime(s[..k], t) + AtTime([x], t) + AtTime(s[k..], t)
  {
    var k := InsertionPoint(order, x, s);
    AtTimeAppend(s[..k] + [x], s[k..], t);
    AtTimeAppend(s[..k], [x], t);
  }

  lemma AtTimeSplit(s: seq<Todo>, k: nat, t: int)
    requires k <= |s|
    ensures AtTime(s, t) == AtTime(s[..k], t) + AtTime(s[k..], t)
  {
    assert s == s[..k] + s[k..];
    AtTimeAppend(s[..k], s[k..], t);
  }

  /** No todo ahead of the insertion point was created at the same time as `x`. */
  lemma NoTieBeforeInsertionPoint(order: SortOrder, x: Todo, s: seq<Todo>)
    ensures AtTime(s[..InsertionPoint(order, x, s)], x.createdAt) == []
  {
    var k := InsertionPoint(order, x, s);
    forall i | 0 <= i < k ensures s[..k][i].createdAt != x.createdAt {
      assert Compare(order, s[i], x) < 0;
    }
    AtTimeNone(s[..k], x.createdAt);
  }

  lemma AtTimeSingle(x: Todo, t: int)
    ensures AtTime([x], t) == if x.createdAt == t then [x] else []
  {
    assert [x][1..] == [];
  }

  /** The sort is stable: the todos created at any one time come out in the
      order they went in. */
  lemma {:induction false} SortIsStable(order: SortOrder, s: seq<Todo>, t: int)
    ensures AtTime(SortByCreatedAt(order, s), t) == AtTime(s, t)
  {
    if s != [] {
      SortIsStable(order, s[1..], t);
      InsertAtTime(order, s[0], SortByCreatedAt(order, s[1..]), t);
    }
  }

  lemma HeadIsExtreme(order: SortOrder, s: seq<Todo>, x: Todo)
    requires Sorted(order, s) && x in s
    ensures InOrder(order, s[0], x)
  {
    var j :| 0 <= j < |s| && s[j] == x;
    assert j == 0 || InOrder(order, s[0], s[j]);
  }

  /** Two sorted sequences with the same elements and the same order within
      each creation time start with the same todo. */
  lemma SameHead(order: SortOrder, s: seq<Todo>, r: seq<Todo>)
    requires s != [] && Sorted(order, s) && Sorted(order, r)
    requires multiset(s) == multiset(r)
    requires AtTime(s, s[0].createdAt) == AtTime(r, s[0].createdAt)
    ensures r != [] && s[0] == r[0]
  {
    assert s[0] in multiset(r);
    assert r != [];
    assert r[0] in multiset(s);
    HeadIsExtreme(order, r, s[0]);
    HeadIsExtreme(order, s, r[0]);
    var t := s[0].createdAt;
    assert r[0].createdAt == t;
    AtTimeHead(s);
    AtTimeHead(r);
    assert AtTime(s, t)[0] == s[0];
    assert AtTime(r, t)[0] == r[0];
  }

  lemma AtTimeHead(s: seq<Todo>)
    requires s != []
    ensures AtTime(s, s[0].createdAt) == [s[0]] + AtTime(s[1..], s[0].createdAt)
  {
  }

  lemma SortedTail(order: SortOrder, s: seq<Todo>)
    requires s != [] && Sorted(order, s)
    ensures Sorted(order, s[1..])
  {
    forall i, j | 0 <= i < j < |s| - 1 ensures InOrder(order, s[1..][i], s[1..][j]) {
      assert s[1..][i] == s[i + 1] && s[1..][j] == s[j + 1];
    }
  }

  /** Removing the same head from both keeps the per-time orders equal. */
  lemma SameTailsAtTime(s: seq<Todo>, r: seq<Todo>, t: int)
    requires s != [] && r != [] && s[0] == r[0]
    requires AtTime(s, t) == AtTime(r, t)
    ensures AtTime(s[1..], t) == AtTime(r[1..], t)
  {
    if s[0].createdAt == t {
      assert AtTime(s, t) == [s[0]] + AtTime(s[1..], t);
      assert AtTime(r, t) == [r[0]] + AtTime(r[1..], t);
      assert AtTime(s[1..], t) == AtTime(s, t)[1..];
    }
  }

  /** A stable sort has exactly one possible result: two sequences sorted by
      the same order, with the same elements, and with the same order among
      the todos of each creation time, are equal. So the model agrees with
      any stable `sort` implementation, not only with insertion. */
  lemma {:induction false} StableSortIsUnique(order: SortOrder, s: seq<Todo>, r: seq<Todo>)
    requires Sorted(order, s) && Sorted(order, r)
    requires multiset(s) == multiset(r)
    requires forall t :: AtTime(s, t) == AtTime(r, t)
    ensures s == r
  {
    if s == [] {
      assert |r| == |multiset(r)| == 0;
    } else {
      SameHead(order, s, r);
      forall t ensures AtTime(s[1..], t) == AtTime(r[1..], t) {
        SameTailsAtTime(s, r, t);
      }
      assert s == [s[0]] + s[1..] && r == [r[0]] + r[1..];
      SortedTail(order, s);
      SortedTail(order, r);
      assert multiset(s) == multiset{s[0]} + multiset(s[1..]);
      assert multiset(r) == multiset{r[0]} + multiset(r[1..]);
      assert multiset(s[1..]) == multiset(s) - multiset{s[0]};
      assert multiset(r[1..]) == multiset(r) - multiset{r[0]};
      StableSortIsUnique(order, s[1..], r[1..]);
    }
  }

  /** Sorting a sequence that is already in order changes nothing: a list
      that arrives newest first is shown exactly as it arrived. */
  lemma SortingSortedIsIdentity(order: SortOrder, s: seq<Todo>)
    requires Sorted(order, s)
    ensures SortByCreatedAt(order, s) == s
  {
    forall t ensures AtTime(SortByCreatedAt(order, s), t) == AtTime(s, t) {
      SortIsStable(order, s, t);
    }
    StableSortIsUnique(order, SortByCreatedAt(order, s), s);
  }
}

/** `ORDER BY … LIMIT n` and sort-and-cut over a finite set, for any order in which its elements compare. */
module Ordering {
  import opened Basics

  predicate IsFirst<T>(less: (T, T) -> bool, rows: set<T>, m: T) {
    m in rows && forall x :: x in rows && x != m ==> less(m, x)
  }

  lemma {:induction false} FirstExists<T(!new)>(less: (T, T) -> bool, rows: set<T>)
    requires TotalOn(less, rows) && rows != {}
    ensures exists m :: IsFirst(less, rows, m)
    decreases |rows|
  {
    var x :| x in rows;
    var rest := rows - {x};
    assert rows == rest + {x};
    if rest == {} {
      assert IsFirst(less, rows, x);
    } else {
      FirstExists(less, rest);
      var m :| IsFirst(less, rest, m);
      assert IsFirst(less, rows, if less(m, x) then m else x);
    }
  }

  /** `chosen` is the first `limit` of `rows` in order. */
  ghost predicate FirstInOrder<T(!new)>(less: (T, T) -> bool, rows: set<T>, limit: nat, chosen: seq<T>) {
    && |chosen| == (if limit <= |rows| then limit else |rows|)
    && (forall i :: 0 <= i < |chosen| ==> chosen[i] in rows)
    && (forall i, j :: 0 <= i < j < |chosen| ==> less(chosen[i], chosen[j]))
    && (forall x, i :: x in rows && x !in chosen && 0 <= i < |chosen| ==> less(chosen[i], x))
  }

  /** The order and the limit leave no choice. */
  lemma FirstInOrderUnique<T(!new)>(less: (T, T) -> bool, rows: set<T>, limit: nat, a: seq<T>, b: seq<T>)
    requires TotalOn(less, rows)
    requires FirstInOrder(less, rows, limit, a) && FirstInOrder(less, rows, limit, b)
    ensures a == b
  {
    var i := 0;
    while i < |a|
      invariant 0 <= i <= |a| && a[..i] == b[..i]
    {
      NotLater(less, rows, limit, a, b, i);
      NotLater(less, rows, limit, b, a, i);
      i := i + 1;
    }
  }

  /** Where two answers agree so far, the next entry of one does not come later than that of the other. */
  lemma NotLater<T(!new)>(less: (T, T) -> bool, rows: set<T>, limit: nat, a: seq<T>, b: seq<T>, i: nat)
    requires TotalOn(less, rows) && i < |a| == |b|
    requires FirstInOrder(less, rows, limit, a) && FirstInOrder(less, rows, limit, b)
    requires a[..i] == b[..i]
    ensures a[i] == b[i] || less(a[i], b[i])
  {
    NoRepeats(less, rows, b);
    forall k | 0 <= k < i ensures a[k] != b[i] {
      assert a[k] == a[..i][k] == b[..i][k] == b[k];
    }
    if b[i] in a {
      var k :| 0 <= k < |a| && a[k] == b[i];
      assert i <= k;
    }
  }

  lemma NoRepeats<T(!new)>(less: (T, T) -> bool, rows: set<T>, chosen: seq<T>)
    requires TotalOn(less, rows)
    requires forall i :: 0 <= i < |chosen| ==> chosen[i] in rows
    requires forall i, j :: 0 <= i < j < |chosen| ==> less(chosen[i], chosen[j])
    ensures Distinct(chosen)
  {
  }

  method TakeFirst<T(==, !new)>(less: (T, T) -> bool, rows: set<T>, limit: nat) returns (chosen: seq<T>)
    requires TotalOn(less, rows)
    ensures FirstInOrder(less, rows, limit, chosen)
  {
    var rest := rows;
    chosen := [];
    while |chosen| < limit && rest != {}
      invariant |chosen| <= limit && rest <= rows && |chosen| + |rest| == |rows|
      invariant forall i :: 0 <= i < |chosen| ==> chosen[i] in rows
      invariant forall x :: x in rows <==> x in rest || x in chosen
      invariant forall x :: x in rest ==> x !in chosen
      invariant forall i, j :: 0 <= i < j < |chosen| ==> less(chosen[i], chosen[j])
      invariant forall x, i :: x in rest && 0 <= i < |chosen| ==> less(chosen[i], x)
      decreases |rest|
    {
      FirstExists(less, rest);
      var m :| IsFirst(less, rest, m);
      chosen := chosen + [m];
      rest := rest - {m};
    }
  }
}

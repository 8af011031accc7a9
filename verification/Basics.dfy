/** Small vocabulary shared by every module. */
module Basics {

  datatype Option<+T> = None | Some(value: T)

  /** Milliseconds since the epoch. ISO text and `Date.parse` are inverse to each other,
      so every timestamp column is held as the instant it denotes. */
  type Instant = int

  /** How a remote call fares: it works, the request never arrives, or the reply is lost after the commit. */
  datatype Fault = Fine | LostRequest | LostReply

  function Min(a: int, b: int): int { if a <= b then a else b }

  function Max(a: int, b: int): int { if a <= b then b else a }

  /** `Math.ceil(a / b)` for a positive divisor. Dafny's `/` rounds down for a positive divisor. */
  function CeilDiv(a: int, b: int): (q: int)
    requires b > 0
    ensures (q - 1) * b < a <= q * b
  {
    -((-a) / b)
  }

  function Pow2(n: nat): nat {
    if n == 0 then 1 else 2 * Pow2(n - 1)
  }

  /** Text columns are cut to 500 characters before they are stored. */
  function Cut(s: string): string {
    if |s| <= 500 then s else s[..500]
  }

  /** A strict order in which any two elements of `all` compare. */
  ghost predicate TotalOn<T(!new)>(less: (T, T) -> bool, all: set<T>) {
    && (forall a :: a in all ==> !less(a, a))
    && (forall a, b, c :: a in all && b in all && c in all && less(a, b) && less(b, c) ==> less(a, c))
    && (forall a, b :: a in all && b in all && a != b ==> less(a, b) || less(b, a))
  }

  ghost predicate StrictTotal<T(!new)>(less: (T, T) -> bool) {
    && (forall a :: !less(a, a))
    && (forall a, b, c :: less(a, b) && less(b, c) ==> less(a, c))
    && (forall a, b :: a != b ==> less(a, b) || less(b, a))
  }

  predicate Distinct<T(==)>(s: seq<T>) {
    forall i, j :: 0 <= i < j < |s| ==> s[i] != s[j]
  }

  function GetOr<T>(o: Option<T>, default: T): T {
    match o
    case None => default
    case Some(v) => v
  }

  function ToSet<T(==)>(s: seq<T>): set<T> { set x | x in s }

  /** The elements of `order` that are in `wanted`, in their order. */
  function Keep<T(==)>(order: seq<T>, wanted: set<T>): seq<T> {
    if order == [] then []
    else
      var n := |order| - 1;
      Keep(order[..n], wanted) + if order[n] in wanted then [order[n]] else []
  }

  lemma OneMoreKept<T>(rest: seq<T>, last: T, wanted: set<T>)
    requires last !in rest
    ensures var before, after := set x | x in rest && x in wanted, set x | x in rest + [last] && x in wanted;
      && multiset(after) == multiset(before) + (if last in wanted then multiset{last} else multiset{})
      && |after| == |before| + if last in wanted then 1 else 0
  {
    var before, after := set x | x in rest && x in wanted, set x | x in rest + [last] && x in wanted;
    assert after == if last in wanted then before + {last} else before;
  }

  lemma {:induction false} KeepIsSet<T>(order: seq<T>, wanted: set<T>)
    requires Distinct(order)
    ensures multiset(Keep(order, wanted)) == multiset(set x | x in order && x in wanted)
    ensures |Keep(order, wanted)| == |set x | x in order && x in wanted|
  {
    if order != [] {
      var n := |order| - 1;
      var rest, last := order[..n], order[n];
      assert order == rest + [last];
      KeepIsSet(rest, wanted);
      OneMoreKept(rest, last, wanted);
    }
  }

  /** A kept list over an enumeration of a set is, as a multiset, the wanted part of that set. */
  lemma KeepOfEnumeration<T>(order: seq<T>, all: set<T>, wanted: set<T>)
    requires Distinct(order) && (forall x :: x in order <==> x in all)
    ensures multiset(Keep(order, wanted)) == multiset(all * wanted)
    ensures |Keep(order, wanted)| == |all * wanted|
  {
    KeepIsSet(order, wanted);
    assert (set x | x in order && x in wanted) == all * wanted;
  }
}

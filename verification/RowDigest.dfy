/** The content digest of a table (`_Digest`, scripts/migrate_d1_snapshot.py): a row count, a wrapping sum and an
    exclusive-or of row hashes, so the order in which a database returns its rows does not matter. */
module RowDigest {

  type Opaque(==, !new)

  datatype Value = Null | Integer(n: int) | Other(v: Opaque)

  type Row = seq<Value>

  /** A row's hash: SHA-256 of its canonical JSON. */
  type Hash = Row -> nat

  const MODULUS: nat := 0x1_00000000_00000000_00000000_00000000_00000000_00000000_00000000_00000000

  /** Bit by bit. */
  function Xor(a: nat, b: nat): nat {
    if a == 0 then b else if b == 0 then a
    else 2 * Xor(a / 2, b / 2) + (if a % 2 == b % 2 then 0 else 1)
  }

  lemma {:induction false} XorBits(a: nat, b: nat)
    ensures Xor(a, b) / 2 == Xor(a / 2, b / 2)
    ensures Xor(a, b) % 2 == if a % 2 == b % 2 then 0 else 1
  {
  }

  lemma {:induction false} XorSwaps(x: nat, g: nat, h: nat)
    ensures Xor(Xor(x, g), h) == Xor(Xor(x, h), g)
    decreases x + g + h
  {
    if x != 0 || g != 0 || h != 0 {
      XorBits(x, g);
      XorBits(x, h);
      XorBits(Xor(x, g), h);
      XorBits(Xor(x, h), g);
      XorSwaps(x / 2, g / 2, h / 2);
    }
  }

  datatype Sum = Sum(count: nat, total: nat, xor: nat)

  const ZERO := Sum(0, 0, 0)

  function Plus(sum: Sum, h: nat): Sum { Sum(sum.count + 1, (sum.total + h) % MODULUS, Xor(sum.xor, h)) }

  function DigestOf(hash: Hash, rows: seq<Row>): Sum {
    if rows == [] then ZERO else Plus(DigestOf(hash, rows[..|rows| - 1]), hash(rows[|rows| - 1]))
  }

  lemma WrappedSum(t: nat, g: nat, h: nat)
    ensures ((t + g) % MODULUS + h) % MODULUS == (t + g + h) % MODULUS
  {
  }

  lemma PlusCommutes(sum: Sum, g: nat, h: nat)
    ensures Plus(Plus(sum, g), h) == Plus(Plus(sum, h), g)
  {
    WrappedSum(sum.total, g, h);
    WrappedSum(sum.total, h, g);
    XorSwaps(sum.xor, g, h);
  }

  function Without(rows: seq<Row>, i: nat): seq<Row>
    requires i < |rows|
  {
    rows[..i] + rows[i + 1..]
  }

  /** Any row may be counted last. */
  lemma {:induction false} CountedLast(hash: Hash, rows: seq<Row>, i: nat)
    requires i < |rows|
    ensures DigestOf(hash, rows) == Plus(DigestOf(hash, Without(rows, i)), hash(rows[i]))
  {
    var n := |rows| - 1;
    if i == n {
      assert Without(rows, i) == rows[..n];
    } else {
      CountedLast(hash, rows[..n], i);
      var rest := Without(rows, i);
      assert rest[..|rest| - 1] == Without(rows[..n], i) && rest[|rest| - 1] == rows[n];
      PlusCommutes(DigestOf(hash, Without(rows[..n], i)), hash(rows[i]), hash(rows[n]));
    }
  }

  lemma WithoutBag(rows: seq<Row>, i: nat)
    requires i < |rows|
    ensures multiset(Without(rows, i)) == multiset(rows) - multiset{rows[i]}
  {
    assert rows == rows[..i] + [rows[i]] + rows[i + 1..];
  }

  /** The digest depends only on which rows there are and how many of each. */
  lemma {:induction false} DigestIsUnordered(hash: Hash, a: seq<Row>, b: seq<Row>)
    requires multiset(a) == multiset(b)
    ensures DigestOf(hash, a) == DigestOf(hash, b)
    decreases |a|
  {
    assert |a| == |multiset(a)| == |multiset(b)| == |b|;
    if a != [] {
      var n := |a| - 1;
      assert a[n] in multiset(b);
      var i :| 0 <= i < |b| && b[i] == a[n];
      WithoutBag(a, n);
      WithoutBag(b, i);
      assert Without(a, n) == a[..n];
      DigestIsUnordered(hash, a[..n], Without(b, i));
      CountedLast(hash, b, i);
    }
  }

  /** Some order of a bag of rows. */
  ghost function Listed(bag: multiset<Row>): (rows: seq<Row>)
    ensures multiset(rows) == bag
    decreases |bag|
  {
    if bag == multiset{} then []
    else
      var row :| row in bag;
      Listed(bag - multiset{row}) + [row]
  }

  /** The digest of a stored table. */
  ghost function BagDigest(hash: Hash, bag: multiset<Row>): Sum { DigestOf(hash, Listed(bag)) }

  lemma AnyOrder(hash: Hash, bag: multiset<Row>, rows: seq<Row>)
    requires multiset(rows) == bag
    ensures DigestOf(hash, rows) == BagDigest(hash, bag)
  {
    DigestIsUnordered(hash, rows, Listed(bag));
  }

  lemma {:induction false} DigestCounts(hash: Hash, rows: seq<Row>)
    ensures DigestOf(hash, rows).count == |rows|
  {
    if rows != [] { DigestCounts(hash, rows[..|rows| - 1]); }
  }

  // ------------------------------------------------------ what a digest says

  function Bit(n: nat, k: nat): nat { if k == 0 then n % 2 else Bit(n / 2, k - 1) }

  lemma {:induction false} XorBit(a: nat, b: nat, k: nat)
    ensures Bit(Xor(a, b), k) == (Bit(a, k) + Bit(b, k)) % 2
  {
    XorBits(a, b);
    if k > 0 { XorBit(a / 2, b / 2, k - 1); }
  }

  function TotalOf(hash: Hash, rows: seq<Row>): nat {
    if rows == [] then 0 else TotalOf(hash, rows[..|rows| - 1]) + hash(rows[|rows| - 1])
  }

  /** How many of the row hashes have bit `k` set. */
  function OnesAt(hash: Hash, rows: seq<Row>, k: nat): nat {
    if rows == [] then 0 else OnesAt(hash, rows[..|rows| - 1], k) + Bit(hash(rows[|rows| - 1]), k)
  }

  /** The sum is that of the hashes, modulo 2 to the power of 256. */
  lemma {:induction false} TotalSays(hash: Hash, rows: seq<Row>)
    ensures DigestOf(hash, rows).total == TotalOf(hash, rows) % MODULUS
  {
    if rows != [] {
      var n := |rows| - 1;
      TotalSays(hash, rows[..n]);
      WrappedSum(0, TotalOf(hash, rows[..n]), hash(rows[n]));
    }
  }

  lemma ParityAdds(parity: nat, ones: nat, bit: nat)
    requires parity == ones % 2
    ensures (parity + bit) % 2 == (ones + bit) % 2
  {
  }

  /** Each bit of the exclusive-or is the parity of that bit over the hashes. */
  lemma {:induction false} XorSays(hash: Hash, rows: seq<Row>, k: nat)
    ensures Bit(DigestOf(hash, rows).xor, k) == OnesAt(hash, rows, k) % 2
  {
    if rows == [] {
      BitOfZero(k);
    } else {
      var n := |rows| - 1;
      XorSays(hash, rows[..n], k);
      XorBit(DigestOf(hash, rows[..n]).xor, hash(rows[n]), k);
      ParityAdds(Bit(DigestOf(hash, rows[..n]).xor, k), OnesAt(hash, rows[..n], k), Bit(hash(rows[n]), k));
    }
  }

  lemma {:induction false} BitOfZero(k: nat)
    ensures Bit(0, k) == 0
  {
    if k > 0 { BitOfZero(k - 1); }
  }

  /** What the digest of a table says of its rows, in whatever order they are listed: how many there are, the sum of
      their hashes modulo 2 to the power of 256, and for each bit its parity over the hashes. */
  lemma BagSays(hash: Hash, bag: multiset<Row>, rows: seq<Row>, k: nat)
    requires multiset(rows) == bag
    ensures var sum := BagDigest(hash, bag);
      && sum.count == |bag|
      && sum.total == TotalOf(hash, rows) % MODULUS
      && Bit(sum.xor, k) == OnesAt(hash, rows, k) % 2
  {
    assert |multiset(rows)| == |rows|;
    AnyOrder(hash, bag, rows);
    DigestCounts(hash, rows);
    TotalSays(hash, rows);
    XorSays(hash, rows, k);
  }

  /** Different rows have different hashes, of 256 bits. */
  ghost predicate TellsApart(hash: Hash) {
    && (forall a :: hash(a) < MODULUS)
    && (forall a, b :: hash(a) == hash(b) ==> a == b)
  }

  /** The two hold the same rows but for one. */
  ghost predicate OffBy(rows: seq<Row>, bag: multiset<Row>, common: multiset<Row>, x: Row, y: Row) {
    x != y && multiset(rows) == common + multiset{x} && bag == common + multiset{y}
  }

  ghost predicate OffByOne(rows: seq<Row>, bag: multiset<Row>) {
    exists common, x, y :: OffBy(rows, bag, common, x, y)
  }

  lemma SumsDiffer(t: nat, g: nat, h: nat)
    requires g < MODULUS && h < MODULUS && g != h
    ensures (t + g) % MODULUS != (t + h) % MODULUS
  {
  }

  lemma LastRowTells(hash: Hash, rest: seq<Row>, x: Row, y: Row)
    requires hash(x) != hash(y) && hash(x) < MODULUS && hash(y) < MODULUS
    ensures DigestOf(hash, rest + [x]).total != DigestOf(hash, rest + [y]).total
  {
    TotalSays(hash, rest + [x]);
    TotalSays(hash, rest + [y]);
    TotalOfOneMore(hash, rest, x);
    TotalOfOneMore(hash, rest, y);
    SumsDiffer(TotalOf(hash, rest), hash(x), hash(y));
  }

  lemma TotalOfOneMore(hash: Hash, rest: seq<Row>, x: Row)
    ensures TotalOf(hash, rest + [x]) == TotalOf(hash, rest) + hash(x)
  {
    assert (rest + [x])[..|rest|] == rest;
  }

  /** One row more in place of another is noticed. */
  lemma OneRowTells(hash: Hash, rows: seq<Row>, bag: multiset<Row>, common: multiset<Row>, x: Row, y: Row)
    requires OffBy(rows, bag, common, x, y) && hash(x) != hash(y) && hash(x) < MODULUS && hash(y) < MODULUS
    ensures DigestOf(hash, rows) != BagDigest(hash, bag)
  {
    var rest := Listed(common);
    LastRowTells(hash, rest, x, y);
    DigestIsUnordered(hash, rows, rest + [x]);
    AnyOrder(hash, bag, rest + [y]);
  }

  class Digest {
    const hash: Hash
    var count: nat
    var total: nat
    var xor: nat

    constructor (hash: Hash)
      ensures this.hash == hash && Value() == ZERO
    {
      this.hash := hash;
      count, total, xor := 0, 0, 0;
    }

    function Value(): Sum
      reads this
    {
      Sum(count, total, xor)
    }

    method Add(row: Row)
      modifies this
      ensures Value() == Plus(old(Value()), hash(row))
    {
      var valueHash := hash(row);
      total := (total + valueHash) % MODULUS;
      xor := Xor(xor, valueHash);
      count := count + 1;
    }
  }

  /** `row_digest`. */
  method DigestRows(hash: Hash, rows: seq<Row>) returns (sum: Sum)
    ensures sum == DigestOf(hash, rows)
  {
    var digest := new Digest(hash);
    for i := 0 to |rows|
      invariant digest.hash == hash && digest.Value() == DigestOf(hash, rows[..i])
    {
      digest.Add(rows[i]);
      assert rows[..i + 1][..i] == rows[..i];
    }
    assert rows[..|rows|] == rows;
    return digest.Value();
  }
}

/** Small shared vocabulary: optional values, results, time and sums over tables. */
module Prelude {

  datatype Option<+T> = None | Some(value: T)

  datatype Result<+T, +E> = Ok(value: T) | Err(error: E)

  /** Milliseconds since the epoch, on the clock the database and the server share. */
  type Time = int

  /** The rows of a query result in some order, each once. */
  ghost predicate Lists<T(!new)>(xs: seq<T>, s: set<T>) {
    (forall x :: x in xs <==> x in s) && Distinct(xs)
  }

  ghost predicate Distinct<T(!new)>(xs: seq<T>) {
    forall i, j | 0 <= i < j < |xs| :: xs[i] != xs[j]
  }

  lemma Regroup<T>(a: seq<T>, b: seq<T>, c: seq<T>)
    ensures a + b + c == a + (b + c)
  {
  }

  /** A hexadecimal digit; `ten` is the character written for ten, which sets the case. */
  function HexDigit(n: nat, ten: nat): (u: nat)
    requires n < 16 && ten <= 0x61
    ensures u <= 0x66
  {
    if n < 10 then 0x30 + n else ten + n - 10
  }

  /** Both cases are read. */
  function HexValue(u: int): (n: Option<nat>)
    ensures n.Some? ==> n.value < 16
  {
    if 0x30 <= u <= 0x39 then Some(u - 0x30)
    else if 0x41 <= u <= 0x46 then Some(u - 0x41 + 10)
    else if 0x61 <= u <= 0x66 then Some(u - 0x61 + 10)
    else None
  }

  /** A character is a digit of a number exactly in one of the two cases. */
  lemma HexValueExactly(u: int, n: nat)
    ensures HexValue(u) == Some(n) <==>
      n < 16 && (u == "0123456789ABCDEF"[n] as int || u == "0123456789abcdef"[n] as int)
  {
  }

  lemma HexRoundTrip(n: nat, ten: nat)
    requires n < 16 && (ten == 0x41 || ten == 0x61)
    ensures HexValue(HexDigit(n, ten)) == Some(n)
  {
  }

  /** `[...new Set(xs)]`: each value once, in the order of first occurrence. */
  function Unique<T(==)>(xs: seq<T>): seq<T> {
    if xs == [] then []
    else
      var before, last := Unique(xs[..|xs| - 1]), xs[|xs| - 1];
      if last in before then before else before + [last]
  }

  lemma {:induction false} UniqueKeeps<T(!new)>(xs: seq<T>)
    ensures Distinct(Unique(xs)) && forall x :: x in Unique(xs) <==> x in xs
  {
    if xs != [] {
      UniqueKeeps(xs[..|xs| - 1]);
      assert xs == xs[..|xs| - 1] + [xs[|xs| - 1]];
    }
  }

  /** The total weight of the rows of a table. */
  ghost function Sum<K, V>(rows: map<K, V>, weight: V -> nat): nat
    decreases |rows|
  {
    if rows == map[] then 0
    else
      var k :| k in rows;
      weight(rows[k]) + Sum(rows - {k}, weight)
  }

  /** The sum does not depend on the order in which rows are visited. */
  lemma {:induction false} SumSplit<K, V>(rows: map<K, V>, weight: V -> nat, k: K)
    requires k in rows
    ensures Sum(rows, weight) == weight(rows[k]) + Sum(rows - {k}, weight)
    decreases |rows|
  {
    var j :| j in rows && Sum(rows, weight) == weight(rows[j]) + Sum(rows - {j}, weight);
    if j != k {
      SumSplit(rows - {j}, weight, k);
      SumSplit(rows - {k}, weight, j);
      assert rows - {j} - {k} == rows - {k} - {j};
    }
  }

  /** Replacing one row changes the sum by the difference of the two weights. */
  lemma {:induction false} SumUpdate<K, V>(rows: map<K, V>, weight: V -> nat, k: K, row: V)
    requires k in rows
    ensures Sum(rows[k := row], weight) + weight(rows[k]) == Sum(rows, weight) + weight(row)
  {
    SumSplit(rows, weight, k);
    SumSplit(rows[k := row], weight, k);
    assert rows[k := row] - {k} == rows - {k};
  }

  /** A strict order in which equal keys leave rows incomparable, as ORDER BY does. */
  ghost predicate StrictOrder<V(!new)>(precedes: (V, V) -> bool) {
    && (forall a, b :: precedes(a, b) ==> !precedes(b, a))
    && (forall a, b, c :: precedes(a, b) && precedes(b, c) ==> precedes(a, c))
  }

  predicate IsFirst<K, V>(rows: map<K, V>, precedes: (V, V) -> bool, ids: set<K>, id: K)
    requires ids <= rows.Keys && id in ids
  {
    forall other | other in ids :: !precedes(rows[other], rows[id])
  }

  /** Among finitely many rows one comes first. */
  lemma {:induction false} FirstExists<K, V(!new)>(rows: map<K, V>, precedes: (V, V) -> bool, ids: set<K>)
    requires StrictOrder(precedes) && ids <= rows.Keys && ids != {}
    ensures exists id | id in ids :: IsFirst(rows, precedes, ids, id)
    decreases ids
  {
    var a :| a in ids;
    if ids == {a} {
      assert IsFirst(rows, precedes, ids, a);
    } else {
      FirstExists(rows, precedes, ids - {a});
      var b :| b in ids - {a} && IsFirst(rows, precedes, ids - {a}, b);
      if precedes(rows[a], rows[b]) {
        assert forall other | other in ids :: precedes(rows[other], rows[a]) ==> precedes(rows[other], rows[b]);
        assert IsFirst(rows, precedes, ids, a);
      } else {
        assert IsFirst(rows, precedes, ids, b);
      }
    }
  }
}

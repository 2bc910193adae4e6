/** A database table as the services see it: rows in table order, each identified by a
    primary key that a `key` function reads off the row. Table order is an order the model
    fixes (an added row goes last, an updated row keeps its place, a removed row leaves no
    gap); the database itself promises none to a query without `OrderBy`. `FindAsync`, `Add`, `Remove`,
    `ToListAsync`, `Where` and `Select` are modelled here once, for every entity type. */
module Table {
  import opened Common

  /** The primary-key constraint: no two rows share a key. */
  ghost predicate KeysUnique<T, K>(rows: seq<T>, key: T -> K) {
    forall i, j :: 0 <= i < j < |rows| ==> key(rows[i]) != key(rows[j])
  }

  /** Some row has key `k`. */
  predicate HasKey<T, K(==)>(rows: seq<T>, key: T -> K, k: K) {
    exists i :: 0 <= i < |rows| && key(rows[i]) == k
  }

  /** The position of the row with key `k`, or `None` when there is none. */
  function IndexOf<T, K(==)>(rows: seq<T>, key: T -> K, k: K): (r: Option<nat>)
    ensures r.None? <==> !HasKey(rows, key, k)
    ensures r.Some? ==> r.value < |rows| && key(rows[r.value]) == k
    ensures r.Some? ==> forall i :: 0 <= i < r.value ==> key(rows[i]) != k
  {
    if |rows| == 0 then None
    else if key(rows[0]) == k then Some(0)
    else
      match IndexOf(rows[1..], key, k)
      case None =>
        assert forall i :: 1 <= i < |rows| ==> rows[i] == rows[1..][i - 1];
        None
      case Some(j) =>
        assert forall i :: 1 <= i <= j ==> rows[i] == rows[1..][i - 1];
        Some(j + 1)
  }

  /** `FindAsync(k)`: the row whose key is `k`, or `None` (C#'s `null`). */
  function Find<T, K(==)>(rows: seq<T>, key: T -> K, k: K): (r: Option<T>)
    ensures r.None? <==> !HasKey(rows, key, k)
    ensures r.Some? ==> r.value in rows && key(r.value) == k
  {
    match IndexOf(rows, key, k)
    case None => None
    case Some(i) => Some(rows[i])
  }

  /** Under the key constraint the row that carries a key is the one `IndexOf` reports. */
  lemma IndexOfUnique<T, K>(rows: seq<T>, key: T -> K, i: nat)
    requires KeysUnique(rows, key)
    requires i < |rows|
    ensures IndexOf(rows, key, key(rows[i])) == Some(i)
  {
  }

  /** `ToListAsync().Select(f)`: every row projected, in table order. */
  function MapRows<T, U>(rows: seq<T>, f: T -> U): (r: seq<U>)
    ensures |r| == |rows|
    ensures forall i :: 0 <= i < |rows| ==> r[i] == f(rows[i])
  {
    if |rows| == 0 then [] else [f(rows[0])] + MapRows(rows[1..], f)
  }

  /** `Where(p)`: the rows that satisfy `p`, in table order. */
  function Filter<T>(rows: seq<T>, p: T -> bool): (r: seq<T>)
    ensures |r| <= |rows|
    ensures forall i :: 0 <= i < |r| ==> r[i] in rows && p(r[i])
    ensures forall i :: 0 <= i < |rows| && p(rows[i]) ==> rows[i] in r
  {
    if |rows| == 0 then []
    else if p(rows[0]) then [rows[0]] + Filter(rows[1..], p)
    else Filter(rows[1..], p)
  }

  /** Filtering keeps table order: it distributes over concatenation. */
  lemma {:induction false} FilterAppend<T>(a: seq<T>, b: seq<T>, p: T -> bool)
    ensures Filter(a + b, p) == Filter(a, p) + Filter(b, p)
  {
    if |a| == 0 {
      assert a + b == b;
    } else {
      assert (a + b)[1..] == a[1..] + b;
      FilterAppend(a[1..], b, p);
    }
  }

  /** Filtering loses no matching row: each row appears in the result as often as it
      appears in the table when it matches, and not at all otherwise. */
  lemma {:induction false} FilterCount<T>(rows: seq<T>, p: T -> bool, x: T)
    ensures multiset(Filter(rows, p))[x] == if p(x) then multiset(rows)[x] else 0
  {
    if |rows| != 0 {
      FilterCount(rows[1..], p, x);
      assert rows == [rows[0]] + rows[1..];
    }
  }

  /** `Where(p).Select(f)` after `Add(x)`: the earlier answer, followed by `x`'s projection
      when `x` matches. A newly added row is listed last. */
  lemma {:induction false} SelectWhereAppend<T, U>(rows: seq<T>, p: T -> bool, f: T -> U, x: T)
    ensures MapRows(Filter(rows + [x], p), f) ==
            MapRows(Filter(rows, p), f) + (if p(x) then [f(x)] else [])
  {
    FilterAppend(rows, [x], p);
    assert [x][1..] == [];
    var a, b := Filter(rows, p), Filter([x], p);
    assert MapRows(a + b, f) == MapRows(a, f) + MapRows(b, f);
  }

  /** `Where` after `Select` is `Select` after `Where` when the two tests agree on every row:
      filtering the projected listing keeps the same rows in the same order. */
  lemma {:induction false} SelectThenWhere<T, U>(rows: seq<T>, p: T -> bool, f: T -> U, q: U -> bool)
    requires forall x :: q(f(x)) == p(x)
    ensures MapRows(Filter(rows, p), f) == Filter(MapRows(rows, f), q)
  {
    if |rows| != 0 {
      SelectThenWhere(rows[1..], p, f, q);
      assert MapRows(rows, f)[1..] == MapRows(rows[1..], f);
    }
  }

  /** `Add(x)` with a key no row has: the constraint still holds, `x` is found under its key and
      every other key finds what it found before. */
  lemma AppendFresh<T, K>(rows: seq<T>, key: T -> K, x: T)
    requires KeysUnique(rows, key)
    requires !HasKey(rows, key, key(x))
    ensures KeysUnique(rows + [x], key)
    ensures Find(rows + [x], key, key(x)) == Some(x)
    ensures forall k :: k != key(x) ==> Find(rows + [x], key, k) == Find(rows, key, k)
  {
    var rows' := rows + [x];
    assert KeysUnique(rows', key);
    IndexOfUnique(rows', key, |rows|);
    forall k | k != key(x)
      ensures Find(rows', key, k) == Find(rows, key, k)
    {
      if HasKey(rows, key, k) {
        var i := IndexOf(rows, key, k).value;
        IndexOfUnique(rows', key, i);
      } else {
        assert !HasKey(rows', key, k);
      }
    }
  }

  /** Writing back row `i` with its key unchanged: the constraint still holds, the key of row `i`
      finds the new value and every other key finds what it found before. */
  lemma ReplaceKeepingKey<T, K>(rows: seq<T>, key: T -> K, i: nat, x: T)
    requires KeysUnique(rows, key)
    requires i < |rows| && key(x) == key(rows[i])
    ensures KeysUnique(rows[i := x], key)
    ensures Find(rows[i := x], key, key(x)) == Some(x)
    ensures forall k :: k != key(x) ==> Find(rows[i := x], key, k) == Find(rows, key, k)
  {
    var rows' := rows[i := x];
    assert KeysUnique(rows', key);
    IndexOfUnique(rows', key, i);
    forall k | k != key(x)
      ensures Find(rows', key, k) == Find(rows, key, k)
    {
      if HasKey(rows, key, k) {
        var j := IndexOf(rows, key, k).value;
        IndexOfUnique(rows', key, j);
      } else {
        assert !HasKey(rows', key, k);
      }
    }
  }

  /** `Remove` of row `i`: the table loses exactly that row, the constraint still holds, its key
      is no longer found and every other key finds what it found before. */
  lemma RemoveAt<T, K>(rows: seq<T>, key: T -> K, i: nat)
    requires KeysUnique(rows, key)
    requires i < |rows|
    ensures multiset(rows[..i] + rows[i + 1..]) == multiset(rows) - multiset{rows[i]}
    ensures KeysUnique(rows[..i] + rows[i + 1..], key)
    ensures Find(rows[..i] + rows[i + 1..], key, key(rows[i])).None?
    ensures forall k :: k != key(rows[i]) ==> Find(rows[..i] + rows[i + 1..], key, k) == Find(rows, key, k)
  {
    var rows' := rows[..i] + rows[i + 1..];
    assert rows == rows[..i] + [rows[i]] + rows[i + 1..];
    assert forall j :: 0 <= j < |rows'| ==> rows'[j] == rows[if j < i then j else j + 1];
    assert KeysUnique(rows', key);
    assert !HasKey(rows', key, key(rows[i]));
    forall k | k != key(rows[i])
      ensures Find(rows', key, k) == Find(rows, key, k)
    {
      if HasKey(rows, key, k) {
        var j := IndexOf(rows, key, k).value;
        IndexOfUnique(rows', key, if j < i then j else j - 1);
      } else {
        assert !HasKey(rows', key, k);
      }
    }
  }
}

/**
 * SQLite tables as sequences of rows in rowid order.  A table with a UNIQUE
 * constraint is described by the function that extracts the constrained
 * columns (`key`); the operations are the three statements the application
 * issues against such tables:
 *   - `INSERT OR REPLACE`: the conflicting row is deleted and the new row is
 *     appended (it receives a fresh rowid), see `Upsert`;
 *   - `UPDATE ... WHERE <key>`: rows with that key are changed in place, see
 *     `Update`;
 *   - `DELETE ... WHERE <key>`: see `Without`.
 */
module Tables {
  import opened Common

  predicate UniqueKeys<T, K(==)>(rows: seq<T>, key: T -> K)
  {
    forall i, j :: 0 <= i < j < |rows| ==> key(rows[i]) != key(rows[j])
  }

  /** `SELECT ... WHERE <key> = k` (the first row in rowid order). */
  function Find<T(==,!new), K(==)>(rows: seq<T>, key: T -> K, k: K): (r: Option<T>)
    ensures r.Some? ==> r.value in rows && key(r.value) == k
    ensures r.None? ==> forall x :: x in rows ==> key(x) != k
  {
    if |rows| == 0 then None
    else if key(rows[0]) == k then Some(rows[0])
    else Find(rows[1..], key, k)
  }

  /** Rows rewritten without touching their keys keep the keys unique. */
  lemma SameKeysUnique<T, K>(rows: seq<T>, changed: seq<T>, key: T -> K)
    requires UniqueKeys(rows, key) && |changed| == |rows|
    requires forall i :: 0 <= i < |rows| ==> key(changed[i]) == key(rows[i])
    ensures UniqueKeys(changed, key)
  {
  }

  /** The rows after the first of a table with unique keys have unique keys,
      none of them the first row's. */
  lemma UniqueTail<T(!new), K>(rows: seq<T>, key: T -> K)
    requires |rows| > 0 && UniqueKeys(rows, key)
    ensures UniqueKeys(rows[1..], key)
    ensures forall y :: y in rows[1..] ==> key(y) != key(rows[0])
  {
    var tail := rows[1..];
    forall i, l | 0 <= i < l < |tail| ensures key(tail[i]) != key(tail[l]) {
      assert tail[i] == rows[i + 1] && tail[l] == rows[l + 1];
    }
    forall y | y in tail ensures key(y) != key(rows[0]) {
      var m :| 0 <= m < |tail| && tail[m] == y;
      assert rows[m + 1] == y;
    }
  }

  lemma UniqueCons<T(!new), K>(x: T, rest: seq<T>, key: T -> K)
    requires UniqueKeys(rest, key)
    requires forall y :: y in rest ==> key(y) != key(x)
    ensures UniqueKeys([x] + rest, key)
  {
    var r := [x] + rest;
    forall i, l | 0 <= i < l < |r| ensures key(r[i]) != key(r[l]) {
      assert r[l] == rest[l - 1];
      if i > 0 {
        assert r[i] == rest[i - 1];
      } else {
        assert r[l] in rest;
      }
    }
  }

  /** In a table whose keys are unique, every row is found by its key. */
  lemma {:induction false} FindUnique<T(!new), K>(rows: seq<T>, key: T -> K, x: T)
    requires UniqueKeys(rows, key)
    requires x in rows
    ensures Find(rows, key, key(x)) == Some(x)
  {
    if rows[0] != x {
      assert x in rows[1..];
      UniqueTail(rows, key);
      FindUnique(rows[1..], key, x);
    }
  }

  /** `DELETE ... WHERE <key> = k`: the rows with another key, in order. */
  function Without<T(==,!new), K(==)>(rows: seq<T>, key: T -> K, k: K): (r: seq<T>)
    ensures forall x :: x in r <==> x in rows && key(x) != k
    ensures |r| <= |rows|
  {
    if |rows| == 0 then []
    else (if key(rows[0]) == k then [] else [rows[0]]) + Without(rows[1..], key, k)
  }

  lemma {:induction false} WithoutUnique<T(!new), K>(rows: seq<T>, key: T -> K, k: K)
    requires UniqueKeys(rows, key)
    ensures UniqueKeys(Without(rows, key, k), key)
  {
    if |rows| > 0 {
      var tail := rows[1..];
      UniqueTail(rows, key);
      WithoutUnique(tail, key, k);
      var rest := Without(tail, key, k);
      if key(rows[0]) != k {
        UniqueCons(rows[0], rest, key);
      } else {
        assert Without(rows, key, k) == rest;
      }
    }
  }

  /** `INSERT OR REPLACE`: the row holding the same key (if any) is deleted and
      the new row is appended. */
  function Upsert<T(==,!new), K(==)>(rows: seq<T>, key: T -> K, x: T): (r: seq<T>)
    ensures |r| >= 1 && r[|r| - 1] == x
  {
    Without(rows, key, key(x)) + [x]
  }

  /** After an `INSERT OR REPLACE` the keys are still unique, the new row is
      what its key finds, and every other key finds what it found before. */
  lemma FindUpsert<T(!new), K>(rows: seq<T>, key: T -> K, x: T, k: K)
    requires UniqueKeys(rows, key)
    ensures UniqueKeys(Upsert(rows, key, x), key)
    ensures Find(Upsert(rows, key, x), key, k) == if k == key(x) then Some(x) else Find(rows, key, k)
  {
    var w := Without(rows, key, key(x));
    var r := Upsert(rows, key, x);
    WithoutUnique(rows, key, key(x));
    assert r == w + [x];
    forall i, l | 0 <= i < l < |r| ensures key(r[i]) != key(r[l]) {
      if l == |r| - 1 {
        assert r[i] == w[i] && w[i] in w;
      } else {
        assert r[i] == w[i] && r[l] == w[l];
      }
    }
    if k == key(x) {
      FindUnique(r, key, x);
    } else {
      match Find(rows, key, k)
      case Some(y) =>
        assert y in w;
        assert y in r;
        FindUnique(r, key, y);
      case None =>
    }
  }

  /** `UPDATE ... WHERE <key> = key(x)`: matching rows are replaced in place. */
  function Update<T(==,!new), K(==)>(rows: seq<T>, key: T -> K, x: T): (r: seq<T>)
    ensures |r| == |rows|
    ensures forall i :: 0 <= i < |rows| ==> r[i] == if key(rows[i]) == key(x) then x else rows[i]
    ensures forall y :: y in r ==> y == x || (y in rows && key(y) != key(x))
  {
    seq(|rows|, i requires 0 <= i < |rows| => if key(rows[i]) == key(x) then x else rows[i])
  }

  /** After an `UPDATE` by key the keys are still unique, the key finds the new
      row exactly when it found a row before, and other keys are unaffected. */
  lemma FindUpdate<T(!new), K>(rows: seq<T>, key: T -> K, x: T, k: K)
    requires UniqueKeys(rows, key)
    ensures UniqueKeys(Update(rows, key, x), key)
    ensures Find(Update(rows, key, x), key, k) ==
      if k != key(x) then Find(rows, key, k)
      else if Find(rows, key, k).Some? then Some(x) else None
  {
    var r := Update(rows, key, x);
    assert forall i :: 0 <= i < |r| ==> key(r[i]) == key(rows[i]);
    var f := Find(rows, key, k);
    if f.Some? {
      var j :| 0 <= j < |rows| && rows[j] == f.value;
      FindUnique(r, key, r[j]);
    }
  }

  /** Assignment `d[key(x)] = x` on an insertion-ordered dictionary held as
      its entries: an existing entry is replaced in its position, a new one is
      appended. */
  function Assign<T(==,!new), K(==)>(rows: seq<T>, key: T -> K, x: T): (r: seq<T>)
    ensures x in r
    ensures forall y :: y in r ==> y == x || (y in rows && key(y) != key(x))
  {
    if Find(rows, key, key(x)).Some? then Update(rows, key, x) else rows + [x]
  }

  /** After an assignment the keys are still unique, the key finds the new
      entry and every other key finds what it found before. */
  lemma FindAssign<T(!new), K>(rows: seq<T>, key: T -> K, x: T, k: K)
    requires UniqueKeys(rows, key)
    ensures UniqueKeys(Assign(rows, key, x), key)
    ensures Find(Assign(rows, key, x), key, k) == if k == key(x) then Some(x) else Find(rows, key, k)
  {
    if Find(rows, key, key(x)).Some? {
      FindUpdate(rows, key, x, k);
    } else {
      var r := rows + [x];
      forall i, l | 0 <= i < l < |r| ensures key(r[i]) != key(r[l]) {
        if l == |r| - 1 {
          assert r[i] == rows[i] && rows[i] in rows;
        }
      }
      if k == key(x) {
        FindUnique(r, key, x);
      } else {
        match Find(rows, key, k)
        case Some(y) =>
          assert y in r;
          FindUnique(r, key, y);
        case None =>
      }
    }
  }
}

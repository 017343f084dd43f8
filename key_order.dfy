/** ORDER BY, abstracted: the store sorts string columns by its collation
    (for an ENUM column, by declaration order), given here as a parameter
    `lt`, a strict total order on strings. */
module KeyOrder {

  ghost predicate StrictTotalOrder(lt: (string, string) -> bool)
  {
    && (forall x :: !lt(x, x))
    && (forall x, y, z :: lt(x, y) && lt(y, z) ==> lt(x, z))
    && (forall x, y :: x != y ==> lt(x, y) || lt(y, x))
  }

  /** Ascending with no repeats. */
  ghost predicate StrictlySorted(keys: seq<string>, lt: (string, string) -> bool)
  {
    forall i, j :: 0 <= i < j < |keys| ==> lt(keys[i], keys[j])
  }

  /** Ascending by `key`, equal keys allowed. */
  ghost predicate SortedBy<T>(rows: seq<T>, key: T -> string, lt: (string, string) -> bool)
  {
    forall i, j :: 0 <= i < j < |rows| ==> !lt(key(rows[j]), key(rows[i]))
  }

  /** Adds `k` to an ascending key list unless it is there already. */
  function InsertKey(k: string, keys: seq<string>, lt: (string, string) -> bool): seq<string>
  {
    if keys == [] then [k]
    else if k == keys[0] then keys
    else if lt(k, keys[0]) then [k] + keys
    else [keys[0]] + InsertKey(k, keys[1..], lt)
  }

  /** `GROUP BY k ORDER BY k`: the distinct values of `ks`, ascending. */
  function SortedKeys(ks: seq<string>, lt: (string, string) -> bool): seq<string>
  {
    if ks == [] then [] else InsertKey(ks[0], SortedKeys(ks[1..], lt), lt)
  }

  lemma {:induction false} InsertKeySorted(k: string, keys: seq<string>, lt: (string, string) -> bool)
    requires StrictTotalOrder(lt) && StrictlySorted(keys, lt)
    ensures StrictlySorted(InsertKey(k, keys, lt), lt)
    ensures forall x :: x in InsertKey(k, keys, lt) <==> x == k || x in keys
  {
    if keys != [] && k != keys[0] && !lt(k, keys[0]) {
      InsertKeySorted(k, keys[1..], lt);
      var r := InsertKey(k, keys, lt);
      assert r == [keys[0]] + InsertKey(k, keys[1..], lt);
      forall i, j | 0 <= i < j < |r| ensures lt(r[i], r[j]) {
        if i == 0 {
          assert r[j] in InsertKey(k, keys[1..], lt);
          if r[j] != k {
            var m :| 0 <= m < |keys[1..]| && keys[1..][m] == r[j];
            assert keys[m + 1] == r[j];
          }
        }
      }
    }
  }

  /** The ordered key list holds each value of `ks` once, in ascending order. */
  lemma {:induction false} SortedKeysSpec(ks: seq<string>, lt: (string, string) -> bool)
    requires StrictTotalOrder(lt)
    ensures StrictlySorted(SortedKeys(ks, lt), lt)
    ensures forall x :: x in SortedKeys(ks, lt) <==> x in ks
  {
    if ks != [] {
      SortedKeysSpec(ks[1..], lt);
      InsertKeySorted(ks[0], SortedKeys(ks[1..], lt), lt);
      forall x ensures x in ks <==> x == ks[0] || x in ks[1..] {
        if x in ks && x != ks[0] {
          var m :| 0 <= m < |ks| && ks[m] == x;
          assert ks[1..][m - 1] == x;
        }
      }
    }
  }

  /** A strictly ascending list repeats no key. */
  lemma StrictlySortedDistinct(keys: seq<string>, lt: (string, string) -> bool)
    requires StrictTotalOrder(lt) && StrictlySorted(keys, lt)
    ensures forall i, j :: 0 <= i < j < |keys| ==> keys[i] != keys[j]
  {
  }

  /** Places `x` before the first element whose key is not below its own. */
  function InsertBy<T>(x: T, rows: seq<T>, key: T -> string, lt: (string, string) -> bool): seq<T>
  {
    if rows == [] || !lt(key(rows[0]), key(x)) then [x] + rows
    else [rows[0]] + InsertBy(x, rows[1..], key, lt)
  }

  /** Stable insertion sort by `key`. */
  function SortBy<T>(rows: seq<T>, key: T -> string, lt: (string, string) -> bool): seq<T>
  {
    if rows == [] then [] else InsertBy(rows[0], SortBy(rows[1..], key, lt), key, lt)
  }

  lemma {:induction false} InsertBySorted<T>(x: T, rows: seq<T>, key: T -> string, lt: (string, string) -> bool)
    requires StrictTotalOrder(lt) && SortedBy(rows, key, lt)
    ensures SortedBy(InsertBy(x, rows, key, lt), key, lt)
    ensures multiset(InsertBy(x, rows, key, lt)) == multiset(rows) + multiset{x}
  {
    var r := InsertBy(x, rows, key, lt);
    if rows == [] || !lt(key(rows[0]), key(x)) {
      forall i, j | 0 <= i < j < |r| ensures !lt(key(r[j]), key(r[i])) {
        if i == 0 && j > 1 {
          assert r[j] == rows[j - 1];
          assert !lt(key(rows[j - 1]), key(rows[0]));
        }
      }
    } else {
      InsertBySorted(x, rows[1..], key, lt);
      var tail := InsertBy(x, rows[1..], key, lt);
      assert r == [rows[0]] + tail;
      forall i, j | 0 <= i < j < |r| ensures !lt(key(r[j]), key(r[i])) {
        if i == 0 {
          assert r[j] in multiset(tail);
          if r[j] != x {
            assert r[j] in multiset(rows[1..]);
            var m :| 0 <= m < |rows[1..]| && rows[1..][m] == r[j];
            assert rows[m + 1] == r[j];
          }
        }
      }
      assert rows == [rows[0]] + rows[1..];
    }
  }

  /** Sorting by `key` yields an ascending permutation of its input. */
  lemma {:induction false} SortBySpec<T>(rows: seq<T>, key: T -> string, lt: (string, string) -> bool)
    requires StrictTotalOrder(lt)
    ensures SortedBy(SortBy(rows, key, lt), key, lt)
    ensures multiset(SortBy(rows, key, lt)) == multiset(rows)
  {
    if rows != [] {
      SortBySpec(rows[1..], key, lt);
      InsertBySorted(rows[0], SortBy(rows[1..], key, lt), key, lt);
      assert rows == [rows[0]] + rows[1..];
    }
  }
}

/**
 * Database tables as sequences of rows: lookup by a key column, the unique-constraint
 * test, and deletion by key. Each repository names its own key columns.
 */
module Tables {
  import opened Wrappers

  /** The position of the last row whose `key` column equals `k`, if any. */
  function IndexOf<R>(rows: seq<R>, key: R -> string, k: string): (r: Option<nat>)
    ensures r.Some? ==> r.value < |rows| && key(rows[r.value]) == k
    ensures r.None? ==> forall i :: 0 <= i < |rows| ==> key(rows[i]) != k
  {
    if rows == [] then None
    else if key(rows[|rows| - 1]) == k then Some(|rows| - 1)
    else IndexOf(rows[..|rows| - 1], key, k)
  }

  /** No two rows share a value of the `key` column. */
  predicate UniqueBy<R>(rows: seq<R>, key: R -> string) {
    forall i, j :: 0 <= i < j < |rows| ==> key(rows[i]) != key(rows[j])
  }

  /** On a unique column, the row found is the only one with that value. */
  lemma IndexOfUnique<R>(rows: seq<R>, key: R -> string, k: string, i: nat)
    requires UniqueBy(rows, key) && i < |rows| && key(rows[i]) == k
    ensures IndexOf(rows, key, k) == Some(i)
  {
  }

  /** Some row other than `row` (by `id`) already holds `row`'s value of the `key` column. */
  predicate TakenByOther<R>(rows: seq<R>, row: R, key: R -> string, id: R -> string) {
    exists i :: 0 <= i < |rows| && key(rows[i]) == key(row) && id(rows[i]) != id(row)
  }

  /** `DELETE ... WHERE key = k`: every other row, in order. */
  function RemoveKey<R(!new)>(rows: seq<R>, key: R -> string, k: string): (out: seq<R>)
    ensures forall x :: x in out <==> x in rows && key(x) != k
    ensures |out| <= |rows|
  {
    if rows == [] then []
    else
      var rest := RemoveKey(rows[1..], key, k);
      assert forall x :: x in rows <==> x == rows[0] || x in rows[1..];
      if key(rows[0]) == k then rest else [rows[0]] + rest
  }

  /** Deleting a row just appended under a new key gives the table back. */
  lemma {:induction false} RemoveAppended<R(!new)>(rows: seq<R>, row: R, key: R -> string)
    requires forall i :: 0 <= i < |rows| ==> key(rows[i]) != key(row)
    ensures RemoveKey(rows + [row], key, key(row)) == rows
    decreases |rows|
  {
    if rows == [] {
      assert [row][1..] == [];
    } else {
      assert (rows + [row])[1..] == rows[1..] + [row];
      RemoveAppended(rows[1..], row, key);
    }
  }

  /** Deleting rows keeps a unique column unique. */
  lemma {:induction false} RemoveKeepsUnique<R(!new)>(rows: seq<R>, key: R -> string, k: string, col: R -> string)
    requires UniqueBy(rows, col)
    ensures UniqueBy(RemoveKey(rows, key, k), col)
    decreases |rows|
  {
    if rows != [] {
      RemoveKeepsUnique(rows[1..], key, k, col);
      var rest := RemoveKey(rows[1..], key, k);
      forall x | x in rest
        ensures col(x) != col(rows[0])
      {
        var j :| 0 <= j < |rows[1..]| && rows[1..][j] == x;
        assert rows[j + 1] == x;
      }
      if key(rows[0]) != k {
        var out := [rows[0]] + rest;
        forall i, j | 0 <= i < j < |out|
          ensures col(out[i]) != col(out[j])
        {
          if i == 0 {
            assert out[j] in rest;
          } else {
            assert out[i] == rest[i - 1] && out[j] == rest[j - 1];
          }
        }
      }
    }
  }

  /** Overwriting a row with one of the same id keeps a unique column unique, unless another row holds the value. */
  lemma UpdateKeepsUnique<R>(rows: seq<R>, k: nat, row: R, key: R -> string, id: R -> string)
    requires UniqueBy(rows, key) && UniqueBy(rows, id) && k < |rows| && id(rows[k]) == id(row)
    requires !TakenByOther(rows, row, key, id)
    ensures UniqueBy(rows[k := row], key)
  {
    var out := rows[k := row];
    forall i, j | 0 <= i < j < |out|
      ensures key(out[i]) != key(out[j])
    {
      if i == k {
        assert id(rows[j]) != id(rows[k]);
        assert key(rows[j]) != key(row);
      } else if j == k {
        assert id(rows[i]) != id(rows[k]);
        assert key(rows[i]) != key(row);
      }
    }
  }

  /** Appending a row under a new id keeps a unique column unique, unless another row holds the value. */
  lemma AppendKeepsUnique<R>(rows: seq<R>, row: R, key: R -> string, id: R -> string)
    requires UniqueBy(rows, key)
    requires forall i :: 0 <= i < |rows| ==> id(rows[i]) != id(row)
    requires !TakenByOther(rows, row, key, id)
    ensures UniqueBy(rows + [row], key)
  {
    var out := rows + [row];
    forall i, j | 0 <= i < j < |out|
      ensures key(out[i]) != key(out[j])
    {
      if j == |rows| {
        assert id(rows[i]) != id(row);
      }
    }
  }

  /** A value that occurs twice in a sequence is counted at least twice. */
  lemma TwiceCounted<R>(s: seq<R>, i: nat, j: nat)
    requires i < j < |s| && s[i] == s[j]
    ensures multiset(s)[s[i]] >= 2
  {
    assert s == s[..i] + [s[i]] + s[i + 1..j] + [s[j]] + s[j + 1..];
  }

  /** A value counted at least twice occurs at two positions. */
  lemma {:induction false} CountedTwice<R>(s: seq<R>, x: R) returns (i: nat, j: nat)
    requires multiset(s)[x] >= 2
    ensures i < j < |s| && s[i] == x && s[j] == x
  {
    assert s == [s[0]] + s[1..];
    if s[0] == x {
      assert x in multiset(s[1..]);
      var k :| 0 <= k < |s[1..]| && s[1..][k] == x;
      i, j := 0, k + 1;
    } else {
      var i', j' := CountedTwice(s[1..], x);
      i, j := i' + 1, j' + 1;
    }
  }

  /** Reordering the rows of a table keeps a unique column unique. */
  lemma PermutationKeepsUnique<R>(a: seq<R>, b: seq<R>, key: R -> string)
    requires multiset(a) == multiset(b) && UniqueBy(b, key)
    ensures UniqueBy(a, key)
  {
    forall i, j | 0 <= i < j < |a|
      ensures key(a[i]) != key(a[j])
    {
      if a[i] == a[j] {
        TwiceCounted(a, i, j);
        var i', j' := CountedTwice(b, a[i]);
        assert false;
      } else {
        assert a[i] in multiset(b) && a[j] in multiset(b);
        var i' :| 0 <= i' < |b| && b[i'] == a[i];
        var j' :| 0 <= j' < |b| && b[j'] == a[j];
        if i' < j' {
          assert key(b[i']) != key(b[j']);
        } else {
          assert key(b[j']) != key(b[i']);
        }
      }
    }
  }
}

/** The configuration table: string keys to string values. Both the public
    read (which folds the rows into an object, a later row overwriting an
    earlier one) and the admin bulk write (one upsert per entry, in order)
    are the same left-to-right overwrite of a map. */
module ConfigTable {

  datatype ConfigRow = ConfigRow(clave: string, valor: string)

  function Claves(rows: seq<ConfigRow>): set<string> {
    set i | 0 <= i < |rows| :: rows[i].clave
  }

  /** `rows[i]` is the last row that mentions its key. */
  predicate LastFor(rows: seq<ConfigRow>, i: int)
    requires 0 <= i < |rows|
  {
    forall j :: i < j < |rows| ==> rows[j].clave != rows[i].clave
  }

  /** Applies the rows in order, each one setting its key to its value. */
  function Upsert(m: map<string, string>, rows: seq<ConfigRow>): (r: map<string, string>)
    ensures r.Keys == m.Keys + Claves(rows)
    ensures forall k :: k in m && k !in Claves(rows) ==> r[k] == m[k]
    ensures forall i :: 0 <= i < |rows| && LastFor(rows, i) ==> r[rows[i].clave] == rows[i].valor
    decreases |rows|
  {
    if rows == [] then m
    else
      var rest := rows[1..];
      ClavesCons(rows);
      var r := Upsert(m[rows[0].clave := rows[0].valor], rest);
      LastForCons(rows);
      r
  }

  lemma ClavesCons(rows: seq<ConfigRow>)
    requires |rows| > 0
    ensures Claves(rows) == {rows[0].clave} + Claves(rows[1..])
  {
    var rest := rows[1..];
    forall k | k in Claves(rows) ensures k in {rows[0].clave} + Claves(rest) {
      var i :| 0 <= i < |rows| && rows[i].clave == k;
      if i > 0 { assert rest[i - 1].clave == k; }
    }
    forall k | k in Claves(rest) ensures k in Claves(rows) {
      var i :| 0 <= i < |rest| && rest[i].clave == k;
      assert rows[i + 1].clave == k;
    }
  }

  lemma LastForCons(rows: seq<ConfigRow>)
    requires |rows| > 0
    ensures forall i :: 1 <= i < |rows| && LastFor(rows, i) ==> LastFor(rows[1..], i - 1) && rows[1..][i - 1] == rows[i]
    ensures LastFor(rows, 0) ==> rows[0].clave !in Claves(rows[1..])
  {
  }

  /** Every key a row mentions has a last row that mentions it. */
  lemma {:induction false} LastOccurrence(rows: seq<ConfigRow>, k: string)
    requires k in Claves(rows)
    ensures exists i :: 0 <= i < |rows| && rows[i].clave == k && LastFor(rows, i)
    decreases |rows|
  {
    var n := |rows| - 1;
    if rows[n].clave == k {
      assert LastFor(rows, n);
    } else {
      var front := rows[..n];
      var i :| 0 <= i < |rows| && rows[i].clave == k;
      assert i < n && front[i].clave == k;
      LastOccurrence(front, k);
      var j :| 0 <= j < |front| && front[j].clave == k && LastFor(front, j);
      assert rows[j] == front[j];
      assert LastFor(rows, j);
    }
  }

  /** Writing a batch onto a map is the map overridden by the batch read on
      its own: keys outside the batch keep their value. */
  lemma UpsertIsOverride(m: map<string, string>, rows: seq<ConfigRow>)
    ensures Upsert(m, rows) == m + Upsert(map[], rows)
  {
    var a := Upsert(m, rows);
    var b := m + Upsert(map[], rows);
    forall k | k in a ensures k in b && a[k] == b[k] {
      if k in Claves(rows) {
        LastOccurrence(rows, k);
      }
    }
    assert a.Keys == b.Keys;
  }

  /** `rows` lists exactly the entries of `m` (the table behind a map with
      unique keys, in any order). */
  predicate TableOf(rows: seq<ConfigRow>, m: map<string, string>) {
    && (forall i :: 0 <= i < |rows| ==> rows[i].clave in m && m[rows[i].clave] == rows[i].valor)
    && m.Keys <= Claves(rows)
  }

  /** Folding a listing of the table rebuilds the table. */
  lemma ReadBackTable(rows: seq<ConfigRow>, m: map<string, string>)
    requires TableOf(rows, m)
    ensures Upsert(map[], rows) == m
  {
    var r := Upsert(map[], rows);
    forall k | k in m ensures r[k] == m[k] {
      LastOccurrence(rows, k);
    }
  }
}

/** Registry snapshots and their append-only comparison. */
module Snapshots {
  import opened Common

  type Rows = map<string, string>

  /** Table name to row identity to the digest of the row's content. */
  type Registry = map<string, Rows>

  /** Every earlier table is there, and every earlier row in it is unchanged. */
  ghost predicate Preserved(before: Registry, after: Registry) {
    forall t :: t in before ==> TableKept(before, after, t)
  }

  ghost predicate TableKept(before: Registry, after: Registry, table: string)
    requires table in before
  {
    table in after && Submap(before[table], after[table])
  }

  /** `n` rows were added to the table. */
  ghost predicate Grew(before: Registry, after: Registry, table: string, n: nat) {
    table in before && table in after ==> |after[table]| == |before[table]| + n
  }

  function Appended(before: Rows, after: Rows): nat {
    |after.Keys - before.Keys|
  }

  /** `compare_snapshots`: it succeeds exactly when nothing earlier changed or disappeared, and then
    * counts the new rows of each earlier table.
    */
  method CompareSnapshots(before: Registry, after: Registry) returns (r: Result<map<string, nat>, string>)
    ensures r.Ok? <==> Preserved(before, after)
    ensures r.Ok? ==> r.value.Keys == before.Keys
    ensures r.Ok? ==> forall t :: t in r.value ==> Grew(before, after, t, r.value[t])
  {
    var appended: map<string, nat> := map[];
    var left := before.Keys;
    while left != {}
      invariant left <= before.Keys && appended.Keys == before.Keys - left
      invariant forall t :: t in before && t !in left ==> TableKept(before, after, t)
      invariant forall t :: t in appended ==> Grew(before, after, t, appended[t])
      decreases |left|
    {
      var table :| table in left;
      if table !in after {
        assert !TableKept(before, after, table);
        return Err(table);
      }
      var same := RowsKept(before[table], after[table]);
      if !same {
        assert !TableKept(before, after, table);
        return Err(table);
      }
      appended := appended[table := Appended(before[table], after[table])];
      left := left - {table};
    }
    return Ok(appended);
  }

  method RowsKept(rows: Rows, current: Rows) returns (same: bool)
    ensures same <==> Submap(rows, current)
  {
    var left := rows.Keys;
    while left != {}
      invariant left <= rows.Keys
      invariant forall k :: k in rows && k !in left ==> k in current && current[k] == rows[k]
      decreases |left|
    {
      var identity :| identity in left;
      if identity !in current || current[identity] != rows[identity] {
        return false;
      }
      left := left - {identity};
    }
    return true;
  }

  /** Successive comparisons compose: nothing was lost over the whole span, and the counts add up. */
  lemma ComparisonsCompose(before: Registry, middle: Registry, after: Registry)
    requires Preserved(before, middle) && Preserved(middle, after)
    ensures Preserved(before, after)
    ensures forall t :: t in before ==>
      Appended(before[t], after[t]) == Appended(before[t], middle[t]) + Appended(middle[t], after[t])
  {
    forall t | t in before
      ensures TableKept(before, after, t)
      ensures Appended(before[t], after[t]) == Appended(before[t], middle[t]) + Appended(middle[t], after[t])
    {
      assert TableKept(before, middle, t) && TableKept(middle, after, t);
    }
  }
}

/** The final load: the staging table is reduced to one row per `cve_id`
    (the row with the greatest `(updated_date, published_date)`, both
    compared as strings, descending), then merged into the final table,
    which is keyed by `cve_id`: a matched row takes every non-key column
    from the source, an unmatched source row is inserted, and every other
    target row stays as it is. */
module LoadFinal {
  import opened Strings
  import opened CveRecord

  type Table = map<string, Record>

  /** `a` sorts before `b` under `ORDER BY updated_date DESC,
      published_date DESC`. */
  predicate NewerThan(a: Record, b: Record) {
    Less(b.updatedDate, a.updatedDate) ||
    (a.updatedDate == b.updatedDate && Less(b.publishedDate, a.publishedDate))
  }

  /** `QUALIFY ROW_NUMBER() OVER (PARTITION BY cve_id ORDER BY ...) = 1`:
      the surviving row of each id. Among rows with equal sort keys the
      earliest staging row is kept. */
  function Dedup(rows: seq<Record>): Table
    decreases |rows|
  {
    if rows == [] then map[]
    else
      var n := |rows| - 1;
      var d := Dedup(rows[..n]);
      var r := rows[n];
      if r.cveId !in d || NewerThan(r, d[r.cveId]) then d[r.cveId := r] else d
  }

  function Ids(rows: seq<Record>): (r: set<string>)
    ensures forall id :: id in r <==> exists i :: 0 <= i < |rows| && rows[i].cveId == id
  {
    set i | 0 <= i < |rows| :: rows[i].cveId
  }

  /** `WHEN MATCHED THEN UPDATE SET`: the 25 non-key columns from the
      source, `cve_id` from the target. */
  function UpdateSet(target: Record, source: Record): (r: Record)
    ensures r.cveId == target.cveId
    ensures r.(cveId := source.cveId) == source
  {
    source.(cveId := target.cveId)
  }

  /** The MERGE statement. */
  function Merge(target: Table, staging: seq<Record>): Table {
    var source := Dedup(staging);
    map id | id in target.Keys + source.Keys ::
      if id in source && id in target then UpdateSet(target[id], source[id])
      else if id in source then source[id]
      else target[id]
  }

  /** Every row of a table is stored under its own `cve_id`. */
  predicate Keyed(t: Table) {
    forall id :: id in t ==> t[id].cveId == id
  }

  lemma NewerThanTransitive(a: Record, b: Record, c: Record)
    requires NewerThan(a, b) && NewerThan(b, c)
    ensures NewerThan(a, c)
  {
    if Less(c.updatedDate, b.updatedDate) && Less(b.updatedDate, a.updatedDate) {
      LessTransitive(c.updatedDate, b.updatedDate, a.updatedDate);
    } else if a.updatedDate == b.updatedDate && b.updatedDate == c.updatedDate {
      LessTransitive(c.publishedDate, b.publishedDate, a.publishedDate);
    }
  }

  lemma NewerThanIrreflexive(a: Record)
    ensures !NewerThan(a, a)
  {
    LessIrreflexive(a.updatedDate);
    LessIrreflexive(a.publishedDate);
  }

  /** Two rows are ordered one way or the other unless both sort keys are
      equal: only such rows tie in the window's `ORDER BY`. */
  lemma NewerThanTotal(a: Record, b: Record)
    ensures (a.updatedDate == b.updatedDate && a.publishedDate == b.publishedDate) ||
      NewerThan(a, b) || NewerThan(b, a)
  {
    LessTotal(a.updatedDate, b.updatedDate);
    LessTotal(a.publishedDate, b.publishedDate);
  }

  /** After deduplication the ids are exactly the staging ids, each row is
      a staging row stored under its own id, and no staging row with the
      same id sorts before it. */
  lemma DedupSpec(rows: seq<Record>)
    ensures Dedup(rows).Keys == Ids(rows)
    ensures Keyed(Dedup(rows))
    ensures forall id :: id in Dedup(rows) ==> Dedup(rows)[id] in rows
    ensures forall id, i :: id in Dedup(rows) && 0 <= i < |rows| && rows[i].cveId == id ==>
      !NewerThan(rows[i], Dedup(rows)[id])
  {
    DedupDomain(rows);
    DedupNewest(rows);
  }

  lemma {:induction false} DedupDomain(rows: seq<Record>)
    ensures Dedup(rows).Keys == Ids(rows)
    ensures Keyed(Dedup(rows))
    ensures forall id :: id in Dedup(rows) ==> Dedup(rows)[id] in rows
    decreases |rows|
  {
    if rows != [] {
      var n := |rows| - 1;
      var prefix := rows[..n];
      DedupDomain(prefix);
      assert rows == prefix + [rows[n]];
      forall id | id in Ids(rows)
        ensures id in Dedup(rows)
      {
        var i :| 0 <= i < |rows| && rows[i].cveId == id;
        if i < n {
          assert prefix[i] == rows[i];
        }
      }
    }
  }

  lemma {:induction false} DedupNewest(rows: seq<Record>)
    ensures forall id, i :: id in Dedup(rows) && 0 <= i < |rows| && rows[i].cveId == id ==>
      !NewerThan(rows[i], Dedup(rows)[id])
    decreases |rows|
  {
    if rows != [] {
      var n := |rows| - 1;
      var prefix := rows[..n];
      DedupNewest(prefix);
      DedupDomain(prefix);
      var d := Dedup(prefix);
      var r := rows[n];
      forall id, i | id in Dedup(rows) && 0 <= i < |rows| && rows[i].cveId == id
        ensures !NewerThan(rows[i], Dedup(rows)[id])
      {
        if i == n {
          if Dedup(rows)[id] == r {
            NewerThanIrreflexive(r);
          }
        } else {
          assert rows[i] == prefix[i];
          if id == r.cveId && Dedup(rows)[id] == r && Dedup(rows)[id] != d[id] {
            if NewerThan(rows[i], r) {
              NewerThanTransitive(rows[i], r, d[id]);
            }
          }
        }
      }
    }
  }

  /** The ids after the merge are the old target ids and the staging ids. */
  lemma MergeKeys(target: Table, staging: seq<Record>)
    ensures Merge(target, staging).Keys == target.Keys + Ids(staging)
  {
    DedupSpec(staging);
  }

  /** A matched target row takes all 25 non-key columns of the surviving
      staging row and keeps its `cve_id`. */
  lemma MergeMatched(target: Table, staging: seq<Record>, id: string)
    requires id in target && id in Ids(staging)
    ensures id in Merge(target, staging) && id in Dedup(staging)
    ensures Merge(target, staging)[id] == Dedup(staging)[id].(cveId := target[id].cveId)
    ensures Merge(target, staging)[id].cveId == target[id].cveId
  {
    DedupSpec(staging);
  }

  /** An unmatched staging id is inserted with its surviving row, all 26
      columns copied. */
  lemma MergeInserted(target: Table, staging: seq<Record>, id: string)
    requires id !in target && id in Ids(staging)
    ensures id in Merge(target, staging) && id in Dedup(staging)
    ensures Merge(target, staging)[id] == Dedup(staging)[id]
    ensures Merge(target, staging)[id] in staging && Merge(target, staging)[id].cveId == id
  {
    DedupSpec(staging);
  }

  /** Target rows whose id is not staged are untouched: there is no
      `WHEN NOT MATCHED BY SOURCE` clause. */
  lemma MergeUntouched(target: Table, staging: seq<Record>, id: string)
    requires id in target && id !in Ids(staging)
    ensures id in Merge(target, staging) && Merge(target, staging)[id] == target[id]
  {
    DedupSpec(staging);
  }

  /** A keyed table stays keyed. */
  lemma MergeKeepsKeyed(target: Table, staging: seq<Record>)
    requires Keyed(target)
    ensures Keyed(Merge(target, staging))
  {
    DedupSpec(staging);
  }

  /** Merging the same staging table twice gives the table merging it once gives. */
  lemma MergeIdempotent(target: Table, staging: seq<Record>)
    ensures Merge(Merge(target, staging), staging) == Merge(target, staging)
  {
    var once := Merge(target, staging);
    var twice := Merge(once, staging);
    var source := Dedup(staging);
    assert twice.Keys == once.Keys;
    forall id | id in once
      ensures twice[id] == once[id]
    {
      if id in source && id in target {
        assert once[id] == source[id].(cveId := target[id].cveId);
        assert twice[id] == once[id].(cveId := once[id].cveId);
      } else if id in source {
        assert once[id] == source[id];
        assert twice[id] == source[id].(cveId := source[id].cveId);
      }
    }
  }
}

/** The store side of src/insert_data.py: `filter_new_rows`, the `ft_jobdata`
    table as rows held in memory, and the S3 bucket as a map from
    (bucket, key) to the rows written there. The SQL engine, Parquet and boto3
    are not part of this model; whether an insert or an upload goes through is
    a parameter. */
module Store {
  import opened Values

  /** The ids of a run of rows, as `set(df['id'])` collects them. */
  function Ids(rows: seq<Row>): (ids: set<Value>)
    ensures forall v :: v in ids <==> exists i :: 0 <= i < |rows| && IdOf(rows[i]) == v
  {
    set i | 0 <= i < |rows| :: IdOf(rows[i])
  }

  /** `filter_new_rows`: `df[~df['id'].isin(existing_ids)]`. A row is kept
      exactly when its id is not among the known ones. */
  function FilterNewRows(rows: seq<Row>, existing: set<Value>): (r: seq<Row>)
    ensures forall row :: row in r <==> row in rows && IdOf(row) !in existing
  {
    if rows == [] then []
    else if IdOf(rows[0]) in existing then FilterNewRows(rows[1..], existing)
    else [rows[0]] + FilterNewRows(rows[1..], existing)
  }

  /** `sub` is `s` with some rows left out, the others in their order. */
  predicate IsSubsequence(sub: seq<Row>, s: seq<Row>)
  {
    if sub == [] then true
    else if s == [] then false
    else (sub[0] == s[0] && IsSubsequence(sub[1..], s[1..])) || IsSubsequence(sub, s[1..])
  }

  /** The rows kept are exactly the rows whose id is not yet known, each as
      many times as it occurs. */
  lemma {:induction false} FilterKeepsNewRows(rows: seq<Row>, existing: set<Value>)
    ensures var r := FilterNewRows(rows, existing);
      forall row :: multiset(r)[row] == if IdOf(row) in existing then 0 else multiset(rows)[row]
    ensures forall row :: row in FilterNewRows(rows, existing) <==> row in rows && IdOf(row) !in existing
  {
    if rows != [] {
      FilterKeepsNewRows(rows[1..], existing);
      assert rows == [rows[0]] + rows[1..];
    }
  }

  /** The filter keeps the rows in their order: what it returns is a
      subsequence of its input. */
  lemma {:induction false} FilterIsSubsequence(rows: seq<Row>, existing: set<Value>)
    ensures IsSubsequence(FilterNewRows(rows, existing), rows)
  {
    if rows != [] {
      FilterIsSubsequence(rows[1..], existing);
      var rest := FilterNewRows(rows[1..], existing);
      if IdOf(rows[0]) !in existing {
        assert ([rows[0]] + rest)[1..] == rest;
      } else if rest != [] {
        // the kept rows of the tail are a subsequence of the tail, hence of
        // the whole batch
        SubsequenceOfTail(rest, rows);
      }
    }
  }

  lemma SubsequenceOfTail(sub: seq<Row>, s: seq<Row>)
    requires s != [] && IsSubsequence(sub, s[1..])
    ensures IsSubsequence(sub, s)
  {
  }

  /** Filtering distributes over concatenation: each part of a batch is
      filtered on its own and the results stay in order. */
  lemma {:induction false} FilterOfConcat(a: seq<Row>, b: seq<Row>, existing: set<Value>)
    ensures FilterNewRows(a + b, existing) == FilterNewRows(a, existing) + FilterNewRows(b, existing)
  {
    if a != [] {
      assert (a + b)[1..] == a[1..] + b;
      FilterOfConcat(a[1..], b, existing);
    } else {
      assert a + b == b;
    }
  }

  /** Filtering with one id set and then another filters with their union. */
  lemma {:induction false} FilterTwice(rows: seq<Row>, first: set<Value>, second: set<Value>)
    ensures FilterNewRows(FilterNewRows(rows, first), second) == FilterNewRows(rows, first + second)
  {
    if rows != [] {
      FilterTwice(rows[1..], first, second);
      if IdOf(rows[0]) !in first {
        assert ([rows[0]] + FilterNewRows(rows[1..], first))[1..] == FilterNewRows(rows[1..], first);
      }
    }
  }

  /** Filtering twice with the same ids is filtering once. */
  lemma FilterIdempotent(rows: seq<Row>, existing: set<Value>)
    ensures FilterNewRows(FilterNewRows(rows, existing), existing) == FilterNewRows(rows, existing)
  {
    FilterTwice(rows, existing, existing);
    assert existing + existing == existing;
  }

  /** Once the batch's own ids are known, nothing of it is new. */
  lemma FilterWithBatchIds(rows: seq<Row>, existing: set<Value>)
    ensures FilterNewRows(rows, existing + Ids(rows)) == []
  {
    FilterKeepsNewRows(rows, existing + Ids(rows));
  }

  /** Re-running over the same batch once its new rows are stored finds
      nothing new: the table grows only by rows it had not seen. */
  lemma RerunFindsNothingNew(rows: seq<Row>, stored: seq<Row>)
    ensures FilterNewRows(rows, Ids(stored + FilterNewRows(rows, Ids(stored)))) == []
  {
    var added := FilterNewRows(rows, Ids(stored));
    var after := Ids(stored + added);
    FilterKeepsNewRows(rows, Ids(stored));
    FilterKeepsNewRows(rows, after);
    forall row | row in rows
      ensures IdOf(row) in after
    {
      if IdOf(row) in Ids(stored) {
        var i :| 0 <= i < |stored| && IdOf(stored[i]) == IdOf(row);
        assert (stored + added)[i] == stored[i];
      } else {
        var i :| 0 <= i < |added| && added[i] == row;
        assert (stored + added)[|stored| + i] == row;
      }
    }
  }

  /** Rows of one batch sharing an id that is not yet stored both survive:
      the filter does not de-duplicate within the batch. */
  lemma DuplicatesInBatchSurvive(row: Row, other: Row, existing: set<Value>)
    requires IdOf(row) == IdOf(other) && IdOf(row) !in existing
    ensures FilterNewRows([row, other], existing) == [row, other]
  {
    assert [other][1..] == [];
    assert FilterNewRows([other], existing) == [other];
    assert [row, other][1..] == [other];
  }

  /** Rows with no known id among them. */
  predicate AllNew(rows: seq<Row>, existing: set<Value>)
  {
    forall i :: 0 <= i < |rows| ==> IdOf(rows[i]) !in existing
  }

  /** What the filter returns carries no id from the set it was given. */
  lemma FilteredAreNew(rows: seq<Row>, existing: set<Value>)
    ensures AllNew(FilterNewRows(rows, existing), existing)
  {
    FilterKeepsNewRows(rows, existing);
    var r := FilterNewRows(rows, existing);
    assert forall i :: 0 <= i < |r| ==> r[i] in r;
  }

  /** The `ft_jobdata` table. */
  class Table {
    var rows: seq<Row>

    constructor (rows: seq<Row>)
      ensures this.rows == rows
    {
      this.rows := rows;
    }

    /** `get_existing_ids`: `SELECT id FROM ft_jobdata`, as a set. */
    function ExistingIds(): (ids: set<Value>)
      reads this
      ensures forall v :: v in ids <==> exists i :: 0 <= i < |rows| && IdOf(rows[i]) == v
    {
      Ids(rows)
    }

    /** `append_to_db`: `to_sql` is handed the engine, not the connection
        that `with conn.begin()` opens, so it runs the insert on a connection
        and in a transaction of its own, which it rolls back when the insert
        raises. The `except` only prints the failure: the caller is never
        told. `insertSucceeds` says whether the insert went through; either
        the whole batch is stored or none of it. */
    method AppendToDb(batch: seq<Row>, insertSucceeds: bool)
      modifies this
      ensures rows == old(rows) + Committed(batch, insertSucceeds)
      ensures rows == old(rows) || rows == old(rows) + batch
    {
      rows := rows + Committed(batch, insertSucceeds);
    }
  }

  /** The rows of `batch` an insert leaves in the table: all of them when it
      goes through, none when it is rolled back. */
  function Committed(batch: seq<Row>, insertSucceeds: bool): (written: seq<Row>)
    ensures written == [] || written == batch
    ensures |written| == if insertSucceeds then |batch| else 0
  {
    if insertSucceeds then batch else []
  }

  /** How an `upload_to_s3` call goes. `to_parquet` and `boto3.client('s3')`
      run before the `try`, so their failure (a `NameError` in the files as
      they stand, which never import `boto3`) escapes to the caller:
      `SetupRaises`. A failing `put_object` is caught and printed:
      `PutFails`. */
  datatype UploadAttempt = Put | PutFails | SetupRaises(error: PyError)

  /** The S3 store: the rows last written under each (bucket, key). */
  class Bucket {
    var objects: map<(string, string), seq<Row>>

    constructor (objects: map<(string, string), seq<Row>>)
      ensures this.objects == objects
    {
      this.objects := objects;
    }

    /** `upload_to_s3`: `put_object` replaces whatever was under the key; a
        failed put is printed and leaves the bucket as it was, while a
        failure before the `try` raises and leaves it as it was too. */
    method UploadToS3(data: seq<Row>, bucketName: string, fileName: string, attempt: UploadAttempt)
      returns (outcome: Outcome)
      modifies this
      ensures objects == if attempt.Put? then old(objects)[(bucketName, fileName) := data] else old(objects)
      ensures outcome.Fail? <==> attempt.SetupRaises?
      ensures outcome.Fail? ==> outcome.error == attempt.error
    {
      match attempt
      case Put =>
        objects := objects[(bucketName, fileName) := data];
        outcome := Pass;
      case PutFails =>
        outcome := Pass;
      case SetupRaises(e) =>
        outcome := Fail(e);
    }
  }
}

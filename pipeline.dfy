/** `get_data` (src/get_data.py) and `process_and_insert_data`
    (src/insert_data.py): fetch the offers of a date window, classify them,
    drop the unclassified ones, enrich them column by column, and append the
    rows whose id the table does not hold yet to the table and to a dated
    snapshot in the bucket. The run date (`datetime.now()`) is a parameter. */
module Pipeline {
  import opened Values
  import opened Calendar
  import opened Window
  import opened Api
  import opened Offers
  import opened Fetch
  import opened Classify
  import opened Skills
  import opened Dates
  import opened Experience
  import opened Salary
  import opened Store

  // ----------------------------------------------------------------- get_data

  /** The rows `get_data` fetches: the window's dates put in order and
      formatted, then every page of the search. */
  function Fetched(minDate: string, maxDate: string, maxResults: int, mots: string,
                   tokenApi: nat -> HttpResponse, searchApi: (nat, string, Value) -> HttpResponse): Result<seq<Row>>
  {
    match BeginningEndingDates(minDate, maxDate)
    case Err(e) => Err(e)
    case Ok((beginning, ending)) =>
      Pages(PageCount(maxResults), Query(mots, Some(beginning), Some(ending), tokenApi, searchApi))
  }

  /** `get_data`. */
  method GetData(minDate: string, maxDate: string, maxResults: int, mots: string,
                 tokenApi: nat -> HttpResponse, searchApi: (nat, string, Value) -> HttpResponse)
    returns (r: Result<seq<Row>>)
    ensures r == Fetched(minDate, maxDate, maxResults, mots, tokenApi, searchApi)
    ensures r.Ok? ==> forall row :: row in r.value ==> row.Keys == BaseColumns
  {
    var dates := BeginningEndingDates(minDate, maxDate);
    if dates.Err? {
      return Err(dates.error);
    }
    var (beginning, ending) := dates.value;
    var q := Query(mots, Some(beginning), Some(ending), tokenApi, searchApi);
    r := GetOffersData(maxResults, q);
    if r.Ok? {
      FetchedRowsAreFlat(PageCount(maxResults), q);
    }
  }

  // ---------------------------------------------------------- row-wise steps

  /** `job_category` and `chef` from the title; a title that is not a string
      has no `lower` and raises. */
  function ClassifyRow(row: Row): (r: Result<Row>)
    ensures Cell(row, Title).Str? <==> r.Ok?
    ensures r.Ok? ==> r.value == row[JobCategory := Str(ClassifyJobTitle(Cell(row, Title).s))]
                                     [Chef := Str(ClassifyJobTitleChef(Cell(row, Title).s))]
  {
    match Cell(row, Title)
    case Str(t) => Ok(row[JobCategory := Str(ClassifyJobTitle(t))][Chef := Str(ClassifyJobTitleChef(t))])
    case _ => Err(AttributeError("lower"))
  }

  /** `df[df['job_category'] != 'Other']`. */
  function DropOther(rows: seq<Row>): (r: seq<Row>)
    ensures forall row :: row in r <==> row in rows && Cell(row, JobCategory) != Str(OtherLabel)
    ensures |r| <= |rows|
  {
    if rows == [] then []
    else if Cell(rows[0], JobCategory) == Str(OtherLabel) then DropOther(rows[1..])
    else [rows[0]] + DropOther(rows[1..])
  }

  /** No row is classified 'Other'. */
  predicate NoOther(rows: seq<Row>)
  {
    forall i :: 0 <= i < |rows| ==> Cell(rows[i], JobCategory) != Str(OtherLabel)
  }

  /** `df['extracted_date'] = extracted_date`: every row gets the run date
      and keeps every other column. */
  function StampRunDate(rows: seq<Row>, extractedDate: string): (r: seq<Row>)
    ensures |r| == |rows|
    ensures forall i :: 0 <= i < |rows| ==>
      && r[i].Keys == rows[i].Keys + {ExtractedDate}
      && r[i][ExtractedDate] == Str(extractedDate)
      && forall c :: c in rows[i] && c != ExtractedDate ==> r[i][c] == rows[i][c]
  {
    seq(|rows|, i requires 0 <= i < |rows| => rows[i][ExtractedDate := Str(extractedDate)])
  }

  /** The renamed skill columns: each spaced keyword column and its
      underscore name, in the order of the `rename` dictionary. */
  const Renames: seq<(string, string)> := [
    ("power bi", "power_bi"), ("data warehouse", "data_warehouse"), ("data lake", "data_lake"),
    ("power query", "power_query"), ("machine learning", "machine_learning"),
    ("deep learning", "deep_learning"), ("data governance", "data_governance"),
    ("azure devops", "azure_devops")]

  /** No name is renamed twice, no two names are renamed to the same one, and
      no new name is an old one: renaming one pair at a time then does what
      pandas does with the whole dictionary at once. */
  predicate DistinctRenames(renames: seq<(string, string)>)
  {
    forall i, j :: 0 <= i < |renames| && 0 <= j < |renames| ==>
      && renames[i].0 != renames[j].1
      && (i != j ==> renames[i].0 != renames[j].0 && renames[i].1 != renames[j].1)
  }

  /** The column labels a list of renames touches, old or new. */
  predicate Renamed(c: Col, renames: seq<(string, string)>)
  {
    c.Named? && exists k :: 0 <= k < |renames| && (c.name == renames[k].0 || c.name == renames[k].1)
  }

  /** One entry of the `rename` dictionary on one row. */
  function RenameColumn(row: Row, from: string, to: string): Row
  {
    if Named(from) in row then (row - {Named(from)})[Named(to) := row[Named(from)]] else row
  }

  /** `df.rename(columns = {...})` on one row, one entry after the other. A
      column no entry names, old or new, is left as it was. */
  function RenameColumns(row: Row, renames: seq<(string, string)>): (r: Row)
    decreases |renames|
    ensures forall c :: !Renamed(c, renames) ==> (c in r <==> c in row) && Cell(r, c) == Cell(row, c)
  {
    if renames == [] then row
    else
      RenamedOfTail(renames);
      RenameColumns(RenameColumn(row, renames[0].0, renames[0].1), renames[1..])
  }

  /** A column no entry names is named neither by the first entry nor by the
      rest. */
  lemma RenamedOfTail(renames: seq<(string, string)>)
    requires renames != []
    ensures forall c :: !Renamed(c, renames) ==>
      c != Named(renames[0].0) && c != Named(renames[0].1) && !Renamed(c, renames[1..])
  {
    forall c | !Renamed(c, renames)
      ensures !Renamed(c, renames[1..])
    {
      forall k | 0 <= k < |renames[1..]|
        ensures !(c.Named? && (c.name == renames[1..][k].0 || c.name == renames[1..][k].1))
      {
        assert renames[1..][k] == renames[k + 1];
      }
    }
  }

  function RenameSkillColumns(row: Row): Row
  {
    RenameColumns(row, Renames)
  }

  /** The rename on every row: the fixed columns of each row are untouched. */
  function RenameAll(rows: seq<Row>): (r: seq<Row>)
    ensures |r| == |rows|
    ensures forall i, c: Col :: 0 <= i < |rows| && !c.Named? ==>
      (c in r[i] <==> c in rows[i]) && Cell(r[i], c) == Cell(rows[i], c)
  {
    seq(|rows|, i requires 0 <= i < |rows| => RenameSkillColumns(rows[i]))
  }

  /** `df['experience_bool'].apply(map_experience)`: each flag becomes 'Y'
      exactly when it was 'E', 'N' otherwise, and nothing else changes. */
  function MapExperienceColumn(rows: seq<Row>): (r: seq<Row>)
    ensures |r| == |rows|
    ensures forall i :: 0 <= i < |rows| ==>
      && r[i].Keys == rows[i].Keys + {ExperienceBool}
      && (r[i][ExperienceBool] == Str("Y") || r[i][ExperienceBool] == Str("N"))
      && (r[i][ExperienceBool] == Str("Y") <==> Cell(rows[i], ExperienceBool) == Str("E"))
      && forall c :: c in rows[i] && c != ExperienceBool ==> r[i][c] == rows[i][c]
  {
    seq(|rows|, i requires 0 <= i < |rows| => rows[i][ExperienceBool := Str(MapExperience(Cell(rows[i], ExperienceBool)))])
  }

  /** A float column cell: the number, or NaN for None. */
  function Number(x: Option<real>): Value
  {
    match x
    case Some(v) => Num(v)
    case None => Null
  }

  /** `df['experience'].apply(extract_experience)` on one row: a
      non-negative number of years or NaN in `experience`, the other columns
      as they were; a label that is not a string raises. */
  function ExperienceRow(row: Row): (r: Result<Row>)
    ensures r.Ok? <==> Cell(row, Experience).Str?
    ensures r.Err? ==> r.error.TypeError?
    ensures r.Ok? ==>
      && r.value.Keys == row.Keys + {Experience}
      && (forall c :: c in row && c != Experience ==> r.value[c] == row[c])
      && (r.value[Experience].Null? || (r.value[Experience].Num? && r.value[Experience].n >= 0.0))
  {
    match ExtractExperience(Cell(row, Experience))
    case Err(e) => Err(e)
    case Ok(years) => Ok(row[Experience := Number(years)])
  }

  /** The three salary columns from the label, then `salary` and `description`
      dropped: the three cells are the outputs of `extract_salary` and agree
      with each other, and every other column is as it was. */
  function SalaryRow(row: Row): (r: Result<Row>)
    ensures r.Ok? <==> ExtractSalary(Cell(row, Salary)).Ok?
    ensures r.Err? ==> r.error == ExtractSalary(Cell(row, Salary)).error && (r.error.TypeError? || r.error.ValueError?)
    ensures r.Ok? ==> var c := ExtractSalary(Cell(row, Salary)).value;
      && r.value.Keys == (row.Keys + {MinSalary, MaxSalary, AvgSalary}) - {Salary, Description}
      && r.value[MinSalary] == Number(c.min) && r.value[MaxSalary] == Number(c.max)
      && r.value[AvgSalary] == Number(c.avg)
      && (forall k :: k in row && k !in {Salary, Description, MinSalary, MaxSalary, AvgSalary} ==> r.value[k] == row[k])
      && SalaryCellsAgree(r.value)
  {
    match ExtractSalary(Cell(row, Salary))
    case Err(e) => Err(e)
    case Ok(c) =>
      assert WellFormed(c);
      Ok((row[MinSalary := Number(c.min)][MaxSalary := Number(c.max)][AvgSalary := Number(c.avg)]) - {Salary, Description})
  }

  // --------------------------------------------------------------- the frame

  /** The frame after the experience and salary steps. */
  function Finished(rows: seq<Row>): Result<seq<Row>>
  {
    match MapRows(rows, ExperienceRow)
    case Err(e) => Err(e)
    case Ok(withYears) => MapRows(withYears, SalaryRow)
  }

  /** The frame after the column steps from `dates` on: no step adds or
      drops a row. */
  function Enriched(rows: seq<Row>, extractedDate: string): (r: Result<seq<Row>>)
    ensures r.Ok? ==> |r.value| == |rows|
  {
    match WithDates(rows)
    case Err(e) => Err(e)
    case Ok(dated) =>
      match WithSkills(dated, Keywords)
      case Err(e) => Err(e)
      case Ok(skilled) => Finished(MapExperienceColumn(RenameAll(StampRunDate(skilled, extractedDate))))
  }

  /** The frame that reaches de-duplication, or the exception raised on the
      way: an empty fetch has no `title` column. */
  function Prepared(fetched: seq<Row>, extractedDate: string): (r: Result<seq<Row>>)
    ensures fetched == [] ==> r == Err(KeyError("title"))
    ensures r.Ok? ==> |r.value| <= |fetched|
  {
    if fetched == [] then Err(KeyError("title"))
    else
      match MapRows(fetched, ClassifyRow)
      case Err(e) => Err(e)
      case Ok(classified) => Enriched(DropOther(classified), extractedDate)
  }

  /** The snapshot's object key: the run date between `jobdata_` and
      `.parquet`. */
  function SnapshotKey(extractedDate: string): (key: string)
    ensures |key| == |extractedDate| + 16
    ensures key[..8] == "jobdata_" && key[8..|key| - 8] == extractedDate && key[|key| - 8..] == ".parquet"
  {
    "jobdata_" + extractedDate + ".parquet"
  }

  const BucketName: string := "francejobdata"

  // ------------------------------------------------------ the whole sequence

  /** `process_and_insert_data`: nothing is written unless every step
      succeeds and some row is new; then the new rows go to the table (all of
      them, or none when the insert is rolled back) and to the dated snapshot
      (if the put goes through). The run fails after the append only when
      the upload raises before its `try`. No row classified 'Other' and no
      id the table already held is written. */
  method ProcessAndInsertData(minData: string, maxData: string, maxResults: int, mots: string,
                              tokenApi: nat -> HttpResponse, searchApi: (nat, string, Value) -> HttpResponse,
                              runDate: Date, table: Table, bucket: Bucket,
                              insertSucceeds: bool, upload: UploadAttempt)
    returns (outcome: Outcome)
    modifies table, bucket
    ensures var fetched := Fetched(minData, maxData, maxResults, mots, tokenApi, searchApi);
      fetched.Err? ==> outcome == Fail(fetched.error) && unchanged(table, bucket)
    ensures var fetched := Fetched(minData, maxData, maxResults, mots, tokenApi, searchApi);
      fetched.Ok? && Prepared(fetched.value, FormatYmd(runDate)).Err? ==>
        outcome == Fail(Prepared(fetched.value, FormatYmd(runDate)).error) && unchanged(table, bucket)
    ensures var fetched := Fetched(minData, maxData, maxResults, mots, tokenApi, searchApi);
      fetched.Ok? && Prepared(fetched.value, FormatYmd(runDate)).Ok? ==>
        var newRows := FilterNewRows(Prepared(fetched.value, FormatYmd(runDate)).value, old(table.ExistingIds()));
        && outcome == (if newRows != [] && upload.SetupRaises? then Fail(upload.error) else Pass)
        && table.rows == old(table.rows) + (if newRows != [] then Committed(newRows, insertSucceeds) else [])
        && bucket.objects == (if newRows != [] && upload.Put?
                              then old(bucket.objects)[(BucketName, SnapshotKey(FormatYmd(runDate))) := newRows]
                              else old(bucket.objects))
    ensures NoOther(old(table.rows)) ==> NoOther(table.rows)
    ensures AllNew(table.rows[|old(table.rows)|..], old(table.ExistingIds()))
    ensures AllFinished(table.rows[|old(table.rows)|..], FormatYmd(runDate))
  {
    var fetched := GetData(minData, maxData, maxResults, mots, tokenApi, searchApi);
    if fetched.Err? {
      return Fail(fetched.error);
    }
    var extractedDate := FormatYmd(runDate);
    var prepared := PrepareFrame(fetched.value, extractedDate);
    if prepared.Err? {
      return Fail(prepared.error);
    }
    outcome := PublishNewRows(prepared.value, extractedDate, table, bucket, insertSucceeds, upload);
  }

  /** The frame steps of `process_and_insert_data` between the fetch and the
      de-duplication: classify, drop 'Other', then enrich. What comes out
      holds no row classified 'Other'. */
  method PrepareFrame(fetched: seq<Row>, extractedDate: string) returns (r: Result<seq<Row>>)
    ensures r == Prepared(fetched, extractedDate)
    ensures r.Ok? ==> NoOther(r.value) && AllFinished(r.value, extractedDate)
  {
    if fetched == [] {
      return Err(KeyError("title"));
    }
    var df := new Frame(fetched);
    var classified := MapRows(df.rows, ClassifyRow);
    if classified.Err? {
      return Err(classified.error);
    }
    df.rows := DropOther(classified.value);
    var step := EnrichFrame(df, extractedDate);
    if step.Fail? {
      return Err(step.error);
    }
    PreparedHasNoOther(fetched, extractedDate);
    PreparedRowsFinished(fetched, extractedDate);
    return Ok(df.rows);
  }

  /** The end of `process_and_insert_data`: the rows whose id the table does
      not hold yet are appended to the table and written to the dated
      snapshot, and neither happens when there are none. An upload that
      raises does so after the append. */
  method PublishNewRows(rows: seq<Row>, extractedDate: string, table: Table, bucket: Bucket,
                        insertSucceeds: bool, upload: UploadAttempt)
    returns (outcome: Outcome)
    requires NoOther(rows) && AllFinished(rows, extractedDate)
    modifies table, bucket
    ensures var newRows := FilterNewRows(rows, old(table.ExistingIds()));
      && table.rows == old(table.rows) + (if newRows != [] then Committed(newRows, insertSucceeds) else [])
      && outcome == (if newRows != [] && upload.SetupRaises? then Fail(upload.error) else Pass)
      && bucket.objects == (if newRows != [] && upload.Put?
                            then old(bucket.objects)[(BucketName, SnapshotKey(extractedDate)) := newRows]
                            else old(bucket.objects))
    ensures NoOther(old(table.rows)) ==> NoOther(table.rows)
    ensures AllNew(table.rows[|old(table.rows)|..], old(table.ExistingIds()))
    ensures AllFinished(table.rows[|old(table.rows)|..], extractedDate)
  {
    var existingIds := table.ExistingIds();
    var newRows := FilterNewRows(rows, existingIds);
    FilteredAreNew(rows, existingIds);
    FilterKeepsNoOther(rows, existingIds);
    FilterKeepsFinished(rows, existingIds, extractedDate);
    ghost var added: seq<Row> := [];
    outcome := Pass;
    if newRows != [] {
      table.AppendToDb(newRows, insertSucceeds);
      added := Committed(newRows, insertSucceeds);
      outcome := bucket.UploadToS3(newRows, BucketName, SnapshotKey(extractedDate), upload);
    }
    AppendedRows(old(table.rows), added, existingIds);
    assert table.rows[|old(table.rows)|..] == added;
  }

  /** The column steps of `process_and_insert_data` from `dates(df)` to the
      salary split, on the frame in place; the first step that raises stops
      the run. */
  method EnrichFrame(df: Frame, extractedDate: string) returns (outcome: Outcome)
    modifies df
    ensures Enriched(old(df.rows), extractedDate).Ok? ==>
      outcome == Pass && df.rows == Enriched(old(df.rows), extractedDate).value
    ensures Enriched(old(df.rows), extractedDate).Err? ==>
      outcome == Fail(Enriched(old(df.rows), extractedDate).error)
  {
    ghost var rows := df.rows;
    outcome := AddDateColumns(df);
    if outcome.Fail? {
      return;
    }
    ghost var dated := df.rows;
    outcome := AddSkillColumns(df);
    if outcome.Fail? {
      return;
    }
    df.rows := StampRunDate(df.rows, extractedDate);
    df.rows := RenameAll(df.rows);
    df.rows := MapExperienceColumn(df.rows);
    assert Enriched(rows, extractedDate) == Finished(df.rows);
    var withYears := MapRows(df.rows, ExperienceRow);
    if withYears.Err? {
      return Fail(withYears.error);
    }
    df.rows := withYears.value;
    var withSalary := MapRows(df.rows, SalaryRow);
    if withSalary.Err? {
      return Fail(withSalary.error);
    }
    df.rows := withSalary.value;
  }

  // ------------------------------------------------------------------ lemmas

  /** `after` has a row for every row of `before`, with the same cell in
      column `c`. */
  predicate Keeps(before: seq<Row>, after: seq<Row>, c: Col)
  {
    |after| == |before| && forall i :: 0 <= i < |before| ==> Cell(after[i], c) == Cell(before[i], c)
  }

  /** The columns no step after the drop writes: the id, the title and the
      classification among them. */
  predicate Untouched(c: Col)
  {
    !c.Named? && c !in {DateCreation, Year, Month, Day, ExtractedDate, ExperienceBool, Experience,
                        Salary, Description, MinSalary, MaxSalary, AvgSalary}
  }

  lemma KeepsTrans(a: seq<Row>, b: seq<Row>, c: seq<Row>, col: Col)
    requires Keeps(a, b, col) && Keeps(b, c, col)
    ensures Keeps(a, c, col)
  {
  }

  lemma DatesKeep(rows: seq<Row>, c: Col)
    requires WithDates(rows).Ok? && c !in {DateCreation, Year, Month, Day}
    ensures Keeps(rows, WithDates(rows).value, c)
  {
    forall i | 0 <= i < |rows|
      ensures Cell(WithDates(rows).value[i], c) == Cell(rows[i], c)
    {
      DatedKeeps(rows, i, c);
    }
  }

  lemma SkillsKeep(rows: seq<Row>, keywords: seq<string>, c: Col)
    requires WithSkills(rows, keywords).Ok? && !c.Named?
    ensures Keeps(rows, WithSkills(rows, keywords).value, c)
  {
    forall i | 0 <= i < |rows|
      ensures Cell(WithSkills(rows, keywords).value[i], c) == Cell(rows[i], c)
    {
      if keywords != [] {
        SkillsAddOneColumnPerKeyword(rows, keywords, i);
      } else {
        assert WithSkills(rows, keywords).value[i] == AddSkills(rows[i], keywords).value;
      }
    }
  }

  lemma ColumnStepsKeep(rows: seq<Row>, extractedDate: string, c: Col)
    requires Untouched(c)
    ensures Keeps(rows, MapExperienceColumn(RenameAll(StampRunDate(rows, extractedDate))), c)
  {
    var stamped := StampRunDate(rows, extractedDate);
    var renamed := RenameAll(stamped);
    StampKeeps(rows, extractedDate, c);
    assert Keeps(stamped, renamed, c);
    MapExperienceKeeps(renamed, c);
    KeepsTrans(rows, stamped, renamed, c);
    KeepsTrans(rows, renamed, MapExperienceColumn(renamed), c);
  }

  lemma StampKeeps(rows: seq<Row>, extractedDate: string, c: Col)
    requires c != ExtractedDate
    ensures Keeps(rows, StampRunDate(rows, extractedDate), c)
  {
    var r := StampRunDate(rows, extractedDate);
    forall i | 0 <= i < |rows| ensures Cell(r[i], c) == Cell(rows[i], c) {
      assert c in r[i] <==> c in rows[i];
    }
  }

  lemma MapExperienceKeeps(rows: seq<Row>, c: Col)
    requires c != ExperienceBool
    ensures Keeps(rows, MapExperienceColumn(rows), c)
  {
    var r := MapExperienceColumn(rows);
    forall i | 0 <= i < |rows| ensures Cell(r[i], c) == Cell(rows[i], c) {
      assert c in r[i] <==> c in rows[i];
    }
  }

  /** Each entry moves its column: after the rename the new name holds what
      the old name held, and the old name is gone. */
  lemma {:induction false} RenameMovesColumn(row: Row, renames: seq<(string, string)>, k: nat)
    requires DistinctRenames(renames) && k < |renames|
    requires Named(renames[k].1) !in row
    decreases |renames|
    ensures var r, from, to := RenameColumns(row, renames), Named(renames[k].0), Named(renames[k].1);
      && from !in r
      && (to in r <==> from in row)
      && Cell(r, to) == Cell(row, from)
  {
    var from, to := Named(renames[k].0), Named(renames[k].1);
    var next := RenameColumn(row, renames[0].0, renames[0].1);
    var tail := renames[1..];
    assert DistinctRenames(tail) by {
      forall i, j | 0 <= i < |tail| && 0 <= j < |tail|
        ensures tail[i].0 != tail[j].1 && (i != j ==> tail[i].0 != tail[j].0 && tail[i].1 != tail[j].1)
      {
        assert tail[i] == renames[i + 1] && tail[j] == renames[j + 1];
      }
    }
    if k == 0 {
      assert !Renamed(from, tail) && !Renamed(to, tail) by {
        forall j | 0 <= j < |tail|
          ensures renames[0].0 != tail[j].0 && renames[0].0 != tail[j].1
          ensures renames[0].1 != tail[j].0 && renames[0].1 != tail[j].1
        {
          assert tail[j] == renames[j + 1];
        }
      }
    } else {
      assert from != Named(renames[0].0) && from != Named(renames[0].1);
      assert to != Named(renames[0].0) && to != Named(renames[0].1);
      assert tail[k - 1] == renames[k];
      RenameMovesColumn(next, tail, k - 1);
    }
  }

  /** The eight entries of the `rename` dictionary are distinct pairs. */
  lemma RenamesAreDistinct()
    ensures DistinctRenames(Renames)
  {
    NoNewNameIsOld();
    OldNamesDistinct();
    NewNamesDistinct();
  }

  lemma NoNewNameIsOld()
    ensures forall i, j :: 0 <= i < |Renames| && 0 <= j < |Renames| ==> Renames[i].0 != Renames[j].1
  {
    forall j | 0 <= j < |Renames| ensures '_' in Renames[j].1 {
    }
    forall i | 0 <= i < |Renames| ensures '_' !in Renames[i].0 {
    }
  }

  lemma OldNamesDistinct()
    ensures forall i, j :: 0 <= i < |Renames| && 0 <= j < |Renames| && i != j ==> Renames[i].0 != Renames[j].0
  {
  }

  lemma NewNamesDistinct()
    ensures forall i, j :: 0 <= i < |Renames| && 0 <= j < |Renames| && i != j ==> Renames[i].1 != Renames[j].1
  {
  }

  /** The rename of `process_and_insert_data` moves each of the eight spaced
      skill columns to its underscore name and leaves every other column as
      it was. */
  lemma RenameSkillColumnsMoves(row: Row)
    requires forall k :: 0 <= k < |Renames| ==> Named(Renames[k].1) !in row
    ensures var r := RenameSkillColumns(row);
      && (forall k :: 0 <= k < |Renames| ==>
            Named(Renames[k].0) !in r && Cell(r, Named(Renames[k].1)) == Cell(row, Named(Renames[k].0)))
      && (forall c :: !Renamed(c, Renames) ==> (c in r <==> c in row) && Cell(r, c) == Cell(row, c))
  {
    RenamesAreDistinct();
    forall k | 0 <= k < |Renames|
      ensures Named(Renames[k].0) !in RenameSkillColumns(row)
      ensures Cell(RenameSkillColumns(row), Named(Renames[k].1)) == Cell(row, Named(Renames[k].0))
    {
      RenameMovesColumn(row, Renames, k);
    }
  }

  lemma ExperienceKeeps(rows: seq<Row>, c: Col)
    requires MapRows(rows, ExperienceRow).Ok? && c != Experience
    ensures Keeps(rows, MapRows(rows, ExperienceRow).value, c)
  {
  }

  lemma SalaryKeeps(rows: seq<Row>, c: Col)
    requires MapRows(rows, SalaryRow).Ok? && c !in {Salary, Description, MinSalary, MaxSalary, AvgSalary}
    ensures Keeps(rows, MapRows(rows, SalaryRow).value, c)
  {
  }

  /** Every column no step writes comes through the enrichment unchanged. */
  lemma EnrichedKeeps(rows: seq<Row>, extractedDate: string, c: Col)
    requires Enriched(rows, extractedDate).Ok? && Untouched(c)
    ensures Keeps(rows, Enriched(rows, extractedDate).value, c)
  {
    var dated := WithDates(rows).value;
    DatesKeep(rows, c);
    var skilled := WithSkills(dated, Keywords).value;
    SkillsKeep(dated, Keywords, c);
    KeepsTrans(rows, dated, skilled, c);
    var stamped := StampRunDate(skilled, extractedDate);
    var renamed := RenameAll(stamped);
    var mapped := MapExperienceColumn(renamed);
    ColumnStepsKeep(skilled, extractedDate, c);
    KeepsTrans(rows, skilled, mapped, c);
    assert Enriched(rows, extractedDate) == Finished(mapped);
    var withYears := MapRows(mapped, ExperienceRow).value;
    ExperienceKeeps(mapped, c);
    KeepsTrans(rows, mapped, withYears, c);
    SalaryKeeps(withYears, c);
    KeepsTrans(rows, withYears, MapRows(withYears, SalaryRow).value, c);
  }

  /** The filter keeps only rows it was given, so it lets no 'Other' row in. */
  lemma {:induction false} FilterKeepsNoOther(rows: seq<Row>, existing: set<Value>)
    requires NoOther(rows)
    ensures NoOther(FilterNewRows(rows, existing))
  {
    if rows != [] {
      FilterKeepsNoOther(rows[1..], existing);
    }
  }

  /** What an append adds is the tail of the new table. */
  lemma AppendedRows(before: seq<Row>, added: seq<Row>, existing: set<Value>)
    requires NoOther(added) && AllNew(added, existing)
    ensures (before + added)[|before|..] == added
    ensures NoOther(before) ==> NoOther(before + added)
    ensures AllNew((before + added)[|before|..], existing)
  {
    assert (before + added)[|before|..] == added;
  }

  /** The three salary cells of a row: all empty, or three amounts whose
      average is the mean of the two bounds and lies between them. */
  predicate SalaryCellsAgree(row: Row)
  {
    var lo, hi, avg := Cell(row, MinSalary), Cell(row, MaxSalary), Cell(row, AvgSalary);
    || (lo.Null? && hi.Null? && avg.Null?)
    || (&& lo.Num? && hi.Num? && avg.Num? && avg.n * 2.0 == lo.n + hi.n
        && (lo.n <= avg.n <= hi.n || hi.n <= avg.n <= lo.n))
  }

  /** What every row that reaches de-duplication looks like: no raw salary
      label and no description, the run date stamped, the experience flag
      remapped to Y/N, the experience a non-negative number of years or
      empty, and the salary cells in agreement. */
  predicate FinishedRow(row: Row, extractedDate: string)
  {
    && Salary !in row && Description !in row
    && Cell(row, ExtractedDate) == Str(extractedDate)
    && (Cell(row, ExperienceBool) == Str("Y") || Cell(row, ExperienceBool) == Str("N"))
    && (Cell(row, Experience).Null? || (Cell(row, Experience).Num? && Cell(row, Experience).n >= 0.0))
    && SalaryCellsAgree(row)
  }

  predicate AllFinished(rows: seq<Row>, extractedDate: string)
  {
    forall i :: 0 <= i < |rows| ==> FinishedRow(rows[i], extractedDate)
  }

  /** Every row of the enriched frame is finished. */
  lemma EnrichedRowsFinished(rows: seq<Row>, extractedDate: string)
    requires Enriched(rows, extractedDate).Ok?
    ensures AllFinished(Enriched(rows, extractedDate).value, extractedDate)
  {
    var skilled := WithSkills(WithDates(rows).value, Keywords).value;
    var mapped := MapExperienceColumn(RenameAll(StampRunDate(skilled, extractedDate)));
    assert Enriched(rows, extractedDate) == Finished(mapped);
    forall i | 0 <= i < |mapped|
      ensures Cell(mapped[i], ExtractedDate) == Str(extractedDate)
      ensures Cell(mapped[i], ExperienceBool) == Str("Y") || Cell(mapped[i], ExperienceBool) == Str("N")
    {
      StampedAndMapped(skilled, extractedDate, i);
    }
    FinishedRowsFinished(mapped, extractedDate);
  }

  /** The run date and the remapped flag after the stamp, the rename and the
      remap. */
  lemma StampedAndMapped(rows: seq<Row>, extractedDate: string, i: nat)
    requires i < |rows|
    ensures var mapped := MapExperienceColumn(RenameAll(StampRunDate(rows, extractedDate)));
      && Cell(mapped[i], ExtractedDate) == Str(extractedDate)
      && (Cell(mapped[i], ExperienceBool) == Str("Y") || Cell(mapped[i], ExperienceBool) == Str("N"))
  {
    var stamped := StampRunDate(rows, extractedDate);
    var renamed := RenameAll(stamped);
    var mapped := MapExperienceColumn(renamed);
    assert Cell(stamped[i], ExtractedDate) == Str(extractedDate);
    assert renamed[i] == RenameSkillColumns(stamped[i]);
    var flag := MapExperience(Cell(renamed[i], ExperienceBool));
    assert mapped[i] == renamed[i][ExperienceBool := Str(flag)];
  }

  /** The experience and salary steps finish every row that comes in with
      the run date and the remapped flag. */
  lemma FinishedRowsFinished(rows: seq<Row>, extractedDate: string)
    requires Finished(rows).Ok?
    requires forall i :: 0 <= i < |rows| ==>
      && Cell(rows[i], ExtractedDate) == Str(extractedDate)
      && (Cell(rows[i], ExperienceBool) == Str("Y") || Cell(rows[i], ExperienceBool) == Str("N"))
    ensures AllFinished(Finished(rows).value, extractedDate)
  {
    var withYears := MapRows(rows, ExperienceRow).value;
    var done := MapRows(withYears, SalaryRow).value;
    forall i | 0 <= i < |done|
      ensures FinishedRow(done[i], extractedDate)
    {
      assert withYears[i] == ExperienceRow(rows[i]).value;
      FinishedRowOf(rows[i], extractedDate);
    }
  }

  /** One row through the experience and salary steps. */
  lemma FinishedRowOf(row: Row, extractedDate: string)
    requires Cell(row, ExtractedDate) == Str(extractedDate)
    requires Cell(row, ExperienceBool) == Str("Y") || Cell(row, ExperienceBool) == Str("N")
    requires ExperienceRow(row).Ok? && SalaryRow(ExperienceRow(row).value).Ok?
    ensures FinishedRow(SalaryRow(ExperienceRow(row).value).value, extractedDate)
  {
    var withYears := ExperienceRow(row).value;
    ExperienceRowCells(row);
    SalaryRowCells(withYears);
  }

  /** The cells `FinishedRow` reads after the experience step. */
  lemma ExperienceRowCells(row: Row)
    requires ExperienceRow(row).Ok?
    ensures var r := ExperienceRow(row).value;
      && Cell(r, ExtractedDate) == Cell(row, ExtractedDate) && Cell(r, ExperienceBool) == Cell(row, ExperienceBool)
      && (Cell(r, Experience).Null? || (Cell(r, Experience).Num? && Cell(r, Experience).n >= 0.0))
  {
  }

  /** The cells `FinishedRow` reads after the salary step. */
  lemma SalaryRowCells(row: Row)
    requires SalaryRow(row).Ok?
    ensures var r := SalaryRow(row).value;
      && Salary !in r && Description !in r && SalaryCellsAgree(r)
      && Cell(r, ExtractedDate) == Cell(row, ExtractedDate) && Cell(r, ExperienceBool) == Cell(row, ExperienceBool)
      && Cell(r, Experience) == Cell(row, Experience)
  {
    var r := SalaryRow(row).value;
    assert r.Keys == (row.Keys + {MinSalary, MaxSalary, AvgSalary}) - {Salary, Description};
    forall k | k in {ExtractedDate, ExperienceBool, Experience}
      ensures Cell(r, k) == Cell(row, k)
    {
      if k in row {
        assert r[k] == row[k];
      } else {
        assert k !in r;
      }
    }
  }

  /** Every row that reaches de-duplication is finished. */
  lemma PreparedRowsFinished(fetched: seq<Row>, extractedDate: string)
    requires Prepared(fetched, extractedDate).Ok?
    ensures AllFinished(Prepared(fetched, extractedDate).value, extractedDate)
  {
    EnrichedRowsFinished(DropOther(MapRows(fetched, ClassifyRow).value), extractedDate);
  }

  /** The filter keeps only rows it was given, so every row it keeps is
      finished. */
  lemma {:induction false} FilterKeepsFinished(rows: seq<Row>, existing: set<Value>, extractedDate: string)
    requires AllFinished(rows, extractedDate)
    ensures AllFinished(FilterNewRows(rows, existing), extractedDate)
  {
    if rows != [] {
      FilterKeepsFinished(rows[1..], existing, extractedDate);
    }
  }

  /** Nothing that reaches de-duplication is classified 'Other'. */
  lemma PreparedHasNoOther(fetched: seq<Row>, extractedDate: string)
    requires Prepared(fetched, extractedDate).Ok?
    ensures NoOther(Prepared(fetched, extractedDate).value)
  {
    var kept := DropOther(MapRows(fetched, ClassifyRow).value);
    assert forall i :: 0 <= i < |kept| ==> kept[i] in kept;
    EnrichedKeeps(kept, extractedDate, JobCategory);
  }
}

/** Skill extraction (`check_keyword_presence` and `skills` in
    src/transform_data.py): one Y/N column per keyword of a fixed list, set when
    the keyword occurs in the description as a whole word, ignoring case. */
module Skills {
  import opened Values
  import opened Text

  /** The 63 keywords, in the order `skills` adds their columns. */
  const Keywords: seq<string> := [
    "sql", "python", "pyspark", "azure", "aws", "gcp", "etl", "airflow", "kafka", "spark",
    "power bi", "tableau", "snowflake", "docker", "kubernetes", "git", "data warehouse",
    "hadoop", "mlops", "data lake", "bigquery", "databricks", "dbt", "mlflow",
    "java", "scala", "sas", "matlab", "power query", "looker", "apache", "hive",
    "terraform", "jenkins", "gitlab", "machine learning", "deep learning", "nlp",
    "api", "pipeline", "data governance", "erp", "ssis", "ssas", "ssrs", "ssms", "postgre", "mysql", "mongodb", "cloud",
    // Azure components
    "synapse", "blobstorage",
    "azure devops",
    "fabric",
    // AWS components
    "glue", "redshift", "s3", "lambda", "emr", "athena",
    "kinesis", "rds", "sagemaker"
  ]

  /** Position `i` of `d` holds a word character (`\w`). */
  predicate WordAt(d: string, i: int)
  {
    0 <= i < |d| && IsWordChar(d[i])
  }

  /** `\b` holds at position `p`: a word character on exactly one side. */
  predicate BoundaryAt(d: string, p: int)
  {
    WordAt(d, p - 1) != WordAt(d, p)
  }

  /** `\bk\b` matches `d` starting at `p`. */
  predicate WholeWordAt(d: string, k: string, p: int)
  {
    BoundaryAt(d, p) && OccursAt(d, k, p) && BoundaryAt(d, p + |k|)
  }

  /** `check_keyword_presence`: 'Y' exactly when the lower-cased keyword occurs in
      the lower-cased description between two word boundaries, 'N' otherwise. */
  function CheckKeywordPresence(description: string, keyword: string): (flag: string)
    ensures flag == "Y" || flag == "N"
    ensures flag == "Y" <==> exists p :: WholeWordAt(Lower(description), Lower(keyword), p)
  {
    var d, k := Lower(description), Lower(keyword);
    var at := (p: nat) => if WholeWordAt(d, k, p) then Some(()) else None;
    assert forall p: nat :: at(p).Some? <==> WholeWordAt(d, k, p);
    if FirstSome(at, 0, |d|).Some? then "Y" else "N"
  }

  /** For a keyword that begins and ends with a word character (every keyword of
      the list does), the boundaries say: no word character directly before and
      none directly after the occurrence. */
  lemma KeywordPresenceIsWholeWord(description: string, keyword: string)
    requires |keyword| > 0 && IsWordChar(keyword[0]) && IsWordChar(keyword[|keyword| - 1])
    ensures var d, k := Lower(description), Lower(keyword);
      CheckKeywordPresence(description, keyword) == "Y" <==>
        exists p :: OccursAt(d, k, p) && !WordAt(d, p - 1) && !WordAt(d, p + |k|)
  {
    LowerKeepsWordEnds(keyword);
    WholeWordIff(Lower(description), Lower(keyword));
  }

  /** Some whole-word occurrence exists exactly when some occurrence has no
      word character on either side. */
  lemma WholeWordIff(d: string, k: string)
    requires |k| > 0 && IsWordChar(k[0]) && IsWordChar(k[|k| - 1])
    ensures (exists p :: WholeWordAt(d, k, p)) <==>
      exists p :: OccursAt(d, k, p) && !WordAt(d, p - 1) && !WordAt(d, p + |k|)
  {
    BoundariesOfWord(d, k);
    if p :| WholeWordAt(d, k, p) {
      assert OccursAt(d, k, p) && !WordAt(d, p - 1) && !WordAt(d, p + |k|);
    }
    if p :| OccursAt(d, k, p) && !WordAt(d, p - 1) && !WordAt(d, p + |k|) {
      assert WholeWordAt(d, k, p);
    }
  }

  /** At an occurrence of a word that starts and ends with word characters,
      each `\b` holds exactly when the neighbouring character is not one. */
  lemma BoundariesOfWord(d: string, k: string)
    requires |k| > 0 && IsWordChar(k[0]) && IsWordChar(k[|k| - 1])
    ensures forall p :: OccursAt(d, k, p) ==>
      (WholeWordAt(d, k, p) <==> !WordAt(d, p - 1) && !WordAt(d, p + |k|))
  {
    forall p | OccursAt(d, k, p)
      ensures WholeWordAt(d, k, p) <==> !WordAt(d, p - 1) && !WordAt(d, p + |k|)
    {
      OccursAtChar(d, k, p, 0);
      OccursAtChar(d, k, p, |k| - 1);
    }
  }

  /** Lower-casing keeps the length and the word characters at both ends. */
  lemma LowerKeepsWordEnds(keyword: string)
    requires |keyword| > 0 && IsWordChar(keyword[0]) && IsWordChar(keyword[|keyword| - 1])
    ensures var k := Lower(keyword); |k| == |keyword| && IsWordChar(k[0]) && IsWordChar(k[|k| - 1])
  {
  }

  /** "SAS-based" flags `sas`: the hyphen is not a word character. */
  lemma HyphenIsABoundary()
    ensures CheckKeywordPresence("SAS-based", "sas") == "Y"
  {
    var d := Lower("SAS-based");
    assert d == "sas-based";
    assert WholeWordAt(d, "sas", 0);
  }

  /** "Sasuke" does not flag `sas`: the letter after it is a word character. */
  lemma LetterIsNoBoundary()
    ensures CheckKeywordPresence("Sasuke", "sas") == "N"
  {
    LowerSasuke();
    SasukeHasNoWholeSas();
  }

  lemma LowerSasuke()
    ensures Lower("Sasuke") == "sasuke" && Lower("sas") == "sas"
  {
  }

  lemma SasukeHasNoWholeSas()
    ensures forall p :: !WholeWordAt("sasuke", "sas", p)
  {
    var d := "sasuke";
    forall p | OccursAt(d, "sas", p) ensures !WholeWordAt(d, "sas", p) {
      OccursAtChar(d, "sas", p, 0);
      OccursAtChar(d, "sas", p, 1);
      assert p == 0;
      assert WordAt(d, 3);
    }
  }

  // ------------------------------------------------------------------ skills

  /** The skill columns added to a row whose description is `description`: one per
      keyword, labelled by the keyword, holding its 'Y'/'N' flag. */
  function SkillFlags(description: string, keywords: seq<string>): map<Col, Value>
  {
    map kw | kw in keywords :: Named(kw) := Str(CheckKeywordPresence(description, kw))
  }

  /** The row-wise effect of assigning the columns of `keywords` in turn: when
      there is at least one keyword, the description must be a string (on None,
      `.lower()` raises AttributeError), and the row gains the skill columns. */
  function AddSkills(row: Row, keywords: seq<string>): Result<Row>
  {
    if keywords == [] then Ok(row)
    else
      match Cell(row, Description)
      case Str(d) => Ok(row + SkillFlags(d, keywords))
      case _ => Err(AttributeError("lower"))
  }

  /** The frame left by assigning the columns of `keywords`, or the exception
      raised: with at least one keyword, every description must be a string,
      and the frame keeps its rows. */
  function WithSkills(rows: seq<Row>, keywords: seq<string>): (r: Result<seq<Row>>)
    ensures r.Ok? <==> keywords == [] || AllDescribed(rows)
    ensures r.Ok? ==> |r.value| == |rows|
    ensures r.Err? ==> r.error == AttributeError("lower")
  {
    MapRows(rows, row => AddSkills(row, keywords))
  }

  /** `skills` adds exactly one Y/N column per keyword of its list, computed from
      that row's description, and leaves every other column as it was. */
  lemma SkillsAddOneColumnPerKeyword(rows: seq<Row>, keywords: seq<string>, i: nat)
    requires keywords != []
    requires WithSkills(rows, keywords).Ok? && i < |rows|
    ensures var before, after := rows[i], WithSkills(rows, keywords).value[i];
      && Cell(before, Description).Str?
      && after.Keys == before.Keys + (set kw | kw in keywords :: Named(kw))
      && (forall c :: c in before && !(c.Named? && c.name in keywords) ==> after[c] == before[c])
      && (forall kw :: kw in keywords ==>
            after[Named(kw)] == Str(CheckKeywordPresence(Cell(before, Description).s, kw))
            && after[Named(kw)] in {Str("Y"), Str("N")})
  {
    assert AddSkills(rows[i], keywords).Ok?;
  }

  /** The keyword column computed by one iteration of the loop in `skills`:
      `df['description'].apply(lambda x: check_keyword_presence(x, keyword))`. */
  function KeywordColumn(rows: seq<Row>, keyword: string): (column: Result<seq<Value>>)
    ensures column.Ok? <==> forall j :: 0 <= j < |rows| ==> Cell(rows[j], Description).Str?
    ensures column.Err? ==> column.error == AttributeError("lower")
    ensures column.Ok? ==> |column.value| == |rows|
    ensures column.Ok? ==> forall j :: 0 <= j < |rows| ==>
      && (column.value[j] == Str("Y") || column.value[j] == Str("N"))
      && (column.value[j] == Str("Y") <==>
            exists p :: WholeWordAt(Lower(Cell(rows[j], Description).s), Lower(keyword), p))
  {
    if forall j :: 0 <= j < |rows| ==> Cell(rows[j], Description).Str? then
      Ok(seq(|rows|, j requires 0 <= j < |rows| && Cell(rows[j], Description).Str? =>
               Str(CheckKeywordPresence(Cell(rows[j], Description).s, keyword))))
    else Err(AttributeError("lower"))
  }

  /** `skills(df)`: adds the columns of the 63 keywords to the frame in place. */
  method AddSkillColumns(df: Frame) returns (outcome: Outcome)
    modifies df
    ensures WithSkills(old(df.rows), Keywords).Ok? ==>
      outcome == Pass && df.rows == WithSkills(old(df.rows), Keywords).value
    ensures WithSkills(old(df.rows), Keywords).Err? ==>
      outcome == Fail(WithSkills(old(df.rows), Keywords).error) && df.rows == old(df.rows)
  {
    outcome := AssignKeywordColumns(df, Keywords);
  }

  /** The loop of `skills`: `for keyword in keywords: df[keyword] = …`. */
  method AssignKeywordColumns(df: Frame, keywords: seq<string>) returns (outcome: Outcome)
    modifies df
    ensures WithSkills(old(df.rows), keywords).Ok? ==>
      outcome == Pass && df.rows == WithSkills(old(df.rows), keywords).value
    ensures WithSkills(old(df.rows), keywords).Err? ==>
      outcome == Fail(WithSkills(old(df.rows), keywords).error) && df.rows == old(df.rows)
  {
    ghost var rows0 := df.rows;
    var k := 0;
    while k < |keywords|
      invariant 0 <= k <= |keywords|
      invariant k > 0 ==> AllDescribed(rows0)
      invariant k == 0 ==> df.rows == rows0
      invariant FlaggedUpTo(rows0, keywords[..k], df.rows)
    {
      var keyword := keywords[k];
      var column := KeywordColumn(df.rows, keyword);
      if column.Err? {
        NoSkillsWithoutDescription(rows0, keywords);
        return Fail(column.error);
      }
      var rows := df.rows;
      df.rows := seq(|rows|, j requires 0 <= j < |rows| => rows[j][Named(keyword) := column.value[j]]);
      FlaggedOneMore(rows0, keywords, k, rows, column.value, df.rows);
      k := k + 1;
    }
    assert keywords[..k] == keywords;
    AllSkills(rows0, keywords, df.rows);
    return Pass;
  }

  /** Every row of the frame has a string description. */
  predicate AllDescribed(rows: seq<Row>)
  {
    forall j :: 0 <= j < |rows| ==> Cell(rows[j], Description).Str?
  }

  /** `result` is `rows` with the columns of `keywords` added to every row whose
      description is a string, and with the descriptions unchanged. */
  ghost predicate FlaggedUpTo(rows: seq<Row>, keywords: seq<string>, result: seq<Row>)
  {
    && |result| == |rows|
    && (forall j :: 0 <= j < |rows| ==> Cell(result[j], Description) == Cell(rows[j], Description))
    && (forall j :: 0 <= j < |rows| && Cell(rows[j], Description).Str? ==>
          result[j] == rows[j] + SkillFlags(Cell(rows[j], Description).s, keywords))
  }

  /** One iteration of the loop keeps `FlaggedUpTo`. */
  lemma FlaggedOneMore(rows0: seq<Row>, keywords: seq<string>, k: nat,
                       rows: seq<Row>, column: seq<Value>, next: seq<Row>)
    requires k < |keywords|
    requires FlaggedUpTo(rows0, keywords[..k], rows)
    requires |column| == |rows| && AllDescribed(rows)
    requires forall j :: 0 <= j < |rows| ==>
      column[j] == Str(CheckKeywordPresence(Cell(rows[j], Description).s, keywords[k]))
    requires |next| == |rows| && forall j :: 0 <= j < |rows| ==> next[j] == rows[j][Named(keywords[k]) := column[j]]
    ensures FlaggedUpTo(rows0, keywords[..k + 1], next)
  {
    forall j | 0 <= j < |rows0| && Cell(rows0[j], Description).Str?
      ensures next[j] == rows0[j] + SkillFlags(Cell(rows0[j], Description).s, keywords[..k + 1])
    {
      RowGrows(rows0[j], Cell(rows0[j], Description).s, keywords, k, rows[j], next[j]);
    }
    forall j | 0 <= j < |rows0|
      ensures Cell(next[j], Description) == Cell(rows0[j], Description)
    {
      assert Named(keywords[k]) != Description;
    }
  }

  /** One row of `FlaggedOneMore`. */
  lemma RowGrows(row0: Row, description: string, keywords: seq<string>, k: nat, row: Row, next: Row)
    requires k < |keywords|
    requires row == row0 + SkillFlags(description, keywords[..k])
    requires next == row[Named(keywords[k]) := Str(CheckKeywordPresence(description, keywords[k]))]
    ensures next == row0 + SkillFlags(description, keywords[..k + 1])
  {
    FlagsGrow(description, keywords, k);
    UpdateOfUnion(row0, SkillFlags(description, keywords[..k]),
                  Named(keywords[k]), Str(CheckKeywordPresence(description, keywords[k])));
  }

  /** Updating a union in the key of its right operand updates that operand. */
  lemma UpdateOfUnion<K, V>(m: map<K, V>, a: map<K, V>, x: K, v: V)
    ensures (m + a)[x := v] == m + a[x := v]
  {
  }

  /** Adding the next keyword's column to the flags of the keywords before it. */
  lemma FlagsGrow(description: string, keywords: seq<string>, k: nat)
    requires k < |keywords|
    ensures SkillFlags(description, keywords[..k + 1])
         == SkillFlags(description, keywords[..k])[Named(keywords[k]) := Str(CheckKeywordPresence(description, keywords[k]))]
  {
    assert keywords[..k + 1] == keywords[..k] + [keywords[k]];
  }

  /** A frame with a non-string description and at least one keyword raises. */
  lemma NoSkillsWithoutDescription(rows: seq<Row>, keywords: seq<string>)
    requires keywords != []
    requires !AllDescribed(rows)
    ensures WithSkills(rows, keywords) == Err(AttributeError("lower"))
  {
    var j :| 0 <= j < |rows| && !Cell(rows[j], Description).Str?;
    assert AddSkills(rows[j], keywords).Err?;
  }

  /** What the loop built is what `WithSkills` describes. */
  lemma AllSkills(rows: seq<Row>, keywords: seq<string>, result: seq<Row>)
    requires keywords != [] ==> AllDescribed(rows)
    requires keywords == [] ==> result == rows
    requires FlaggedUpTo(rows, keywords, result)
    ensures WithSkills(rows, keywords) == Ok(result)
  {
    var w := WithSkills(rows, keywords);
    assert w.Ok?;
    forall j | 0 <= j < |rows| ensures w.value[j] == result[j] {
      assert w.value[j] == AddSkills(rows[j], keywords).value;
    }
    assert w.value == result;
  }
}

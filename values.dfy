/** Shared vocabulary of the ingestion pipeline: decoded JSON values (which are
    also the cells of a data frame), column labels, rows, and the failures the
    Python code raises. */
module Values {

  datatype Option<+T> = None | Some(value: T)

  /** A computation that either produces a value or raises a Python exception. */
  datatype Result<+T> = Ok(value: T) | Err(error: PyError)

  /** A step that changes state and either completes or raises. */
  datatype Outcome = Pass | Fail(error: PyError)

  /** The exceptions the pipeline can raise; the run stops at the first one. */
  datatype PyError =
    | AttributeError(what: string)   // a method such as `.get` or `.lower` called on None or on a non-dict
    | TypeError(what: string)        // `re.search` on a non-string, iterating a non-iterable, indexing a non-dict
    | KeyError(key: string)          // a missing dictionary key or data-frame column
    | ValueError(what: string)       // an unparseable date
    | JsonDecodeError                 // `response.json()` on a body that is not JSON

  /** A decoded JSON value, and equally a data-frame cell (None/NaN is `Null`,
      every number is an exact `Num`). */
  datatype Value =
    | Null
    | Bool(b: bool)
    | Num(n: real)
    | Str(s: string)
    | Arr(items: seq<Value>)
    | Obj(fields: map<string, Value>)

  /** Python's `d.get(key)` on a dict: None when the key is absent. */
  function Get(fields: map<string, Value>, key: string): (v: Value)
    ensures key !in fields ==> v == Null
    ensures key in fields ==> v == fields[key]
  {
    if key in fields then fields[key] else Null
  }

  /** Column labels of the data frame. The fixed columns of the pipeline are
      constructors (their pandas label is given beside each); the columns whose
      label is computed at run time (one per skill keyword, and the renamed skill
      columns) are `Named`. No keyword of the pipeline spells a fixed label, so
      the two kinds never collide. */
  datatype Col =
    | Id                  // 'id'
    | Title               // 'title'
    | CodePostal          // 'code_postal'
    | Latitude            // 'latitude'
    | Longitude           // 'longitude'
    | Description         // 'description'
    | DateCreation        // 'date_creation'
    | DateActualization   // 'date_actualization'
    | ContractType        // 'contract_type'
    | ContractNature      // 'contract_nature'
    | ExperienceBool      // 'experience_bool'
    | Experience          // 'experience'
    | Salary              // 'salary'
    | CompanyField        // 'company_field'
    | JobCategory         // 'job_category'
    | Chef                // 'chef'
    | Year                // 'year'
    | Month               // 'month'
    | Day                 // 'day'
    | ExtractedDate       // 'extracted_date'
    | MinSalary           // 'min_salary'
    | MaxSalary           // 'max_salary'
    | AvgSalary           // 'avg_salary'
    | Named(name: string)

  /** One row of a data frame; a frame is a `seq<Row>`. */
  type Row = map<Col, Value>

  /** The cell of `row` in column `c`; a row built without that column reads
      as NaN, as pandas fills it. */
  function Cell(row: Row, c: Col): (v: Value)
    ensures c in row ==> v == row[c]
    ensures c !in row ==> v == Null
  {
    if c in row then row[c] else Null
  }

  /** The value of the `id` column, the key used for de-duplication. */
  function IdOf(row: Row): Value
  {
    Cell(row, Id)
  }

  /** Applies a row transformation that may raise to every row, in order, as
      `Series.apply` does: the first failing row aborts the whole step. */
  function MapRows(rows: seq<Row>, f: Row -> Result<Row>): (r: Result<seq<Row>>)
    ensures r.Ok? <==> forall i :: 0 <= i < |rows| ==> f(rows[i]).Ok?
    ensures r.Ok? ==> |r.value| == |rows| && forall i :: 0 <= i < |rows| ==> r.value[i] == f(rows[i]).value
    ensures r.Err? ==> exists i :: 0 <= i < |rows| && f(rows[i]).Err? && r.error == f(rows[i]).error
                                 && forall j :: 0 <= j < i ==> f(rows[j]).Ok?
  {
    if rows == [] then Ok([])
    else
      match f(rows[0])
      case Err(e) => Err(e)
      case Ok(row) =>
        match MapRows(rows[1..], f)
        case Err(e) => Err(e)
        case Ok(rest) => Ok([row] + rest)
  }

  /** A pandas DataFrame, for the steps that update the frame they are given in
      place (`skills`, `dates`). */
  class Frame {
    var rows: seq<Row>

    constructor (rows: seq<Row>)
      ensures this.rows == rows
    {
      this.rows := rows;
    }
  }
}

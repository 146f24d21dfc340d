/** Shared vocabulary of the blog backend: optional values, results, the three
    states of a request key, post statuses, and PHP's truthiness of strings. */
module Common {

  datatype Option<+T> = None | Some(value: T) {
    /** PHP's `$x ?? $default` on a nullable value */
    function GetOr(default: T): T {
      if Some? then value else default
    }
  }

  datatype Result<+T, +E> = Success(value: T) | Failure(error: E)

  /** One key of a validated request payload: missing from the array, present
      with the value null, or present with a value. */
  datatype Field<+T> = Absent | Null | Value(v: T) {
    /** `array_key_exists($key, $data)` */
    predicate Present() {
      !Absent?
    }

    /** `$data[$key] ?? $default`: a null value reads like a missing key */
    function OrElse(default: Option<T>): Option<T> {
      if Value? then Some(v) else default
    }

    /** The column value a present key writes: null or the value */
    function AsOption(): Option<T> {
      if Value? then Some(v) else None
    }
  }

  /** A column value put back into a payload key */
  function FromOption<T>(o: Option<T>): (f: Field<T>)
    ensures f.Present() && f.AsOption() == o
  {
    if o.Some? then Value(o.value) else Null
  }

  /** The `status` enum column of the posts table */
  datatype Status = Draft | Scheduled | Published | Archived

  /** An instant as the framework stores it; the model never computes with it. */
  type Timestamp = int

  /** A path on the public storage disk */
  type Path = string

  /** The two kinds of error the post endpoints report themselves */
  datatype Error = ValidationError(field: string) | NotFound

  /** PHP's string truthiness: exactly "" and "0" are false. */
  predicate Falsy(s: string) {
    s == "" || s == "0"
  }

  /** The string stored in the `status` column */
  function StatusName(s: Status): (name: string)
    ensures !Falsy(name)
  {
    match s
    case Draft => "draft"
    case Scheduled => "scheduled"
    case Published => "published"
    case Archived => "archived"
  }

  /** Reads a status string; anything but the four column values is None. */
  function ParseStatus(name: string): (r: Option<Status>)
    ensures r.Some? ==> StatusName(r.value) == name
  {
    if name == "draft" then Some(Draft)
    else if name == "scheduled" then Some(Scheduled)
    else if name == "published" then Some(Published)
    else if name == "archived" then Some(Archived)
    else None
  }

  /** Writing a status and reading it back gives the same status. */
  lemma ParseStatusName(s: Status)
    ensures ParseStatus(StatusName(s)) == Some(s)
  {
  }
}

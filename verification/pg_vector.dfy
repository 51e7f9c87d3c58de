/**
 * The `VECTOR(dimension)` column type that the `documents` table uses for
 * embeddings (packages/postgresdb/src/types.ts): its SQL name, how a value
 * read from the driver is sanitised and validated, and how a vector is bound
 * as JSON text and parsed back.
 */
module PgVector {
  import opened Wrappers
  import opened Json

  /** The three errors `validate` throws, in the order it checks for them. */
  datatype VectorError = NotAnArray | WrongDimension(dimension: int) | NotANumber

  function Message(e: VectorError): string {
    match e
    case NotAnArray => "Value must be an array"
    case WrongDimension(d) => "Vector must have " + IntText(d) + " dimensions"
    case NotANumber => "All elements must be numbers"
  }

  /** A number array as a JSON value. */
  function Numbers(xs: seq<int>): (v: Json)
    ensures v.JArray? && |v.items| == |xs|
    ensures forall i :: 0 <= i < |xs| ==> v.items[i] == JNumber(xs[i])
  {
    JArray(seq(|xs|, i requires 0 <= i < |xs| => JNumber(xs[i])))
  }

  predicate AllNumbers(items: seq<Json>) {
    forall i :: 0 <= i < |items| ==> items[i].JNumber?
  }

  /** `new VectorType(dimension)`: the dimension is set once and never changed. */
  datatype VectorType = VectorType(dimension: int) {

    /** `toSql()`: the column type as Postgres spells it. */
    function ToSql(): (sql: string)
      ensures SqlDimension(sql) == Some(dimension)
    {
      var sql := "VECTOR(" + IntText(dimension) + ")";
      assert sql[..7] == "VECTOR(";
      assert sql[7..] == IntText(dimension) + ")";
      ParseNumberText(dimension, ")");
      sql
    }

    /**
     * `sanitize(value)`: an array is kept, a string that parses to an array
     * becomes that array, anything else is returned as it came.
     */
    function Sanitize(value: Json): (r: Json)
      ensures value.JArray? ==> r == value
      ensures r != value ==> value.JString? && r.JArray? && Parse(value.s) == Some(r)
      ensures value.JString? && Parse(value.s).Some? && Parse(value.s).value.JArray? ==> r == Parse(value.s).value
    {
      if value.JArray? then value
      else if value.JString? then
        match Parse(value.s)
        case Some(parsed) => if parsed.JArray? then parsed else value
        case None => value
      else value
    }

    /**
     * `validate(value)`: not an array, then a wrong length, then an element
     * that is not a number; the first failing check decides the error.
     */
    function Validate(value: Json): (r: Result<(), VectorError>)
      ensures r.Ok? <==> value.JArray? && |value.items| == dimension && AllNumbers(value.items)
      ensures r == Err(NotAnArray) <==> !value.JArray?
      ensures r == Err(WrongDimension(dimension)) <==> value.JArray? && |value.items| != dimension
    {
      if !value.JArray? then Err(NotAnArray)
      else if |value.items| != dimension then Err(WrongDimension(dimension))
      else if exists i :: 0 <= i < |value.items| && !value.items[i].JNumber? then Err(NotANumber)
      else Ok(())
    }

    /** `parseDatabaseValue(value)`: a string is JSON text and is parsed (which may throw); anything else is passed on. */
    function ParseDatabaseValue(value: Json): (r: Option<Json>)
      ensures !value.JString? ==> r == Some(value)
      ensures value.JString? ==> r == Parse(value.s)
    {
      if value.JString? then Parse(value.s) else Some(value)
    }

    /** `toBindableValue(value)`: the vector as JSON text. */
    function ToBindableValue(xs: seq<int>): (text: string)
      ensures Parse(text) == Some(Numbers(xs))
    {
      ParseStringify(Numbers(xs));
      Stringify(Numbers(xs))
    }
  }

  /** `VECTOR(dimension)`. */
  function VECTOR(dimension: int): (t: VectorType)
    ensures t.dimension == dimension
  {
    VectorType(dimension)
  }

  /** The dimension written in a `VECTOR(n)` type name, read back. */
  function SqlDimension(sql: string): Option<int> {
    if |sql| < 7 || sql[..7] != "VECTOR(" then None
    else
      match ParseNumber(sql[7..])
      case Some((JNumber(n), rest)) => if rest == ")" then Some(n) else None
      case _ => None
  }

  /** What `toBindableValue` writes, `parseDatabaseValue` reads back as the same vector. */
  lemma ParseBoundValue(t: VectorType, xs: seq<int>)
    ensures t.ParseDatabaseValue(JString(t.ToBindableValue(xs))) == Some(Numbers(xs))
  {
  }

  /** `sanitize` also turns the bound text back into the vector. */
  lemma SanitizeBoundValue(t: VectorType, xs: seq<int>)
    ensures t.Sanitize(JString(t.ToBindableValue(xs))) == Numbers(xs)
  {
  }

  /** Sanitising twice is sanitising once. */
  lemma SanitizeIdempotent(t: VectorType, v: Json)
    ensures t.Sanitize(t.Sanitize(v)) == t.Sanitize(v)
  {
  }

  /** A number array is valid exactly when it has the declared dimension. */
  lemma ValidateNumbers(t: VectorType, xs: seq<int>)
    ensures t.Validate(Numbers(xs)).Ok? <==> |xs| == t.dimension
  {
  }

  /** An array of the right length with a non-number in it fails only on the element check. */
  lemma ValidateOrder(t: VectorType, v: Json)
    ensures v.JArray? && |v.items| == t.dimension && !AllNumbers(v.items) ==> t.Validate(v) == Err(NotANumber)
    ensures t.Validate(v).Err? ==> t.Validate(v).error == if !v.JArray? then NotAnArray
                                                     else if |v.items| != t.dimension then WrongDimension(t.dimension)
                                                     else NotANumber
  {
  }
}

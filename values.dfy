/** JSON scalar values of a row as `str()` renders them. */
module Values {
  import opened Wrappers
  import opened Text

  /** A scalar row value that `str()` is applied to. */
  datatype Scalar = Text(s: string) | Number(n: int)

  /** `str(obj.get(key, ""))`: "" for an absent key, "None" for null. */
  function StrOf(f: Field<Scalar>): string {
    match f
    case Absent => ""
    case Null => "None"
    case Has(Text(s)) => s
    case Has(Number(n)) => IntToString(n)
  }
}

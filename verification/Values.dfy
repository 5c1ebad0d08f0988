/** Typed SQL parameter values and their literal text. */
module Values {
  import opened Text

  datatype Option<+T> = None | Some(value: T)

  /** `Float`, `Json` and `Uuid` carry the text their Rust values display as. */
  datatype SqlValue =
    | Txt(s: string)
    | Integer(n: int)
    | Float(repr: string)
    | Bool(b: bool)
    | Null
    | Json(repr: string)
    | Uuid(repr: string)
    | Array(elems: seq<SqlValue>)

  function ToSqlLiteral(v: SqlValue): string {
    match v
    case Txt(s) => "'" + Doubled(s, '\'') + "'"
    case Integer(n) => IntText(n)
    case Float(r) => r
    case Bool(b) => if b then "TRUE" else "FALSE"
    case Null => "NULL"
    case Json(r) => "'" + r + "'"
    case Uuid(r) => "'" + r + "'"
    case Array(vs) => "ARRAY[" + LiteralList(vs) + "]"
  }

  function LiteralList(vs: seq<SqlValue>): string {
    if vs == [] then ""
    else if |vs| == 1 then ToSqlLiteral(vs[0])
    else ToSqlLiteral(vs[0]) + ", " + LiteralList(vs[1..])
  }
}

/** Three-valued logic. */
module Sql {
  /** The truth values of SQL; a WHERE clause keeps the rows for which it is True. */
  datatype Truth = True | False | Unknown

  function Known(b: bool): Truth {
    if b then True else False
  }

  function And(a: Truth, b: Truth): Truth {
    if a.False? || b.False? then False else if a.True? && b.True? then True else Unknown
  }

  function Not(a: Truth): Truth {
    match a
    case True => False
    case False => True
    case Unknown => Unknown
  }
}

/** The loosely-typed record model: a sheet is a sequence of rows, a row maps
    column names to cells, and a key absent from a row reads as `undefined`. */
module Cells {
  import opened Base
  import opened JsText
  import opened JsNumber

  /** One cell as a spreadsheet or CSV parser delivers it. A numeric cell
      carries the text JavaScript's `String(n)` prints for it. */
  datatype Value = VStr(s: string) | VNum(num: real, text: string) | VNull

  type Row = map<string, Value>
  type Sheet = seq<Row>

  /** `row[col]`, with `None` for `undefined`. */
  function Lookup(row: Row, col: string): Option<Value>
  {
    if col in row then Some(row[col]) else None
  }

  /** `fieldExists`: the key is present and the cell is neither `null` nor `""`. */
  predicate FieldExists(row: Row, field: string)
  {
    field in row && row[field] != VNull && row[field] != VStr("")
  }

  /** JavaScript truthiness of a cell (`NaN` is not representable). */
  predicate Truthy(v: Value)
  {
    match v
    case VStr(s) => s != ""
    case VNum(n, _) => n != 0.0
    case VNull => false
  }

  /** `String(v)` / `v.toString()`. */
  function Text(v: Value): string
  {
    match v
    case VStr(s) => s
    case VNum(_, t) => t
    case VNull => "null"
  }

  /** `Number(v)`; `None` is `NaN`. */
  function ToNumber(v: Value): Option<real>
  {
    match v
    case VStr(s) => StringToNumber(s)
    case VNum(n, _) => Some(n)
    case VNull => Some(0.0)
  }

  /** `Number(row[col])`: an absent key converts to `NaN`. */
  function CellNumber(row: Row, col: string): Option<real>
  {
    if col in row then ToNumber(row[col]) else None
  }

  /** `isValidNumber`: not `null`, `undefined` or `""`, and not `NaN` after conversion. */
  predicate IsValidNumber(v: Option<Value>)
  {
    v.Some? && v.value != VNull && v.value != VStr("") && ToNumber(v.value).Some?
  }

  /** `isInteger`: a valid number whose conversion has no fractional part. */
  predicate IsInteger(v: Option<Value>)
  {
    IsValidNumber(v) && IsIntegral(ToNumber(v.value).value)
  }

  /** On a cell already holding a number, `isInteger` is `Number.isInteger`. */
  lemma IsIntegerOfNumber(x: real, t: string)
    ensures IsInteger(Some(VNum(x, t))) <==> IsIntegral(x)
    ensures IsValidNumber(Some(VNum(x, t)))
  {
  }

  /** `fieldExists` and truthiness part only at a number: a numeric cell
      exists even when it holds 0, which is falsy. */
  lemma FieldExistsTruthy(row: Row, field: string)
    ensures FieldExists(row, field) <==> field in row && (Truthy(row[field]) || row[field].VNum?)
    ensures FieldExists(row, field) && !Truthy(row[field]) ==> row[field].VNum? && row[field].num == 0.0
  {
  }

  /** `isValidNumber(row[col])` is `fieldExists` plus a conversion that is
      not `NaN`, and `isInteger` adds a whole-number conversion. */
  lemma ValidNumberExists(row: Row, col: string)
    ensures IsValidNumber(Lookup(row, col)) <==> FieldExists(row, col) && CellNumber(row, col).Some?
    ensures IsInteger(Lookup(row, col)) <==>
      FieldExists(row, col) && CellNumber(row, col).Some? && IsIntegral(CellNumber(row, col).value)
  {
  }

  /** A cell of white space only is not `""`, and `Number` reads it as 0, so
      it passes both number checks. */
  lemma BlankTextIsZero(s: string)
    requires s != "" && forall k :: 0 <= k < |s| ==> IsWhite(s[k])
    ensures ToNumber(VStr(s)) == Some(0.0)
    ensures IsValidNumber(Some(VStr(s))) && IsInteger(Some(VStr(s)))
  {
  }

  /** `row[col] === s` for a string `s`: strict equality never holds for a
      number, `null` or `undefined` cell. */
  predicate CellIs(row: Row, col: string, s: string)
  {
    col in row && row[col] == VStr(s)
  }

  /** The text of a truthy cell, or `None` when `row[col]` is falsy. */
  function TruthyText(row: Row, col: string): (r: Option<string>)
    ensures r.Some? <==> col in row && Truthy(row[col])
    ensures r.Some? ==> r.value == Text(row[col])
    ensures col in row && row[col].VStr? ==> r == (if row[col].s == "" then None else Some(row[col].s))
  {
    if col in row && Truthy(row[col]) then Some(Text(row[col])) else None
  }
}

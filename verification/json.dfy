/** The JSON values the employee registry, the attendance map and the manual salary entries
    hold, with JavaScript truthiness. */
module Json {
  import opened Basics

  /** A stored field. `NumText(x)` is a string the program itself wrote from the number `x`
      (`toString()`, `toFixed(1)`, Python `str(...)`): it is text, so it is truthy even when
      `x` is 0, and both languages read it back as `x`. */
  datatype Value = Null | Num(n: real) | Str(s: string) | NumText(x: real)

  /** A JSON object with string keys (an employee, a salary entry). */
  type Record = map<string, Value>

  /** Property access; `None` is JavaScript's `undefined` and a key Python's `dict.get` misses. */
  function Get(r: Record, key: string): (v: Option<Value>)
    ensures v.Some? <==> key in r
  {
    if key in r then Some(r[key]) else None
  }

  /** JavaScript truthiness. */
  predicate Truthy(v: Option<Value>)
  {
    v.Some? &&
    match v.value
    case Null => false
    case Num(n) => n != 0.0
    case Str(s) => s != []
    case NumText(_) => true
  }

  /** JavaScript `a || b`. */
  function Or(a: Option<Value>, b: Option<Value>): (r: Option<Value>)
    ensures Truthy(a) ==> r == a
    ensures !Truthy(a) ==> r == b
  {
    if Truthy(a) then a else b
  }

  /** The string held by a field, when it holds one (`typeof v === 'string'`). */
  predicate IsText(v: Option<Value>)
  {
    v.Some? && (v.value.Str? || v.value.NumText?)
  }

  /** Strict equality of a field with a string (`record.Matricule === matricule`). */
  predicate FieldIs(r: Record, key: string, s: string)
  {
    key in r && r[key] == Str(s)
  }
}

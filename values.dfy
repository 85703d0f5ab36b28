/** JavaScript values as far as the combobox looks at them: the record that
    describes one dropdown option, JavaScript truthiness, and lower-casing. */
module JsValues {

  /** A nullable value: `None` stands for `null`/`undefined`. */
  datatype Option<T> = None | Some(value: T)

  /** A JavaScript value. Numbers are integers here (no NaN, no fractions);
      objects are compared field by field, which is what deep equality does. */
  datatype Value =
    | Undefined
    | Null
    | Bool(b: bool)
    | Num(n: int)
    | Str(s: string)
    | Obj(fields: map<string, Value>)

  /** One dropdown option: an application-defined record. Two options are the
      same option exactly when they are equal as values. */
  datatype Item = Item(fields: map<string, Value>)

  /** `option[name]`: a field that is not there reads as `undefined`, and so
      is falsy. */
  function Field(item: Item, name: string): (v: Value)
    ensures name in item.fields ==> v == item.fields[name]
    ensures name !in item.fields ==> v == Undefined && !Truthy(v)
  {
    if name in item.fields then item.fields[name] else Undefined
  }

  /** JavaScript truthiness: `!v` is the negation of this. `undefined` and
      `null` are falsy, and a string is truthy exactly when it is not empty. */
  predicate Truthy(v: Value)
    ensures v.Undefined? || v.Null? ==> !Truthy(v)
    ensures v.Str? ==> (Truthy(v) <==> |v.s| > 0)
  {
    match v
    case Undefined => false
    case Null => false
    case Bool(b) => b
    case Num(n) => n != 0
    case Str(s) => s != ""
    case Obj(_) => true
  }

  /** `xs` is `ys` with some elements left out, the rest in the same order. */
  predicate IsSubsequence<T(==)>(xs: seq<T>, ys: seq<T>)
    decreases |ys|
  {
    if xs == [] then true
    else if ys == [] then false
    else if xs[0] == ys[0] then IsSubsequence(xs[1..], ys[1..])
    else IsSubsequence(xs, ys[1..])
  }

  /** `toLowerCase` on one character, restricted to ASCII letters. */
  function LowerChar(c: char): (d: char)
    ensures 'A' <= c <= 'Z' ==> 'a' <= d <= 'z' && d as int - c as int == 32
    ensures !('A' <= c <= 'Z') ==> d == c
  {
    if 'A' <= c <= 'Z' then (c as int + 32) as char else c
  }

  /** `toLowerCase` on a string, character by character. */
  function Lower(s: string): (r: string)
    ensures |r| == |s|
    ensures forall i :: 0 <= i < |s| ==> r[i] == LowerChar(s[i])
  {
    if s == [] then [] else [LowerChar(s[0])] + Lower(s[1..])
  }

  /** Lower-casing twice is lower-casing once. */
  lemma LowerIdempotent(s: string)
    ensures Lower(Lower(s)) == Lower(s)
  {
  }
}

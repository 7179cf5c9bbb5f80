/**
 * The few JavaScript value semantics the backend relies on: which values are
 * truthy, what `typeof` and string concatenation yield, and `String.prototype.trim`.
 */
module Js {

  /**
   * A JavaScript value as it reaches the backend (a JSON request field, a
   * database column, an API answer). Numbers are carried as the decimal text
   * JavaScript prints for them; an array or object is carried with the text
   * `String(v)` gives (`shown`) and the text node-postgres writes for it (`stored`).
   */
  datatype JsValue =
    | Undefined
    | Null
    | Bool(b: bool)
    | Num(text: string)
    | Str(s: string)
    | Composite(shown: string, stored: string)

  /** The falsy values a JSON field, a column or an API answer can hold. */
  const Falsy: set<JsValue> := {Undefined, Null, Bool(false), Num("0"), Num("NaN"), Str("")}

  /** JavaScript truthiness: `undefined`, `null`, `false`, `0`, `NaN` and `""` are falsy. */
  predicate Truthy(v: JsValue)
    ensures Truthy(v) <==> v !in Falsy
  {
    match v
    case Undefined => false
    case Null => false
    case Bool(b) => b
    case Num(t) => t != "0" && t != "NaN"
    case Str(s) => s != ""
    case Composite(_, _) => true
  }

  /** The string `typeof v` evaluates to; never empty, hence always truthy. */
  function TypeOf(v: JsValue): (name: string)
    ensures |name| > 0
    ensures Truthy(Str(name))
    ensures name == "undefined" <==> v.Undefined?
    ensures name == "string" <==> v.Str?
  {
    match v
    case Undefined => "undefined"
    case Null => "object"
    case Bool(_) => "boolean"
    case Num(_) => "number"
    case Str(_) => "string"
    case Composite(_, _) => "object"
  }

  /** The text `"" + v` produces, as used in the API's error messages. */
  function ToJsString(v: JsValue): (s: string)
    ensures v.Str? ==> s == v.s
  {
    match v
    case Undefined => "undefined"
    case Null => "null"
    case Bool(b) => if b then "true" else "false"
    case Num(t) => t
    case Str(s) => s
    case Composite(shown, _) => shown
  }

  /**
   * The characters `String.prototype.trim` removes: WhiteSpace (tab,
   * vertical tab, form feed, space, no-break space, zero-width no-break
   * space and the Unicode space separators) and LineTerminator.
   */
  predicate IsJsSpace(c: char)
  {
    var n := c as int;
    n == 0x09 || n == 0x0A || n == 0x0B || n == 0x0C || n == 0x0D || n == 0x20
    || n == 0xA0 || n == 0x1680 || (0x2000 <= n <= 0x200A) || n == 0x2028
    || n == 0x2029 || n == 0x202F || n == 0x205F || n == 0x3000 || n == 0xFEFF
  }

  predicate AllSpace(s: string)
  {
    forall i :: 0 <= i < |s| ==> IsJsSpace(s[i])
  }

  /** How many white-space characters `s` starts with. */
  function LeadingSpace(s: string): (n: nat)
    ensures n <= |s|
    ensures forall i :: 0 <= i < n ==> IsJsSpace(s[i])
    ensures n < |s| ==> !IsJsSpace(s[n])
  {
    if s != [] && IsJsSpace(s[0]) then 1 + LeadingSpace(s[1..]) else 0
  }

  /** Where the white space `s` ends with begins. */
  function TrailingStart(s: string): (n: nat)
    ensures n <= |s|
    ensures forall i :: n <= i < |s| ==> IsJsSpace(s[i])
    ensures n > 0 ==> !IsJsSpace(s[n - 1])
  {
    if s != [] && IsJsSpace(s[|s| - 1]) then TrailingStart(s[..|s| - 1]) else |s|
  }

  /**
   * `s.trim()`: the infix of `s` between its leading and its trailing white
   * space; only white space is cut off, and the result neither starts nor
   * ends with white space.
   */
  function Trim(s: string): (r: string)
    ensures |r| <= |s|
    ensures exists i :: 0 <= i <= |s| - |r| && s[i..i + |r|] == r && AllSpace(s[..i]) && AllSpace(s[i + |r|..])
    ensures r == [] || (!IsJsSpace(r[0]) && !IsJsSpace(r[|r| - 1]))
  {
    var a := LeadingSpace(s);
    var b := TrailingStart(s);
    if b <= a then
      assert AllSpace(s[..0]) && AllSpace(s[0..]) && s[0..0] == [];
      []
    else
      assert AllSpace(s[..a]) && AllSpace(s[b..]);
      s[a..b]
  }

  /** Trimming twice changes nothing more than trimming once. */
  lemma {:induction false} TrimIdempotent(s: string)
    ensures Trim(Trim(s)) == Trim(s)
  {
    var r := Trim(s);
    if r != [] {
      assert LeadingSpace(r) == 0 && TrailingStart(r) == |r|;
      assert r[0..|r|] == r;
    }
  }

  /** A string trims to nothing exactly when it is all white space. */
  lemma TrimEmptyIffAllSpace(s: string)
    ensures Trim(s) == [] <==> AllSpace(s)
  {
    var a := LeadingSpace(s);
    var b := TrailingStart(s);
    if b > a {
      assert !IsJsSpace(s[a]) && |s[a..b]| > 0;
    }
  }
}

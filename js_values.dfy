/**
 * The slice of JavaScript's value semantics that the Drive facade relies on:
 * truthiness, property reads, `typeof`, `Array.isArray`, `Buffer.isBuffer`,
 * `instanceof fs.ReadStream`, string conversion, `Array.prototype.join` and
 * `String.prototype.includes`.
 */
module JsValues {

  type byte = x: int | 0 <= x < 256

  /**
   * A JavaScript value. Numbers are integers; a plain object is a map from
   * property names to values; a Node `Buffer` holds its bytes; an
   * `fs.ReadStream` is known by its path.
   */
  datatype JsValue =
    | Undefined
    | Null
    | Bool(b: bool)
    | Num(n: int)
    | Str(s: string)
    | Arr(elems: seq<JsValue>)
    | Obj(props: map<string, JsValue>)
    | Buffer(bytes: seq<byte>)
    | ReadStream(path: string)

  /** `v === null || v === undefined`: reading a property of such a value throws. */
  predicate IsNullish(v: JsValue) {
    v.Undefined? || v.Null?
  }

  /** JavaScript's `!!v`. Every object is truthy, an empty Buffer or `{}` included. */
  predicate Truthy(v: JsValue)
    ensures Truthy(v) ==> !IsNullish(v)
  {
    match v
    case Undefined => false
    case Null => false
    case Bool(b) => b
    case Num(n) => n != 0
    case Str(s) => s != ""
    case _ => true
  }

  /** `typeof v === "object"`, which holds for `null` and for arrays. */
  predicate IsObjectType(v: JsValue) {
    v.Null? || v.Arr? || v.Obj? || v.Buffer? || v.ReadStream?
  }

  /**
   * `v[key]` for a value that is not nullish: an own property of a plain
   * object, and `undefined` for everything else the facade reads.
   */
  function Prop(v: JsValue, key: string): JsValue
    requires !IsNullish(v)
  {
    if v.Obj? && key in v.props then v.props[key] else Undefined
  }

  function DigitChar(d: nat): char
    requires d < 10
  {
    "0123456789"[d]
  }

  /** The decimal digits of a natural number, without leading zeros. */
  function NatText(n: nat): (r: string)
    ensures |r| > 0
    ensures forall i :: 0 <= i < |r| ==> '0' <= r[i] <= '9'
  {
    if n < 10 then [DigitChar(n)] else NatText(n / 10) + [DigitChar(n % 10)]
  }

  function NumberText(n: int): string {
    if n < 0 then "-" + NatText(-n) else NatText(n)
  }

  /** `parts.join(sep)` on strings. */
  function JoinWith(parts: seq<string>, sep: string): string {
    if |parts| == 0 then ""
    else if |parts| == 1 then parts[0]
    else parts[0] + sep + JoinWith(parts[1..], sep)
  }

  /** Joining two non-empty lists puts one separator between their joins. */
  lemma {:induction false} JoinWithAppend(a: seq<string>, b: seq<string>, sep: string)
    requires |a| > 0 && |b| > 0
    ensures JoinWith(a + b, sep) == JoinWith(a, sep) + sep + JoinWith(b, sep)
  {
    if |a| == 1 {
      assert a + b == [a[0]] + b;
      assert (a + b)[1..] == b;
    } else {
      assert (a + b)[1..] == a[1..] + b;
      JoinWithAppend(a[1..], b, sep);
    }
  }

  /**
   * JavaScript's `String(v)` (also a template literal's conversion). An array
   * converts through `join(",")`, in which `null` and `undefined` elements
   * become empty strings.
   */
  function ToText(v: JsValue): string
    decreases v
  {
    match v
    case Undefined => "undefined"
    case Null => "null"
    case Bool(b) => if b then "true" else "false"
    case Num(n) => NumberText(n)
    case Str(s) => s
    case Arr(elems) =>
      JoinWith(seq(|elems|, i requires 0 <= i < |elems| =>
                     if IsNullish(elems[i]) then "" else ToText(elems[i])), ",")
    case Obj(_) => "[object Object]"
    case Buffer(bytes) => seq(|bytes|, i requires 0 <= i < |bytes| => bytes[i] as char)
    case ReadStream(_) => "[object Object]"
  }

  /** `elems.join(",")`. */
  function ArrayJoin(elems: seq<JsValue>): string {
    ToText(Arr(elems))
  }

  /** `sub` occurs in `s` starting at index `i`. */
  predicate OccursAt(s: string, sub: string, i: int) {
    0 <= i && i + |sub| <= |s| && s[i..i + |sub|] == sub
  }

  /** `s.includes(sub)`: `sub` occurs in `s` at some index. */
  predicate Includes(s: string, sub: string) {
    exists i | 0 <= i <= |s| - |sub| :: OccursAt(s, sub, i)
  }

  /** A string lacking the last character of `sub` does not include `sub`. */
  lemma MissingCharExcludes(s: string, sub: string)
    requires |sub| > 0 && sub[|sub| - 1] !in s
    ensures !Includes(s, sub)
  {
  }

  /** A string that begins with `sub` includes it. */
  lemma IncludesAtStart(s: string, sub: string)
    requires |sub| <= |s| && s[..|sub|] == sub
    ensures Includes(s, sub)
  {
    assert OccursAt(s, sub, 0);
  }
}

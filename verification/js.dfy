/**
 * The parts of the JavaScript runtime the header code leans on: the
 * exceptions it throws, the values that callers hand it, `String(value)`,
 * `Array.prototype.join` and ASCII case mapping.
 */
module Js {

  /** An exception thrown by the modelled code. */
  datatype Thrown =
    | TypeError               // `new TypeError()`: wrong argument shape or a non-token name
    | Error(message: string)  // `new Error(message)`
    | Unspecified             // thrown by code outside this model; its kind is not stated

  /**
   * A JavaScript value as it can appear as the value of a name/value entry.
   * Non-array values carry their `String(value)` text where JavaScript
   * itself would compute it from state this model does not hold.
   */
  datatype Value =
    | Null
    | Undefined
    | Str(s: string)          // `typeof value === "string"`
    | Prim(text: string)      // a number, boolean or bigint, with its `String()` text
    | Obj(text: string)       // a non-array object (a Date, a plain object), with its `String()` text
    | Array(items: seq<Value>)

  /** A value that is not an object: `typeof` is not "object", or it is `null`. */
  type Primitive = v: Value | !v.Array? && !v.Obj? witness Null

  predicate IsNullish(v: Value) {
    v.Null? || v.Undefined?
  }

  /** `parts.join(sep)`. */
  function Join(parts: seq<string>, sep: string): string
  {
    if |parts| == 0 then ""
    else if |parts| == 1 then parts[0]
    else parts[0] + sep + Join(parts[1..], sep)
  }

  /** A join whose first part is not empty starts with that part's first character. */
  lemma JoinHead(parts: seq<string>, sep: string)
    requires |parts| > 0 && |parts[0]| > 0
    ensures |Join(parts, sep)| > 0 && Join(parts, sep)[0] == parts[0][0]
  {
  }

  /** A join holds only characters of its parts and of the separator. */
  lemma {:induction false} JoinChars(parts: seq<string>, sep: string, p: char -> bool)
    requires forall i, k :: 0 <= i < |parts| && 0 <= k < |parts[i]| ==> p(parts[i][k])
    requires forall k :: 0 <= k < |sep| ==> p(sep[k])
    ensures forall k :: 0 <= k < |Join(parts, sep)| ==> p(Join(parts, sep)[k])
  {
    if |parts| > 1 {
      var rest := parts[1..];
      assert forall i, k :: 0 <= i < |rest| && 0 <= k < |rest[i]| ==> p(rest[i][k]) by {
        forall i, k | 0 <= i < |rest| && 0 <= k < |rest[i]| ensures p(rest[i][k]) {
          assert rest[i] == parts[i + 1];
        }
      }
      JoinChars(rest, sep, p);
      var head, tail := parts[0] + sep, Join(rest, sep);
      assert forall k :: 0 <= k < |head| ==> p(head[k]);
      assert Join(parts, sep) == head + tail;
    }
  }

  /**
   * `String(v)`. An array renders as its elements joined by ",", where a
   * `null` or `undefined` element renders as the empty string.
   */
  function Stringify(v: Value): string
    decreases v, if v.Array? then |v.items| + 1 else 0
  {
    match v
    case Null => "null"
    case Undefined => "undefined"
    case Str(s) => s
    case Prim(t) => t
    case Obj(t) => t
    case Array(items) => JoinItems(v, 0)
  }

  /** `Array.prototype.join(",")` over the elements of `v` from index `i` on. */
  function JoinItems(v: Value, i: nat): string
    requires v.Array? && i <= |v.items|
    decreases v, |v.items| - i
  {
    if i == |v.items| then ""
    else
      var item := v.items[i];
      var text := if IsNullish(item) then "" else Stringify(item);
      if i + 1 == |v.items| then text else text + "," + JoinItems(v, i + 1)
  }

  function LowerChar(c: char): char
  {
    if 'A' <= c <= 'Z' then (c as int + 32) as char else c
  }

  function UpperChar(c: char): char
  {
    if 'a' <= c <= 'z' then (c as int - 32) as char else c
  }

  /** `s.toLowerCase()` restricted to ASCII letters. */
  function Lower(s: string): (r: string)
    ensures |r| == |s|
    ensures forall i :: 0 <= i < |s| ==> r[i] == LowerChar(s[i])
  {
    seq(|s|, i requires 0 <= i < |s| => LowerChar(s[i]))
  }

  /** `s.toUpperCase()` restricted to ASCII letters. */
  function Upper(s: string): (r: string)
    ensures |r| == |s|
    ensures forall i :: 0 <= i < |s| ==> r[i] == UpperChar(s[i])
  {
    seq(|s|, i requires 0 <= i < |s| => UpperChar(s[i]))
  }
}

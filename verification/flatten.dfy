/**
 * `entries` and `multiEntries`: turn a `Map`, an array of `[name, value]`
 * pairs or a plain object into an ordered sequence of `[name, string]`
 * pairs. `entries` stringifies every value; `multiEntries` first expands an
 * array value, one level deep, into one pair per element.
 */
module Flatten {
  import opened Wrappers
  import opened Seqs
  import opened Js

  type Pair = (string, string)

  /** The argument, by the overload it selects. */
  datatype Source =
    | MapSource(entries: seq<(string, Value)>)     // `arg instanceof Map`, in insertion order
    | PairsSource(entries: seq<(string, Value)>)   // `Array.isArray(arg)`, every element a `[name, value]` pair
    | RecordSource(entries: seq<(string, Value)>)  // another non-null object, in `Object.entries` order
    | NotObject(p: Primitive)                      // a primitive, `null` or `undefined`

  /** The loop of `entries0`: one stringified pair per entry. */
  function EntriesOf(es: seq<(string, Value)>): (r: seq<Pair>)
    ensures |r| == |es|
    ensures forall i :: 0 <= i < |es| ==> r[i] == (es[i].0, Stringify(es[i].1))
  {
    if |es| == 0 then [] else [(es[0].0, Stringify(es[0].1))] + EntriesOf(es[1..])
  }

  /** `entries(arg)`. */
  function Entries(src: Source): (r: Result<seq<Pair>, Thrown>)
    ensures r.Err? <==> src.NotObject?
    ensures r.Err? ==> r.error == TypeError
    ensures r.Ok? ==> |r.value| == |src.entries|
    ensures r.Ok? ==> forall i :: 0 <= i < |src.entries| ==>
              r.value[i] == (src.entries[i].0, Stringify(src.entries[i].1))
  {
    match src
    case MapSource(es) => Ok(EntriesOf(es))
    case PairsSource(es) => Ok(EntriesOf(es))
    case RecordSource(es) => Ok(EntriesOf(es))
    case NotObject(_) => Err(TypeError)
  }

  /** The pairs one entry contributes to `multiEntries`. */
  function Expand(name: string, v: Value): seq<Pair>
  {
    if v.Array? then seq(|v.items|, j requires 0 <= j < |v.items| => (name, Stringify(v.items[j])))
    else [(name, Stringify(v))]
  }

  /** How many pairs an entry contributes. */
  function Count(v: Value): nat
  {
    if v.Array? then |v.items| else 1
  }

  function TotalCount(es: seq<(string, Value)>): nat
  {
    if |es| == 0 then 0 else Count(es[0].1) + TotalCount(es[1..])
  }

  /** The loop of `multiEntries0`. */
  function MultiEntriesOf(es: seq<(string, Value)>): (r: seq<Pair>)
    ensures |r| == TotalCount(es)
  {
    if |es| == 0 then [] else Expand(es[0].0, es[0].1) + MultiEntriesOf(es[1..])
  }

  /** `multiEntries(arg)`. */
  function MultiEntries(src: Source): (r: Result<seq<Pair>, Thrown>)
    ensures r.Err? <==> src.NotObject?
    ensures r.Err? ==> r.error == TypeError
    ensures r.Ok? ==> |r.value| == TotalCount(src.entries)
  {
    match src
    case MapSource(es) => Ok(MultiEntriesOf(es))
    case PairsSource(es) => Ok(MultiEntriesOf(es))
    case RecordSource(es) => Ok(MultiEntriesOf(es))
    case NotObject(_) => Err(TypeError)
  }

  /** Flattening distributes over concatenation of the entry list. */
  lemma {:induction false} MultiEntriesAppend(a: seq<(string, Value)>, b: seq<(string, Value)>)
    ensures MultiEntriesOf(a + b) == MultiEntriesOf(a) + MultiEntriesOf(b)
    decreases |a|
  {
    if |a| == 0 {
      assert a + b == b;
    } else {
      assert (a + b)[0] == a[0];
      assert (a + b)[1..] == a[1..] + b;
      MultiEntriesAppend(a[1..], b);
    }
  }

  /**
   * Entry `k`'s pairs sit, in element order, right after the pairs of the
   * entries before it: an array value gives one pair per element, each
   * carrying the entry's name; any other value gives the single pair
   * `(name, String(value))`.
   */
  lemma EntryBlock(es: seq<(string, Value)>, k: nat)
    requires k < |es|
    ensures var r := MultiEntriesOf(es);
            var off := TotalCount(es[..k]);
            && off + Count(es[k].1) <= |r|
            && (es[k].1.Array? ==>
                  forall j :: 0 <= j < |es[k].1.items| ==>
                    r[off + j] == (es[k].0, Stringify(es[k].1.items[j])))
            && (!es[k].1.Array? ==> r[off] == (es[k].0, Stringify(es[k].1)))
  {
    assert es == es[..k] + ([es[k]] + es[k + 1..]);
    MultiEntriesAppend(es[..k], [es[k]] + es[k + 1..]);
    assert ([es[k]] + es[k + 1..])[0] == es[k];
    assert ([es[k]] + es[k + 1..])[1..] == es[k + 1..];
  }

  /** An entry whose value is an empty array contributes no pairs. */
  lemma EmptyArrayContributesNothing(a: seq<(string, Value)>, name: string, b: seq<(string, Value)>)
    ensures MultiEntriesOf(a + [(name, Array([]))] + b) == MultiEntriesOf(a + b)
  {
    var mid := [(name, Array([]))];
    MultiEntriesAppend(a + mid, b);
    MultiEntriesAppend(a, mid);
    MultiEntriesAppend(a, b);
    assert Expand(name, Array([])) == [];
    assert MultiEntriesOf(mid) == [];
    AppendEmpty(MultiEntriesOf(a), MultiEntriesOf(mid));
  }

  /** Without array values, `multiEntries` and `entries` agree. */
  lemma {:induction false} NoArraysSameAsEntries(es: seq<(string, Value)>)
    requires forall i :: 0 <= i < |es| ==> !es[i].1.Array?
    ensures MultiEntriesOf(es) == EntriesOf(es)
  {
    if |es| > 0 {
      assert forall i :: 0 <= i < |es| - 1 ==> es[1..][i] == es[i + 1];
      NoArraysSameAsEntries(es[1..]);
    }
  }

  /** A Map, an array of pairs and a plain object listing the same entries flatten alike. */
  lemma ShapeIrrelevant(es: seq<(string, Value)>)
    ensures MultiEntries(MapSource(es)) == MultiEntries(PairsSource(es)) == MultiEntries(RecordSource(es))
    ensures Entries(MapSource(es)) == Entries(PairsSource(es)) == Entries(RecordSource(es))
  {
  }

  /** `{a: 1, b: [2, 3]}` gives `[["a","1"],["b","2"],["b","3"]]`. */
  lemma DocumentedExample()
    ensures MultiEntries(RecordSource([("a", Prim("1")), ("b", Array([Prim("2"), Prim("3")]))]))
            == Ok([("a", "1"), ("b", "2"), ("b", "3")])
  {
    var es := [("a", Prim("1")), ("b", Array([Prim("2"), Prim("3")]))];
    assert es[1..][1..] == [];
    assert Expand("a", Prim("1")) == [("a", "1")];
    assert Expand("b", Array([Prim("2"), Prim("3")])) == [("b", "2"), ("b", "3")];
    assert MultiEntriesOf(es[1..][1..]) == [];
    assert MultiEntriesOf(es[1..]) == [("b", "2"), ("b", "3")];
    assert MultiEntriesOf(es) == [("a", "1")] + [("b", "2"), ("b", "3")];
    assert [("a", "1")] + [("b", "2"), ("b", "3")] == [("a", "1"), ("b", "2"), ("b", "3")];
    assert MultiEntries(RecordSource(es)) == Ok(MultiEntriesOf(es));
  }

  /** Flattening is one level deep: a nested array element is stringified, not expanded. */
  lemma OneLevelOnly()
    ensures MultiEntries(PairsSource([("a", Array([Array([Prim("1"), Prim("2")]), Prim("3")]))]))
            == Ok([("a", "1,2"), ("a", "3")])
  {
    var inner := Array([Prim("1"), Prim("2")]);
    assert Stringify(inner) == "1,2";
    var es := [("a", Array([inner, Prim("3")]))];
    assert Expand("a", Array([inner, Prim("3")])) == [("a", "1,2"), ("a", "3")];
    assert es[1..] == [];
    assert MultiEntriesOf(es) == [("a", "1,2"), ("a", "3")] + MultiEntriesOf([]);
    assert MultiEntriesOf([]) == [];
    assert [("a", "1,2"), ("a", "3")] + [] == [("a", "1,2"), ("a", "3")];
    assert MultiEntries(PairsSource(es)) == Ok(MultiEntriesOf(es));
  }
}

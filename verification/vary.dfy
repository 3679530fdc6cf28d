/**
 * The `Vary` header (RFC 9110 section 12.5.5): a case-insensitive, ordered
 * set of field names. The store is a JavaScript `Map` from the lower-cased
 * name to the name as last added, so it is modelled as a sequence of
 * entries with distinct keys in first-insertion order.
 */
module VaryHeader {
  import opened Wrappers
  import opened Seqs
  import opened Js
  import opened Syntax

  /** One member: the lower-cased lookup key and the display name as last added. */
  datatype Entry = Entry(key: string, name: string)

  datatype Vary = Vary(entries: seq<Entry>)

  const Empty: Vary := Vary([])

  /** Every display name is a token, keyed by its lower-cased form, and keys are distinct. */
  predicate Valid(v: Vary)
  {
    && (forall i :: 0 <= i < |v.entries| ==>
          IsToken(v.entries[i].name) && v.entries[i].key == Lower(v.entries[i].name))
    && (forall i, j :: 0 <= i < j < |v.entries| ==> v.entries[i].key != v.entries[j].key)
  }

  /** The display names in insertion order: what iterating the set yields. */
  function Names(v: Vary): (ns: seq<string>)
    ensures |ns| == |v.entries|
    ensures forall i :: 0 <= i < |ns| ==> ns[i] == v.entries[i].name
  {
    seq(|v.entries|, i requires 0 <= i < |v.entries| => v.entries[i].name)
  }

  function KeySet(v: Vary): set<string>
  {
    set e | e in v.entries :: e.key
  }

  /** The position of the first entry at or after `k` whose key is `key`, if any. */
  function FindFrom(entries: seq<Entry>, key: string, k: nat): (r: Option<nat>)
    requires k <= |entries|
    ensures r.Some? ==> k <= r.value < |entries| && entries[r.value].key == key
    ensures forall j :: k <= j < (if r.Some? then r.value else |entries|) ==> entries[j].key != key
    decreases |entries| - k
  {
    if k == |entries| then None
    else if entries[k].key == key then Some(k)
    else FindFrom(entries, key, k + 1)
  }

  /** `Map.prototype.set`: overwrite in place when the key is present, else append. */
  function Put(entries: seq<Entry>, key: string, name: string): (r: seq<Entry>)
    ensures forall i :: 0 <= i < |entries| && entries[i].key == key &&
                        (forall j :: 0 <= j < i ==> entries[j].key != key) ==>
              r == entries[i := Entry(key, name)]
    ensures (forall i :: 0 <= i < |entries| ==> entries[i].key != key) ==>
              r == entries + [Entry(key, name)]
  {
    match FindFrom(entries, key, 0)
    case Some(i) => entries[i := Entry(key, name)]
    case None => entries + [Entry(key, name)]
  }

  /** `Map.prototype.delete`: drop the first entry with the key, if any. */
  function Drop(entries: seq<Entry>, key: string): (r: seq<Entry>)
    ensures forall i :: 0 <= i < |entries| && entries[i].key == key &&
                        (forall j :: 0 <= j < i ==> entries[j].key != key) ==>
              r == entries[..i] + entries[i + 1..]
    ensures (forall i :: 0 <= i < |entries| ==> entries[i].key != key) ==> r == entries
  {
    match FindFrom(entries, key, 0)
    case Some(i) => entries[..i] + entries[i + 1..]
    case None => entries
  }

  /**
   * The body of `add` once its argument is known to be a token. A name that
   * matches a member ignoring case keeps that member's position and size but
   * replaces its display casing; any other name is appended.
   */
  function Insert(v: Vary, name: string): (r: Vary)
    requires Valid(v) && IsToken(name)
    ensures Valid(r)
    ensures forall i :: 0 <= i < |v.entries| && v.entries[i].key == Lower(name) ==>
              r.entries == v.entries[i := Entry(Lower(name), name)]
    ensures (forall i :: 0 <= i < |v.entries| ==> v.entries[i].key != Lower(name)) ==>
              r.entries == v.entries + [Entry(Lower(name), name)]
  {
    Vary(Put(v.entries, Lower(name), name))
  }

  /** `add(name)`: throws `TypeError` on a non-token; otherwise as `Insert`. */
  function Add(v: Vary, name: string): (r: Result<Vary, Thrown>)
    requires Valid(v)
    ensures r.Ok? <==> IsToken(name)
    ensures r.Err? ==> r.error == TypeError
    ensures r.Ok? ==> Valid(r.value)
    ensures r.Ok? ==> forall i :: 0 <= i < |v.entries| && v.entries[i].key == Lower(name) ==>
              |r.value.entries| == |v.entries|
              && r.value.entries[i].name == name
              && (forall j :: 0 <= j < |v.entries| && j != i ==> r.value.entries[j] == v.entries[j])
    ensures r.Ok? && (forall i :: 0 <= i < |v.entries| ==> v.entries[i].key != Lower(name)) ==>
              r.value.entries == v.entries + [Entry(Lower(name), name)]
  {
    if IsToken(name) then Ok(Insert(v, name)) else Err(TypeError)
  }

  /** `has(name)`: throws `TypeError` on a non-token; otherwise case-insensitive membership. */
  function Has(v: Vary, name: string): (r: Result<bool, Thrown>)
    requires Valid(v)
    ensures r.Ok? <==> IsToken(name)
    ensures r.Err? ==> r.error == TypeError
    ensures r.Ok? ==> (r.value <==>
              exists i :: 0 <= i < |v.entries| && Lower(v.entries[i].name) == Lower(name))
  {
    if IsToken(name) then Ok(exists e | e in v.entries :: e.key == Lower(name))
    else Err(TypeError)
  }

  /** `delete(name)`: throws `TypeError` on a non-token; otherwise removes only the matching member. */
  function Delete(v: Vary, name: string): (r: Result<Vary, Thrown>)
    requires Valid(v)
    ensures r.Ok? <==> IsToken(name)
    ensures r.Err? ==> r.error == TypeError
    ensures r.Ok? ==> Valid(r.value)
    ensures r.Ok? ==> forall i :: 0 <= i < |v.entries| && v.entries[i].key == Lower(name) ==>
              r.value.entries == v.entries[..i] + v.entries[i + 1..]
    ensures r.Ok? && (forall i :: 0 <= i < |v.entries| ==> v.entries[i].key != Lower(name)) ==>
              r.value == v
  {
    if IsToken(name) then
      DropValid(v, Lower(name));
      Ok(Vary(Drop(v.entries, Lower(name))))
    else Err(TypeError)
  }

  /** Removing an entry keeps the others, in order, so the set stays well-formed. */
  lemma DropValid(v: Vary, key: string)
    requires Valid(v)
    ensures Valid(Vary(Drop(v.entries, key)))
  {
    var e := v.entries;
    var r := Drop(e, key);
    match FindFrom(e, key, 0)
    case None =>
    case Some(i) =>
      assert r == e[..i] + e[i + 1..];
      assert forall a :: 0 <= a < |r| ==> r[a] == e[if a < i then a else a + 1];
  }

  /** `clear()`. */
  function Clear(v: Vary): (r: Vary)
    ensures Valid(r)
    ensures Size(r) == 0
    ensures forall n :: IsToken(n) ==> Has(r, n) == Ok(false)
  {
    Empty
  }

  /** Distinct keys make a set of the same size as the sequence. */
  lemma {:induction false} DistinctKeysCardinality(es: seq<Entry>)
    requires forall i, j :: 0 <= i < j < |es| ==> es[i].key != es[j].key
    ensures |set e | e in es :: e.key| == |es|
  {
    if |es| > 0 {
      var tail := es[1..];
      assert forall i, j :: 0 <= i < j < |tail| ==> tail[i].key != tail[j].key by {
        forall i, j | 0 <= i < j < |tail| ensures tail[i].key != tail[j].key {
          assert tail[i] == es[i + 1] && tail[j] == es[j + 1];
        }
      }
      DistinctKeysCardinality(tail);
      KeysCons(es);
      FirstKeyFresh(es);
    }
  }

  lemma KeysCons(es: seq<Entry>)
    requires |es| > 0
    ensures (set e | e in es :: e.key) == {es[0].key} + (set e | e in es[1..] :: e.key)
  {
    HeadTail(es);
  }

  lemma FirstKeyFresh(es: seq<Entry>)
    requires |es| > 0
    requires forall i, j :: 0 <= i < j < |es| ==> es[i].key != es[j].key
    ensures es[0].key !in (set e | e in es[1..] :: e.key)
  {
    forall e | e in es[1..] ensures e.key != es[0].key {
      var i :| 0 <= i < |es| - 1 && es[1..][i] == e;
      assert es[i + 1] == e;
    }
  }

  /** `size`: the number of distinct lower-cased names held. */
  function Size(v: Vary): (n: nat)
    ensures Valid(v) ==> n == |KeySet(v)|
  {
    SizeCountsKeys(v);
    |v.entries|
  }

  /** In a well-formed set every entry holds its own key. */
  lemma SizeCountsKeys(v: Vary)
    ensures Valid(v) ==> |v.entries| == |KeySet(v)|
  {
    if Valid(v) {
      DistinctKeysCardinality(v.entries);
    }
  }

  /**
   * `toString()`: the display names in insertion order, joined by ", ". The
   * text of a well-formed set is empty exactly when the set is, and holds
   * nothing but name characters, commas and spaces.
   */
  function ToString(v: Vary): (r: string)
    ensures Valid(v) ==> (r == "" <==> |v.entries| == 0)
    ensures Valid(v) ==> forall k :: 0 <= k < |r| ==> IsTChar(r[k]) || r[k] == ',' || r[k] == ' '
  {
    JoinedNames(v);
    Join(Names(v), ", ")
  }

  /** The joined display names of a well-formed set form a list of tokens. */
  lemma JoinedNames(v: Vary)
    ensures var r := Join(Names(v), ", ");
            Valid(v) ==>
              && (r == "" <==> |v.entries| == 0)
              && forall k :: 0 <= k < |r| ==> IsTChar(r[k]) || r[k] == ',' || r[k] == ' '
  {
    if Valid(v) {
      var ns := Names(v);
      if |ns| > 0 { JoinHead(ns, ", "); }
      JoinChars(ns, ", ", c => IsTChar(c) || c == ',' || c == ' ');
    }
  }

  /** Inserts the tokens in order: what repeated `add` calls do once every name is a token. */
  function AddAll(v: Vary, names: seq<string>): (r: Vary)
    requires Valid(v)
    requires forall i :: 0 <= i < |names| ==> IsToken(names[i])
    ensures Valid(r)
    decreases |names|
  {
    if |names| == 0 then v else AddAll(Insert(v, names[0]), names[1..])
  }

  /** The set of lower-cased forms of the given names. */
  function LowerSet(names: seq<string>): set<string>
  {
    set n | n in names :: Lower(n)
  }

  /** Inserting a token adds exactly its lower-cased form to the key set. */
  lemma InsertKeys(v: Vary, name: string)
    requires Valid(v) && IsToken(name)
    ensures KeySet(Insert(v, name)) == KeySet(v) + {Lower(name)}
  {
    var v' := Insert(v, name);
    var k0 := Lower(name);
    if i :| 0 <= i < |v.entries| && v.entries[i].key == k0 {
      assert v'.entries == v.entries[i := Entry(k0, name)];
      forall k | k in KeySet(v') ensures k in KeySet(v) + {k0} {
        var e :| e in v'.entries && e.key == k;
        var j :| 0 <= j < |v'.entries| && v'.entries[j] == e;
        if j != i { assert v.entries[j] == e; }
      }
      forall k | k in KeySet(v) ensures k in KeySet(v') {
        var e :| e in v.entries && e.key == k;
        var j :| 0 <= j < |v.entries| && v.entries[j] == e;
        assert v'.entries[j].key == k;
      }
    } else {
      assert v'.entries == v.entries + [Entry(k0, name)];
    }
  }

  lemma {:induction false} AddAllKeys(v: Vary, names: seq<string>)
    requires Valid(v)
    requires forall i :: 0 <= i < |names| ==> IsToken(names[i])
    ensures KeySet(AddAll(v, names)) == KeySet(v) + LowerSet(names)
    decreases |names|
  {
    if |names| > 0 {
      var v' := Insert(v, names[0]);
      InsertKeys(v, names[0]);
      AddAllKeys(v', names[1..]);
      LowerSetCons(names);
    }
  }

  lemma LowerSetCons(names: seq<string>)
    requires |names| > 0
    ensures LowerSet(names) == {Lower(names[0])} + LowerSet(names[1..])
  {
    HeadTail(names);
  }

  /**
   * The constructor's loop: `add` each name in turn, stopping at the first
   * that throws.
   */
  function AddEach(v: Vary, names: seq<string>): (r: Result<Vary, Thrown>)
    requires Valid(v)
    ensures r.Ok? <==> forall i :: 0 <= i < |names| ==> IsToken(names[i])
    ensures r.Err? ==> r.error == TypeError
    ensures r.Ok? ==> r.value == AddAll(v, names)
    decreases |names|
  {
    if |names| == 0 then Ok(v)
    else
      match Add(v, names[0])
      case Err(e) => Err(e)
      case Ok(v') =>
        var r := AddEach(v', names[1..]);
        assert forall i :: 1 <= i < |names| ==> names[1..][i - 1] == names[i];
        r
  }

  /** `new Vary(...names)`. */
  function New(names: seq<string>): (r: Result<Vary, Thrown>)
    ensures r.Ok? <==> forall i :: 0 <= i < |names| ==> IsToken(names[i])
    ensures r.Err? ==> r.error == TypeError
    ensures r.Ok? ==> Valid(r.value) && KeySet(r.value) == LowerSet(names)
  {
    NewKeys(names);
    AddEach(Empty, names)
  }

  /** Adding tokens to the empty set one by one gives exactly their lower-cased keys. */
  lemma NewKeys(names: seq<string>)
    ensures var r := AddEach(Empty, names);
            r.Ok? ==> Valid(r.value) && KeySet(r.value) == LowerSet(names)
  {
    if AddEach(Empty, names).Ok? {
      AddAllKeys(Empty, names);
    }
  }

  /**
   * The loop of `tryParse` from the cursor on: a token, optional whitespace,
   * then either the end of input or a comma, optional whitespace and another
   * round.
   */
  function ParseList(sc: Scanner, acc: Vary): (r: Option<Vary>)
    requires sc.Valid() && Valid(acc)
    ensures r.Some? ==> Valid(r.value) && Size(r.value) > 0
    ensures r.Some? ==> KeySet(acc) <= KeySet(r.value)
    decreases |sc.input| - sc.pos
  {
    var name := ReadToken(sc);
    if name.value.None? then None
    else
      InsertKeys(acc, name.value.value);
      var acc' := Insert(acc, name.value.value);
      var sc1 := SkipWs(name.next);
      if !HasNext(sc1) then Some(acc')
      else
        var comma := ReadChar(sc1, ',');
        if comma.value.None? then None
        else ParseList(SkipWs(comma.next), acc')
  }

  /** `Vary.tryParse(input)`: a non-empty set, or `null` when the input is malformed. */
  function TryParse(input: string): (r: Option<Vary>)
    ensures r.Some? ==> Valid(r.value) && Size(r.value) > 0
  {
    ParseList(Scanner(input, 0), Empty)
  }

  /**
   * `Vary.parse(input)`, which hands the input to a helper outside this model;
   * the model takes it to throw where `tryParse` gives `null`, without naming
   * the error kind.
   */
  function Parse(input: string): (r: Result<Vary, Thrown>)
    ensures r.Ok? <==> TryParse(input).Some?
    ensures r.Ok? ==> Some(r.value) == TryParse(input)
  {
    match TryParse(input)
    case Some(v) => Ok(v)
    case None => Err(Unspecified)
  }

  /** The argument of `Vary.from`: an existing set or a header text. */
  datatype VaryOrText = AsVary(v: Vary) | AsText(text: string)

  /** `Vary.from(value)`: a set is returned as it is; a text is parsed. */
  function From(value: VaryOrText): (r: Result<Vary, Thrown>)
    ensures value.AsVary? ==> r == Ok(value.v)
    ensures value.AsText? ==> r == Parse(value.text)
  {
    match value
    case AsVary(v) => Ok(v)
    case AsText(s) => Parse(s)
  }
}

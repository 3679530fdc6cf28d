/**
 * `has` judged against the history of calls that built a `Vary`: a name is
 * present exactly when some earlier `add` of a name equal to it ignoring
 * case has not since been undone by a matching `delete` or by `clear`.
 */
module VaryHistory {
  import opened Wrappers
  import opened Js
  import opened Syntax
  import opened VaryHeader

  /** One mutating call on a `Vary`. */
  datatype Op = AddOp(name: string) | DeleteOp(name: string) | ClearOp

  function Apply(v: Vary, op: Op): (r: Result<Vary, Thrown>)
    requires Valid(v)
    ensures r.Ok? ==> Valid(r.value)
    ensures r.Err? <==> !op.ClearOp? && !IsToken(op.name)
  {
    match op
    case AddOp(n) => Add(v, n)
    case DeleteOp(n) => Delete(v, n)
    case ClearOp => Ok(Clear(v))
  }

  /** The calls applied in order to a new, empty set; the first throwing call ends the run. */
  function Replay(ops: seq<Op>): (r: Result<Vary, Thrown>)
    ensures r.Ok? ==> Valid(r.value)
    decreases |ops|
  {
    if |ops| == 0 then Ok(Empty)
    else
      match Replay(ops[..|ops| - 1])
      case Err(e) => Err(e)
      case Ok(v) => Apply(v, ops[|ops| - 1])
  }

  /** Whether a call removes the key: a `clear`, or a `delete` of a matching name. */
  predicate Removes(op: Op, key: string)
  {
    op.ClearOp? || (op.DeleteOp? && Lower(op.name) == key)
  }

  /** Some `add` of a matching name is not followed by a call that removes it. */
  predicate AddedAndKept(ops: seq<Op>, key: string)
  {
    exists i :: 0 <= i < |ops| && ops[i].AddOp? && Lower(ops[i].name) == key &&
      forall j :: i < j < |ops| ==> !Removes(ops[j], key)
  }

  predicate Holds(v: Vary, key: string)
  {
    exists i :: 0 <= i < |v.entries| && v.entries[i].key == key
  }

  lemma AddHolds(v: Vary, n: string, key: string)
    requires Valid(v) && IsToken(n)
    ensures Holds(Add(v, n).value, key) <==> Lower(n) == key || Holds(v, key)
  {
    var r := Add(v, n).value;
    if i :| 0 <= i < |v.entries| && v.entries[i].key == Lower(n) {
      assert r.entries[i].key == Lower(n);
      if Holds(v, key) {
        var j :| 0 <= j < |v.entries| && v.entries[j].key == key;
        assert r.entries[j].key == key;
      }
    } else {
      assert r.entries == v.entries + [Entry(Lower(n), n)];
      assert r.entries[|v.entries|].key == Lower(n);
      if Holds(v, key) {
        var j :| 0 <= j < |v.entries| && v.entries[j].key == key;
        assert r.entries[j].key == key;
      }
    }
  }

  lemma DeleteHolds(v: Vary, n: string, key: string)
    requires Valid(v) && IsToken(n)
    ensures Holds(Delete(v, n).value, key) <==> Lower(n) != key && Holds(v, key)
  {
    var r := Delete(v, n).value;
    var e := v.entries;
    if i :| 0 <= i < |e| && e[i].key == Lower(n) {
      assert r.entries == e[..i] + e[i + 1..];
      DropHolds(e, i, key);
    }
  }

  lemma DropHolds(e: seq<Entry>, i: nat, key: string)
    requires i < |e|
    requires forall a, b :: 0 <= a < b < |e| ==> e[a].key != e[b].key
    ensures Holds(Vary(e[..i] + e[i + 1..]), key) <==> e[i].key != key && Holds(Vary(e), key)
  {
    var d := e[..i] + e[i + 1..];
    assert forall j :: 0 <= j < i ==> d[j] == e[j];
    assert forall j :: i <= j < |d| ==> d[j] == e[j + 1];
    if Holds(Vary(d), key) {
      var j :| 0 <= j < |d| && d[j].key == key;
      if j < i { assert e[j].key == key; } else { assert e[j + 1].key == key; }
    }
    if e[i].key != key && Holds(Vary(e), key) {
      var j :| 0 <= j < |e| && e[j].key == key;
      if j < i { assert d[j].key == key; } else { assert d[j - 1].key == key; }
    }
  }

  /** How one more call changes whether a key was added and kept. */
  lemma KeptAfter(pre: seq<Op>, op: Op, key: string)
    ensures AddedAndKept(pre + [op], key) <==>
            (op.AddOp? && Lower(op.name) == key) || (!Removes(op, key) && AddedAndKept(pre, key))
  {
    var ops := pre + [op];
    assert forall i :: 0 <= i < |pre| ==> ops[i] == pre[i];
    assert ops[|pre|] == op;
    if AddedAndKept(ops, key) && !(op.AddOp? && Lower(op.name) == key) {
      var i :| 0 <= i < |ops| && ops[i].AddOp? && Lower(ops[i].name) == key &&
               forall j :: i < j < |ops| ==> !Removes(ops[j], key);
      assert i < |pre|;
      if i < |pre| - 1 {
        assert !Removes(ops[|pre|], key);
      }
      assert !Removes(op, key) by {
        assert i < |pre| < |ops|;
      }
    }
    if !Removes(op, key) && AddedAndKept(pre, key) {
      var i :| 0 <= i < |pre| && pre[i].AddOp? && Lower(pre[i].name) == key &&
               forall j :: i < j < |pre| ==> !Removes(pre[j], key);
      assert ops[i] == pre[i];
      assert forall j :: i < j < |ops| ==> !Removes(ops[j], key);
    }
  }

  lemma {:induction false} ReplayHolds(ops: seq<Op>, key: string)
    requires Replay(ops).Ok?
    ensures Holds(Replay(ops).value, key) <==> AddedAndKept(ops, key)
    decreases |ops|
  {
    if |ops| > 0 {
      var pre := ops[..|ops| - 1];
      var last := ops[|ops| - 1];
      assert ops == pre + [last];
      ReplayHolds(pre, key);
      KeptAfter(pre, last, key);
      var v := Replay(pre).value;
      match last
      case AddOp(n) => AddHolds(v, n, key);
      case DeleteOp(n) => DeleteHolds(v, n, key);
      case ClearOp => assert !Holds(Clear(v), key);
    }
  }

  /**
   * After any run of calls that did not throw, `has(n)` for a token `n` is
   * true exactly when a matching `add` happened and was not undone since.
   */
  lemma HasMatchesHistory(ops: seq<Op>, n: string)
    requires Replay(ops).Ok? && IsToken(n)
    ensures Has(Replay(ops).value, n) == Ok(AddedAndKept(ops, Lower(n)))
  {
    var v := Replay(ops).value;
    ReplayHolds(ops, Lower(n));
    assert Holds(v, Lower(n)) <==>
           exists i :: 0 <= i < |v.entries| && Lower(v.entries[i].name) == Lower(n);
  }
}

/**
 * An independent, scanner-free reading of the list grammar that
 * `Vary.tryParse` accepts, `token *( OWS "," OWS token ) OWS`: cut the text
 * at every comma, trim spaces and tabs from each part, require every part
 * to trim to a token and the first part not to begin with whitespace. The
 * theorem `TryParseMatchesGrammar` shows the cursor-based parser computes
 * exactly this, in both directions; the remaining lemmas are consequences.
 */
module VaryGrammar {
  import opened Wrappers
  import opened Seqs
  import opened Js
  import opened Syntax
  import opened VaryHeader

  /** The parts of `s` between occurrences of `sep`. */
  function Split(s: string, sep: char): (parts: seq<string>)
    ensures |parts| >= 1
  {
    if |s| == 0 then [""]
    else if s[0] == sep then [""] + Split(s[1..], sep)
    else var p := Split(s[1..], sep); [[s[0]] + p[0]] + p[1..]
  }

  /** `s` without its leading spaces and tabs. */
  function TrimLeft(s: string): (r: string)
    ensures |r| <= |s| && r == s[|s| - |r|..]
    ensures IsOws(s[..|s| - |r|])
    ensures |r| == 0 || !IsWs(r[0])
  {
    if |s| > 0 && IsWs(s[0]) then
      var r := TrimLeft(s[1..]);
      assert s[..|s| - |r|] == [s[0]] + s[1..][..|s| - 1 - |r|];
      r
    else s
  }

  /** `s` without its trailing spaces and tabs. */
  function TrimRight(s: string): (r: string)
    ensures |r| <= |s| && r == s[..|r|]
    ensures IsOws(s[|r|..])
    ensures |r| == 0 || !IsWs(r[|r| - 1])
  {
    if |s| > 0 && IsWs(s[|s| - 1]) then
      var r := TrimRight(s[..|s| - 1]);
      assert s[|r|..] == s[..|s| - 1][|r|..] + [s[|s| - 1]];
      r
    else s
  }

  function Trim(s: string): string
  {
    TrimRight(TrimLeft(s))
  }

  /** Every part, trimmed. */
  function TrimAll(parts: seq<string>): (ts: seq<string>)
    ensures |ts| == |parts|
    ensures forall i :: 0 <= i < |parts| ==> ts[i] == Trim(parts[i])
  {
    Map(Trim, parts)
  }

  /** The trimmed parts, provided every part trims to a token. */
  function Elements(parts: seq<string>): (r: Option<seq<string>>)
    ensures r.Some? <==> forall i :: 0 <= i < |parts| ==> IsToken(Trim(parts[i]))
    ensures r.Some? ==> |r.value| == |parts|
    ensures r.Some? ==> forall i :: 0 <= i < |parts| ==> r.value[i] == Trim(parts[i])
    ensures r.Some? ==> forall i :: 0 <= i < |r.value| ==> IsToken(r.value[i])
  {
    var ts := TrimAll(parts);
    if All(IsToken, ts) then Some(ts) else None
  }

  /** One part that does not trim to a token rejects the whole list. */
  lemma ElementsRejectsPart(parts: seq<string>, i: nat)
    requires i < |parts| && !IsToken(Trim(parts[i]))
    ensures Elements(parts) == None
  {
    assert TrimAll(parts)[i] == Trim(parts[i]);
  }

  /** A part that is not a token rejects any list that ends with it. */
  lemma ElementsNoneAppend(pa: seq<string>, pr: seq<string>)
    requires Elements(pr) == None
    ensures Elements(pa + pr) == None
  {
    var j :| 0 <= j < |pr| && !IsToken(Trim(pr[j]));
    assert (pa + pr)[|pa| + j] == pr[j];
    ElementsRejectsPart(pa + pr, |pa| + j);
  }

  /** The tokens of a well-formed `Vary` list, in order; `None` for any other text. */
  function GrammarTokens(s: string): Option<seq<string>>
  {
    var parts := Split(s, ',');
    if |parts[0]| > 0 && IsWs(parts[0][0]) then None else Elements(parts)
  }

  /** What the grammar says parsing from `acc` yields. */
  function GrammarParse(s: string, acc: Vary): Option<Vary>
    requires Valid(acc)
  {
    match GrammarTokens(s)
    case None => None
    case Some(ts) => Some(AddAll(acc, ts))
  }

  // ---- Facts about Split --------------------------------------------------

  lemma {:induction false} SplitWithoutSep(s: string, sep: char)
    requires sep !in s
    ensures Split(s, sep) == [s]
  {
    if |s| > 0 {
      assert sep !in s[1..] by { assert forall i :: 0 <= i < |s| - 1 ==> s[1..][i] == s[i + 1]; }
      SplitWithoutSep(s[1..], sep);
      assert [s[0]] + s[1..] == s;
    }
  }

  lemma {:induction false} SplitAppend(x: string, sep: char, y: string)
    ensures Split(x + [sep] + y, sep) == Split(x, sep) + Split(y, sep)
    decreases |x|
  {
    if |x| == 0 {
      assert x + [sep] + y == [sep] + y;
      assert ([sep] + y)[1..] == y;
    } else {
      var s := x + [sep] + y;
      assert s[0] == x[0];
      assert s[1..] == x[1..] + [sep] + y;
      SplitAppend(x[1..], sep, y);
    }
  }

  /** A separator-free prefix joins the first part. */
  lemma {:induction false} SplitPrefix(w: string, sep: char, y: string)
    requires sep !in w
    ensures Split(w + y, sep) == [w + Split(y, sep)[0]] + Split(y, sep)[1..]
    decreases |w|
  {
    if |w| == 0 {
      assert w + y == y;
      assert w + Split(y, sep)[0] == Split(y, sep)[0];
      HeadTail(Split(y, sep));
    } else {
      var s := w + y;
      assert s[0] == w[0];
      assert s[1..] == w[1..] + y;
      assert sep !in w[1..] by { assert forall i :: 0 <= i < |w| - 1 ==> w[1..][i] == w[i + 1]; }
      SplitPrefix(w[1..], sep, y);
      assert [w[0]] + (w[1..] + Split(y, sep)[0]) == w + Split(y, sep)[0];
    }
  }

  /** The first part is a separator-free prefix, cut at the first separator if there is one. */
  lemma {:induction false} SplitHead(s: string, sep: char)
    ensures |Split(s, sep)[0]| <= |s|
    ensures Split(s, sep)[0] == s[..|Split(s, sep)[0]|]
    ensures sep !in Split(s, sep)[0]
    ensures |Split(s, sep)[0]| == |s| || s[|Split(s, sep)[0]|] == sep
  {
    if |s| > 0 && s[0] != sep {
      SplitHead(s[1..], sep);
    }
  }

  // ---- Facts about trimming -----------------------------------------------

  /** A token followed by whitespace trims to the token. */
  lemma TrimTokenOws(t: string, w: string)
    requires IsToken(t) && IsOws(w)
    ensures Trim(t + w) == t
  {
    var s := t + w;
    assert s[0] == t[0];
    TrimLeftKeeps(s);
    TrimRightOws(t, w);
    TrimRightKeeps(t);
  }

  lemma TrimLeftKeeps(s: string)
    requires |s| > 0 && !IsWs(s[0])
    ensures TrimLeft(s) == s
  {
  }

  lemma TrimRightKeeps(s: string)
    requires |s| > 0 && !IsWs(s[|s| - 1])
    ensures TrimRight(s) == s
  {
  }

  /** Trailing whitespace does not change the right-trimmed text. */
  lemma {:induction false} TrimRightOws(x: string, w: string)
    requires IsOws(w)
    ensures TrimRight(x + w) == TrimRight(x)
    decreases |w|
  {
    if |w| > 0 {
      var w' := w[..|w| - 1];
      assert (x + w)[..|x + w| - 1] == x + w';
      assert IsWs((x + w)[|x + w| - 1]);
      TrimRightOws(x, w');
    } else {
      assert x + w == x;
    }
  }

  /** Whitespace is all trimmed away. */
  lemma TrimOws(w: string)
    requires IsOws(w)
    ensures Trim(w) == ""
  {
  }

  /** Leading whitespace does not change the trimmed text. */
  lemma {:induction false} TrimLeftOws(w: string, x: string)
    requires IsOws(w)
    ensures TrimLeft(w + x) == TrimLeft(x)
    decreases |w|
  {
    if |w| > 0 {
      assert (w + x)[1..] == w[1..] + x;
      TrimLeftOws(w[1..], x);
    } else {
      assert w + x == x;
    }
  }

  /** Trimming keeps every character up to a non-whitespace one when the text begins with non-whitespace. */
  lemma TrimKeeps(s: string, j: nat, k: nat)
    requires j <= k < |s| && !IsWs(s[0]) && !IsWs(s[k])
    ensures |Trim(s)| > k && Trim(s)[j] == s[j]
  {
    assert TrimLeft(s) == s;
    var r := TrimRight(s);
  }

  // ---- The grammar, one list element at a time ------------------------------

  /** A text that does not begin with a `tchar` is not a list. */
  lemma NoLeadingToken(rest: string)
    requires !(|rest| > 0 && IsTChar(rest[0]))
    ensures GrammarTokens(rest) == None
  {
    SplitHead(rest, ',');
    var h := Split(rest, ',')[0];
    if |h| > 0 && !IsWs(h[0]) {
      TrimKeeps(h, 0, 0);
    }
  }

  /** A token followed only by whitespace is a one-element list. */
  lemma LastElement(tok: string, w: string)
    requires IsToken(tok) && IsOws(w)
    ensures GrammarTokens(tok + w) == Some([tok])
  {
    var s := tok + w;
    NoCommaInTokenOws(tok, w);
    SplitWithoutSep(s, ',');
    TrimTokenOws(tok, w);
    ElementsSingleton(s);
    assert s[0] == tok[0];
  }

  lemma NoCommaInTokenOws(tok: string, w: string)
    requires IsToken(tok) && IsOws(w)
    ensures ',' !in tok + w
  {
    var s := tok + w;
    forall k | 0 <= k < |s| ensures s[k] != ',' {
      if k < |tok| { assert s[k] == tok[k]; } else { assert s[k] == w[k - |tok|]; }
    }
  }

  lemma ElementsSingleton(x: string)
    requires IsToken(Trim(x))
    ensures Elements([x]) == Some([Trim(x)])
  {
    assert TrimAll([x]) == [Trim(x)];
  }

  /**
   * A token, whitespace, then a character that neither continues the token
   * nor is a comma or whitespace, is not a list whatever follows.
   */
  lemma BadSeparator(rest: string, q: nat, r: nat)
    requires 0 < q <= r < |rest|
    requires IsToken(rest[..q]) && IsOws(rest[q..r])
    requires !IsTChar(rest[q]) && rest[r] != ',' && !IsWs(rest[r])
    ensures GrammarTokens(rest) == None
  {
    SplitHead(rest, ',');
    var h := Split(rest, ',')[0];
    assert forall k :: 0 <= k <= r ==> rest[k] != ',' by {
      forall k | 0 <= k <= r ensures rest[k] != ',' {
        if k < q { assert rest[..q][k] == rest[k]; }
        else if k < r { assert rest[q..r][k - q] == rest[k]; }
      }
    }
    assert |h| > r;
    assert rest[..q][0] == rest[0];
    TrimKeeps(h, q, r);
  }

  /** `Elements` takes the parts one at a time. */
  lemma ElementsCons(x: string, rest: seq<string>)
    ensures !IsToken(Trim(x)) ==> Elements([x] + rest) == None
    ensures Elements(rest).None? ==> Elements([x] + rest) == None
    ensures IsToken(Trim(x)) && Elements(rest).Some? ==>
              Elements([x] + rest) == Some([Trim(x)] + Elements(rest).value)
  {
    TrimAllCons(x, rest);
    AllCons(IsToken, Trim(x), TrimAll(rest));
  }

  lemma TrimAllCons(x: string, rest: seq<string>)
    ensures TrimAll([x] + rest) == [Trim(x)] + TrimAll(rest)
  {
    MapCons(Trim, x, rest);
  }

  /** The parts after the first comma of `w2 + tail`, whitespace `w2` included, read as the tail's parts. */
  lemma TailParts(w2: string, tail: string)
    requires IsOws(w2)
    ensures Elements(Split(w2 + tail, ',')) == Elements(Split(tail, ','))
  {
    assert ',' !in w2 by {
      forall k | 0 <= k < |w2| ensures w2[k] != ',' { assert IsWs(w2[k]); }
    }
    SplitPrefix(w2, ',', tail);
    var tp := Split(tail, ',');
    TrimLeftOws(w2, tp[0]);
    ElementsPrefixed(Split(w2 + tail, ','), tp, w2);
  }

  /** Parts that differ only by whitespace before the first give the same elements. */
  lemma ElementsPrefixed(parts: seq<string>, tp: seq<string>, w: string)
    requires |tp| > 0 && parts == [w + tp[0]] + tp[1..]
    requires TrimLeft(w + tp[0]) == TrimLeft(tp[0])
    ensures Elements(parts) == Elements(tp)
  {
    assert Trim(w + tp[0]) == Trim(tp[0]);
    ElementsCons(w + tp[0], tp[1..]);
    ElementsCons(tp[0], tp[1..]);
    HeadTail(tp);
  }

  /** A token, whitespace, a comma and whitespace: the list continues with the tail's elements. */
  lemma CommaStep(tok: string, w1: string, w2: string, tail: string)
    requires IsToken(tok) && IsOws(w1) && IsOws(w2)
    requires !(|tail| > 0 && IsWs(tail[0]))
    ensures GrammarTokens(tok + w1 + [','] + w2 + tail) ==
            match GrammarTokens(tail)
            case None => None
            case Some(ts) => Some([tok] + ts)
  {
    var head := tok + w1;
    var rest := tok + w1 + [','] + w2 + tail;
    assert rest == head + [','] + (w2 + tail);
    NoCommaInTokenOws(tok, w1);
    SplitAppend(head, ',', w2 + tail);
    SplitWithoutSep(head, ',');
    TrimTokenOws(tok, w1);
    TailParts(w2, tail);
    ElementsCons(head, Split(w2 + tail, ','));
    SplitHead(tail, ',');
    var tp := Split(tail, ',');
    assert |tp[0]| > 0 ==> tp[0][0] == tail[0];
    assert Split(rest, ',')[0] == head && head[0] == tok[0];
  }

  // ---- The parser computes the grammar --------------------------------------

  lemma SliceConcat(s: string, p: nat, q: nat)
    requires p <= q <= |s|
    ensures s[p..] == s[p..q] + s[q..]
  {
  }

  lemma SliceAtComma(s: string, p: nat, q: nat, r: nat, p': nat)
    requires p <= q <= r < p' <= |s| && s[r] == ','
    ensures s[p..] == s[p..q] + s[q..r] + [','] + s[r + 1..p'] + s[p'..]
  {
  }

  lemma NoTokenCase(s: string, p: nat, acc: Vary)
    requires p <= |s| && Valid(acc)
    requires ReadToken(Scanner(s, p)).value.None?
    ensures ParseList(Scanner(s, p), acc) == None == GrammarParse(s[p..], acc)
  {
    NoLeadingToken(s[p..]);
  }

  lemma LastCase(s: string, p: nat, acc: Vary)
    requires p <= |s| && Valid(acc)
    requires ReadToken(Scanner(s, p)).value.Some?
    requires SkipWs(ReadToken(Scanner(s, p)).next).pos == |s|
    ensures ParseList(Scanner(s, p), acc) == GrammarParse(s[p..], acc)
  {
    var name := ReadToken(Scanner(s, p));
    var tok := name.value.value;
    var q := name.next.pos;
    assert ParseList(Scanner(s, p), acc) == Some(Insert(acc, tok));
    SliceConcat(s, p, q);
    LastElement(tok, s[q..]);
    assert AddAll(acc, [tok]) == AddAll(Insert(acc, tok), []);
  }

  lemma BadSeparatorCase(s: string, p: nat, acc: Vary)
    requires p <= |s| && Valid(acc)
    requires ReadToken(Scanner(s, p)).value.Some?
    requires SkipWs(ReadToken(Scanner(s, p)).next).pos < |s|
    requires s[SkipWs(ReadToken(Scanner(s, p)).next).pos] != ','
    ensures ParseList(Scanner(s, p), acc) == None == GrammarParse(s[p..], acc)
  {
    var name := ReadToken(Scanner(s, p));
    var q := name.next.pos;
    var r := SkipWs(name.next).pos;
    assert ReadChar(SkipWs(name.next), ',').value.None?;
    BadSeparatorAt(s, p, q, r);
  }

  /** `BadSeparator` for the suffix of `s` from `p`, in positions of `s`. */
  lemma BadSeparatorAt(s: string, p: nat, q: nat, r: nat)
    requires p < q <= r < |s|
    requires IsToken(s[p..q]) && IsOws(s[q..r]) && !IsTChar(s[q])
    requires s[r] != ',' && !IsWs(s[r])
    ensures GrammarTokens(s[p..]) == None
  {
    var rest := s[p..];
    assert rest[..q - p] == s[p..q];
    assert rest[q - p..r - p] == s[q..r];
    BadSeparator(rest, q - p, r - p);
  }

  /** After a token, whitespace and a comma, the parser continues from the next element. */
  lemma CommaCaseParser(s: string, p: nat, acc: Vary, r: nat, p': nat)
    requires p <= |s| && Valid(acc)
    requires ReadToken(Scanner(s, p)).value.Some?
    requires r == SkipWs(ReadToken(Scanner(s, p)).next).pos && r < |s| && s[r] == ','
    requires p' == SkipWs(Scanner(s, r + 1)).pos
    ensures ParseList(Scanner(s, p), acc) ==
            ParseList(Scanner(s, p'), Insert(acc, ReadToken(Scanner(s, p)).value.value))
  {
    var name := ReadToken(Scanner(s, p));
    var sc1 := SkipWs(name.next);
    assert HasNext(sc1);
    var comma := ReadChar(sc1, ',');
    assert comma.value.Some?;
    assert comma.next == Scanner(s, r + 1);
  }

  /** After a token, whitespace and a comma, the grammar continues from the next element. */
  lemma CommaCaseGrammar(s: string, p: nat, acc: Vary, tok: string, q: nat, r: nat, p': nat)
    requires p < q <= r < p' <= |s| && Valid(acc) && s[r] == ','
    requires tok == s[p..q] && IsToken(tok)
    requires IsOws(s[q..r]) && IsOws(s[r + 1..p'])
    requires p' == |s| || !IsWs(s[p'])
    ensures GrammarParse(s[p..], acc) == GrammarParse(s[p'..], Insert(acc, tok))
  {
    var acc' := Insert(acc, tok);
    SliceAtComma(s, p, q, r, p');
    CommaStep(tok, s[q..r], s[r + 1..p'], s[p'..]);
    match GrammarTokens(s[p'..])
    case None =>
    case Some(ts) =>
      assert ([tok] + ts)[1..] == ts;
      assert AddAll(acc, [tok] + ts) == AddAll(acc', ts);
  }

  lemma {:induction false} ParseListMatchesGrammar(s: string, p: nat, acc: Vary)
    requires p <= |s| && Valid(acc)
    ensures ParseList(Scanner(s, p), acc) == GrammarParse(s[p..], acc)
    decreases |s| - p
  {
    var name := ReadToken(Scanner(s, p));
    if name.value.None? {
      NoTokenCase(s, p, acc);
    } else {
      var r := SkipWs(name.next).pos;
      if r == |s| {
        LastCase(s, p, acc);
      } else if s[r] != ',' {
        BadSeparatorCase(s, p, acc);
      } else {
        var p' := SkipWs(Scanner(s, r + 1)).pos;
        ParseListMatchesGrammar(s, p', Insert(acc, name.value.value));
        CommaCase(s, p, acc, r, p');
      }
    }
  }

  /** The comma case of `ParseListMatchesGrammar`, given the agreement from the next element on. */
  lemma CommaCase(s: string, p: nat, acc: Vary, r: nat, p': nat)
    requires p <= |s| && Valid(acc)
    requires ReadToken(Scanner(s, p)).value.Some?
    requires r == SkipWs(ReadToken(Scanner(s, p)).next).pos && r < |s| && s[r] == ','
    requires p' == SkipWs(Scanner(s, r + 1)).pos
    requires var acc' := Insert(acc, ReadToken(Scanner(s, p)).value.value);
             ParseList(Scanner(s, p'), acc') == GrammarParse(s[p'..], acc')
    ensures ParseList(Scanner(s, p), acc) == GrammarParse(s[p..], acc)
  {
    var name := ReadToken(Scanner(s, p));
    CommaCaseParser(s, p, acc, r, p');
    CommaCaseGrammar(s, p, acc, name.value.value, name.next.pos, r, p');
  }

  /** `tryParse` succeeds exactly on texts of the list grammar, and holds their tokens added in order. */
  lemma TryParseMatchesGrammar(s: string)
    ensures TryParse(s) == GrammarParse(s, Empty)
  {
    ParseListMatchesGrammar(s, 0, Empty);
    assert s[0..] == s;
  }
}

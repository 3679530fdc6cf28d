/**
 * Consequences of `VaryGrammar.TryParseMatchesGrammar`: the inputs
 * `tryParse` rejects, what the parsed set holds, and the `toString` round
 * trip.
 */
module VaryProperties {
  import opened Wrappers
  import opened Seqs
  import opened Js
  import opened Syntax
  import opened VaryHeader
  import opened VaryGrammar

  /** The empty text is not a list. */
  lemma EmptyInputRejected()
    ensures TryParse("") == None
  {
    TryParseMatchesGrammar("");
    NoLeadingToken("");
  }

  /** A text that begins with whitespace is rejected. */
  lemma LeadingWhitespaceRejected(s: string)
    requires |s| > 0 && IsWs(s[0])
    ensures TryParse(s) == None
  {
    assert !IsTChar(s[0]);
    assert ReadToken(Scanner(s, 0)).value.None?;
  }

  /** The parts of a text with a comma inside it. */
  lemma SplitAround(a: string, w: string, b: string)
    requires IsOws(w)
    ensures Split(a + [','] + w + [','] + b, ',') == Split(a, ',') + [w] + Split(b, ',')
  {
    assert a + [','] + w + [','] + b == a + [','] + (w + [','] + b);
    SplitAppend(a, ',', w + [','] + b);
    SplitAppend(w, ',', b);
    assert ',' !in w by {
      forall k | 0 <= k < |w| ensures w[k] != ',' { assert IsWs(w[k]); }
    }
    SplitWithoutSep(w, ',');
  }

  /** An empty list element, such as the middle one of "a, ,b", rejects the whole text. */
  lemma EmptyElementRejected(a: string, w: string, b: string)
    requires IsOws(w)
    ensures TryParse(a + "," + w + "," + b) == None
  {
    var s := a + "," + w + "," + b;
    assert s == a + [','] + w + [','] + b;
    TryParseMatchesGrammar(s);
    SplitAround(a, w, b);
    var parts := Split(s, ',');
    var i := |Split(a, ',')|;
    assert parts[i] == w;
    TrimOws(w);
    ElementsRejectsPart(parts, i);
  }

  /** A trailing comma, with or without whitespace after it, rejects the whole text. */
  lemma TrailingCommaRejected(a: string, w: string)
    requires IsOws(w)
    ensures TryParse(a + "," + w) == None
  {
    var s := a + "," + w;
    assert s == a + [','] + w;
    TryParseMatchesGrammar(s);
    SplitAppend(a, ',', w);
    assert ',' !in w by {
      forall k | 0 <= k < |w| ensures w[k] != ',' { assert IsWs(w[k]); }
    }
    SplitWithoutSep(w, ',');
    var parts := Split(s, ',');
    assert parts[|parts| - 1] == w;
    TrimOws(w);
    ElementsRejectsPart(parts, |parts| - 1);
  }

  /**
   * Two names separated by anything other than a comma (a semicolon, or
   * plain whitespace before the next name) reject the whole text.
   */
  lemma NonCommaSeparatorRejected(t: string, w: string, c: char, b: string)
    requires IsToken(t) && IsOws(w)
    requires c != ',' && !IsWs(c) && (|w| > 0 || !IsTChar(c))
    ensures TryParse(t + w + [c] + b) == None
  {
    NonCommaSeparatorNotGrammar(t, w, c, b);
    TryParseMatchesGrammar(t + w + [c] + b);
  }

  /**
   * The same rejection after a later name: once a comma has been read, a name
   * followed by anything other than a comma still rejects the whole text.
   */
  lemma LaterNonCommaSeparatorRejected(a: string, w0: string, t: string, w: string, c: char, b: string)
    requires IsOws(w0) && IsToken(t) && IsOws(w)
    requires c != ',' && !IsWs(c) && (|w| > 0 || !IsTChar(c))
    ensures TryParse(a + "," + w0 + t + w + [c] + b) == None
  {
    BadSeparatorElements(t, w, c, b);
    TailParts(w0, t + w + [c] + b);
    RejectedAfterComma(a, w0 + (t + w + [c] + b));
    LaterSeparatorText(a, w0, t, w, c, b);
  }

  lemma LaterSeparatorText(a: string, w0: string, t: string, w: string, c: char, b: string)
    ensures a + "," + w0 + t + w + [c] + b == a + [','] + (w0 + (t + w + [c] + b))
  {
  }

  /** The elements of a name followed by a bad separator do not all trim to tokens. */
  lemma BadSeparatorElements(t: string, w: string, c: char, b: string)
    requires IsToken(t) && IsOws(w)
    requires c != ',' && !IsWs(c) && (|w| > 0 || !IsTChar(c))
    ensures Elements(Split(t + w + [c] + b, ',')) == None
  {
    NonCommaSeparatorNotGrammar(t, w, c, b);
    assert (t + w + [c] + b)[0] == t[0];
    TokenStartNoElements(t + w + [c] + b);
  }

  /** Text starting with a name character fails the grammar only through its elements. */
  lemma TokenStartNoElements(s: string)
    requires |s| > 0 && IsTChar(s[0]) && GrammarTokens(s) == None
    ensures Elements(Split(s, ',')) == None
  {
    TCharNotSeparator(s[0]);
    NoTokensNoElements(s);
  }

  /** A name character is neither whitespace nor the list separator. */
  lemma TCharNotSeparator(c: char)
    requires IsTChar(c)
    ensures !IsWs(c) && c != ','
  {
    assert c != ',' by {
      assert ',' !in "!#$%&'*+-.^_`|~";
    }
  }

  /** Elements after a comma that fail make `tryParse` return `null`. */
  lemma RejectedAfterComma(a: string, y: string)
    requires Elements(Split(y, ',')) == None
    ensures TryParse(a + [','] + y) == None
  {
    GrammarRejectsAfterComma(a, y);
    TryParseMatchesGrammar(a + [','] + y);
  }

  /** Text that does not start with whitespace or a comma fails the grammar only through its elements. */
  lemma NoTokensNoElements(s: string)
    requires |s| > 0 && !IsWs(s[0]) && s[0] != ','
    requires GrammarTokens(s) == None
    ensures Elements(Split(s, ',')) == None
  {
    SplitHead(s, ',');
  }

  /** Elements after a comma that fail reject the whole text. */
  lemma GrammarRejectsAfterComma(a: string, y: string)
    requires Elements(Split(y, ',')) == None
    ensures GrammarTokens(a + [','] + y) == None
  {
    SplitAppend(a, ',', y);
    ElementsNoneAppend(Split(a, ','), Split(y, ','));
  }

  lemma NonCommaSeparatorNotGrammar(t: string, w: string, c: char, b: string)
    requires IsToken(t) && IsOws(w)
    requires c != ',' && !IsWs(c) && (|w| > 0 || !IsTChar(c))
    ensures GrammarTokens(t + w + [c] + b) == None
  {
    var s := t + w + [c] + b;
    var q := |t|;
    var r := |t| + |w|;
    assert s[..q] == t;
    assert s[q..r] == w;
    assert s[r] == c;
    assert s[q] == if |w| > 0 then w[0] else c;
    BadSeparator(s, q, r);
  }

  /** On success the set holds exactly the lower-cased tokens of the text, so its size counts them. */
  lemma ParsedKeys(s: string)
    requires TryParse(s).Some?
    ensures GrammarTokens(s).Some?
    ensures KeySet(TryParse(s).value) == LowerSet(GrammarTokens(s).value)
    ensures Size(TryParse(s).value) == |LowerSet(GrammarTokens(s).value)|
  {
    TryParseMatchesGrammar(s);
    GrammarKeys(s);
  }

  /** The grammar's reading of a well-formed text holds exactly its lower-cased tokens. */
  lemma GrammarKeys(s: string)
    requires GrammarTokens(s).Some?
    ensures KeySet(GrammarParse(s, Empty).value) == LowerSet(GrammarTokens(s).value)
  {
    var ts := GrammarTokens(s).value;
    AddAllKeys(Empty, ts);
    assert KeySet(Empty) == {};
  }

  /** Tokens joined by ", " read back as the same tokens. */
  lemma {:induction false} JoinedTokens(ns: seq<string>)
    requires |ns| > 0
    requires forall i :: 0 <= i < |ns| ==> IsToken(ns[i])
    ensures GrammarTokens(Join(ns, ", ")) == Some(ns)
  {
    if |ns| == 1 {
      assert ns[0] + "" == ns[0];
      LastElement(ns[0], "");
      assert [ns[0]] == ns;
    } else {
      var tail := Join(ns[1..], ", ");
      assert Join(ns, ", ") == ns[0] + "" + [','] + " " + tail;
      assert IsToken(ns[1..][0]);
      JoinHead(ns[1..], ", ");
      JoinedTokens(ns[1..]);
      CommaStep(ns[0], "", " ", tail);
      HeadTail(ns);
    }
  }

  /** Adding a valid set's names in order to an empty set rebuilds it. */
  lemma {:induction false} AddNamesRebuilds(v: Vary, k: nat)
    requires Valid(v) && k <= |v.entries|
    ensures Valid(Vary(v.entries[..k]))
    ensures AddAll(Vary(v.entries[..k]), Names(v)[k..]) == v
    decreases |v.entries| - k
  {
    var e := v.entries;
    var ns := Names(v);
    PrefixValid(v, k);
    if k == |e| {
      assert e[..k] == e;
      assert ns[k..] == [];
    } else {
      AddNamesRebuilds(v, k + 1);
      InsertNext(v, k);
      SuffixTail(ns, k);
      assert ns[k] == e[k].name;
    }
  }

  lemma PrefixValid(v: Vary, k: nat)
    requires Valid(v) && k <= |v.entries|
    ensures Valid(Vary(v.entries[..k]))
  {
  }

  /** The next name of a valid set is new to the entries before it, so inserting it appends it. */
  lemma InsertNext(v: Vary, k: nat)
    requires Valid(v) && k < |v.entries|
    ensures Valid(Vary(v.entries[..k]))
    ensures Insert(Vary(v.entries[..k]), v.entries[k].name) == Vary(v.entries[..k + 1])
  {
    var e := v.entries;
    var pre := Vary(e[..k]);
    assert forall i :: 0 <= i < |pre.entries| ==> pre.entries[i].key != Lower(e[k].name);
    assert e[k] == Entry(Lower(e[k].name), e[k].name);
    PrefixPush(e, k);
  }

  /** `toString` of a non-empty set re-parses to the very same set: same names, same casing, same order. */
  lemma ToStringRoundTrip(v: Vary)
    requires Valid(v) && Size(v) > 0
    ensures TryParse(ToString(v)) == Some(v)
  {
    var ns := Names(v);
    JoinedTokens(ns);
    TryParseMatchesGrammar(ToString(v));
    AddNamesRebuilds(v, 0);
    assert v.entries[..0] == [];
    assert ns[0..] == ns;
  }

  /** `Vary.from` of a non-empty set's text gives back that set. */
  lemma FromRoundTrip(v: Vary)
    requires Valid(v) && Size(v) > 0
    ensures From(AsText(ToString(v))) == Ok(v)
  {
    ToStringRoundTrip(v);
  }

  /** Two tokens joined by ", " are a two-element list. */
  lemma TwoTokens(a: string, b: string)
    requires IsToken(a) && IsToken(b)
    ensures GrammarTokens(a + ", " + b) == Some([a, b])
  {
    var none: string, space: string := [], [' '];
    assert a + ", " + b == a + none + [','] + space + b;
    assert IsOws(none) && IsOws(space);
    assert b + none == b;
    LastElement(b, none);
    CommaStep(a, none, space, b);
    assert [a] + [b] == [a, b];
  }

  lemma AddTwo(a: string, b: string)
    requires IsToken(a) && IsToken(b)
    ensures Lower(a) == Lower(b) ==> AddAll(Empty, [a, b]) == Vary([Entry(Lower(b), b)])
    ensures Lower(a) != Lower(b) ==>
              AddAll(Empty, [a, b]) == Vary([Entry(Lower(a), a), Entry(Lower(b), b)])
  {
    var v1 := Insert(Empty, a);
    assert v1 == Vary([Entry(Lower(a), a)]);
    assert [a, b][1..] == [b];
    assert AddAll(Empty, [a, b]) == AddAll(v1, [b]);
    assert AddAll(v1, [b]) == AddAll(Insert(v1, b), []);
  }

  /**
   * Two names equal ignoring case collapse into one member holding the
   * second casing; two different names give two members in order.
   */
  lemma TwoNamesParsed(a: string, b: string)
    requires IsToken(a) && IsToken(b)
    ensures Lower(a) == Lower(b) ==> TryParse(a + ", " + b) == Some(Vary([Entry(Lower(b), b)]))
    ensures Lower(a) != Lower(b) ==>
              TryParse(a + ", " + b) == Some(Vary([Entry(Lower(a), a), Entry(Lower(b), b)]))
  {
    TwoTokens(a, b);
    TryParseMatchesGrammar(a + ", " + b);
    AddTwo(a, b);
  }

  /** "accept, Accept": size 1, rendered as "Accept". */
  lemma RepeatedNameExample(s: string)
    requires s == "accept, Accept"
    ensures TryParse(s) == Some(Vary([Entry("accept", "Accept")]))
    ensures Size(TryParse(s).value) == 1
    ensures ToString(TryParse(s).value) == "Accept"
  {
    var a, b := "accept", "Accept";
    assert s == a + ", " + b;
    assert Lower(b) == a == Lower(a);
    assert IsToken(a) && IsToken(b);
    TwoNamesParsed(a, b);
    assert Names(TryParse(s).value) == [b];
  }

  /** "Accept, Accept-Encoding": size 2. */
  lemma DistinctNamesExample(s: string)
    requires s == "Accept, Accept-Encoding"
    ensures TryParse(s).Some? && Size(TryParse(s).value) == 2
  {
    var a, b := "Accept", "Accept-Encoding";
    assert s == a + ", " + b;
    AcceptNames();
    TwoNamesParsed(a, b);
    assert |TryParse(s).value.entries| == 2;
  }

  lemma AcceptNames()
    ensures IsToken("Accept") && IsToken("Accept-Encoding")
    ensures Lower("Accept") != Lower("Accept-Encoding")
  {
    assert |Lower("Accept")| == 6;
  }

  /** "a, ,b" has an empty element. */
  lemma EmptyMiddleElementExample(s: string)
    requires s == "a, ,b"
    ensures TryParse(s) == None
  {
    assert s == "a" + "," + " " + "," + "b";
    EmptyElementRejected("a", " ", "b");
  }
}

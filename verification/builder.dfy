/**
 * The pure rules of the browser request builder: the constructor's method
 * normalisation, the argument dispatch of `query` and `header`, and the
 * body classification of `guessContentType` and `toFormData`. The query
 * and header stores are plain sequences of name/value pairs.
 */
module Builder {
  import opened Wrappers
  import opened Seqs
  import opened Js
  import opened Flatten

  /** The state of a builder that the modelled operations read or write. */
  datatype RequestBuilder = RequestBuilder(verb: string, url: string, query: seq<Pair>, headers: seq<Pair>)

  /** No ASCII lower-case letter occurs in `s`. */
  predicate NoLowerCase(s: string)
  {
    forall i :: 0 <= i < |s| ==> !('a' <= s[i] <= 'z')
  }

  /** `new RequestBuilder(adapter, method, url)`; `url` is already `String(url)`. */
  function NewBuilder(verb: string, url: string): (b: RequestBuilder)
    ensures NoLowerCase(b.verb)
    ensures Lower(b.verb) == Lower(verb)
    ensures b.url == url && b.query == [] && b.headers == []
  {
    var m := Upper(verb);
    assert forall i :: 0 <= i < |verb| ==> Lower(m)[i] == Lower(verb)[i];
    RequestBuilder(m, url, [], [])
  }

  lemma CharCaseFold(a: char, b: char)
    ensures UpperChar(a) == UpperChar(b) <==> LowerChar(a) == LowerChar(b)
  {
  }

  /** Two method names give the same stored method exactly when they differ only in ASCII case. */
  lemma SameMethodIffCaseInsensitive(m1: string, m2: string, url: string)
    ensures NewBuilder(m1, url).verb == NewBuilder(m2, url).verb <==> Lower(m1) == Lower(m2)
  {
    var u1, u2 := Upper(m1), Upper(m2);
    var l1, l2 := Lower(m1), Lower(m2);
    if u1 == u2 {
      assert |m1| == |m2|;
      forall i | 0 <= i < |m1| ensures l1[i] == l2[i] {
        assert u1[i] == u2[i];
        CharCaseFold(m1[i], m2[i]);
      }
    }
    if l1 == l2 {
      assert |m1| == |m2|;
      forall i | 0 <= i < |m1| ensures u1[i] == u2[i] {
        assert l1[i] == l2[i];
        CharCaseFold(m1[i], m2[i]);
      }
    }
  }

  /** A method without lower-case letters is stored as given. */
  lemma UpperCaseKept(verb: string, url: string)
    requires NoLowerCase(verb)
    ensures NewBuilder(verb, url).verb == verb
  {
    var m := NewBuilder(verb, url).verb;
    assert forall i :: 0 <= i < |verb| ==> m[i] == verb[i];
  }

  /** Normalisation is idempotent: re-normalising a stored method changes nothing. */
  lemma NormaliseIdempotent(verb: string, url: string)
    ensures var m := NewBuilder(verb, url).verb;
            NewBuilder(m, url).verb == m
  {
    UpperCaseKept(NewBuilder(verb, url).verb, url);
  }

  /** `"get"` is stored as `"GET"`. */
  lemma LowerCaseGet(url: string)
    ensures NewBuilder("get", url).verb == "GET"
  {
    var m := NewBuilder("get", url).verb;
    assert m[0] == 'G' && m[1] == 'E' && m[2] == 'T';
  }

  /** An argument of `query` or `header`. */
  datatype Arg =
    | Given(src: Source)                   // a string, another primitive, `null`, a Map, an array of
                                           // `[name, value]` pairs or a plain object
    | Bag(pairs: seq<Pair>, text: string)  // the verb's own collection type with its `String()` text:
                                           // `URLSearchParams` for `query`, `Headers` for `header`
    | Plain(v: Compound)                   // any other array or object, such as `[1, 2]` or a `Date`,
                                           // known by its `String()` text; an `Obj` here has no own
                                           // enumerable properties

  /** An array or a non-array object. */
  type Compound = v: Value | v.Array? || v.Obj? witness Array([])

  /** `String(arg)`. */
  function ArgString(a: Arg): (r: string)
    ensures a.Bag? ==> r == a.text
    ensures a.Plain? ==> r == Stringify(a.v)
    ensures IsName(a) ==> r == a.src.p.s
    ensures a.Given? && a.src.MapSource? ==> r == "[object Map]"
    ensures a.Given? && a.src.RecordSource? ==> r == "[object Object]"
    ensures a.Given? && a.src.PairsSource? ==> r == Stringify(PairsValue(a.src.entries))
  {
    match a
    case Bag(_, text) => text
    case Plain(v) => Stringify(v)
    case Given(src) =>
      match src
      case NotObject(p) => Stringify(p)
      case MapSource(_) => "[object Map]"
      case RecordSource(_) => "[object Object]"
      case PairsSource(es) => Stringify(PairsValue(es))
  }

  /** The JavaScript array `[[name, value], ...]` that lists the entries. */
  function PairsValue(es: seq<(string, Value)>): (v: Compound)
    ensures v.Array? && |v.items| == |es|
    ensures forall i :: 0 <= i < |es| ==> v.items[i] == Array([Str(es[i].0), es[i].1])
  {
    Array(seq(|es|, i requires 0 <= i < |es| => Array([Str(es[i].0), es[i].1])))
  }

  /** An array element that destructures as `[name, value]` with a string name. */
  predicate IsPairItem(item: Value)
  {
    item.Array? && |item.items| >= 2 && item.items[0].Str?
  }

  /**
   * What a single `Plain` argument hands to `multiEntries`: an object
   * without own properties has no entries, and an array is read as a list
   * of `[name, value]` pairs. Nothing when some array element is not such a
   * pair.
   */
  function PlainSource(v: Compound): (r: Option<Source>)
    ensures r.None? <==> v.Array? && exists i :: 0 <= i < |v.items| && !IsPairItem(v.items[i])
    ensures v.Obj? ==> r == Some(RecordSource([]))
    ensures r.Some? && v.Array? ==> r.value.PairsSource? && |r.value.entries| == |v.items|
    ensures r.Some? && v.Array? ==> forall i :: 0 <= i < |v.items| ==>
              v.items[i] == Array([Str(r.value.entries[i].0), r.value.entries[i].1] + v.items[i].items[2..])
  {
    if v.Obj? then Some(RecordSource([]))
    else if forall i :: 0 <= i < |v.items| ==> IsPairItem(v.items[i]) then
      Some(PairsSource(seq(|v.items|, i requires 0 <= i < |v.items| && IsPairItem(v.items[i]) =>
                             (v.items[i].items[0].s, v.items[i].items[1]))))
    else None
  }

  /** A single argument that `multiEntries`, or the pair destructuring it does, rejects. */
  predicate Unflattenable(a: Arg)
  {
    (a.Given? && a.src.NotObject?) || (a.Plain? && PlainSource(a.v).None?)
  }

  /** A string argument, the name of the two-argument form. */
  predicate IsName(a: Arg)
  {
    a.Given? && a.src.NotObject? && a.src.p.Str?
  }

  /** `arg != null`, i.e. neither `null` nor `undefined`. */
  predicate IsPresent(a: Arg)
  {
    !(a.Given? && a.src.NotObject? && IsNullish(a.src.p))
  }

  /** The name/value form: exactly two arguments, a string name and a present value. */
  predicate IsNameValue(args: seq<Arg>)
  {
    |args| == 2 && IsName(args[0]) && IsPresent(args[1])
  }

  /**
   * The body of `query(...args)` and `header(...args)` on the pairs already
   * stored: the name/value form appends one pair, a single argument of the
   * verb's own collection type appends its pairs, any other single
   * argument appends its `multiEntries`, and every other shape throws
   * `TypeError`.
   */
  function AppendArgs(store: seq<Pair>, args: seq<Arg>): (r: Result<seq<Pair>, Thrown>)
    ensures r.Err? ==> r.error == TypeError
    ensures r.Err? <==> !IsNameValue(args) && (|args| != 1 || Unflattenable(args[0]))
    ensures r.Ok? ==> |store| <= |r.value| && r.value[..|store|] == store
    ensures IsNameValue(args) ==> r == Ok(store + [(args[0].src.p.s, ArgString(args[1]))])
    ensures |args| == 1 && args[0].Plain? && args[0].v.Obj? ==> r == Ok(store)
  {
    if IsNameValue(args) then
      Ok(store + [(args[0].src.p.s, ArgString(args[1]))])
    else if |args| == 1 then
      match args[0]
      case Bag(pairs, _) => Ok(store + pairs)
      case Given(src) => AppendEntries(store, src)
      case Plain(v) =>
        match PlainSource(v)
        case Some(src) => AppendEntries(store, src)
        case None => Err(TypeError)
    else
      Err(TypeError)
  }

  /** Appends the `multiEntries` of a single argument. */
  function AppendEntries(store: seq<Pair>, src: Source): (r: Result<seq<Pair>, Thrown>)
    ensures r.Err? <==> src.NotObject?
    ensures r.Err? ==> r.error == TypeError
    ensures r.Ok? ==> r.value == store + MultiEntries(src).value
    ensures src.RecordSource? && src.entries == [] ==> r == Ok(store)
  {
    match MultiEntries(src)
    case Ok(pairs) => assert pairs == [] ==> store + pairs == store; Ok(store + pairs)
    case Err(e) => Err(e)
  }

  /** `builder.query(...args)`. */
  function Query(b: RequestBuilder, args: seq<Arg>): (r: Result<RequestBuilder, Thrown>)
    ensures r.Ok? <==> AppendArgs(b.query, args).Ok?
    ensures r.Ok? ==> r.value == b.(query := AppendArgs(b.query, args).value)
  {
    match AppendArgs(b.query, args)
    case Ok(q) => Ok(b.(query := q))
    case Err(e) => Err(e)
  }

  /** `builder.header(...args)`. */
  function Header(b: RequestBuilder, args: seq<Arg>): (r: Result<RequestBuilder, Thrown>)
    ensures r.Ok? <==> AppendArgs(b.headers, args).Ok?
    ensures r.Ok? ==> r.value == b.(headers := AppendArgs(b.headers, args).value)
  {
    match AppendArgs(b.headers, args)
    case Ok(h) => Ok(b.(headers := h))
    case Err(e) => Err(e)
  }

  function NameArg(name: string): Arg { Given(NotObject(Str(name))) }

  /** Calling the name/value form once per pair, in order. */
  function AppendEach(store: seq<Pair>, pairs: seq<Pair>): Result<seq<Pair>, Thrown>
    decreases |pairs|
  {
    if |pairs| == 0 then Ok(store)
    else
      match AppendArgs(store, [NameArg(pairs[0].0), NameArg(pairs[0].1)])
      case Ok(s) => AppendEach(s, pairs[1..])
      case Err(e) => Err(e)
  }

  /** Successive name/value calls append their pairs in call order and never throw. */
  lemma {:induction false} AppendEachAppends(store: seq<Pair>, pairs: seq<Pair>)
    ensures AppendEach(store, pairs) == Ok(store + pairs)
    decreases |pairs|
  {
    if |pairs| == 0 {
      assert store + pairs == store;
    } else {
      var s := store + [(pairs[0].0, pairs[0].1)];
      assert (pairs[0].0, pairs[0].1) == pairs[0];
      HeadTail(pairs);
      assert IsNameValue([NameArg(pairs[0].0), NameArg(pairs[0].1)]);
      assert ArgString(NameArg(pairs[0].1)) == pairs[0].1;
      assert AppendArgs(store, [NameArg(pairs[0].0), NameArg(pairs[0].1)]) == Ok(s);
      assert AppendEach(store, pairs) == AppendEach(s, pairs[1..]);
      AppendEachAppends(s, pairs[1..]);
      assert s + pairs[1..] == store + pairs;
    }
  }

  /**
   * A single Map, array of pairs or plain object appends exactly what one
   * name/value call per pair of its `multiEntries` would, in that order.
   */
  lemma ObjectFormIsNameValueCalls(store: seq<Pair>, src: Source)
    requires !src.NotObject?
    ensures AppendArgs(store, [Given(src)]) == AppendEach(store, MultiEntries(src).value)
    ensures AppendArgs(store, [Given(src)]) == Ok(store + MultiEntries(src).value)
  {
    AppendEachAppends(store, MultiEntries(src).value);
  }

  /** A single collection of the verb's own type appends its pairs, as name/value calls would. */
  lemma BagFormIsNameValueCalls(store: seq<Pair>, pairs: seq<Pair>, text: string)
    ensures AppendArgs(store, [Bag(pairs, text)]) == AppendEach(store, pairs)
  {
    AppendEachAppends(store, pairs);
  }

  /** The name/value form with a `null` or `undefined` value throws `TypeError`. */
  lemma MissingValueRejected(store: seq<Pair>, name: string, v: Primitive)
    requires IsNullish(v)
    ensures AppendArgs(store, [NameArg(name), Given(NotObject(v))]) == Err(TypeError)
  {
  }

  /** No arguments, or three, throw `TypeError`. */
  lemma WrongArityRejected(store: seq<Pair>, args: seq<Arg>)
    requires |args| == 0 || |args| == 3
    ensures AppendArgs(store, args) == Err(TypeError)
  {
  }

  /** A single primitive, including `null`, throws `TypeError` (`multiEntries` rejects it). */
  lemma PrimitiveRejected(store: seq<Pair>, p: Primitive)
    ensures AppendArgs(store, [Given(NotObject(p))]) == Err(TypeError)
  {
  }

  /**
   * `header` dispatches exactly as `query` would on a builder whose query
   * store held the headers, and leaves the query store alone.
   */
  lemma HeaderLikeQuery(b: RequestBuilder, args: seq<Arg>)
    ensures Header(b, args).Ok? <==> Query(b.(query := b.headers), args).Ok?
    ensures Header(b, args).Ok? ==>
              && Header(b, args).value.headers == Query(b.(query := b.headers), args).value.query
              && Header(b, args).value.query == b.query
  {
  }

  /** A single array of `[name, value]` pairs appends the same as the pair list it spells. */
  lemma PlainPairsAsGiven(store: seq<Pair>, es: seq<(string, Value)>)
    ensures AppendArgs(store, [Plain(PairsValue(es))]) == AppendArgs(store, [Given(PairsSource(es))])
  {
    var v := PairsValue(es);
    var src := PlainSource(v);
    assert forall i :: 0 <= i < |es| ==> IsPairItem(v.items[i]);
    assert src.Some?;
    var es' := src.value.entries;
    assert forall i :: 0 <= i < |es| ==> es'[i] == es[i] by {
      forall i | 0 <= i < |es| ensures es'[i] == es[i] {
        assert v.items[i] == Array([Str(es[i].0), es[i].1]);
        assert v.items[i].items[2..] == [];
      }
    }
    assert es' == es;
  }

  /** A single array with an element that is not a `[name, value]` pair throws `TypeError`. */
  lemma NonPairElementRejected(store: seq<Pair>, items: seq<Value>, i: nat)
    requires i < |items| && !IsPairItem(items[i])
    ensures AppendArgs(store, [Plain(Array(items))]) == Err(TypeError)
  {
  }

  /**
   * `query("ids", [1, 2])` stores the array's `String()`, `"1,2"`, as one
   * value, and `query("since", date)` the date's text; `query({a: [1, 2]})`
   * expands the array into two pairs.
   */
  lemma ArrayValueExample(b: RequestBuilder, date: string)
    requires b.query == []
    ensures Query(b, [NameArg("ids"), Plain(Array([Prim("1"), Prim("2")]))]).value.query == [("ids", "1,2")]
    ensures Query(b, [NameArg("since"), Plain(Obj(date))]).value.query == [("since", date)]
    ensures Query(b, [Given(RecordSource([("a", Array([Prim("1"), Prim("2")]))]))]).value.query
            == [("a", "1"), ("a", "2")]
  {
    var ids := Array([Prim("1"), Prim("2")]);
    assert Stringify(ids) == "1,2";
    var rs := [("a", Array([Prim("1"), Prim("2")]))];
    assert Expand("a", Array([Prim("1"), Prim("2")])) == [("a", "1"), ("a", "2")];
    assert rs[1..] == [];
    assert MultiEntriesOf(rs) == [("a", "1"), ("a", "2")] + MultiEntriesOf([]);
  }

  /** A request body, by the type tests `guessContentType` applies. */
  datatype Body =
    | TextBody(text: string)              // `typeof body === "string"`
    | FormDataBody(fields: seq<Pair>)     // `FormData`
    | SearchParamsBody(pairs: seq<Pair>)  // `URLSearchParams`
    | BlobBody(blobType: string)          // `Blob`, with its `type`
    | BinaryBody                          // `ArrayBuffer` or an `ArrayBufferView`

  const TextPlain := "text/plain"
  const MultipartFormData := "multipart/form-data"
  const UrlEncoded := "application/x-www-form-urlencoded"
  const OctetStream := "application/octet-stream"

  /** `guessContentType(body)`. */
  function GuessContentType(body: Body): (t: string)
    ensures t != ""
    ensures t == TextPlain <==> body.TextBody? || (body.BlobBody? && body.blobType == TextPlain)
    ensures t == MultipartFormData <==> body.FormDataBody? || (body.BlobBody? && body.blobType == MultipartFormData)
    ensures t == UrlEncoded <==> body.SearchParamsBody? || (body.BlobBody? && body.blobType == UrlEncoded)
    ensures t == OctetStream <==> body.BinaryBody? || (body.BlobBody? && body.blobType in {"", OctetStream})
    ensures body.BlobBody? && body.blobType != "" ==> t == body.blobType
  {
    match body
    case TextBody(_) => TextPlain
    case FormDataBody(_) => MultipartFormData
    case SearchParamsBody(_) => UrlEncoded
    case BlobBody(ty) => if ty != "" then ty else OctetStream
    case BinaryBody => OctetStream
  }

  /**
   * The content type `sendBody(body, contentType)` uses: the given one, or the
   * guess. Without a given type a string is sent as `text/plain` and binary
   * data as `application/octet-stream`, except a `Blob` with a type of its own,
   * which keeps that type.
   */
  function SendBodyContentType(body: Body, contentType: Option<string>): (t: string)
    ensures contentType.Some? ==> t == contentType.value
    ensures contentType.None? ==> t == GuessContentType(body) && t != ""
    ensures contentType.None? && body.TextBody? ==> t == TextPlain
    ensures contentType.None? && (body.BinaryBody? || (body.BlobBody? && body.blobType == "")) ==> t == OctetStream
    ensures contentType.None? && body.BlobBody? && body.blobType != "" ==> t == body.blobType
  {
    if contentType.Some? then contentType.value else GuessContentType(body)
  }

  /** The argument of `sendForm` / `toFormData`. */
  datatype FormInput =
    | FormDataInput(fields: seq<Pair>)    // `FormData`
    | SearchParamsInput(pairs: seq<Pair>) // `URLSearchParams`
    | Keyed(src: Source)                  // a Map, array of pairs or plain object

  /** What `toFormData` hands on as the body. */
  datatype FormPayload =
    | FormDataPayload(fields: seq<Pair>)
    | SearchParamsPayload(pairs: seq<Pair>)

  function PayloadBody(p: FormPayload): Body
  {
    match p
    case FormDataPayload(f) => FormDataBody(f)
    case SearchParamsPayload(ps) => SearchParamsBody(ps)
  }

  function PayloadInput(p: FormPayload): FormInput
  {
    match p
    case FormDataPayload(f) => FormDataInput(f)
    case SearchParamsPayload(ps) => SearchParamsInput(ps)
  }

  /** `toFormData(body)`: the body to send and its content type. */
  function ToFormData(x: FormInput): (r: Result<(FormPayload, string), Thrown>)
    ensures r.Err? <==> x.Keyed? && x.src.NotObject?
    ensures r.Err? ==> r.error == TypeError
    ensures r.Ok? ==> (r.value.1 == MultipartFormData <==> x.FormDataInput?)
    ensures r.Ok? ==> (r.value.1 == UrlEncoded <==> !x.FormDataInput?)
    ensures x.FormDataInput? ==> r == Ok((FormDataPayload(x.fields), MultipartFormData))
    ensures x.SearchParamsInput? ==> r == Ok((SearchParamsPayload(x.pairs), UrlEncoded))
    ensures r.Ok? && x.Keyed? ==> r.value.0 == SearchParamsPayload(MultiEntries(x.src).value)
  {
    match x
    case FormDataInput(f) => Ok((FormDataPayload(f), MultipartFormData))
    case SearchParamsInput(ps) => Ok((SearchParamsPayload(ps), UrlEncoded))
    case Keyed(src) =>
      match MultiEntries(src)
      case Ok(pairs) => Ok((SearchParamsPayload(pairs), UrlEncoded))
      case Err(e) => Err(e)
  }

  /** The content type `toFormData` picks is the one `guessContentType` would guess for its body. */
  lemma FormTypeAgreesWithGuess(x: FormInput)
    requires ToFormData(x).Ok?
    ensures ToFormData(x).value.1 == GuessContentType(PayloadBody(ToFormData(x).value.0))
  {
  }

  /** Feeding `toFormData`'s body back into it changes nothing. */
  lemma FormDataIdempotent(x: FormInput)
    requires ToFormData(x).Ok?
    ensures ToFormData(PayloadInput(ToFormData(x).value.0)) == ToFormData(x)
  {
  }

  /** A Map, array of pairs and plain object with the same entries give the same form body. */
  lemma FormShapeIrrelevant(es: seq<(string, Value)>)
    ensures ToFormData(Keyed(MapSource(es))) == ToFormData(Keyed(PairsSource(es)))
    ensures ToFormData(Keyed(PairsSource(es))) == ToFormData(Keyed(RecordSource(es)))
  {
  }
}

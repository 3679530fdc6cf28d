# webfx header core, modelled in Dafny

This project models four small pure pieces of the webfx HTTP packages and proves properties about them:

- **Name/value flattening** (`entries`, `multiEntries` in `http/headers/src/util.ts`). A `Map`, an array of `[name, value]` pairs or a plain object becomes an ordered sequence of `[name, string]` pairs. `multiEntries` expands array values one level deep. A primitive or `null` throws `TypeError`.
- **The `Vary` header** (`packages/headers/src/vary.ts`, RFC 9110 section 12.5.5). It is a case-insensitive, ordered set of field names.
  - The store is a JavaScript `Map` from the lower-cased name to the name as last added. It is modelled as a sequence of `Entry(key, name)` with distinct keys, in first-insertion order.
  - `tryParse` reads `token *( OWS "," OWS token ) OWS` with a cursor-based scanner. `token` and `OWS` are from sections 5.6.2 and 5.6.3 of RFC 9110.
  - The scanner is a pure cursor over the text. A read that does not match returns the scanner unchanged.
  - The parser is proved equal to an independent, scanner-free reading of the same grammar (`VaryGrammar`): split at commas, trim spaces and tabs, and require every part to be a token.
- **The header error factory** (`createError` and its eight predefined error classes in `http/headers/src/errors.ts`).
- **The request builder's pure rules** (`request/browser/src/builder.ts`):
  - method upper-casing in the constructor;
  - the argument dispatch of `query` and `header`;
  - `guessContentType` and `toFormData`.

JavaScript exceptions are modelled as `Result` values (`Js.Thrown`), and `null` results as `Option`. The modules are:

- `Wrappers`: `Option` and `Result`.
- `Seqs`: generic sequence facts.
- `Js`: JavaScript values, `String()`, `join` and ASCII case mapping.
- `Syntax`: character classes and the scanner.
- The rest, one per source file: `VaryHeader`, `VaryGrammar`, `VaryProperties`, `VaryHistory`, `Flatten`, `HeaderErrors` and `Builder`.

Four consequences of the code are worth stating up front:

- Re-adding a `Vary` name in another casing keeps its position and shows the *last* casing, because `Map.set` replaces the value in place (`vary.ts:70`). `"accept, Accept"` renders as `Accept`.
- None of the eight predefined error classes passes a status, so all of them carry the default 500 (`errors.ts:51`).
- `sendBody` without a content type sends a string as `text/plain` and binary data as `application/octet-stream`, as its doc comments say (`builder.ts:155-156`, `builder.ts:164-165`). A `Blob` with a non-empty `type` departs from that comment: it is sent with its own type, because the default comes from `guessContentType` (`builder.ts:306-308`).
- `tryParse` is stricter than the list rule of RFC 9110 section 5.6.1:
  - it accepts no empty list elements (`"a, ,b"`), no trailing comma, and no whitespace before the first name;
  - the model states these rejections as proved lemmas.

## Model

| member | source | states |
|---|---|---|
| Flatten.Entries | http/headers/src/util.ts:15-43 | `entries` throws `TypeError` exactly for a non-object (including `null`); otherwise it yields one pair per entry, in order, with the name unchanged and the value stringified |
| Flatten.MultiEntries | http/headers/src/util.ts:127-149 | `multiEntries` throws `TypeError` exactly for a non-object; otherwise the number of pairs is the sum of the entries' contributions (array length, or 1) |
| Flatten.EntriesOf | http/headers/src/util.ts:37-43 | the loop of `entries0` yields exactly one pair per entry, at the same position, with the name unchanged and the value stringified |
| Flatten.MultiEntriesOf | http/headers/src/util.ts:151-162 | the loop of `multiEntries0` yields as many pairs as the entries contribute: an array value's length, or 1 |
| Flatten.MultiEntriesAppend | http/headers/src/util.ts:151-162 | flattening a list of entries is the concatenation of flattening its parts, so each entry contributes independently and in order |
| Flatten.EntryBlock | http/headers/src/util.ts:154-161 | entry k's pairs start right after the earlier entries' pairs. An array value gives one `(name, String(item))` per element, in element order; any other value gives exactly `(name, String(value))` |
| Flatten.EmptyArrayContributesNothing | http/headers/src/util.ts:154-162 | an entry whose value is an empty array adds no pairs |
| Flatten.NoArraysSameAsEntries | http/headers/src/util.ts:151-162 | without array values, `multiEntries` and `entries` produce the same pairs |
| Flatten.ShapeIrrelevant | http/headers/src/util.ts:131-146 | a Map, an array of pairs and a plain object listing the same entries in the same order give identical output, for both functions |
| Flatten.DocumentedExample | http/headers/src/util.ts:79-93 | `{a: 1, b: [2, 3]}` flattens to `[["a","1"],["b","2"],["b","3"]]` |
| Flatten.OneLevelOnly | http/headers/src/util.ts:155-157 | a nested array element is stringified (`"1,2"`), not expanded further |
| VaryHeader.Put | packages/headers/src/vary.ts:70 | `Map.set` overwrites the first entry with the key in place; without one it appends |
| VaryHeader.Drop | packages/headers/src/vary.ts:77 | `Map.delete` removes exactly the first entry with the key; without one nothing changes |
| VaryHeader.Insert | packages/headers/src/vary.ts:66-71 | `add` of a token keeps the set well-formed. A name matching a member ignoring case overwrites that member in place with the new casing; any other name is appended |
| VaryHeader.Add | packages/headers/src/vary.ts:66-71 | `add` throws `TypeError` exactly on a non-token and keeps the set well-formed. A name matching a member ignoring case keeps the size and the positions and replaces only that member's casing; any other name is appended |
| VaryHeader.Has | packages/headers/src/vary.ts:59-64 | `has` throws `TypeError` exactly on a non-token; otherwise it is true iff some member equals the name ignoring case |
| VaryHeader.Delete | packages/headers/src/vary.ts:73-78 | `delete` throws `TypeError` exactly on a non-token. Otherwise it removes only the matching member and keeps the others in order; with no match the set is unchanged |
| VaryHeader.Clear | packages/headers/src/vary.ts:80-82 | after `clear` the size is 0 and `has` is false for every token |
| VaryHeader.Size | packages/headers/src/vary.ts:55-57 | `size` of a well-formed set is the number of distinct lower-cased names it holds |
| VaryHeader.AddEach | packages/headers/src/vary.ts:45-49 | the constructor's loop fails with `TypeError` iff some name is not a token; otherwise it equals inserting the names in order |
| VaryHeader.New | packages/headers/src/vary.ts:45-49 | `new Vary(...names)` succeeds iff every name is a token, and then holds exactly the lower-cased names |
| VaryHeader.AddAllKeys | packages/headers/src/vary.ts:45-49 | adding names one by one adds exactly their lower-cased forms to the key set |
| VaryHeader.Names | packages/headers/src/vary.ts:51-53 | iterating a set yields its display names, one per member, in insertion order |
| VaryHeader.ToString | packages/headers/src/vary.ts:84-86 | the text of a well-formed set is empty exactly when the set is, and holds only name characters, commas and spaces; `VaryProperties.ToStringRoundTrip` shows it reads back as the same set |
| VaryHeader.ParseList | packages/headers/src/vary.ts:25-39 | the loop, run from any cursor on a partly built set, yields a well-formed non-empty set that keeps every member already there, or `null` |
| VaryHeader.TryParse | packages/headers/src/vary.ts:22-41 | a successful `tryParse` is a well-formed, non-empty set |
| VaryHeader.Parse | packages/headers/src/vary.ts:18-20 | `parse` succeeds exactly when `tryParse` does, with the same set |
| VaryHeader.From | packages/headers/src/vary.ts:10-16 | `from` returns a `Vary` argument unchanged and parses a string |
| Syntax.ReadToken | packages/headers/src/vary.ts:26 | reading a name yields the longest run of `tchar` at the cursor. It yields nothing, leaving the cursor where it was, exactly when the next character is not a `tchar` |
| Syntax.SkipWs | packages/headers/src/vary.ts:31 | skipping consumes exactly the maximal run of spaces and tabs |
| Syntax.HasNext | packages/headers/src/vary.ts:32 | input remains exactly when the cursor is before the end; at the end no token or comma can be read and there is no whitespace to skip, so the cursor stays |
| Syntax.ReadChar | packages/headers/src/vary.ts:35 | reading the comma advances by one exactly when the next character is a comma, else the cursor stays |
| VaryGrammar.Elements | packages/headers/src/vary.ts:25-39 | the reference reading of a list succeeds iff every comma-separated part trims to a token |
| VaryGrammar.ParseListMatchesGrammar | packages/headers/src/vary.ts:25-39 | from any cursor position and partial set, the parser loop gives exactly what the reference grammar gives |
| VaryGrammar.TryParseMatchesGrammar | packages/headers/src/vary.ts:22-41 | `tryParse` succeeds exactly on texts of the reference grammar, and then holds their tokens added in order |
| VaryProperties.EmptyInputRejected | packages/headers/src/vary.ts:26-29 | the empty text gives `null` |
| VaryProperties.LeadingWhitespaceRejected | packages/headers/src/vary.ts:26-29 | a text beginning with a space or tab gives `null` |
| VaryProperties.EmptyElementRejected | packages/headers/src/vary.ts:35-38 | a list with an empty element between two commas gives `null`, whatever surrounds it |
| VaryProperties.TrailingCommaRejected | packages/headers/src/vary.ts:35-38 | a comma followed only by whitespace at the end gives `null` |
| VaryProperties.NonCommaSeparatorRejected | packages/headers/src/vary.ts:35-37 | the first name of the text followed by any separator other than a comma (or by whitespace and another name) gives `null` |
| VaryProperties.LaterNonCommaSeparatorRejected | packages/headers/src/vary.ts:35-37 | the same holds for any later name: after any text and a comma, a name followed by a separator other than a comma gives `null` |
| VaryProperties.ParsedKeys | packages/headers/src/vary.ts:26-30 | after a successful parse the set holds exactly the lower-cased tokens of the text, so `size` is the number of distinct lower-cased tokens |
| VaryProperties.JoinedTokens | packages/headers/src/vary.ts:84-86 | tokens joined by `", "` read back, under the reference grammar, as the same tokens |
| VaryProperties.AddNamesRebuilds | packages/headers/src/vary.ts:66-71 | adding a well-formed set's display names in order to an empty set rebuilds that set exactly |
| VaryProperties.ToStringRoundTrip | packages/headers/src/vary.ts:84-86 | `toString` of a non-empty set re-parses to the same set: same names, same casing, same order |
| VaryProperties.FromRoundTrip | packages/headers/src/vary.ts:10-16 | `Vary.from` of a non-empty set's text gives back that very set |
| VaryProperties.TwoNamesParsed | packages/headers/src/vary.ts:22-41 | `"a, b"` parses to one member with the second casing when the names match ignoring case, and to two members in order otherwise |
| VaryProperties.RepeatedNameExample | packages/headers/src/vary.ts:66-71 | `"accept, Accept"` has size 1 and renders as `"Accept"` |
| VaryProperties.DistinctNamesExample | packages/headers/src/vary.ts:22-41 | `"Accept, Accept-Encoding"` has size 2 |
| VaryProperties.EmptyMiddleElementExample | packages/headers/src/vary.ts:22-41 | `"a, ,b"` gives `null` |
| VaryHistory.Apply | packages/headers/src/vary.ts:59-82 | a mutating call throws exactly when its argument is not a token (never for `clear`), and keeps the set well-formed |
| VaryHistory.HasMatchesHistory | packages/headers/src/vary.ts:59-82 | after any run of calls that did not throw, `has(n)` is true iff some `add` of a name equal to `n` ignoring case was not followed by a matching `delete` or a `clear` |
| HeaderErrors.CreateError | http/headers/src/errors.ts:48-70 | `createError` fails with "Error code must not be empty." on an empty code (checked first) and with "Error message must not be empty." on an empty message. Otherwise it returns a class carrying the given code, message, status and base |
| HeaderErrors.Construct | http/headers/src/errors.ts:76-81 | a constructed error's message is the code, `": "` and the class's message, and its name is the code wrapped in `"HeaderError ["` and `"]"`; code, status and base are the class's |
| HeaderErrors.ConstructedError | http/headers/src/errors.ts:76-81 | a constructed error's message is `code + ": " + message` and its name `"HeaderError [" + code + "]"`; its code, status and base are those given to `createError` |
| HeaderErrors.DefaultStatusIs500 | http/headers/src/errors.ts:51 | without a status the error carries 500 and extends `TypeError` |
| HeaderErrors.NameRoundTrip | http/headers/src/errors.ts:78 | the code can be read back from the error's name, so different codes give different names |
| HeaderErrors.Predefined | http/headers/src/errors.ts:1-39 | each predefined class is the successful result of `createError` with its code and message |
| HeaderErrors.PredefinedKinds | http/headers/src/errors.ts:1-39 | every predefined class carries status 500, extends `TypeError`, and has its listed code and message; the code identifies the kind |
| HeaderErrors.PredefinedCodesDistinct | http/headers/src/errors.ts:1-39 | the eight predefined codes are pairwise distinct |
| Builder.NewBuilder | request/browser/src/builder.ts:28-31 | the stored method has no lower-case letters and equals the given one ignoring case; the stores start empty |
| Builder.SameMethodIffCaseInsensitive | request/browser/src/builder.ts:30 | two method names are stored alike exactly when they are equal ignoring case |
| Builder.NormaliseIdempotent | request/browser/src/builder.ts:30 | normalising a stored method again changes nothing |
| Builder.UpperCaseKept | request/browser/src/builder.ts:263-274 | a method without lower-case letters, as the `get`/`post`/… shortcuts pass, is stored as given |
| Builder.LowerCaseGet | request/browser/src/builder.ts:30 | `"get"` is stored as `"GET"` |
| Builder.ArgString | request/browser/src/builder.ts:64 | `String(value)` of the value argument: a string is itself, an array or other object its JavaScript text (`"1,2"` for `[1, 2]`), a Map `"[object Map]"`, a plain object `"[object Object]"`, and an array of pairs the text of that array |
| Builder.AppendArgs | request/browser/src/builder.ts:58-87 | the call throws `TypeError` exactly when it is neither the name/value form nor a single argument that `multiEntries` accepts: a primitive, `null` or an array with an element that is not a `[name, value]` pair is rejected. Otherwise the stored pairs are kept as a prefix; the name/value form appends exactly `(name, String(value))`, and a single object without own properties (a `Date`) appends nothing |
| Builder.AppendEntries | request/browser/src/builder.ts:80-82 | a single object argument appends its `multiEntries` pairs after the stored ones; a primitive throws `TypeError` |
| Builder.Query | request/browser/src/builder.ts:58-87 | `query` succeeds exactly when the dispatch does and changes nothing but the query store |
| Builder.Header | request/browser/src/builder.ts:94-123 | `header` succeeds exactly when the dispatch does and changes nothing but the header store |
| Builder.AppendEachAppends | request/browser/src/builder.ts:62-66 | successive name/value calls never throw and append their pairs in call order |
| Builder.ObjectFormIsNameValueCalls | request/browser/src/builder.ts:77-83 | a single Map, array of pairs or plain object appends its `multiEntries` pairs in order, the same as one name/value call per pair |
| Builder.BagFormIsNameValueCalls | request/browser/src/builder.ts:68-75 | a single `URLSearchParams` (for `query`) or `Headers` (for `header`) appends its pairs in order |
| Builder.MissingValueRejected | request/browser/src/builder.ts:62-86 | a name with a `null` or `undefined` value throws `TypeError` |
| Builder.WrongArityRejected | request/browser/src/builder.ts:86 | no arguments, or three, throw `TypeError` |
| Builder.PrimitiveRejected | request/browser/src/builder.ts:77-83 | a single primitive or `null` throws `TypeError`, raised by `multiEntries` |
| Builder.HeaderLikeQuery | request/browser/src/builder.ts:94-123 | for every builder, `header` succeeds exactly when `query` would on a builder whose query store held the headers, gives the header store that `query` would give the query store, and leaves the query store alone |
| Builder.PlainPairsAsGiven | request/browser/src/builder.ts:77-83 | a single array of `[name, value]` pairs appends the same pairs as the pair list it spells |
| Builder.NonPairElementRejected | request/browser/src/builder.ts:77-83 | a single array with an element that is not a `[name, value]` pair throws `TypeError` |
| Builder.ArrayValueExample | request/browser/src/builder.ts:62-83 | `query("ids", [1, 2])` stores `("ids", "1,2")` and `query("since", date)` the date's text, while `query({a: [1, 2]})` stores two pairs |
| Builder.GuessContentType | request/browser/src/builder.ts:296-314 | the guess is never empty. A string body gives `text/plain`, FormData `multipart/form-data`, URLSearchParams `application/x-www-form-urlencoded`, and a Blob with a non-empty type that type; every other body gives `application/octet-stream`. Each rule is stated as an iff |
| Builder.SendBodyContentType | request/browser/src/builder.ts:172-177 | `sendBody` uses the given content type. Without one, a string is sent as `text/plain`, an `ArrayBuffer`, a view or an untyped `Blob` as `application/octet-stream`, and a typed `Blob` with its own type |
| Builder.ToFormData | request/browser/src/builder.ts:279-294 | FormData is passed on with `multipart/form-data`; URLSearchParams unchanged with the url-encoded type; anything else becomes URLSearchParams of its `multiEntries` pairs. A primitive throws `TypeError` |
| Builder.FormTypeAgreesWithGuess | request/browser/src/builder.ts:279-314 | the content type `toFormData` picks is the one `guessContentType` gives for the body it returns |
| Builder.FormDataIdempotent | request/browser/src/builder.ts:287-293 | feeding `toFormData`'s body back into it gives the same result |
| Builder.FormShapeIrrelevant | request/browser/src/builder.ts:290-292 | a Map, an array of pairs and a plain object with the same entries give the same form body |

## Left out

- VaryHeader.Parse: `Vary.parse` hands its input to `parseOrThrow` in `headers.js`, which is not part of this model. The model takes it to throw exactly where `tryParse` gives `null`, and does not name the error kind.
- `Scanner` and `isToken` live in `syntax.js`, which is not part of this model. Their behaviour is modelled directly from the character classes of RFC 9110 sections 5.6.2 and 5.6.3.
- `Js.Lower` and `Js.Upper` map ASCII letters only. This is exact for `Vary`, whose names are tokens and therefore ASCII.
- Builder.NewBuilder: upper-cases ASCII letters only. JavaScript's `toUpperCase` also maps non-ASCII letters (and `ß` to `SS`), which is not modelled.
- Builder.ArgString: a number's, a boolean's or an object's `String()` text (a `Date`, an object with its own `toString`) is carried as given text, not computed. A Map and an object whose entries are read render as `"[object Map]"` and `"[object Object]"`, so an object with both entries and its own `toString` is not represented.
- Flatten.Entries: an array argument is taken to be a list of `[name, value]` pairs with string names. JavaScript destructures each element: a non-iterable element (a number, `null`) throws `TypeError` after the pairs before it were yielded, a string element `"ab"` gives the pair `("a", "b")`, and a short array gives `undefined` for the missing parts. None of this is modelled. A function argument is not modelled either: `typeof` reports it as `"function"`, so it throws `TypeError` like a primitive, but a function is not one of the modelled values.
- Flatten.MultiEntries: takes array arguments to be lists of `[name, value]` pairs, as `Flatten.Entries` does, and has the same gaps.
- Builder.AppendArgs: a single array with an element that is not a `[name, value]` pair with a string name throws `TypeError` and appends nothing. In JavaScript only a non-iterable element throws, and the pairs before it have already been appended, because `multiEntries` is a generator. A string element or a short array is destructured and does not throw at all.
- Builder.AppendArgs: a single argument of the *other* method's collection type (a `Headers` passed to `query`, a `URLSearchParams` passed to `header`) is not modelled. The `Headers` builder's own validation in `append` is not part of this model either; both stores are plain sequences of pairs.
- HeaderErrors.CreateError: `Base` can be any error class, but the model allows only `TypeError` and `Error`. Each call returns a new class, which `instanceof` tells apart from a class made by another call with the same arguments. The model's class values are plain records, so two such classes are equal.
- The request builder's event listeners, `accept`, `options`, `timeout`, `send*`, `_makeRequest`, `_call`, `extend` (beyond the shortcut method names), `mergeSearchParams`, `JSON.stringify` and `Accept`: I/O and plumbing around the modelled rules.
- The `Symbol.toStringTag` getters of `Vary` and the error classes, and the `Error` base class's own fields (stack and so on): runtime metadata with no behaviour to model.
- `String(url)` in the builder constructor: the URL is taken as its string.
- Generators and iterators (`entries`, `multiEntries`, `Vary`'s iterator) are modelled by the sequences they yield.

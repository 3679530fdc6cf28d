/**
 * The shared HTTP grammar primitives (RFC 9110 sections 5.6.2 and 5.6.3)
 * and a pure scanner over a header field value. A scanner is an input text
 * and a cursor; every read returns the scanner to continue with, and a read
 * that does not match returns the scanner it was given.
 */
module Syntax {
  import opened Wrappers

  /** `tchar` of RFC 9110 section 5.6.2. */
  predicate IsTChar(c: char)
  {
    || 'a' <= c <= 'z'
    || 'A' <= c <= 'Z'
    || '0' <= c <= '9'
    || c in "!#$%&'*+-.^_`|~"
  }

  /** `token = 1*tchar`. */
  predicate IsToken(s: string)
  {
    |s| > 0 && forall i :: 0 <= i < |s| ==> IsTChar(s[i])
  }

  /** A character of `OWS = *( SP / HTAB )`, RFC 9110 section 5.6.3. */
  predicate IsWs(c: char)
  {
    c == ' ' || c == '\t'
  }

  predicate IsOws(s: string)
  {
    forall i :: 0 <= i < |s| ==> IsWs(s[i])
  }

  datatype Scanner = Scanner(input: string, pos: nat)
  {
    predicate Valid()
    {
      pos <= |input|
    }
  }

  /** What a read produced (if anything) and where scanning continues. */
  datatype Read<T> = Read(value: Option<T>, next: Scanner)

  /** The end of the longest run of characters in the class starting at `i`. */
  function SpanEnd(s: string, i: nat, inClass: char -> bool): (j: nat)
    requires i <= |s|
    ensures i <= j <= |s|
    ensures forall k :: i <= k < j ==> inClass(s[k])
    ensures j == |s| || !inClass(s[j])
    decreases |s| - i
  {
    if i < |s| && inClass(s[i]) then SpanEnd(s, i + 1, inClass) else i
  }

  /**
   * Whether input remains at the cursor. At the end of input nothing more can
   * be read: no token, no separator, and no whitespace to skip.
   */
  function HasNext(sc: Scanner): (r: bool)
    requires sc.Valid()
    ensures r <==> sc.pos < |sc.input|
    ensures !r ==> ReadToken(sc).next == sc && ReadToken(sc).value.None?
    ensures !r ==> ReadChar(sc, ',').next == sc && SkipWs(sc) == sc
  {
    sc.pos < |sc.input|
  }

  /** Consumes the whitespace at the cursor, if any; always succeeds. */
  function SkipWs(sc: Scanner): (r: Scanner)
    requires sc.Valid()
    ensures r.Valid() && r.input == sc.input && sc.pos <= r.pos
    ensures IsOws(sc.input[sc.pos..r.pos])
    ensures r.pos == |sc.input| || !IsWs(sc.input[r.pos])
  {
    Scanner(sc.input, SpanEnd(sc.input, sc.pos, IsWs))
  }

  /**
   * Reads the longest token at the cursor. There is none exactly when the
   * character at the cursor is not a `tchar`, and then the cursor stays.
   */
  function ReadToken(sc: Scanner): (r: Read<string>)
    requires sc.Valid()
    ensures r.next.Valid() && r.next.input == sc.input
    ensures r.value.None? <==> !(sc.pos < |sc.input| && IsTChar(sc.input[sc.pos]))
    ensures r.value.None? ==> r.next == sc
    ensures r.value.Some? ==>
              && sc.pos < r.next.pos
              && r.value.value == sc.input[sc.pos..r.next.pos]
              && IsToken(r.value.value)
              && (r.next.pos == |sc.input| || !IsTChar(sc.input[r.next.pos]))
  {
    var end := SpanEnd(sc.input, sc.pos, IsTChar);
    if end == sc.pos then Read(None, sc)
    else Read(Some(sc.input[sc.pos..end]), Scanner(sc.input, end))
  }

  /** Consumes the separator `c` if it is at the cursor; otherwise the cursor stays. */
  function ReadChar(sc: Scanner, c: char): (r: Read<char>)
    requires sc.Valid()
    ensures r.next.Valid() && r.next.input == sc.input
    ensures r.value.Some? <==> sc.pos < |sc.input| && sc.input[sc.pos] == c
    ensures r.value.Some? ==> r.value.value == c && r.next.pos == sc.pos + 1
    ensures r.value.None? ==> r.next == sc
  {
    if sc.pos < |sc.input| && sc.input[sc.pos] == c
    then Read(Some(c), Scanner(sc.input, sc.pos + 1))
    else Read(None, sc)
  }
}

/** The part of JavaScript's value semantics the request handlers rely on:
    the shape of a parsed JSON or query value, truthiness, and
    `String.prototype.trim`. */
module JsValues {

  /** A value read from a parsed request body or query string. `Undefined`
      is an absent field; `Composite` is any array or object. */
  datatype Value = Undefined | Null | Bool(b: bool) | Number(n: int) | Str(s: string) | Composite

  /** JavaScript truthiness: `!v` is false exactly for these values. */
  predicate Truthy(v: Value) {
    match v
    case Undefined => false
    case Null => false
    case Bool(b) => b
    case Number(n) => n != 0
    case Str(s) => s != ""
    case Composite => true
  }

  /** The ECMAScript WhiteSpace and LineTerminator code points (tab, vertical
      tab, form feed, space, no-break space, byte order mark, the other
      Unicode space separators, and the four line terminators): what trim strips. */
  predicate IsWhitespace(c: char) {
    c == '\t' || c == '\n' || c == '\U{000B}' || c == '\U{000C}' || c == '\r'
    || c == ' ' || c == '\U{00A0}' || c == '\U{1680}'
    || ('\U{2000}' <= c <= '\U{200A}')
    || c == '\U{2028}' || c == '\U{2029}' || c == '\U{202F}' || c == '\U{205F}'
    || c == '\U{3000}' || c == '\U{FEFF}'
  }

  /** Every character of `s` is whitespace (the empty string included). */
  predicate Blank(s: string) {
    forall k | 0 <= k < |s| :: IsWhitespace(s[k])
  }

  /** Drops the leading whitespace: the result is the suffix of `s` that
      follows its longest whitespace prefix. */
  function TrimStart(s: string): (r: string)
    ensures |r| <= |s| && r == s[|s| - |r|..]
    ensures forall k | 0 <= k < |s| - |r| :: IsWhitespace(s[k])
    ensures r != [] ==> !IsWhitespace(r[0])
  {
    if s != [] && IsWhitespace(s[0]) then
      var r := TrimStart(s[1..]);
      assert forall k | 1 <= k < |s| :: s[1..][k - 1] == s[k];
      r
    else
      s
  }

  /** Drops the trailing whitespace: the result is the prefix of `s` that
      precedes its longest whitespace suffix. */
  function TrimEnd(s: string): (r: string)
    ensures |r| <= |s| && r == s[..|r|]
    ensures forall k | |r| <= k < |s| :: IsWhitespace(s[k])
    ensures r != [] ==> !IsWhitespace(r[|r| - 1])
  {
    if s != [] && IsWhitespace(s[|s| - 1]) then
      var r := TrimEnd(s[..|s| - 1]);
      assert forall k | 0 <= k < |s| - 1 :: s[..|s| - 1][k] == s[k];
      r
    else
      s
  }

  /** `String.prototype.trim`: leading and then trailing whitespace dropped.
      The result neither starts nor ends with whitespace, and it is empty
      exactly when `s` is blank. */
  function Trim(s: string): (r: string)
    ensures |r| <= |s|
    ensures r == [] <==> Blank(s)
    ensures r != [] ==> !IsWhitespace(r[0]) && !IsWhitespace(r[|r| - 1])
  {
    TrimEmptyIffBlank(s);
    TrimEnd(TrimStart(s))
  }

  lemma {:induction false} TrimEmptyIffBlank(s: string)
    ensures TrimEnd(TrimStart(s)) == [] <==> Blank(s)
    ensures TrimEnd(TrimStart(s)) != [] ==> !IsWhitespace(TrimEnd(TrimStart(s))[0])
  {
    var t := TrimStart(s);
    var r := TrimEnd(t);
    var i := |s| - |t|;
    if t != [] {
      assert t[0] == s[i] && !IsWhitespace(t[0]);
      assert r != [] && r[0] == t[0];
    }
  }

  lemma {:induction false} TrimIdempotent(s: string)
    ensures Trim(Trim(s)) == Trim(s)
  {
    var r := Trim(s);
    if r != [] {
      assert TrimStart(r) == r;
      assert TrimEnd(r) == r;
    }
  }
}

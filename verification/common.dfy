/** Building blocks shared by every part of the model: Rust's `Option`,
    `str::starts_with`, and `str::trim` over `seq<char>`. */
module Common {

  /** Rust's `Option<T>`. */
  datatype Option<+T> = None | Some(value: T) {

    /** `Option::unwrap_or` (and `unwrap_or_default` with the default spelled out) */
    function UnwrapOr(default: T): T {
      match this
      case Some(v) => v
      case None => default
    }

    /** `Option::or_else`: this value when present, otherwise `other` */
    function OrElse(other: Option<T>): Option<T> {
      if Some? then this else other
    }
  }

  /** `str::starts_with` */
  predicate StartsWith(s: string, prefix: string) {
    |prefix| <= |s| && s[..|prefix|] == prefix
  }

  /** Rust's `char::is_whitespace`: the characters with the Unicode
      White_Space property. */
  predicate IsWhitespace(c: char) {
    || ('\t' <= c <= '\r')
    || c == ' '
    || c == '\U{85}'
    || c == '\U{A0}'
    || c == '\U{1680}'
    || ('\U{2000}' <= c <= '\U{200A}')
    || c == '\U{2028}'
    || c == '\U{2029}'
    || c == '\U{202F}'
    || c == '\U{205F}'
    || c == '\U{3000}'
  }

  /** `str::trim_start`: drops the leading whitespace, and only that. */
  function TrimStart(s: string): (r: string)
    ensures |r| <= |s| && r == s[|s| - |r|..]
    ensures forall i :: 0 <= i < |s| - |r| ==> IsWhitespace(s[i])
    ensures r == [] || !IsWhitespace(r[0])
  {
    if s != [] && IsWhitespace(s[0]) then TrimStart(s[1..]) else s
  }

  /** `str::trim_end`: drops the trailing whitespace, and only that. */
  function TrimEnd(s: string): (r: string)
    ensures |r| <= |s| && r == s[..|r|]
    ensures forall i :: |r| <= i < |s| ==> IsWhitespace(s[i])
    ensures r == [] || !IsWhitespace(r[|r| - 1])
  {
    if s != [] && IsWhitespace(s[|s| - 1]) then TrimEnd(s[..|s| - 1]) else s
  }

  /** `r` is `s[k..k + |r|]`, everything of `s` outside that slice is
      whitespace, and `r` neither starts nor ends with whitespace. */
  ghost predicate TrimmedAt(s: string, r: string, k: int) {
    && 0 <= k && k + |r| <= |s|
    && r == s[k..k + |r|]
    && (forall i :: 0 <= i < k ==> IsWhitespace(s[i]))
    && (forall i :: k + |r| <= i < |s| ==> IsWhitespace(s[i]))
    && (r == [] || (!IsWhitespace(r[0]) && !IsWhitespace(r[|r| - 1])))
  }

  /** `str::trim`: a slice of `s`; `TrimSlice` says which. */
  function Trim(s: string): (r: string)
    ensures |r| <= |s|
  {
    TrimEnd(TrimStart(s))
  }

  /** `trim` drops the leading and trailing whitespace, and only that. */
  lemma TrimSlice(s: string)
    ensures exists k :: TrimmedAt(s, Trim(s), k)
  {
    var t := TrimStart(s);
    assert Trim(s) == TrimEnd(t);
    assert TrimmedAt(s, Trim(s), |s| - |t|);
  }

  /** A trimmed slice is empty exactly when the whole string is whitespace. */
  lemma TrimmedBlank(s: string, r: string, k: int)
    requires TrimmedAt(s, r, k)
    ensures r == [] <==> forall i :: 0 <= i < |s| ==> IsWhitespace(s[i])
  {
    if r != [] {
      assert s[k] == r[0];
    }
  }

  /** The trimmed form of a string is unique: any slice that satisfies the
      trimming conditions is the one `Trim` returns. */
  lemma TrimUnique(s: string, r: string, k: int)
    requires TrimmedAt(s, r, k)
    ensures r == Trim(s)
  {
    var t := Trim(s);
    TrimSlice(s);
    var k' :| TrimmedAt(s, t, k');
    TrimmedBlank(s, r, k);
    TrimmedBlank(s, t, k');
    if r == [] || t == [] {
    } else {
      // first and last characters are the first and last non-whitespace of `s`
      assert s[k] == r[0] && s[k'] == t[0];
      assert k == k';
      assert s[k + |r| - 1] == r[|r| - 1] && s[k' + |t| - 1] == t[|t| - 1];
      assert |r| == |t|;
    }
  }

  /** A string that neither starts nor ends with whitespace is its own trim. */
  lemma TrimUnpadded(s: string)
    requires s == [] || (!IsWhitespace(s[0]) && !IsWhitespace(s[|s| - 1]))
    ensures Trim(s) == s
  {
    assert s[0..|s|] == s;
    TrimUnique(s, s, 0);
  }

  /** Trimming twice is trimming once. */
  lemma TrimIdempotent(s: string)
    ensures Trim(Trim(s)) == Trim(s)
  {
    var t := Trim(s);
    TrimSlice(s);
    var k :| TrimmedAt(s, t, k);
    assert t[0..|t|] == t;
    TrimUnique(t, t, 0);
  }
}

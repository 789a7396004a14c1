/** The handful of Python string operations the core relies on: `str.strip()`, the
    substring test `sub in s`, `str.split(sep)` and `sep.join(parts)`. Strings are
    sequences of code points; there is no normalisation or case folding. */
module Text {

  import opened Base

  /** Python's `str.isspace()` for a single code point: the characters `str.strip()`
      removes when it is called without arguments. */
  predicate IsSpace(c: char)
  {
    || '\U{0009}' <= c <= '\U{000D}'
    || '\U{001C}' <= c <= '\U{0020}'
    || c == '\U{0085}' || c == '\U{00A0}' || c == '\U{1680}'
    || '\U{2000}' <= c <= '\U{200A}'
    || c == '\U{2028}' || c == '\U{2029}' || c == '\U{202F}' || c == '\U{205F}' || c == '\U{3000}'
  }

  predicate AllSpace(s: string)
  {
    forall i :: 0 <= i < |s| ==> IsSpace(s[i])
  }

  /** `str.lstrip()`: drops the leading white space and nothing else. */
  function TrimLeft(s: string): (r: string)
    ensures |r| <= |s| && r == s[|s| - |r|..]
    ensures AllSpace(s[..|s| - |r|])
    ensures r == [] || !IsSpace(r[0])
  {
    if s != [] && IsSpace(s[0]) then TrimLeft(s[1..]) else s
  }

  /** `str.rstrip()`: drops the trailing white space and nothing else. */
  function TrimRight(s: string): (r: string)
    ensures |r| <= |s| && r == s[..|r|]
    ensures AllSpace(s[|r|..])
    ensures r == [] || !IsSpace(r[|r| - 1])
  {
    if s != [] && IsSpace(s[|s| - 1]) then
      assert s[|TrimRight(s[..|s| - 1])|..] == s[..|s| - 1][|TrimRight(s[..|s| - 1])|..] + [s[|s| - 1]];
      TrimRight(s[..|s| - 1])
    else s
  }

  /** `str.strip()`: the result is a slice `s[i..j]` of the input with white space on
      both sides of it in `s` and none at either end of it. */
  function Strip(s: string): (r: string)
    ensures |r| <= |s|
    ensures exists i :: 0 <= i <= |s| - |r| && r == s[i..i + |r|] && AllSpace(s[..i]) && AllSpace(s[i + |r|..])
    ensures r == [] || (!IsSpace(r[0]) && !IsSpace(r[|r| - 1]))
  {
    var l := TrimLeft(s);
    var r := TrimRight(l);
    var i := |s| - |l|;
    assert r == s[i..i + |r|];
    assert s[i + |r|..] == l[|r|..];
    r
  }

  /** Stripping twice is the same as stripping once. */
  lemma {:induction false} StripIdempotent(s: string)
    ensures Strip(Strip(s)) == Strip(s)
  {
    var r := Strip(s);
    assert TrimLeft(r) == r;
    assert TrimRight(r) == r;
  }

  /** Python's substring test `sub in s`. */
  function Contains(s: string, sub: string): (b: bool)
    ensures b <==> exists i :: 0 <= i <= |s| - |sub| && sub <= s[i..]
    decreases |s|
  {
    if sub <= s then assert s[0..] == s; true
    else if s == [] then false
    else
      var b := Contains(s[1..], sub);
      assert forall i :: 1 <= i <= |s| ==> s[i..] == s[1..][i - 1..];
      b
  }

  /** `s.split(sep)` for a one-character separator: the pieces between the separators,
      empty ones included, so an empty string splits into one empty piece. */
  function Split(s: string, sep: char): (parts: seq<string>)
    ensures |parts| >= 1
    ensures forall k :: 0 <= k < |parts| ==> sep !in parts[k]
    decreases |s|
  {
    match IndexOf(s, sep)
    case None => [s]
    case Some(k) => [s[..k]] + Split(s[k + 1..], sep)
  }

  /** `sep.join(parts)` for a one-character separator. */
  function Join(parts: seq<string>, sep: char): string
  {
    if parts == [] then ""
    else if |parts| == 1 then parts[0]
    else parts[0] + [sep] + Join(parts[1..], sep)
  }

  /** Splitting and joining on the same separator gives the string back. */
  lemma {:induction false} JoinSplit(s: string, sep: char)
    ensures Join(Split(s, sep), sep) == s
    decreases |s|
  {
    match IndexOf(s, sep)
    case None =>
    case Some(k) =>
      var rest := s[k + 1..];
      var parts := Split(s, sep);
      assert parts == [s[..k]] + Split(rest, sep);
      assert |parts| >= 2 && parts[1..] == Split(rest, sep);
      JoinSplit(rest, sep);
      assert Join(parts, sep) == s[..k] + [sep] + rest;
      assert s == s[..k] + [sep] + rest;
  }

  /** Appending `sep` and a piece free of `sep` adds exactly that piece to the split. */
  lemma {:induction false} SplitAppend(s: string, sep: char, piece: string)
    requires sep !in piece
    ensures Split(s + [sep] + piece, sep) == Split(s, sep) + [piece]
    decreases |s|
  {
    var t := s + [sep] + piece;
    match IndexOf(s, sep)
    case None =>
      assert t[..|s|] == s;
      IndexOfIs(t, sep, |s|);
      assert t[|s| + 1..] == piece;
      assert IndexOf(piece, sep).None?;
      assert Split(t, sep) == [s] + [piece];
      assert Split(s, sep) == [s];
    case Some(k) =>
      assert t[..k] == s[..k] && t[k] == s[k];
      IndexOfIs(t, sep, k);
      assert t[k + 1..] == s[k + 1..] + [sep] + piece;
      SplitAppend(s[k + 1..], sep, piece);
      assert Split(t, sep) == [s[..k]] + (Split(s[k + 1..], sep) + [piece]);
      assert [s[..k]] + (Split(s[k + 1..], sep) + [piece]) == ([s[..k]] + Split(s[k + 1..], sep)) + [piece];
      assert Split(s, sep) == [s[..k]] + Split(s[k + 1..], sep);
  }
}

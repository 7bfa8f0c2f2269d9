/**
 * The handful of JavaScript string operations the screens rely on, written out over
 * `seq<char>`: `trim`, the `\s` class, ASCII `toLowerCase`, `includes`, `substring`,
 * `slice(-n)` and the character classes used by the regular expressions.
 */
module JsText {
  import opened Options

  type String = seq<char>

  /** ECMAScript WhiteSpace and LineTerminator code points: the set `\s` matches and `trim` strips. */
  predicate IsSpace(c: char) {
    || c == '\t' || c == '\n' || c == '\U{000B}' || c == '\U{000C}' || c == '\r'
    || c == ' ' || c == '\U{00A0}' || c == '\U{1680}'
    || ('\U{2000}' <= c <= '\U{200A}')
    || c == '\U{2028}' || c == '\U{2029}' || c == '\U{202F}' || c == '\U{205F}'
    || c == '\U{3000}' || c == '\U{FEFF}'
  }

  /** `\d` */
  predicate IsDigit(c: char) { '0' <= c <= '9' }

  /** `[a-z]` */
  predicate IsLower(c: char) { 'a' <= c <= 'z' }

  /** `[A-Z]` */
  predicate IsUpper(c: char) { 'A' <= c <= 'Z' }

  /** `[A-Za-z]` */
  predicate IsLetter(c: char) { IsLower(c) || IsUpper(c) }

  /** Every character of `s` satisfies `p`. */
  predicate AllChars(s: String, p: char -> bool) {
    forall i :: 0 <= i < |s| ==> p(s[i])
  }

  /** Some character of `s` satisfies `p`: the `(?=.*[...])` look-ahead. */
  predicate AnyChar(s: String, p: char -> bool) {
    exists i :: 0 <= i < |s| && p(s[i])
  }

  /** `s` with its leading whitespace removed (`trimStart`). */
  function TrimStart(s: String): (r: String)
    ensures |r| <= |s| && r == s[|s| - |r|..]
    ensures forall i :: 0 <= i < |s| - |r| ==> IsSpace(s[i])
    ensures r != [] ==> !IsSpace(r[0])
  {
    if s != [] && IsSpace(s[0]) then TrimStart(s[1..]) else s
  }

  /** `s` with its trailing whitespace removed (`trimEnd`). */
  function TrimEnd(s: String): (r: String)
    ensures |r| <= |s| && r == s[..|r|]
    ensures forall i :: |r| <= i < |s| ==> IsSpace(s[i])
    ensures r != [] ==> !IsSpace(r[|r| - 1])
  {
    if s != [] && IsSpace(s[|s| - 1]) then TrimEnd(s[..|s| - 1]) else s
  }

  /** `r` is the slice of `s` starting at `a`, and only whitespace lies around it. */
  ghost predicate SlicedFrom(s: String, r: String, a: int) {
    && 0 <= a <= |s| - |r| && r == s[a..a + |r|]
    && (forall i :: 0 <= i < a ==> IsSpace(s[i]))
    && (forall i :: a + |r| <= i < |s| ==> IsSpace(s[i]))
  }

  /** `s.trim()`: the longest middle slice of `s` that starts and ends with a non-space. */
  function Trim(s: String): (r: String)
    ensures exists a :: SlicedFrom(s, r, a)
    ensures r != [] ==> !IsSpace(r[0]) && !IsSpace(r[|r| - 1])
  {
    var t := TrimStart(s);
    var r := TrimEnd(t);
    assert SlicedFrom(s, r, |s| - |t|);
    r
  }

  /** JavaScript's `s || fallback` on text: the empty string is falsy. */
  function OrElse(s: String, fallback: String): String {
    if s != [] then s else fallback
  }

  /** JavaScript's `!s.trim()`: the text is empty or whitespace only. */
  predicate IsBlank(s: String) {
    Trim(s) == []
  }

  lemma {:induction false} BlankIffAllSpace(s: String)
    ensures IsBlank(s) <==> forall i :: 0 <= i < |s| ==> IsSpace(s[i])
  {
    var r := Trim(s);
    var a :| SlicedFrom(s, r, a);
    if r != [] {
      assert s[a] == r[0];
    }
  }

  /** Text without whitespace is its own trim. */
  lemma TrimWithoutSpace(s: String)
    requires forall i :: 0 <= i < |s| ==> !IsSpace(s[i])
    ensures Trim(s) == s
  {
    var r := Trim(s);
    var a :| SlicedFrom(s, r, a);
    assert a == 0 && |r| == |s|;
  }

  /** ASCII `toLowerCase` of one character. */
  function LowerChar(c: char): char {
    if IsUpper(c) then (c as int + 32) as char else c
  }

  /** `s.toLowerCase()`, restricted to the ASCII letters. */
  function ToLower(s: String): (r: String)
    ensures |r| == |s|
    ensures forall i :: 0 <= i < |s| ==> r[i] == LowerChar(s[i])
  {
    seq(|s|, i requires 0 <= i < |s| => LowerChar(s[i]))
  }

  lemma LowerIdempotent(s: String)
    ensures ToLower(ToLower(s)) == ToLower(s)
  {
  }

  /** The occurrence relation behind `includes`. */
  predicate OccursAt(s: String, t: String, i: int) {
    0 <= i && i + |t| <= |s| && s[i..i + |t|] == t
  }

  /** `s.includes(t)`. */
  function Includes(s: String, t: String): (r: bool)
    ensures r <==> exists i :: OccursAt(s, t, i)
    decreases |s|
  {
    if |t| <= |s| && s[..|t|] == t then
      assert OccursAt(s, t, 0);
      true
    else if s == [] then
      false
    else
      var r := Includes(s[1..], t);
      if r then
        assert exists i :: OccursAt(s, t, i) by {
          var i :| OccursAt(s[1..], t, i);
          assert s[i + 1..i + 1 + |t|] == s[1..][i..i + |t|];
          assert OccursAt(s, t, i + 1);
        }
        true
      else
        assert forall i :: OccursAt(s, t, i) ==> i > 0 && OccursAt(s[1..], t, i - 1) by {
          forall i | OccursAt(s, t, i)
            ensures i > 0 && OccursAt(s[1..], t, i - 1)
          {
            if i == 0 {
              assert false;
            }
            assert s[1..][i - 1..i - 1 + |t|] == s[i..i + |t|];
          }
        }
        false
  }

  lemma EmptyIsIncluded(s: String)
    ensures Includes(s, [])
  {
    assert OccursAt(s, [], 0);
  }

  /** A one-character search is a membership test. */
  lemma IncludesChar(s: String, c: char)
    ensures Includes(s, [c]) <==> c in s
  {
    if c in s {
      var i :| 0 <= i < |s| && s[i] == c;
      assert OccursAt(s, [c], i);
    }
    if Includes(s, [c]) {
      var i :| OccursAt(s, [c], i);
      assert s[i] == s[i..i + 1][0];
    }
  }

  /** Whatever contains `t` contains every piece of `t`. */
  lemma IncludesPiece(s: String, t: String, a: nat, b: nat)
    requires a <= b <= |t| && Includes(s, t)
    ensures Includes(s, t[a..b])
  {
    var i :| OccursAt(s, t, i);
    assert s[i..i + |t|] == t;
    assert forall k :: 0 <= k < b - a ==> s[i + a..i + b][k] == s[i..i + |t|][a + k] == t[a..b][k];
    assert OccursAt(s, t[a..b], i + a);
  }

  /** The index of the first `c` in `s` (`indexOf`), if any. */
  function IndexOf(s: String, c: char): (r: Option<nat>)
    ensures r.None? <==> c !in s
    ensures r.Some? ==> r.value < |s| && s[r.value] == c && c !in s[..r.value]
  {
    if s == [] then None
    else if s[0] == c then Some(0)
    else match IndexOf(s[1..], c)
      case None => None
      case Some(i) =>
        assert s[..i + 1] == [s[0]] + s[1..][..i];
        Some(i + 1)
  }

  /** The first occurrence is the one with no earlier occurrence. */
  lemma IndexOfIsFirst(s: String, c: char, k: nat)
    requires k < |s| && s[k] == c && c !in s[..k]
    ensures IndexOf(s, c) == Some(k)
  {
  }

  /** `s.substring(0, n)` for `n >= 0`. */
  function Prefix(s: String, n: nat): (r: String)
    ensures |r| == if n <= |s| then n else |s|
    ensures r == s[..|r|]
  {
    if n <= |s| then s[..n] else s
  }

  /** `s.slice(-n)` for `n > 0`: the last `n` characters, or all of `s` when it is shorter. */
  function Suffix(s: String, n: nat): (r: String)
    ensures |r| == if n <= |s| then n else |s|
    ensures r == s[|s| - |r|..]
  {
    if n <= |s| then s[|s| - n..] else s
  }
}

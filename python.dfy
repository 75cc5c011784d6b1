/**
 * The parts of Python's runtime that the chat assistant's code relies on:
 * the values its JSON records hold, the exceptions it can raise, slicing,
 * the `in` test on strings, and the ASCII behaviour of `str.lower`,
 * `str.capitalize` and the regular-expression classes `\s` and `\w`.
 */
module Python {

  datatype Option<T> = None | Some(value: T)

  /** An exception raised by the modelled code. */
  datatype Error =
    | KeyError(key: string)           // d[key] on a dict that lacks key
    | AttributeError(key: string)     // a str method called on the None read from key
    | TypeError                       // cls(**data) with a missing or an unexpected key
    | ValueError(message: string)     // raise ValueError(message)
    | RuntimeError(message: string)   // raise RuntimeError(message)

  /** The outcome of a call that may raise. */
  datatype Result<T> = Ok(value: T) | Err(error: Error)

  /** A value held under a key of a stored record: a string or None. */
  datatype Value = Str(s: string) | Null

  /** A dict as the services keep it and as the JSON files hold it. */
  type Record = map<string, Value>

  function Min(a: int, b: int): int { if a <= b then a else b }

  /** How Python clamps a slice bound `i` against a sequence of length `n`. */
  function SliceIndex(i: int, n: nat): (k: nat)
    ensures k <= n
    ensures 0 <= i ==> k == Min(i, n)
    ensures i < 0 ==> k == n - Min(-i, n)
  {
    if i < 0 then (if n + i < 0 then 0 else n + i)
    else if i > n then n
    else i
  }

  /**
   * `s[i:]`: a suffix of `s`. A bound from 0 drops that many items; a
   * negative bound keeps that many from the end, or all of `s` when it has fewer.
   */
  function SliceFrom<T>(s: seq<T>, i: int): (r: seq<T>)
    ensures |r| <= |s| && r == s[|s| - |r|..]
    ensures 0 <= i ==> |r| == |s| - Min(i, |s|)
    ensures i < 0 ==> |r| == Min(-i, |s|)
  {
    s[SliceIndex(i, |s|)..]
  }

  /**
   * `s[:j]`: a prefix of `s`. A bound from 0 keeps that many items, or all of
   * `s` when it has fewer; a negative bound drops that many from the end.
   */
  function SliceTo<T>(s: seq<T>, j: int): (r: seq<T>)
    ensures |r| <= |s| && r == s[..|r|]
    ensures 0 <= j ==> |r| == Min(j, |s|)
    ensures j < 0 ==> |r| == |s| - Min(-j, |s|)
  {
    s[..SliceIndex(j, |s|)]
  }

  /** `haystack` contains `needle` at position `i`. */
  predicate OccursAt(haystack: string, needle: string, i: nat)
  {
    i + |needle| <= |haystack| && haystack[i..i + |needle|] == needle
  }

  /**
   * `needle in haystack` for two strings: only a needle no longer than the
   * haystack occurs, and a prefix of the haystack (the empty string included)
   * always does.
   */
  predicate Contains(haystack: string, needle: string): (found: bool)
    ensures found ==> |needle| <= |haystack|
    ensures |needle| <= |haystack| && haystack[..|needle|] == needle ==> found
  {
    assert |needle| <= |haystack| && haystack[..|needle|] == needle ==> OccursAt(haystack, needle, 0);
    exists i: nat | i <= |haystack| :: OccursAt(haystack, needle, i)
  }

  lemma {:induction false} ContainsEmpty(haystack: string)
    ensures Contains(haystack, "")
  {
    assert OccursAt(haystack, "", 0);
  }

  function LowerChar(c: char): char
  {
    if 'A' <= c <= 'Z' then (c as int - 'A' as int + 'a' as int) as char else c
  }

  function UpperChar(c: char): char
  {
    if 'a' <= c <= 'z' then (c as int - 'a' as int + 'A' as int) as char else c
  }

  /** `s.lower()` */
  function Lower(s: string): (r: string)
    ensures |r| == |s|
    ensures forall i :: 0 <= i < |s| ==> r[i] == LowerChar(s[i])
  {
    seq(|s|, i requires 0 <= i < |s| => LowerChar(s[i]))
  }

  /** `s.capitalize()`: the first character upper-cased, the rest lower-cased. */
  function Capitalize(s: string): (r: string)
    ensures |r| == |s|
    ensures s != [] ==> !('a' <= r[0] <= 'z') && IsLowerCase(r[1..])
  {
    if s == [] then [] else [UpperChar(s[0])] + Lower(s[1..])
  }

  /** No character of `s` is an upper-case letter. */
  predicate IsLowerCase(s: string)
  {
    forall i :: 0 <= i < |s| ==> !('A' <= s[i] <= 'Z')
  }

  /** `c.isspace()`, and the regex class `\s`, on ASCII: \t \n \v \f \r, \x1c-\x1f and the space. */
  predicate IsSpace(c: char)
  {
    c == ' ' || '\t' <= c <= '\r' || 28 <= c as int <= 31
  }

  /** The regex class `\w` on ASCII: letters, digits and the underscore. */
  predicate IsWordChar(c: char)
  {
    'a' <= c <= 'z' || 'A' <= c <= 'Z' || '0' <= c <= '9' || c == '_'
  }
}

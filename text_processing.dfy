/**
 * The text utilities (utils/text_processing.py): whitespace normalisation,
 * truncation with an ellipsis, and frequency-ranked keyword extraction.
 */
module TextProcessing {
  import opened Python

  // ---------------------------------------------------------------------
  // Runs of characters: `text.split()` and `re.findall(r'\b\w+\b', text)`
  // ---------------------------------------------------------------------

  /** The maximal runs of consecutive characters satisfying `p`, left to right. */
  function Runs(s: string, p: char -> bool): (rs: seq<string>)
    ensures forall w :: w in rs ==> w != []
    ensures forall w, c :: w in rs && c in w ==> p(c) && c in s
    ensures s != [] && p(s[|s| - 1]) ==> rs != []
    decreases |s|
  {
    if s == [] then []
    else
      var init := s[..|s| - 1];
      var rs := Runs(init, p);
      var c := s[|s| - 1];
      assert forall x :: x in init ==> x in s;
      if !p(c) then rs
      else if init != [] && p(init[|init| - 1]) then
        var front, last := rs[..|rs| - 1], rs[|rs| - 1] + [c];
        assert forall w :: w in front ==> w in rs;
        assert forall w :: w in front + [last] ==> w in front || w == last;
        front + [last]
      else rs + [[c]]
  }

  /** A string with no run of `p` characters holds none. */
  lemma {:induction false} RunsNone(s: string, p: char -> bool)
    requires Runs(s, p) == []
    ensures forall i :: 0 <= i < |s| ==> !p(s[i])
    decreases |s|
  {
    if s != [] {
      RunsNone(s[..|s| - 1], p);
    }
  }

  predicate NotSpace(c: char) { !IsSpace(c) }

  /** `s.split()`: the words of `s`, i.e. its maximal runs of non-whitespace. */
  function SplitWords(s: string): seq<string>
  {
    Runs(s, NotSpace)
  }

  /** `' '.join(words)` */
  function JoinSpaces(words: seq<string>): string
  {
    if words == [] then ""
    else if |words| == 1 then words[0]
    else JoinSpaces(words[..|words| - 1]) + " " + words[|words| - 1]
  }

  // ---------------------------------------------------------------------
  // clean_text
  // ---------------------------------------------------------------------

  /** `re.sub(r'\s+', ' ', s)`: each maximal run of whitespace becomes one space. */
  function CollapseSpaces(s: string): (r: string)
    ensures |r| <= |s|
    ensures r == [] <==> s == []
    decreases |s|
  {
    if s == [] then []
    else
      var init := s[..|s| - 1];
      var c := s[|s| - 1];
      if !IsSpace(c) then CollapseSpaces(init) + [c]
      else if init != [] && IsSpace(init[|init| - 1]) then CollapseSpaces(init)
      else CollapseSpaces(init) + [' ']
  }

  /** `s.lstrip()` */
  function StripStart(s: string): string
  {
    if s != [] && IsSpace(s[0]) then StripStart(s[1..]) else s
  }

  /** `s.rstrip()` */
  function StripEnd(s: string): string
  {
    if s != [] && IsSpace(s[|s| - 1]) then StripEnd(s[..|s| - 1]) else s
  }

  /** `lstrip` drops a prefix and leaves no whitespace in front. */
  lemma {:induction false} StripStartShape(s: string)
    ensures |StripStart(s)| <= |s| && StripStart(s) == s[|s| - |StripStart(s)|..]
    ensures StripStart(s) == [] || NotSpace(StripStart(s)[0])
    decreases |s|
  {
    if s != [] && IsSpace(s[0]) {
      StripStartShape(s[1..]);
    }
  }

  /** `rstrip` drops a suffix and leaves no whitespace at the back. */
  lemma {:induction false} StripEndShape(s: string)
    ensures |StripEnd(s)| <= |s| && StripEnd(s) == s[..|StripEnd(s)|]
    ensures StripEnd(s) == [] || NotSpace(StripEnd(s)[|StripEnd(s)| - 1])
    decreases |s|
  {
    if s != [] && IsSpace(s[|s| - 1]) {
      StripEndShape(s[..|s| - 1]);
    }
  }

  /** `s.strip()` */
  function Strip(s: string): (r: string)
    ensures |r| <= |s|
    ensures r == [] || (NotSpace(r[0]) && NotSpace(r[|r| - 1]))
  {
    StripStartShape(s);
    StripEndShape(StripStart(s));
    StripEnd(StripStart(s))
  }

  /** `clean_text` */
  function CleanText(text: string): (r: string)
    ensures |r| <= |text|
    ensures r == [] || (NotSpace(r[0]) && NotSpace(r[|r| - 1]))
  {
    Strip(CollapseSpaces(text))
  }

  /** Every whitespace character is a plain space and no two of them are adjacent. */
  predicate SingleSpaced(s: string)
  {
    && (forall i :: 0 <= i < |s| && IsSpace(s[i]) ==> s[i] == ' ')
    && (forall i :: 0 <= i < |s| - 1 ==> !(IsSpace(s[i]) && IsSpace(s[i + 1])))
  }

  /** The normal form clean_text produces: single-spaced, with no whitespace at either end. */
  predicate IsClean(s: string)
  {
    SingleSpaced(s) && (s != [] ==> NotSpace(s[0]) && NotSpace(s[|s| - 1]))
  }

  /** The space clean_text's substitution leaves at the front of `s`, if any. */
  function Lead(s: string): string
  {
    if s != [] && IsSpace(s[0]) then " " else ""
  }

  /** The space clean_text's substitution leaves at the back of `s`, if any. */
  function Trail(s: string): string
  {
    if s != [] && IsSpace(s[|s| - 1]) then " " else ""
  }

  lemma {:induction false} JoinAppend(words: seq<string>, w: string)
    ensures JoinSpaces(words + [w]) == if words == [] then w else JoinSpaces(words) + " " + w
  {
    assert (words + [w])[..|words|] == words;
  }

  lemma {:induction false} JoinExtendLast(words: seq<string>, c: char)
    requires words != []
    ensures JoinSpaces(words[..|words| - 1] + [words[|words| - 1] + [c]]) == JoinSpaces(words) + [c]
  {
    var n := |words|;
    var x := words[..n - 1] + [words[n - 1] + [c]];
    assert x[..n - 1] == words[..n - 1];
  }

  /**
   * After the substitution, a string is its words joined by single spaces,
   * with one space in front if it began with whitespace and one at the back
   * if it ended with whitespace (a string of whitespace only becomes " ").
   */
  predicate CollapsedShape(s: string)
  {
    if SplitWords(s) == [] then CollapseSpaces(s) == (if s == [] then "" else " ")
    else CollapseSpaces(s) == Lead(s) + JoinSpaces(SplitWords(s)) + Trail(s)
  }

  lemma {:induction false} CollapseShape(s: string)
    ensures CollapsedShape(s)
    decreases |s|
  {
    if |s| == 1 {
      assert s[..0] == [];
      assert Runs(s[..0], NotSpace) == [];
      if NotSpace(s[0]) {
        assert [s[0]] == s;
        assert SplitWords(s) == [[s[0]]];
      }
    } else if s != [] {
      var init := s[..|s| - 1];
      CollapseShape(init);
      if IsSpace(s[|s| - 1]) {
        CollapseShapeSpace(s);
      } else if NotSpace(init[|init| - 1]) {
        CollapseShapeExtend(s);
      } else {
        CollapseShapeStart(s);
      }
    }
  }

  /** The step of CollapseShape for a string that ends in whitespace. */
  lemma {:induction false} CollapseShapeSpace(s: string)
    requires |s| > 1 && IsSpace(s[|s| - 1]) && CollapsedShape(s[..|s| - 1])
    ensures CollapsedShape(s)
  {
    var init := s[..|s| - 1];
    var ws := SplitWords(init);
    assert SplitWords(s) == ws;
    assert Lead(s) == Lead(init);
    if ws == [] {
      RunsNone(init, NotSpace);
      assert IsSpace(init[|init| - 1]);
    } else if IsSpace(init[|init| - 1]) {
      assert CollapseSpaces(s) == CollapseSpaces(init);
    } else {
      assert CollapseSpaces(s) == CollapseSpaces(init) + " ";
    }
  }

  /** The step of CollapseShape for a character that extends the last word. */
  lemma {:induction false} CollapseShapeExtend(s: string)
    requires |s| > 1 && NotSpace(s[|s| - 1]) && NotSpace(s[|s| - 2]) && CollapsedShape(s[..|s| - 1])
    ensures CollapsedShape(s)
  {
    var init := s[..|s| - 1];
    var c := s[|s| - 1];
    var ws := SplitWords(init);
    assert init[|init| - 1] == s[|s| - 2];
    assert ws != [];
    assert SplitWords(s) == ws[..|ws| - 1] + [ws[|ws| - 1] + [c]];
    JoinExtendLast(ws, c);
    assert Lead(s) == Lead(init);
    assert CollapseSpaces(s) == CollapseSpaces(init) + [c];
  }

  /** The step of CollapseShape for a character that starts a new word after whitespace. */
  lemma {:induction false} CollapseShapeStart(s: string)
    requires |s| > 1 && NotSpace(s[|s| - 1]) && IsSpace(s[|s| - 2]) && CollapsedShape(s[..|s| - 1])
    ensures CollapsedShape(s)
  {
    var init := s[..|s| - 1];
    var c := s[|s| - 1];
    var ws := SplitWords(init);
    StartStep(s);
    if ws == [] {
      assert IsSpace(init[0]) by {
        RunsNone(init, NotSpace);
      }
      assert JoinSpaces([[c]]) == [c];
    } else {
      JoinAppend(ws, [c]);
    }
  }

  /** The words and the substitution of a string whose last character starts a new word. */
  lemma {:induction false} StartStep(s: string)
    requires |s| > 1 && NotSpace(s[|s| - 1]) && IsSpace(s[|s| - 2])
    ensures SplitWords(s) == SplitWords(s[..|s| - 1]) + [[s[|s| - 1]]]
    ensures CollapseSpaces(s) == CollapseSpaces(s[..|s| - 1]) + [s[|s| - 1]]
    ensures Lead(s) == Lead(s[..|s| - 1]) && Trail(s) == "" && Trail(s[..|s| - 1]) == " "
  {
    var init := s[..|s| - 1];
    assert init[|init| - 1] == s[|s| - 2];
  }

  /** Joining words that are non-empty and free of whitespace gives a clean string. */
  lemma {:induction false} JoinClean(words: seq<string>)
    requires forall w :: w in words ==> w != [] && forall c :: c in w ==> NotSpace(c)
    ensures IsClean(JoinSpaces(words))
    ensures words != [] ==> JoinSpaces(words) != []
    decreases |words|
  {
    if |words| > 1 {
      var init := words[..|words| - 1];
      var last := words[|words| - 1];
      assert forall w :: w in init ==> w in words;
      JoinClean(init);
      var a := JoinSpaces(init);
      var j := a + " " + last;
      assert last in words;
      forall i | |a| < i < |j|
        ensures NotSpace(j[i])
      {
        assert j[i] == last[i - |a| - 1];
        assert j[i] in last;
      }
      assert forall i :: 0 <= i < |a| ==> j[i] == a[i];
      assert j[|a|] == ' ';
      assert j[|j| - 1] == last[|last| - 1];
      assert j[|j| - 1] in last;
    } else if |words| == 1 {
      assert words[0] in words;
      var w := words[0];
      forall i | 0 <= i < |w|
        ensures NotSpace(w[i])
      {
        assert w[i] in w;
      }
    }
  }

  lemma {:induction false} StripStartClean(s: string)
    requires s == [] || NotSpace(s[0])
    ensures StripStart(s) == s
  {
  }

  lemma {:induction false} StripEndClean(s: string)
    requires s == [] || NotSpace(s[|s| - 1])
    ensures StripEnd(s) == s
  {
  }

  /**
   * clean_text agrees with Python's `' '.join(text.split())`: the words of
   * the text, in order, separated by single spaces.
   */
  lemma {:induction false} CleanTextIsJoinOfWords(text: string)
    ensures CleanText(text) == JoinSpaces(SplitWords(text))
  {
    CollapseShape(text);
    var ws := SplitWords(text);
    JoinClean(ws);
    if ws == [] {
      assert StripStart(" ") == StripStart("");
    } else {
      StripPadded(Lead(text), JoinSpaces(ws), Trail(text));
    }
  }

  /** Stripping a clean, non-empty string padded with at most one space on each side gives it back. */
  lemma {:induction false} StripPadded(lead: string, j: string, trail: string)
    requires lead == "" || lead == " "
    requires trail == "" || trail == " "
    requires j != [] && IsClean(j)
    ensures Strip(lead + j + trail) == j
  {
    assert lead + j + trail == lead + (j + trail);
    StripStartPadded(lead, j + trail);
    StripEndPadded(j, trail);
  }

  /** `lstrip` removes at most one leading space from text that then starts with a non-space. */
  lemma {:induction false} StripStartPadded(lead: string, rest: string)
    requires lead == "" || lead == " "
    requires rest != [] && NotSpace(rest[0])
    ensures StripStart(lead + rest) == rest
  {
    if lead == " " {
      assert (lead + rest)[1..] == rest;
    }
    StripStartClean(rest);
  }

  /** `rstrip` removes at most one trailing space from text that ends with a non-space. */
  lemma {:induction false} StripEndPadded(j: string, trail: string)
    requires trail == "" || trail == " "
    requires j != [] && NotSpace(j[|j| - 1])
    ensures StripEnd(j + trail) == j
  {
    if trail == " " {
      assert (j + trail)[..|j|] == j;
    } else {
      assert j + trail == j;
    }
    StripEndClean(j);
  }

  /** clean_text output has no whitespace at either end and only single spaces inside. */
  lemma {:induction false} CleanTextIsClean(text: string)
    ensures IsClean(CleanText(text))
  {
    CleanTextIsJoinOfWords(text);
    JoinClean(SplitWords(text));
  }

  /** The substitution leaves single-spaced text as it is. */
  lemma {:induction false} CollapseSingleSpaced(s: string)
    requires SingleSpaced(s)
    ensures CollapseSpaces(s) == s
    decreases |s|
  {
    if s != [] {
      var init := s[..|s| - 1];
      assert SingleSpaced(init) by {
        forall i | 0 <= i < |init| - 1
          ensures !(IsSpace(init[i]) && IsSpace(init[i + 1]))
        {
          assert init[i] == s[i] && init[i + 1] == s[i + 1];
        }
      }
      CollapseSingleSpaced(init);
      if init != [] {
        assert init[|init| - 1] == s[|s| - 2];
      }
    }
  }

  /** clean_text is idempotent. */
  lemma {:induction false} CleanTextIdempotent(text: string)
    ensures CleanText(CleanText(text)) == CleanText(text)
  {
    var c := CleanText(text);
    CleanTextIsClean(text);
    CollapseSingleSpaced(c);
    StripStartClean(c);
    StripEndClean(c);
  }

  // ---------------------------------------------------------------------
  // truncate_text
  // ---------------------------------------------------------------------

  /**
   * `truncate_text`: text that fits is returned unchanged; longer text is cut
   * to `max_length` characters and "..." is appended. A negative limit is a
   * Python slice bound counted from the end, so it drops that many characters.
   */
  function TruncateText(text: string, maxLength: int): (r: string)
    ensures |text| <= maxLength ==> r == text
    ensures |text| > maxLength ==> |r| >= 3 && r[..|r| - 3] <= text && r[|r| - 3..] == "..."
    ensures 0 <= maxLength < |text| ==> |r| == maxLength + 3 && r[..maxLength] == text[..maxLength]
    ensures maxLength < 0 ==> r == text[..SliceIndex(maxLength, |text|)] + "..."
  {
    if |text| <= maxLength then text else SliceTo(text, maxLength) + "..."
  }

  // ---------------------------------------------------------------------
  // extract_keywords
  // ---------------------------------------------------------------------

  /** Words that are never keywords. */
  const StopWords: set<string> := {"the", "is", "at", "which", "on", "a", "an", "and", "or", "but"}

  /** `re.findall(r'\b\w+\b', s)`: the maximal runs of word characters. */
  function FindWords(s: string): (ws: seq<string>)
    ensures forall w :: w in ws ==> w != []
    ensures forall w, c :: w in ws && c in w ==> IsWordChar(c) && c in s
  {
    Runs(s, IsWordChar)
  }

  /** The filter extract_keywords applies to each word. */
  predicate IsKeyword(w: string)
  {
    w !in StopWords && |w| > 3
  }

  /** `[w for w in words if w not in stop_words and len(w) > 3]` */
  function Candidates(words: seq<string>): (ks: seq<string>)
    ensures forall w :: w in ks <==> w in words && IsKeyword(w)
  {
    if words == [] then []
    else (if IsKeyword(words[0]) then [words[0]] else []) + Candidates(words[1..])
  }

  /** The words extract_keywords counts for `text`. */
  function KeywordCandidates(text: string): (ks: seq<string>)
    ensures forall w :: w in ks <==> w in FindWords(Lower(text)) && IsKeyword(w)
  {
    Candidates(FindWords(Lower(text)))
  }

  /** How often `w` occurs in `ws`. */
  function Count(ws: seq<string>, w: string): (n: nat)
    ensures n > 0 <==> w in ws
  {
    if ws == [] then 0
    else
      var init := ws[..|ws| - 1];
      assert forall x :: x in ws <==> x in init || x == ws[|ws| - 1];
      Count(init, w) + (if ws[|ws| - 1] == w then 1 else 0)
  }

  predicate NoDuplicates<T(==)>(s: seq<T>)
  {
    forall i, j :: 0 <= i < j < |s| ==> s[i] != s[j]
  }

  /** The distinct words of `ws` in order of first occurrence: the key order of a dict filled from `ws`. */
  function Distinct(ws: seq<string>): (d: seq<string>)
    ensures forall w :: w in d <==> w in ws
    ensures NoDuplicates(d)
  {
    if ws == [] then []
    else
      var init := ws[..|ws| - 1];
      var last := ws[|ws| - 1];
      assert forall x :: x in ws <==> x in init || x == last;
      var d := Distinct(init);
      if last in init then d else d + [last]
  }

  /** `x` occurs in `s` at an earlier position than `y`. */
  ghost predicate Before<T>(s: seq<T>, x: T, y: T)
  {
    exists a, b :: 0 <= a < b < |s| && s[a] == x && s[b] == y
  }

  /** A word and its count, as in `word_freq.items()`. */
  type Item = (string, nat)

  /** `word_freq.items()` for the dict filled from `words`: each distinct word with its count, in first-occurrence order. */
  function Frequencies(words: seq<string>): (items: seq<Item>)
    ensures |items| == |Distinct(words)|
    ensures forall k :: 0 <= k < |items| ==> items[k].0 in words && items[k].1 == Count(words, items[k].0) > 0
  {
    var d := Distinct(words);
    seq(|d|, k requires 0 <= k < |d| => (d[k], Count(words, d[k])))
  }

  /** Puts `x` in front of the first element whose count is not larger than its own. */
  function InsertByCount(x: Item, ranked: seq<Item>): (r: seq<Item>)
    ensures multiset(r) == multiset(ranked) + multiset{x}
  {
    if ranked == [] || ranked[0].1 <= x.1 then [x] + ranked
    else
      assert ranked == [ranked[0]] + ranked[1..];
      [ranked[0]] + InsertByCount(x, ranked[1..])
  }

  /** `sorted(items, key=lambda x: x[1], reverse=True)`: a stable sort by count, largest first. */
  function SortByCount(items: seq<Item>): (r: seq<Item>)
    ensures multiset(r) == multiset(items)
  {
    if items == [] then []
    else
      assert items == [items[0]] + items[1..];
      InsertByCount(items[0], SortByCount(items[1..]))
  }

  /** `[word for word, _ in items]` */
  function WordsOf(items: seq<Item>): (ws: seq<string>)
    ensures |ws| == |items|
    ensures forall k :: 0 <= k < |items| ==> ws[k] == items[k].0
  {
    seq(|items|, k requires 0 <= k < |items| => items[k].0)
  }

  /** Counts never increase from left to right. */
  ghost predicate ByCountDesc(r: seq<Item>)
  {
    forall i, j :: 0 <= i < j < |r| ==> r[i].1 >= r[j].1
  }

  /** Elements with equal counts appear in the order they have in `ref`. */
  ghost predicate TiesInOrder(r: seq<Item>, ref: seq<Item>)
  {
    forall i, j :: 0 <= i < j < |r| && r[i].1 == r[j].1 ==> Before(ref, r[i], r[j])
  }

  /** The conditions under which inserting `x` into `ranked` keeps it sorted and stable. */
  ghost predicate InsertableBefore(x: Item, ranked: seq<Item>, ref: seq<Item>)
  {
    && ByCountDesc(ranked) && TiesInOrder(ranked, ref) && NoDuplicates(ranked)
    && x !in ranked
    && (forall y :: y in ranked ==> Before(ref, x, y))
  }

  /** The sorted and stable shape SortByCount produces, relative to the order of `ref`. */
  ghost predicate RankedBy(r: seq<Item>, ref: seq<Item>)
  {
    ByCountDesc(r) && TiesInOrder(r, ref) && NoDuplicates(r)
  }

  /** Placing `x` in front keeps the order when its count is at least the first one's. */
  lemma {:induction false} InsertAtFront(x: Item, ranked: seq<Item>, ref: seq<Item>)
    requires InsertableBefore(x, ranked, ref)
    requires ranked == [] || ranked[0].1 <= x.1
    ensures RankedBy([x] + ranked, ref)
  {
    var r := [x] + ranked;
    forall i, j | 0 <= i < j < |r|
      ensures r[i].1 >= r[j].1
      ensures r[i].1 == r[j].1 ==> Before(ref, r[i], r[j])
      ensures r[i] != r[j]
    {
      assert r[j] == ranked[j - 1];
      if i == 0 {
        assert ranked[j - 1] in ranked;
        assert ranked[0].1 >= ranked[j - 1].1;
      } else {
        assert r[i] == ranked[i - 1];
      }
    }
  }

  /** Keeping the first element in front keeps the order when its count is larger than x's. */
  lemma {:induction false} InsertBehind(x: Item, ranked: seq<Item>, rest: seq<Item>, ref: seq<Item>)
    requires InsertableBefore(x, ranked, ref)
    requires ranked != [] && ranked[0].1 > x.1
    requires multiset(rest) == multiset(ranked[1..]) + multiset{x}
    requires RankedBy(rest, ref)
    ensures RankedBy([ranked[0]] + rest, ref)
  {
    var r := [ranked[0]] + rest;
    var tail := ranked[1..];
    forall i, j | 0 <= i < j < |r|
      ensures r[i].1 >= r[j].1
      ensures r[i].1 == r[j].1 ==> Before(ref, r[i], r[j])
      ensures r[i] != r[j]
    {
      if i == 0 {
        var y := rest[j - 1];
        assert r[j] == y;
        assert y in multiset(rest);
        if y != x {
          assert y in multiset(tail);
          var k :| 0 <= k < |tail| && tail[k] == y;
          assert ranked[k + 1] == y;
        }
      } else {
        assert r[i] == rest[i - 1] && r[j] == rest[j - 1];
      }
    }
  }

  /** Inserting an element that comes before all others in `ref` keeps the order sorted and stable. */
  lemma {:induction false} InsertByCountOrdered(x: Item, ranked: seq<Item>, ref: seq<Item>)
    requires InsertableBefore(x, ranked, ref)
    ensures RankedBy(InsertByCount(x, ranked), ref)
    decreases |ranked|
  {
    if ranked == [] || ranked[0].1 <= x.1 {
      InsertAtFront(x, ranked, ref);
    } else {
      var tail := ranked[1..];
      assert InsertableBefore(x, tail, ref) by {
        assert forall y :: y in tail ==> y in ranked;
        forall i, j | 0 <= i < j < |tail|
          ensures tail[i].1 >= tail[j].1
          ensures tail[i].1 == tail[j].1 ==> Before(ref, tail[i], tail[j])
          ensures tail[i] != tail[j]
        {
          assert tail[i] == ranked[i + 1] && tail[j] == ranked[j + 1];
        }
      }
      InsertByCountOrdered(x, tail, ref);
      InsertBehind(x, ranked, InsertByCount(x, tail), ref);
    }
  }

  /** SortByCount orders by count, largest first, and keeps the order of `ref` among equal counts. */
  lemma {:induction false} SortByCountOrdered(items: seq<Item>, ref: seq<Item>)
    requires NoDuplicates(items)
    requires forall i, j :: 0 <= i < j < |items| ==> Before(ref, items[i], items[j])
    ensures RankedBy(SortByCount(items), ref)
    decreases |items|
  {
    if items != [] {
      var rest := items[1..];
      forall i, j | 0 <= i < j < |rest|
        ensures Before(ref, rest[i], rest[j])
      {
        assert rest[i] == items[i + 1] && rest[j] == items[j + 1];
      }
      SortByCountOrdered(rest, ref);
      var t := SortByCount(rest);
      forall y | y in t
        ensures Before(ref, items[0], y) && y != items[0]
      {
        assert y in multiset(t);
        assert y in rest;
        var k :| 0 <= k < |rest| && rest[k] == y;
        assert items[k + 1] == y;
      }
      assert InsertableBefore(items[0], t, ref);
      InsertByCountOrdered(items[0], t, ref);
    }
  }

  /** A sort keeps the length and the elements. */
  lemma {:induction false} SortByCountElements(items: seq<Item>)
    ensures |SortByCount(items)| == |items|
    ensures forall y :: y in SortByCount(items) <==> y in items
  {
    var sorted := SortByCount(items);
    assert |sorted| == |multiset(sorted)| == |multiset(items)| == |items|;
    assert forall y :: y in sorted <==> y in multiset(sorted);
    assert forall y :: y in items <==> y in multiset(items);
  }

  /** The dict's items have no repeats and the sort ranks them by count, ties in dict order. */
  lemma {:induction false} FrequenciesRanked(words: seq<string>)
    ensures RankedBy(SortByCount(Frequencies(words)), Frequencies(words))
  {
    var d := Distinct(words);
    var items := Frequencies(words);
    assert NoDuplicates(items) by {
      forall i, j | 0 <= i < j < |items|
        ensures items[i] != items[j]
      {
        assert items[i].0 == d[i] && items[j].0 == d[j];
      }
    }
    forall i, j | 0 <= i < j < |items|
      ensures Before(items, items[i], items[j])
    {
    }
    SortByCountOrdered(items, items);
  }

  /** Each ranked item is a word that occurs, standing with its own count, and there is one per distinct word. */
  lemma {:induction false} SortedCounts(words: seq<string>)
    ensures var sorted := SortByCount(Frequencies(words));
      && |sorted| == |Distinct(words)|
      && forall k :: 0 <= k < |sorted| ==> sorted[k].1 == Count(words, sorted[k].0) && sorted[k].0 in words
  {
    var d := Distinct(words);
    var items := Frequencies(words);
    var sorted := SortByCount(items);
    SortByCountElements(items);
    forall k | 0 <= k < |sorted|
      ensures sorted[k].1 == Count(words, sorted[k].0) && sorted[k].0 in words
    {
      assert sorted[k] in items;
      var m :| 0 <= m < |items| && items[m] == sorted[k];
      assert d[m] in d;
    }
  }

  /** Every word that occurs has a place in the ranking. */
  lemma {:induction false} SortedCovers(words: seq<string>)
    ensures var sorted := SortByCount(Frequencies(words));
      forall w :: w in words ==> exists k :: 0 <= k < |sorted| && sorted[k].0 == w
  {
    var d := Distinct(words);
    var items := Frequencies(words);
    var sorted := SortByCount(items);
    SortByCountElements(items);
    forall w | w in words
      ensures exists k :: 0 <= k < |sorted| && sorted[k].0 == w
    {
      assert w in d;
      var m :| 0 <= m < |d| && d[m] == w;
      assert items[m] in sorted;
      var p :| 0 <= p < |sorted| && sorted[p] == items[m];
      assert sorted[p].0 == w;
    }
  }

  /** Two items in dict order stand for two words in first-occurrence order. */
  lemma {:induction false} ItemsBeforeWords(words: seq<string>, x: Item, y: Item)
    requires Before(Frequencies(words), x, y)
    ensures Before(Distinct(words), x.0, y.0)
  {
    var d := Distinct(words);
    var items := Frequencies(words);
    var a, b :| 0 <= a < b < |items| && items[a] == x && items[b] == y;
    assert d[a] == x.0 && d[b] == y.0;
  }
  /**
   * `ranked` lists each distinct word of `words` once, the most frequent
   * first, words of equal count in the order they first occur.
   */
  ghost predicate Ranking(ranked: seq<string>, words: seq<string>)
  {
    && NoDuplicates(ranked)
    && (forall w :: w in ranked <==> w in words)
    && (forall i, j :: 0 <= i < j < |ranked| ==> Count(words, ranked[i]) >= Count(words, ranked[j]))
    && (forall i, j ::
          (0 <= i < j < |ranked| && Count(words, ranked[i]) == Count(words, ranked[j])) ==>
          Before(Distinct(words), ranked[i], ranked[j]))
  }

  lemma {:induction false} RankingOrdered(words: seq<string>)
    ensures var ranked := WordsOf(SortByCount(Frequencies(words)));
      |ranked| == |Distinct(words)| && Ranking(ranked, words)
  {
    RankingCovers(words);
    RankingSorted(words);
  }

  /** The ranking holds exactly the words that occur, as many as there are distinct words. */
  lemma {:induction false} RankingCovers(words: seq<string>)
    ensures var ranked := WordsOf(SortByCount(Frequencies(words)));
      |ranked| == |Distinct(words)| && forall w :: w in ranked <==> w in words
  {
    var sorted := SortByCount(Frequencies(words));
    var ranked := WordsOf(sorted);
    SortedCounts(words);
    SortedCovers(words);
    forall w | w in words
      ensures w in ranked
    {
      var k :| 0 <= k < |sorted| && sorted[k].0 == w;
      assert ranked[k] == w;
    }
  }

  /** The ranking has no repeats, puts higher counts first, and keeps ties in first-occurrence order. */
  lemma {:induction false} RankingSorted(words: seq<string>)
    ensures var ranked := WordsOf(SortByCount(Frequencies(words)));
      && NoDuplicates(ranked)
      && (forall i, j :: 0 <= i < j < |ranked| ==> Count(words, ranked[i]) >= Count(words, ranked[j]))
      && (forall i, j ::
            (0 <= i < j < |ranked| && Count(words, ranked[i]) == Count(words, ranked[j])) ==>
            Before(Distinct(words), ranked[i], ranked[j]))
  {
    var d := Distinct(words);
    var items := Frequencies(words);
    var sorted := SortByCount(items);
    var ranked := WordsOf(sorted);
    FrequenciesRanked(words);
    SortedCounts(words);
    forall i, j | 0 <= i < j < |ranked|
      ensures ranked[i] != ranked[j]
      ensures Count(words, ranked[i]) >= Count(words, ranked[j])
      ensures Count(words, ranked[i]) == Count(words, ranked[j]) ==> Before(d, ranked[i], ranked[j])
    {
      assert ranked[i] == sorted[i].0 && ranked[j] == sorted[j].0;
      assert sorted[i] != sorted[j] && sorted[i].1 >= sorted[j].1;
      if Count(words, ranked[i]) == Count(words, ranked[j]) {
        ItemsBeforeWords(words, sorted[i], sorted[j]);
      }
    }
  }

  /** No letter in a lower-cased string is upper-case. */
  lemma {:induction false} LowerIsLowerCase(s: string, w: string)
    requires forall c :: c in w ==> c in Lower(s)
    ensures IsLowerCase(w)
  {
    forall i | 0 <= i < |w|
      ensures !('A' <= w[i] <= 'Z')
    {
      assert w[i] in w;
      var k :| 0 <= k < |s| && Lower(s)[k] == w[i];
    }
  }

  /** `order` and `freq` are the key order and the contents of the dict `word_freq` after counting `ws`. */
  ghost predicate Tallied(order: seq<string>, freq: map<string, nat>, ws: seq<string>)
  {
    && order == Distinct(ws)
    && (forall w :: w in freq <==> w in ws)
    && (forall w :: w in freq ==> freq[w] == Count(ws, w))
  }

  /** One step of the counting loop: `word_freq[w] = word_freq.get(w, 0) + 1`. */
  lemma {:induction false} TallyStep(order: seq<string>, freq: map<string, nat>, ws: seq<string>, w: string)
    requires Tallied(order, freq, ws)
    ensures Tallied(if w in freq then order else order + [w],
                    freq[w := (if w in freq then freq[w] else 0) + 1],
                    ws + [w])
  {
    var next := ws + [w];
    assert next[..|next| - 1] == ws;
    assert next[|next| - 1] == w;
  }

  /** After the loop, `word_freq.items()` lists each distinct word with its count, in first-occurrence order. */
  lemma {:induction false} TallyItems(order: seq<string>, freq: map<string, nat>, ws: seq<string>)
    requires Tallied(order, freq, ws)
    ensures forall k :: 0 <= k < |order| ==> order[k] in freq
    ensures seq(|order|, k requires 0 <= k < |order| => (order[k], freq[order[k]])) == Frequencies(ws)
  {
    assert forall k :: 0 <= k < |order| ==> order[k] in freq by {
      forall k | 0 <= k < |order|
        ensures order[k] in freq
      {
        assert order[k] in Distinct(ws);
      }
    }
  }

  /**
   * What extract_keywords promises of its result for `text`: at most
   * `maxKeywords` distinct words (as many as there are distinct candidates
   * when that is fewer), each a lower-case run of word characters of the
   * text that is not a stop word and is longer than 3 characters, ordered by
   * count with the most frequent first and ties in first-occurrence order,
   * and no left-out candidate counted more often than a returned one, nor
   * as often as a returned one while occurring first.
   */
  ghost predicate IsTopKeywords(keywords: seq<string>, text: string, maxKeywords: int)
  {
    var candidates := KeywordCandidates(text);
    && |keywords| == SliceIndex(maxKeywords, |Distinct(candidates)|)
    && NoDuplicates(keywords)
    && (forall w :: w in keywords ==> w in FindWords(Lower(text)) && IsKeyword(w) && IsLowerCase(w))
    && (forall i, j :: 0 <= i < j < |keywords| ==>
          Count(candidates, keywords[i]) >= Count(candidates, keywords[j]))
    && (forall i, j ::
          (0 <= i < j < |keywords| && Count(candidates, keywords[i]) == Count(candidates, keywords[j])) ==>
          Before(Distinct(candidates), keywords[i], keywords[j]))
    && (forall w, i :: w in candidates && w !in keywords && 0 <= i < |keywords| ==>
          Count(candidates, keywords[i]) >= Count(candidates, w))
    && (forall w, i ::
          (w in candidates && w !in keywords && 0 <= i < |keywords| &&
           Count(candidates, keywords[i]) == Count(candidates, w)) ==>
          Before(Distinct(candidates), keywords[i], w))
  }

  /**
   * A prefix of a ranking keeps its order and ties, and every word it leaves
   * out is counted no more often than any word it keeps.
   */
  lemma {:induction false} RankingPrefix(ranked: seq<string>, words: seq<string>, n: nat)
    requires n <= |ranked| && Ranking(ranked, words)
    ensures NoDuplicates(ranked[..n])
    ensures forall i, j :: 0 <= i < j < n ==> Count(words, ranked[..n][i]) >= Count(words, ranked[..n][j])
    ensures forall i, j ::
              (0 <= i < j < n && Count(words, ranked[..n][i]) == Count(words, ranked[..n][j])) ==>
              Before(Distinct(words), ranked[..n][i], ranked[..n][j])
    ensures forall w, i :: w in words && w !in ranked[..n] && 0 <= i < n ==>
              Count(words, ranked[..n][i]) >= Count(words, w)
    ensures forall w, i ::
              (w in words && w !in ranked[..n] && 0 <= i < n &&
               Count(words, ranked[..n][i]) == Count(words, w)) ==>
              Before(Distinct(words), ranked[..n][i], w)
  {
    RankingKept(ranked, words, n);
    RankingLeftOut(ranked, words, n);
  }

  /** The kept words of a cut keep the ranking's order and ties. */
  lemma {:induction false} RankingKept(ranked: seq<string>, words: seq<string>, n: nat)
    requires n <= |ranked| && Ranking(ranked, words)
    ensures NoDuplicates(ranked[..n])
    ensures forall i, j :: 0 <= i < j < n ==> Count(words, ranked[..n][i]) >= Count(words, ranked[..n][j])
    ensures forall i, j ::
              (0 <= i < j < n && Count(words, ranked[..n][i]) == Count(words, ranked[..n][j])) ==>
              Before(Distinct(words), ranked[..n][i], ranked[..n][j])
  {
    assert forall i :: 0 <= i < n ==> ranked[..n][i] == ranked[i];
  }

  /** A word a cut leaves out counts no more than a kept word, and when tied it first occurs after it. */
  lemma {:induction false} RankingLeftOut(ranked: seq<string>, words: seq<string>, n: nat)
    requires n <= |ranked| && Ranking(ranked, words)
    ensures forall w, i :: w in words && w !in ranked[..n] && 0 <= i < n ==>
              Count(words, ranked[..n][i]) >= Count(words, w)
    ensures forall w, i ::
              (w in words && w !in ranked[..n] && 0 <= i < n &&
               Count(words, ranked[..n][i]) == Count(words, w)) ==>
              Before(Distinct(words), ranked[..n][i], w)
  {
    forall w, i | w in words && w !in ranked[..n] && 0 <= i < n
      ensures Count(words, ranked[..n][i]) >= Count(words, w)
      ensures Count(words, ranked[..n][i]) == Count(words, w) ==> Before(Distinct(words), ranked[..n][i], w)
    {
      var p :| 0 <= p < |ranked| && ranked[p] == w;
      assert p >= n;
      assert ranked[..n][i] == ranked[i];
    }
  }

  /** Every ranked keyword is a lower-case word of the text that passes the keyword filter. */
  lemma {:induction false} RankedAreKeywords(text: string, ranked: seq<string>)
    requires forall w :: w in ranked <==> w in KeywordCandidates(text)
    ensures forall w :: w in ranked ==> w in FindWords(Lower(text)) && IsKeyword(w) && IsLowerCase(w)
  {
    forall w | w in ranked
      ensures w in FindWords(Lower(text)) && IsKeyword(w) && IsLowerCase(w)
    {
      assert forall c :: c in w ==> c in Lower(text);
      LowerIsLowerCase(text, w);
    }
  }

  /** The first `maxKeywords` words of the ranking, by Python's slicing, are the top keywords. */
  lemma {:induction false} TopOfRanking(text: string, maxKeywords: int)
    ensures IsTopKeywords(SliceTo(WordsOf(SortByCount(Frequencies(KeywordCandidates(text)))), maxKeywords),
                          text, maxKeywords)
  {
    var candidates := KeywordCandidates(text);
    var ranked := WordsOf(SortByCount(Frequencies(candidates)));
    var n := SliceIndex(maxKeywords, |ranked|);
    RankingOrdered(candidates);
    RankingPrefix(ranked, candidates, n);
    RankedAreKeywords(text, ranked);
    assert forall w :: w in ranked[..n] ==> w in ranked;
  }

  /**
   * `extract_keywords`: the candidate words of the lower-cased text counted
   * in a dict, ranked by count, and cut to `max_keywords` by Python's slicing.
   */
  method ExtractKeywords(text: string, maxKeywords: int) returns (keywords: seq<string>)
    ensures IsTopKeywords(keywords, text, maxKeywords)
  {
    var words := FindWords(Lower(text));
    var candidates := Candidates(words);
    var order: seq<string> := [];
    var freq: map<string, nat> := map[];
    for i := 0 to |candidates|
      invariant Tallied(order, freq, candidates[..i])
    {
      var w := candidates[i];
      assert candidates[..i + 1] == candidates[..i] + [w];
      TallyStep(order, freq, candidates[..i], w);
      if w !in freq {
        order := order + [w];
      }
      freq := freq[w := (if w in freq then freq[w] else 0) + 1];
    }
    assert candidates[..|candidates|] == candidates;
    var items := seq(|order|, k requires 0 <= k < |order| => (order[k], freq[order[k]]));
    TallyItems(order, freq, candidates);
    keywords := SliceTo(WordsOf(SortByCount(items)), maxKeywords);
    TopOfRanking(text, maxKeywords);
  }
}

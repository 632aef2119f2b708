/** Models of the JavaScript string and array built-ins that the suggestion
    generator relies on: `split(" ")`, `filter` by length, `includes`,
    `toLowerCase`, `replace(/\s+/g, "")`, `[...new Set(xs)]` and `slice(0, n)`.
    Strings are sequences of characters; a character stands for one UTF-16
    code unit of the JavaScript string. */
module JsStrings {

  // ---------------------------------------------------------------------
  // split(" ") and its inverse join(" ")
  // ---------------------------------------------------------------------

  /** `s.split(" ")`: the pieces between single spaces. Two adjacent spaces
      give an empty piece, and the empty string gives one empty piece. */
  function SplitOnSpace(s: string): (pieces: seq<string>)
    ensures |pieces| >= 1
    ensures forall i :: 0 <= i < |pieces| ==> ' ' !in pieces[i]
    decreases |s|
  {
    if |s| == 0 then [""]
    else
      var rest := SplitOnSpace(s[1..]);
      if s[0] == ' ' then [""] + rest
      else [[s[0]] + rest[0]] + rest[1..]
  }

  /** `pieces.join(" ")`, the reference inverse of `SplitOnSpace`. */
  function JoinWithSpace(pieces: seq<string>): string
    requires |pieces| >= 1
  {
    if |pieces| == 1 then pieces[0] else pieces[0] + " " + JoinWithSpace(pieces[1..])
  }

  lemma JoinConsFirst(c: char, p: string, tail: seq<string>)
    ensures JoinWithSpace([[c] + p] + tail) == [c] + JoinWithSpace([p] + tail)
  {
    if |tail| > 0 {
      assert ([[c] + p] + tail)[1..] == tail;
      assert ([p] + tail)[1..] == tail;
    }
  }

  /** Joining the pieces of a split with single spaces gives back the string:
      `split(" ")` loses nothing. */
  lemma {:induction false} JoinSplit(s: string)
    ensures JoinWithSpace(SplitOnSpace(s)) == s
    decreases |s|
  {
    if |s| > 0 {
      var rest := SplitOnSpace(s[1..]);
      JoinSplit(s[1..]);
      if s[0] == ' ' {
        assert ([""] + rest)[1..] == rest;
        assert JoinWithSpace([""] + rest) == "" + " " + JoinWithSpace(rest);
        assert s == [' '] + s[1..];
      } else {
        assert rest == [rest[0]] + rest[1..];
        JoinConsFirst(s[0], rest[0], rest[1..]);
        assert s == [s[0]] + s[1..];
      }
    }
  }

  /** Splitting a space-free list of pieces after joining it gives back the
      pieces: the two operations are inverse to each other. */
  lemma {:induction false} SplitJoin(pieces: seq<string>)
    requires |pieces| >= 1
    requires forall i :: 0 <= i < |pieces| ==> ' ' !in pieces[i]
    ensures SplitOnSpace(JoinWithSpace(pieces)) == pieces
    decreases |pieces|, |pieces[0]|
  {
    var p := pieces[0];
    if |pieces| == 1 {
      SplitSpaceFree(p);
    } else if |p| == 0 {
      var tail := pieces[1..];
      assert JoinWithSpace(pieces) == " " + JoinWithSpace(tail);
      assert (" " + JoinWithSpace(tail))[1..] == JoinWithSpace(tail);
      SplitJoin(tail);
      assert pieces == [""] + tail;
    } else {
      var shorter := [p[1..]] + pieces[1..];
      assert forall i :: 0 <= i < |shorter| ==> ' ' !in shorter[i] by {
        assert forall c :: c in p[1..] ==> c in p;
        assert forall i :: 1 <= i < |shorter| ==> shorter[i] == pieces[i];
      }
      assert shorter[1..] == pieces[1..];
      assert p == [p[0]] + p[1..];
      assert pieces == [p] + pieces[1..];
      JoinConsFirst(p[0], p[1..], pieces[1..]);
      assert p[1..] == shorter[0];
      assert JoinWithSpace(pieces) == [p[0]] + JoinWithSpace(shorter);
      SplitJoin(shorter);
      assert p[0] in p;
      assert ([p[0]] + JoinWithSpace(shorter))[1..] == JoinWithSpace(shorter);
    }
  }

  /** A string without spaces splits into itself alone. */
  lemma {:induction false} SplitSpaceFree(s: string)
    requires ' ' !in s
    ensures SplitOnSpace(s) == [s]
    decreases |s|
  {
    if |s| > 0 {
      assert forall c :: c in s[1..] ==> c in s;
      SplitSpaceFree(s[1..]);
      assert s == [s[0]] + s[1..];
    }
  }

  // ---------------------------------------------------------------------
  // filter((term) => term.length >= min)
  // ---------------------------------------------------------------------

  /** The pieces of length at least `min`, in their original order. */
  function FilterMinLength(pieces: seq<string>, min: nat): (kept: seq<string>)
    ensures |kept| <= |pieces|
  {
    if |pieces| == 0 then []
    else
      var rest := FilterMinLength(pieces[1..], min);
      if |pieces[0]| >= min then [pieces[0]] + rest else rest
  }

  /** The filter keeps exactly the pieces that are long enough. */
  lemma {:induction false} FilterMinLengthKeeps(pieces: seq<string>, min: nat)
    ensures forall i :: 0 <= i < |FilterMinLength(pieces, min)| ==>
      |FilterMinLength(pieces, min)[i]| >= min && FilterMinLength(pieces, min)[i] in pieces
    ensures forall i :: 0 <= i < |pieces| && |pieces[i]| >= min ==> pieces[i] in FilterMinLength(pieces, min)
  {
    if |pieces| > 0 {
      FilterMinLengthKeeps(pieces[1..], min);
      assert forall i :: 1 <= i < |pieces| ==> pieces[i] == pieces[1..][i - 1];
    }
  }

  /** The filter works piece by piece and keeps the order: filtering a
      concatenation is concatenating the filtered parts. */
  lemma {:induction false} FilterMinLengthAppend(a: seq<string>, b: seq<string>, min: nat)
    ensures FilterMinLength(a + b, min) == FilterMinLength(a, min) + FilterMinLength(b, min)
  {
    if |a| > 0 {
      assert (a + b)[1..] == a[1..] + b;
      FilterMinLengthAppend(a[1..], b, min);
    } else {
      assert a + b == b;
    }
  }

  /** One piece is kept exactly when it is long enough. */
  lemma FilterMinLengthSingle(p: string, min: nat)
    ensures FilterMinLength([p], min) == if |p| >= min then [p] else []
  {
  }

  /** The first kept piece is the first piece that is long enough. */
  lemma {:induction false} FilterMinLengthFirst(pieces: seq<string>, min: nat)
    ensures FilterMinLength(pieces, min) != [] ==>
      exists k :: 0 <= k < |pieces| && FilterMinLength(pieces, min)[0] == pieces[k]
        && |pieces[k]| >= min && forall j :: 0 <= j < k ==> |pieces[j]| < min
  {
    if |pieces| > 0 && |pieces[0]| < min {
      var rest := pieces[1..];
      FilterMinLengthFirst(rest, min);
      if FilterMinLength(rest, min) != [] {
        var k :| 0 <= k < |rest| && FilterMinLength(rest, min)[0] == rest[k]
          && |rest[k]| >= min && forall j :: 0 <= j < k ==> |rest[j]| < min;
        assert forall j :: 1 <= j < k + 1 ==> pieces[j] == rest[j - 1];
        assert pieces[k + 1] == rest[k];
      }
    } else if |pieces| > 0 {
      assert FilterMinLength(pieces, min)[0] == pieces[0];
    }
  }

  /** A higher minimum never keeps more: if nothing reaches `low`, nothing
      reaches `high` either. */
  lemma FilterMonotone(pieces: seq<string>, low: nat, high: nat)
    requires low <= high
    ensures FilterMinLength(pieces, low) == [] ==> FilterMinLength(pieces, high) == []
  {
    if FilterMinLength(pieces, high) != [] {
      FilterMinLengthKeeps(pieces, high);
      FilterMinLengthKeeps(pieces, low);
      var t := FilterMinLength(pieces, high)[0];
      var i :| 0 <= i < |pieces| && pieces[i] == t;
      assert t in FilterMinLength(pieces, low);
    }
  }

  // ---------------------------------------------------------------------
  // includes
  // ---------------------------------------------------------------------

  /** `needle` occurs in `hay` starting at position `i`. */
  predicate OccursAt(hay: string, needle: string, i: nat)
  {
    i + |needle| <= |hay| && hay[i..i + |needle|] == needle
  }

  /** `hay.includes(needle)`, searching from the left. */
  function Contains(hay: string, needle: string): (found: bool)
    ensures found ==> |needle| <= |hay|
    ensures needle <= hay ==> found
    decreases |hay|
  {
    if |needle| > |hay| then false
    else if hay[..|needle|] == needle then true
    else Contains(hay[1..], needle)
  }

  /** The search finds a needle exactly when it occurs somewhere in the
      text (the empty needle occurs everywhere). */
  lemma {:induction false} ContainsMeansOccurs(hay: string, needle: string)
    ensures Contains(hay, needle) <==> exists i: nat :: OccursAt(hay, needle, i)
    decreases |hay|
  {
    if |needle| > |hay| {
      assert forall i: nat :: !OccursAt(hay, needle, i);
    } else if hay[..|needle|] == needle {
      assert OccursAt(hay, needle, 0);
    } else {
      ContainsMeansOccurs(hay[1..], needle);
      if exists i: nat :: OccursAt(hay, needle, i) {
        var i: nat :| OccursAt(hay, needle, i);
        assert i > 0;
        assert hay[1..][i - 1..i - 1 + |needle|] == hay[i..i + |needle|];
        assert OccursAt(hay[1..], needle, i - 1);
      }
      if exists j: nat :: OccursAt(hay[1..], needle, j) {
        var j: nat :| OccursAt(hay[1..], needle, j);
        assert hay[1..][j..j + |needle|] == hay[j + 1..j + 1 + |needle|];
        assert OccursAt(hay, needle, j + 1);
      }
    }
  }

  /** Text wrapped around a string keeps every occurrence it had. */
  lemma ContainsWrapped(before: string, hay: string, after: string, needle: string)
    requires Contains(hay, needle)
    ensures Contains(before + hay + after, needle)
  {
    ContainsMeansOccurs(hay, needle);
    var i: nat :| OccursAt(hay, needle, i);
    var whole := before + hay + after;
    assert whole[|before| + i..|before| + i + |needle|] == hay[i..i + |needle|];
    assert OccursAt(whole, needle, |before| + i);
    ContainsMeansOccurs(whole, needle);
  }

  /** A string occurs in any text built around it. */
  lemma ContainsAround(before: string, s: string, after: string)
    ensures Contains(before + s + after, s)
  {
    assert OccursAt(before + s + after, s, |before|);
    ContainsMeansOccurs(before + s + after, s);
  }

  /** A string occurs in any text that starts with it. */
  lemma ContainsAtStart(s: string, rest: string)
    ensures Contains(s + rest, s)
  {
    assert (s + rest)[..|s|] == s;
  }

  /** A string occurs in any text that ends with it. */
  lemma ContainsAtEnd(front: string, s: string)
    ensures Contains(front + s, s)
  {
    assert OccursAt(front + s, s, |front|);
    ContainsMeansOccurs(front + s, s);
  }

  /** Every string contains itself. */
  lemma ContainsSelf(s: string)
    ensures Contains(s, s)
  {
    assert s[..|s|] == s;
  }

  // ---------------------------------------------------------------------
  // toLowerCase, restricted to the ASCII letters
  // ---------------------------------------------------------------------

  predicate IsAsciiUpper(c: char)
  {
    'A' <= c <= 'Z'
  }

  function LowerChar(c: char): char
  {
    if IsAsciiUpper(c) then (c as int + 32) as char else c
  }

  /** `s.toLowerCase()` for the ASCII letters: the same length, no upper-case
      ASCII letter left, every other character unchanged and every upper-case
      letter replaced by its lower-case partner. */
  function Lower(s: string): (r: string)
    ensures |r| == |s|
    ensures forall i :: 0 <= i < |s| ==> !IsAsciiUpper(r[i])
    ensures forall i :: 0 <= i < |s| && !IsAsciiUpper(s[i]) ==> r[i] == s[i]
    ensures forall i :: 0 <= i < |s| && IsAsciiUpper(s[i]) ==> r[i] as int == s[i] as int + 32
  {
    seq(|s|, i requires 0 <= i < |s| => LowerChar(s[i]))
  }

  /** Lowering works character by character, so it distributes over
      concatenation. */
  lemma LowerConcat(a: string, b: string)
    ensures Lower(a + b) == Lower(a) + Lower(b)
  {
    assert forall i :: 0 <= i < |a + b| ==> Lower(a + b)[i] == (Lower(a) + Lower(b))[i];
  }

  /** A string without upper-case ASCII letters is its own lower case. */
  lemma LowerOfLower(s: string)
    requires forall i :: 0 <= i < |s| ==> !IsAsciiUpper(s[i])
    ensures Lower(s) == s
  {
  }

  // ---------------------------------------------------------------------
  // replace(/\s+/g, "")
  // ---------------------------------------------------------------------

  /** The characters ECMAScript's `\s` matches: WhiteSpace (tab, vertical
      tab, form feed, the byte order mark and every space separator) and
      LineTerminator (line feed, carriage return, line and paragraph
      separator). */
  predicate IsJsWhitespace(c: char)
  {
    c == '\t' || c == '\n' || c == '\U{000B}' || c == '\U{000C}' || c == '\r' || c == ' '
    || c == '\U{00A0}' || c == '\U{1680}' || ('\U{2000}' <= c <= '\U{200A}')
    || c == '\U{2028}' || c == '\U{2029}' || c == '\U{202F}' || c == '\U{205F}'
    || c == '\U{3000}' || c == '\U{FEFF}'
  }

  /** `s.replace(/\s+/g, "")`: every whitespace character is dropped, every
      other character is kept, in order. */
  function StripWhitespace(s: string): (r: string)
    ensures |r| <= |s|
    ensures forall i :: 0 <= i < |r| ==> r[i] in s && !IsJsWhitespace(r[i])
    ensures forall i :: 0 <= i < |s| && !IsJsWhitespace(s[i]) ==> s[i] in r
    ensures (forall i :: 0 <= i < |s| ==> !IsJsWhitespace(s[i])) ==> r == s
  {
    if |s| == 0 then []
    else
      var rest := StripWhitespace(s[1..]);
      assert forall i :: 1 <= i < |s| ==> s[i] == s[1..][i - 1];
      assert s == [s[0]] + s[1..];
      if IsJsWhitespace(s[0]) then rest else [s[0]] + rest
  }

  /** Whitespace is removed character by character, in order: stripping a
      concatenation is concatenating the stripped parts. */
  lemma {:induction false} StripWhitespaceAppend(a: string, b: string)
    ensures StripWhitespace(a + b) == StripWhitespace(a) + StripWhitespace(b)
  {
    if |a| > 0 {
      assert (a + b)[0] == a[0];
      assert (a + b)[1..] == a[1..] + b;
      StripWhitespaceAppend(a[1..], b);
    } else {
      assert a + b == b;
    }
  }

  /** A single character is dropped exactly when it is whitespace. */
  lemma StripWhitespaceChar(c: char)
    ensures StripWhitespace([c]) == if IsJsWhitespace(c) then [] else [c]
  {
  }

  // ---------------------------------------------------------------------
  // [...new Set(xs)] and slice(0, n)
  // ---------------------------------------------------------------------

  predicate NoDuplicates<T(==)>(s: seq<T>)
  {
    forall i, j :: 0 <= i < j < |s| ==> s[i] != s[j]
  }

  /** `[...new Set(s)]`: a Set remembers insertion order, so each value is
      kept at its first occurrence and later repeats are dropped. */
  function Dedup(s: seq<string>): (r: seq<string>)
    ensures |r| <= |s|
    ensures |s| > 0 ==> |r| > 0 && r[0] == s[0]
  {
    if |s| == 0 then []
    else
      var init := s[..|s| - 1];
      var last := s[|s| - 1];
      var d := Dedup(init);
      if last in d then d else d + [last]
  }

  /** The Set keeps every value once and invents none: the result has no
      duplicates and holds exactly the values of the input. */
  lemma {:induction false} DedupKeepsValues(s: seq<string>)
    ensures NoDuplicates(Dedup(s))
    ensures forall i :: 0 <= i < |Dedup(s)| ==> Dedup(s)[i] in s
    ensures forall i :: 0 <= i < |s| ==> s[i] in Dedup(s)
  {
    if |s| > 0 {
      var init := s[..|s| - 1];
      DedupKeepsValues(init);
      assert s == init + [s[|s| - 1]];
      assert forall i :: 0 <= i < |s| - 1 ==> s[i] == init[i];
    }
  }

  /** The position of the first occurrence of `x` in `s`. */
  function FirstIndex(s: seq<string>, x: string): (k: nat)
    requires x in s
    ensures k < |s| && s[k] == x
    ensures forall j :: 0 <= j < k ==> s[j] != x
  {
    if s[0] == x then 0 else 1 + FirstIndex(s[1..], x)
  }

  /** Appending after the first occurrence does not move it. */
  lemma FirstIndexAppend(a: seq<string>, b: seq<string>, x: string)
    requires x in a
    ensures FirstIndex(a + b, x) == FirstIndex(a, x)
  {
    var k1, k2 := FirstIndex(a + b, x), FirstIndex(a, x);
    assert (a + b)[k2] == x;
    assert k1 <= k2;
    assert a[k1] == x;
  }

  /** The Set lists its values in the order of their first occurrence in
      the input. Together with `DedupKeepsValues` this determines the
      result completely. */
  lemma {:induction false} DedupOrder(s: seq<string>)
    ensures forall i :: 0 <= i < |Dedup(s)| ==> Dedup(s)[i] in s
    ensures forall i, j :: 0 <= i < j < |Dedup(s)| ==>
      FirstIndex(s, Dedup(s)[i]) < FirstIndex(s, Dedup(s)[j])
  {
    DedupKeepsValues(s);
    if |s| > 0 {
      var init := s[..|s| - 1];
      var last := s[|s| - 1];
      var d := Dedup(init);
      var r := Dedup(s);
      DedupOrder(init);
      DedupKeepsValues(init);
      assert s == init + [last];
      forall i, j | 0 <= i < j < |r|
        ensures FirstIndex(s, r[i]) < FirstIndex(s, r[j])
      {
        FirstIndexAppend(init, [last], r[i]);
        if j < |d| {
          FirstIndexAppend(init, [last], r[j]);
        } else {
          assert r[j] == last && last !in init;
        }
      }
    }
  }

  /** A list without repeats passes through the Set unchanged. */
  lemma {:induction false} DedupOfDistinct(s: seq<string>)
    requires NoDuplicates(s)
    ensures Dedup(s) == s
  {
    if |s| > 0 {
      var init := s[..|s| - 1];
      DedupOfDistinct(init);
      DedupKeepsValues(init);
      assert s == init + [s[|s| - 1]];
      assert s[|s| - 1] !in init;
    }
  }

  /** One more element for the Set: it is appended unless already there. */
  lemma DedupStep(s: seq<string>, j: nat)
    requires j < |s|
    ensures Dedup(s[..j + 1]) == if s[j] in Dedup(s[..j]) then Dedup(s[..j]) else Dedup(s[..j]) + [s[j]]
  {
    assert s[..j + 1][..j] == s[..j];
  }

  /** `[...new Set(s)]` step by step: each element is added to the Set and
      to the result the first time it is met. */
  method CollectDistinct(s: seq<string>) returns (unique: seq<string>)
    ensures unique == Dedup(s)
  {
    unique := [];
    var seen: set<string> := {};
    var j := 0;
    while j < |s|
      invariant 0 <= j <= |s|
      invariant unique == Dedup(s[..j])
      invariant forall x :: x in seen <==> x in unique
    {
      DedupStep(s, j);
      if s[j] !in seen {
        unique := unique + [s[j]];
        seen := seen + {s[j]};
      }
      j := j + 1;
    }
    assert s[..j] == s;
  }

  /** `s.slice(0, n)`: the first `n` elements, or all of them when there are
      fewer. */
  function Take<T>(s: seq<T>, n: nat): (r: seq<T>)
    ensures r <= s
    ensures |r| == if |s| <= n then |s| else n
  {
    if |s| <= n then s else s[..n]
  }

  /** A prefix of a sequence without duplicates has none either. */
  lemma TakeNoDuplicates<T>(s: seq<T>, n: nat)
    requires NoDuplicates(s)
    ensures NoDuplicates(Take(s, n))
  {
    var r := Take(s, n);
    assert forall i :: 0 <= i < |r| ==> r[i] == s[i];
  }

  /** Appending to a list that already fits leaves it a prefix of the
      truncated result, and appending to a full list changes nothing. */
  lemma TakeAppend<T>(a: seq<T>, b: seq<T>, n: nat)
    requires |a| <= n
    ensures a <= Take(a + b, n)
    ensures |a| == n ==> Take(a + b, n) == a
  {
    assert (a + b)[..|a|] == a;
  }
}

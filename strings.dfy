/**
 * String primitives with the semantics of the JavaScript built-ins the
 * terminal relies on: `trim`, `toLowerCase`, `startsWith`, `includes`,
 * `split` (on a literal separator and on `/\s+/`), `join`, `padEnd`,
 * `padStart`, `String(n)` and `parseInt`.
 *
 * A string is a sequence of characters and one character stands for one
 * UTF-16 code unit, so lengths agree with JavaScript for text in the Basic
 * Multilingual Plane.  Case mapping covers ASCII letters only.
 */
module JsStrings {

  import opened Wrappers

  // ---------------------------------------------------------------------
  // Whitespace and trimming

  /** The ECMAScript WhiteSpace and LineTerminator characters: exactly what
      `trim()` strips and what the regular-expression class `\s` matches. */
  predicate IsSpace(c: char) {
    || c == ' ' || '\t' <= c <= '\r' || c == '\U{A0}' || c == '\U{1680}'
    || '\U{2000}' <= c <= '\U{200A}' || c == '\U{2028}' || c == '\U{2029}'
    || c == '\U{202F}' || c == '\U{205F}' || c == '\U{3000}' || c == '\U{FEFF}'
  }

  predicate NoSpace(s: string) {
    forall i :: 0 <= i < |s| ==> !IsSpace(s[i])
  }

  /** `s.trimStart()`: drops the leading whitespace and nothing else. */
  function TrimStart(s: string): (r: string)
    ensures |r| <= |s| && r == s[|s| - |r|..]
    ensures forall i :: 0 <= i < |s| - |r| ==> IsSpace(s[i])
    ensures r == [] || !IsSpace(r[0])
  {
    if s != [] && IsSpace(s[0]) then TrimStart(s[1..]) else s
  }

  /** `s.trimEnd()`: drops the trailing whitespace and nothing else. */
  function TrimEnd(s: string): (r: string)
    ensures |r| <= |s| && r == s[..|r|]
    ensures forall i :: |r| <= i < |s| ==> IsSpace(s[i])
    ensures r == [] || !IsSpace(r[|r| - 1])
  {
    if s != [] && IsSpace(s[|s| - 1]) then TrimEnd(s[..|s| - 1]) else s
  }

  /** `p` occurs in `s` at position `k`. */
  predicate OccursAt(s: string, p: string, k: int) {
    0 <= k && k + |p| <= |s| && s[k..k + |p|] == p
  }

  /** `a` occurs somewhere in `s`. */
  ghost predicate IsInfix(a: string, s: string) {
    exists k :: OccursAt(s, a, k)
  }

  /** `s.trim()`: an infix of `s` that neither starts nor ends with whitespace,
      everything around it being whitespace. */
  function Trim(s: string): (r: string)
    ensures r == [] || (!IsSpace(r[0]) && !IsSpace(r[|r| - 1]))
    ensures IsInfix(r, s)
  {
    TrimIsInfix(s);
    TrimEnd(TrimStart(s))
  }

  /** What `trimEnd` keeps of what `trimStart` kept occurs in the text
      where the leading whitespace ends. */
  lemma TrimIsInfix(s: string)
    ensures OccursAt(s, TrimEnd(TrimStart(s)), |s| - |TrimStart(s)|)
  {
    PrefixOfSuffixOccurs(s, TrimStart(s), TrimEnd(TrimStart(s)));
  }

  /** A prefix of a suffix of `s` occurs in `s` where the suffix starts. */
  lemma PrefixOfSuffixOccurs(s: string, t: string, r: string)
    requires |t| <= |s| && t == s[|s| - |t|..]
    requires |r| <= |t| && r == t[..|r|]
    ensures OccursAt(s, r, |s| - |t|)
  {
    var k := |s| - |t|;
    assert s[k..k + |r|] == s[k..][..|r|];
  }

  lemma InfixTransitive(a: string, b: string, c: string)
    requires IsInfix(a, b) && IsInfix(b, c)
    ensures IsInfix(a, c)
  {
    var i :| OccursAt(b, a, i);
    var j :| OccursAt(c, b, j);
    forall t | 0 <= t < |a| ensures c[j + i + t] == a[t] {
      assert c[j + i + t] == b[i + t];
    }
    assert c[j + i..j + i + |a|] == a;
    assert OccursAt(c, a, j + i);
  }

  lemma {:induction false} TrimStartOfUnspaced(s: string)
    requires s == [] || !IsSpace(s[0])
    ensures TrimStart(s) == s
  {
  }

  lemma {:induction false} TrimEndOfUnspaced(s: string)
    requires s == [] || !IsSpace(s[|s| - 1])
    ensures TrimEnd(s) == s
  {
  }

  /** Trimming twice is trimming once. */
  lemma TrimIdempotent(s: string)
    ensures Trim(Trim(s)) == Trim(s)
  {
    var r := Trim(s);
    TrimStartOfUnspaced(r);
    TrimEndOfUnspaced(r);
  }

  // ---------------------------------------------------------------------
  // Case mapping (ASCII)

  function LowerChar(c: char): char {
    if 'A' <= c <= 'Z' then (c as int + 32) as char else c
  }

  /** Case mapping leaves whitespace alone and creates none. */
  lemma LowerCharSpace(c: char)
    ensures IsSpace(LowerChar(c)) == IsSpace(c)
    ensures IsSpace(c) ==> LowerChar(c) == c
  {
  }

  function UpperChar(c: char): char {
    if 'a' <= c <= 'z' then (c as int - 32) as char else c
  }

  /** `s.toLowerCase()`, character by character. */
  function Lower(s: string): (r: string)
    ensures |r| == |s|
    ensures forall i :: 0 <= i < |s| ==> r[i] == LowerChar(s[i])
  {
    if s == [] then [] else [LowerChar(s[0])] + Lower(s[1..])
  }

  /** `s.toUpperCase()`, character by character. */
  function Upper(s: string): (r: string)
    ensures |r| == |s|
    ensures forall i :: 0 <= i < |s| ==> r[i] == UpperChar(s[i])
  {
    if s == [] then [] else [UpperChar(s[0])] + Upper(s[1..])
  }

  predicate HasNoUpper(s: string) {
    forall i :: 0 <= i < |s| ==> !('A' <= s[i] <= 'Z')
  }

  lemma LowerHasNoUpper(s: string)
    ensures HasNoUpper(Lower(s))
  {
  }

  lemma LowerIdempotent(s: string)
    ensures Lower(Lower(s)) == Lower(s)
  {
  }

  lemma LowerOfNoUpper(s: string)
    requires HasNoUpper(s)
    ensures Lower(s) == s
  {
  }

  lemma {:induction false} TrimStartLower(s: string)
    ensures TrimStart(Lower(s)) == Lower(TrimStart(s))
    decreases |s|
  {
    var l := Lower(s);
    if s != [] {
      LowerCharSpace(s[0]);
      assert l[0] == LowerChar(s[0]);
      if IsSpace(s[0]) {
        assert l[1..] == Lower(s[1..]);
        TrimStartLower(s[1..]);
      }
    }
  }

  lemma {:induction false} TrimEndLower(s: string)
    ensures TrimEnd(Lower(s)) == Lower(TrimEnd(s))
    decreases |s|
  {
    var l := Lower(s);
    if s != [] {
      LowerCharSpace(s[|s| - 1]);
      assert l[|s| - 1] == LowerChar(s[|s| - 1]);
      if IsSpace(s[|s| - 1]) {
        assert l[..|s| - 1] == Lower(s[..|s| - 1]);
        TrimEndLower(s[..|s| - 1]);
      }
    }
  }

  /** `p.toLowerCase().trim()` and `p.trim().toLowerCase()` agree: both
      orders occur in the source. */
  lemma TrimLowerCommute(s: string)
    ensures Trim(Lower(s)) == Lower(Trim(s))
  {
    TrimStartLower(s);
    TrimEndLower(TrimStart(s));
  }

  // ---------------------------------------------------------------------
  // Prefixes, suffixes and search

  predicate StartsWith(s: string, p: string) {
    |p| <= |s| && s[..|p|] == p
  }

  predicate EndsWith(s: string, p: string) {
    |p| <= |s| && s[|s| - |p|..] == p
  }

  lemma OccursShift(s: string, p: string, j: int)
    requires s != [] && j >= 0
    ensures OccursAt(s[1..], p, j) <==> OccursAt(s, p, j + 1)
  {
    if j + |p| <= |s| - 1 {
      assert s[1..][j..j + |p|] == s[j + 1..j + 1 + |p|];
    }
  }

  /** `s.indexOf(p)`: the first position where `p` occurs, or -1. */
  function IndexOf(s: string, p: string): (r: int)
    ensures r == -1 || 0 <= r <= |s| - |p|
    ensures r >= 0 ==> OccursAt(s, p, r)
    ensures forall j :: 0 <= j && (r < 0 || j < r) ==> !OccursAt(s, p, j)
    decreases |s|
  {
    if StartsWith(s, p) then
      assert OccursAt(s, p, 0);
      0
    else if |s| <= |p| then
      -1
    else
      var k := IndexOf(s[1..], p);
      assert !OccursAt(s, p, 0) by {
        assert s[..|p|] == s[0..|p|];
      }
      assert forall j :: 0 <= j ==> (OccursAt(s[1..], p, j) <==> OccursAt(s, p, j + 1)) by {
        forall j | 0 <= j ensures OccursAt(s[1..], p, j) <==> OccursAt(s, p, j + 1) {
          OccursShift(s, p, j);
        }
      }
      assert forall j :: 1 <= j ==> (OccursAt(s[1..], p, j - 1) <==> OccursAt(s, p, j));
      if k < 0 then -1 else k + 1
  }

  /** `s.includes(p)`. */
  predicate Includes(s: string, p: string) {
    IndexOf(s, p) >= 0
  }

  /** `s.includes(p)` holds exactly when `p` occurs somewhere in `s`. */
  lemma IncludesIff(s: string, p: string)
    ensures Includes(s, p) <==> IsInfix(p, s)
  {
    if Includes(s, p) {
      assert OccursAt(s, p, IndexOf(s, p));
    }
  }

  /** A string without a given character does not contain it. */
  lemma CharAbsentNotIncluded(s: string, c: char)
    requires c !in s
    ensures !Includes(s, [c])
  {
    forall k | 0 <= k < |s| ensures !OccursAt(s, [c], k) {
      assert s[k..k + 1] == [s[k]];
    }
  }

  // ---------------------------------------------------------------------
  // Splitting and joining

  /** `s.split(sep)` for a non-empty literal separator. */
  function SplitOn(s: string, sep: string): (r: seq<string>)
    requires |sep| > 0
    ensures |r| >= 1
    decreases |s|
  {
    var i := IndexOf(s, sep);
    if i < 0 then [s] else [s[..i]] + SplitOn(s[i + |sep|..], sep)
  }

  /** `parts.join(sep)`. */
  function Join(parts: seq<string>, sep: string): string {
    if |parts| == 0 then ""
    else if |parts| == 1 then parts[0]
    else parts[0] + sep + Join(parts[1..], sep)
  }

  /** `s.split('')`: one single-character string per character. */
  function Chars(s: string): (r: seq<string>)
    ensures |r| == |s|
    ensures forall i :: 0 <= i < |s| ==> r[i] == [s[i]]
  {
    seq(|s|, i requires 0 <= i < |s| => [s[i]])
  }

  /** Splitting and joining again on the same separator gives back the string. */
  lemma {:induction false} JoinSplitOn(s: string, sep: string)
    requires |sep| > 0
    ensures Join(SplitOn(s, sep), sep) == s
    decreases |s|
  {
    var i := IndexOf(s, sep);
    if i >= 0 {
      var rest := s[i + |sep|..];
      var tail := SplitOn(rest, sep);
      var parts := SplitOn(s, sep);
      assert parts == [s[..i]] + tail;
      assert parts[1..] == tail;
      JoinSplitOn(rest, sep);
      calc {
        Join(parts, sep);
        s[..i] + sep + Join(tail, sep);
        s[..i] + sep + rest;
        { assert s[i..i + |sep|] == sep; }
        s;
      }
    }
  }

  /** Every part occurs in the joined string. */
  lemma {:induction false} JoinHasParts(parts: seq<string>, sep: string, i: nat)
    requires i < |parts|
    ensures IsInfix(parts[i], Join(parts, sep))
  {
    var s := Join(parts, sep);
    if |parts| == 1 {
      assert OccursAt(s, parts[0], 0);
    } else if i == 0 {
      assert s[0..|parts[0]|] == parts[0];
      assert OccursAt(s, parts[0], 0);
    } else {
      var rest := Join(parts[1..], sep);
      JoinHasParts(parts[1..], sep, i - 1);
      var k :| OccursAt(rest, parts[i], k);
      var off := |parts[0]| + |sep|;
      assert s == parts[0] + sep + rest;
      assert s[off + k..off + k + |parts[i]|] == rest[k..k + |parts[i]|];
      assert OccursAt(s, parts[i], off + k);
    }
  }

  /** A string that does not contain the separator splits into itself alone. */
  lemma SplitOnAbsent(s: string, sep: string)
    requires |sep| > 0 && !Includes(s, sep)
    ensures SplitOn(s, sep) == [s]
  {
  }

  /** Each piece of a split occurs in the split string. */
  lemma {:induction false} SplitOnPiecesAreInfixes(s: string, sep: string, n: nat)
    requires |sep| > 0 && n < |SplitOn(s, sep)|
    ensures IsInfix(SplitOn(s, sep)[n], s)
    decreases |s|
  {
    var i := IndexOf(s, sep);
    if i < 0 {
      assert OccursAt(s, s, 0);
    } else {
      var rest := s[i + |sep|..];
      assert SplitOn(s, sep) == [s[..i]] + SplitOn(rest, sep);
      if n == 0 {
        assert OccursAt(s, s[..i], 0);
      } else {
        SplitOnPiecesAreInfixes(rest, sep, n - 1);
        assert OccursAt(s, rest, i + |sep|);
        InfixTransitive(SplitOn(rest, sep)[n - 1], rest, s);
      }
    }
  }

  /** A separator that occurs yields at least two pieces. */
  lemma SplitOnIncluded(s: string, sep: string)
    requires |sep| > 0 && Includes(s, sep)
    ensures |SplitOn(s, sep)| >= 2
  {
  }

  lemma IndexOfAfterPlain(a: string, c: char, b: string)
    requires c !in a
    ensures IndexOf(a + [c] + b, [c]) == |a|
  {
    var s := a + [c] + b;
    assert OccursAt(s, [c], |a|);
    forall k | 0 <= k < |a| ensures !OccursAt(s, [c], k) {
      assert s[k] == a[k];
    }
  }

  /** Joining pieces that are free of the separator character, then
      splitting on that character, gives back the pieces. */
  lemma {:induction false} SplitOnJoin(parts: seq<string>, c: char)
    requires |parts| >= 1
    requires forall i :: 0 <= i < |parts| ==> c !in parts[i]
    ensures SplitOn(Join(parts, [c]), [c]) == parts
  {
    if |parts| == 1 {
      var s := parts[0];
      forall k | 0 <= k < |s| ensures !OccursAt(s, [c], k) {
        assert s[k..k + 1] == [s[k]];
      }
    } else {
      var rest := Join(parts[1..], [c]);
      var s := parts[0] + [c] + rest;
      IndexOfAfterPlain(parts[0], c, rest);
      assert s[|parts[0]| + 1..] == rest;
      assert s[..|parts[0]|] == parts[0];
      SplitOnJoin(parts[1..], c);
    }
  }

  /** The pieces of a split on a character do not contain that character. */
  lemma {:induction false} SplitCharPiecesFree(s: string, c: char, n: nat)
    requires n < |SplitOn(s, [c])|
    ensures c !in SplitOn(s, [c])[n]
    decreases |s|
  {
    var i := IndexOf(s, [c]);
    var piece := SplitOn(s, [c])[n];
    if i < 0 || n == 0 {
      var bound := if i < 0 then |s| else i;
      assert piece == s[..bound];
      forall k | 0 <= k < bound ensures s[k] != c {
        assert !OccursAt(s, [c], k);
        assert s[k..k + 1] == [s[k]];
      }
    } else {
      SplitCharPiecesFree(s[i + 1..], c, n - 1);
    }
  }

  /** A join splits at any inner boundary into the join of the parts before
      and the join of the parts after. */
  lemma {:induction false} JoinAt(parts: seq<string>, sep: string, k: nat)
    requires 0 < k < |parts|
    ensures Join(parts, sep) == Join(parts[..k], sep) + sep + Join(parts[k..], sep)
  {
    if k > 1 {
      JoinAt(parts[1..], sep, k - 1);
      assert parts[1..][..k - 1] == parts[1..k];
      assert parts[1..][k - 1..] == parts[k..];
      assert parts[..k][1..] == parts[1..k];
    }
  }

  /** Joining a prefix of the parts gives a prefix of the join. */
  lemma JoinPrefix(parts: seq<string>, sep: string, k: nat)
    requires k <= |parts|
    ensures StartsWith(Join(parts, sep), Join(parts[..k], sep))
  {
    if 0 < k < |parts| {
      JoinAt(parts, sep, k);
    } else if k == |parts| {
      assert parts[..k] == parts;
    }
  }

  /** Joining a suffix of the parts gives a suffix of the join. */
  lemma JoinSuffix(parts: seq<string>, sep: string, k: nat)
    requires k <= |parts|
    ensures EndsWith(Join(parts, sep), Join(parts[k..], sep))
  {
    if 0 < k < |parts| {
      JoinAt(parts, sep, k);
    } else if k == 0 {
      assert parts[k..] == parts;
    }
  }

  /** Index of the first whitespace character, or -1. */
  function FirstSpace(s: string): (r: int)
    ensures -1 <= r < |s|
    ensures r >= 0 ==> IsSpace(s[r])
    ensures forall j :: 0 <= j < |s| && (r < 0 || j < r) ==> !IsSpace(s[j])
    decreases |s|
  {
    if s == [] then -1
    else if IsSpace(s[0]) then 0
    else
      var k := FirstSpace(s[1..]);
      if k < 0 then -1 else k + 1
  }

  /** `s.split(/\s+/)`: the pieces between maximal runs of whitespace. */
  function SplitWs(s: string): (r: seq<string>)
    ensures |r| >= 1
    decreases |s|
  {
    var i := FirstSpace(s);
    if i < 0 then [s]
    else
      var rest := TrimStart(s[i..]);
      assert |rest| < |s[i..]|;
      [s[..i]] + SplitWs(rest)
  }

  /** Pieces of a whitespace split contain no whitespace. */
  lemma {:induction false} SplitWsNoSpace(s: string, n: nat)
    requires n < |SplitWs(s)|
    ensures NoSpace(SplitWs(s)[n])
    decreases |s|
  {
    var i := FirstSpace(s);
    if i >= 0 && n > 0 {
      SplitWsNoSpace(TrimStart(s[i..]), n - 1);
    }
  }

  /** A trimmed, non-empty line splits into non-empty words. */
  lemma {:induction false} SplitWsNonEmpty(s: string, n: nat)
    requires s != [] && !IsSpace(s[0]) && !IsSpace(s[|s| - 1])
    requires n < |SplitWs(s)|
    ensures SplitWs(s)[n] != []
    decreases |s|
  {
    var i := FirstSpace(s);
    if i >= 0 {
      assert i > 0;
      if n > 0 {
        var rest := TrimStart(s[i..]);
        assert rest != [];
        assert rest[|rest| - 1] == s[|s| - 1];
        SplitWsNonEmpty(rest, n - 1);
      }
    }
  }

  /** Text made of whitespace only (the empty text included). */
  predicate Blank(s: string) {
    forall i :: 0 <= i < |s| ==> IsSpace(s[i])
  }

  /** Leading whitespace in front of text that starts with a non-space is
      exactly what `trimStart` drops. */
  lemma {:induction false} TrimStartBlank(lead: string, x: string)
    requires Blank(lead) && (x == [] || !IsSpace(x[0]))
    ensures TrimStart(lead + x) == x
    decreases |lead|
  {
    if lead == [] {
      assert lead + x == x;
    } else {
      assert (lead + x)[1..] == lead[1..] + x;
      TrimStartBlank(lead[1..], x);
    }
  }

  /** Trailing whitespace after text that ends with a non-space is exactly
      what `trimEnd` drops. */
  lemma {:induction false} TrimEndBlank(x: string, trail: string)
    requires Blank(trail) && (x == [] || !IsSpace(x[|x| - 1]))
    ensures TrimEnd(x + trail) == x
    decreases |trail|
  {
    if trail == [] {
      assert x + trail == x;
    } else {
      var init := trail[..|trail| - 1];
      assert (x + trail)[..|x + trail| - 1] == x + init;
      TrimEndBlank(x, init);
    }
  }

  /** `trim` removes the whitespace around text that starts and ends with a
      non-space, and nothing else. */
  lemma TrimPadded(lead: string, s: string, trail: string)
    requires Blank(lead) && Blank(trail)
    requires s != [] && !IsSpace(s[0]) && !IsSpace(s[|s| - 1])
    ensures Trim(lead + s + trail) == s
  {
    assert lead + s + trail == lead + (s + trail);
    TrimStartBlank(lead, s + trail);
    TrimEndBlank(s, trail);
  }

  /** Blank text trims to the empty string. */
  lemma TrimBlank(s: string)
    requires Blank(s)
    ensures Trim(s) == ""
  {
    assert s + [] == s;
    TrimStartBlank(s, []);
  }

  /** Splitting at a run of whitespace after a first word peels off that
      word. */
  lemma SplitWsStep(w: string, sep: string, rest: string)
    requires NoSpace(w) && sep != [] && Blank(sep)
    requires rest == [] || !IsSpace(rest[0])
    ensures SplitWs(w + sep + rest) == [w] + SplitWs(rest)
  {
    var t := sep + rest;
    var s := w + t;
    assert w + sep + rest == s;
    FirstSpaceAfterWord(w, t);
    assert s[..|w|] == w && s[|w|..] == t;
    TrimStartBlank(sep, rest);
  }

  /** The first whitespace after a word without any is where the word
      ends. */
  lemma {:induction false} FirstSpaceAfterWord(w: string, t: string)
    requires NoSpace(w) && t != [] && IsSpace(t[0])
    ensures FirstSpace(w + t) == |w|
    decreases |w|
  {
    if w != [] {
      assert (w + t)[1..] == w[1..] + t;
      FirstSpaceAfterWord(w[1..], t);
    }
  }

  lemma SpaceBlank()
    ensures Blank(" ")
  {
    assert " "[0] == ' ';
  }

  /** Text with `p` appended ends with `p`. */
  lemma EndsWithAppended(s: string, p: string)
    ensures EndsWith(s + p, p)
  {
    assert (s + p)[|s|..] == p;
  }

  /** Words single-spaced and followed by one more space trim back to the
      joined words. */
  lemma TrimJoinedLine(words: seq<string>)
    requires words != []
    requires forall i :: 0 <= i < |words| ==> words[i] != [] && NoSpace(words[i])
    ensures Trim(Join(words, " ") + " ") == Join(words, " ")
  {
    JoinedEdges(words);
    TrimSpaceAfter(Join(words, " "));
  }

  /** Non-empty words without whitespace, joined, neither start nor end
      with whitespace. */
  lemma JoinedEdges(words: seq<string>)
    requires words != []
    requires forall i :: 0 <= i < |words| ==> words[i] != [] && NoSpace(words[i])
    ensures var j := Join(words, " "); j != [] && !IsSpace(j[0]) && !IsSpace(j[|j| - 1])
  {
    var last := words[|words| - 1];
    assert NoSpace(words[0]) && NoSpace(last) && last != [];
    assert !IsSpace(words[0][0]) && !IsSpace(last[|last| - 1]);
    JoinEnds(words, " ");
  }

  /** One trailing space is trimmed away from text with non-space ends. */
  lemma TrimSpaceAfter(s: string)
    requires s != [] && !IsSpace(s[0]) && !IsSpace(s[|s| - 1])
    ensures Trim(s + " ") == s
  {
    assert Blank("") && Blank(" ");
    TrimPadded("", s, " ");
    assert "" + s + " " == s + " ";
  }

  /** Words joined by a run of whitespace split back into the same words. */
  lemma {:induction false} SplitWsJoin(words: seq<string>, sep: string)
    requires words != [] && sep != [] && Blank(sep)
    requires forall i :: 0 <= i < |words| ==> words[i] != [] && NoSpace(words[i])
    ensures SplitWs(Join(words, sep)) == words
    decreases |words|
  {
    var w := words[0];
    if |words| == 1 {
      assert Join(words, sep) == w;
    } else {
      var rest := Join(words[1..], sep);
      JoinEnds(words[1..], sep);
      SplitWsStep(w, sep, rest);
      SplitWsJoin(words[1..], sep);
      assert words == [w] + words[1..];
    }
  }

  /** The words of a joined line start with the first word and end with
      the last one. */
  lemma JoinEnds(words: seq<string>, sep: string)
    requires words != [] && words[0] != [] && words[|words| - 1] != []
    ensures Join(words, sep) != []
    ensures Join(words, sep)[0] == words[0][0]
    ensures Join(words, sep)[|Join(words, sep)| - 1] == words[|words| - 1][|words[|words| - 1]| - 1]
  {
    var n := |words|;
    JoinPrefix(words, sep, 1);
    assert words[..1] == [words[0]];
    JoinSuffix(words, sep, n - 1);
    assert words[n - 1..] == [words[n - 1]];
  }

  /** The number of non-empty pieces of a whitespace split, i.e. the words. */
  function WordCount(s: string): nat {
    Count(SplitWs(s))
  }

  function Count(pieces: seq<string>): nat {
    if pieces == [] then 0
    else (if pieces[0] != [] then 1 else 0) + Count(pieces[1..])
  }

  // ---------------------------------------------------------------------
  // Padding and numbers

  function Spaces(n: nat): (r: string)
    ensures |r| == n && forall i :: 0 <= i < n ==> r[i] == ' '
  {
    seq(n, _ => ' ')
  }

  /** `s.padEnd(n)`: `s` followed by spaces up to length `n`. */
  function PadEnd(s: string, n: nat): string {
    if |s| >= n then s else s + Spaces(n - |s|)
  }

  /** `s.padStart(n, ' ')`: spaces up to length `n`, then `s`. */
  function PadStart(s: string, n: nat): string {
    if |s| >= n then s else Spaces(n - |s|) + s
  }

  lemma PadEndProperties(s: string, n: nat)
    ensures |PadEnd(s, n)| == if |s| >= n then |s| else n
    ensures StartsWith(PadEnd(s, n), s)
    ensures forall i :: |s| <= i < |PadEnd(s, n)| ==> PadEnd(s, n)[i] == ' '
  {
  }

  function DigitChar(d: nat): char
    requires d < 10
  {
    ('0' as int + d) as char
  }

  predicate IsDigit(c: char) {
    '0' <= c <= '9'
  }

  /** `String(n)` for a natural number: its decimal digits. */
  function NatToString(n: nat): (r: string)
    ensures |r| >= 1 && forall i :: 0 <= i < |r| ==> IsDigit(r[i])
    ensures n > 0 ==> r[0] != '0'
    decreases n
  {
    if n < 10 then [DigitChar(n)] else NatToString(n / 10) + [DigitChar(n % 10)]
  }

  function DigitValue(c: char, radix: nat): int {
    if '0' <= c <= '9' && (c as int - '0' as int) < radix then c as int - '0' as int
    else if radix == 16 && 'a' <= c <= 'f' then c as int - 'a' as int + 10
    else if radix == 16 && 'A' <= c <= 'F' then c as int - 'A' as int + 10
    else -1
  }

  /** Length of the longest prefix of `s` made of digits of `radix`. */
  function DigitRun(s: string, radix: nat): (n: nat)
    ensures n <= |s|
  {
    if s != [] && DigitValue(s[0], radix) >= 0 then 1 + DigitRun(s[1..], radix) else 0
  }

  /** The value of a string of digits of `radix`. */
  function DigitsValue(s: string, radix: nat): int
    requires radix > 0
  {
    if s == [] then 0
    else DigitsValue(s[..|s| - 1], radix) * radix + DigitValue(s[|s| - 1], radix)
  }

  /** The unsigned part of `parseInt`: an optional `0x` prefix selecting
      base 16, then the longest run of digits; `None` when there is none. */
  function ParseUnsigned(u: string): Option<int> {
    var hex := StartsWith(u, "0x") || StartsWith(u, "0X");
    var radix := if hex then 16 else 10;
    var body := if hex then u[2..] else u;
    var n := DigitRun(body, radix);
    if n == 0 then None else Some(DigitsValue(body[..n], radix))
  }

  /** `parseInt(s)` with no radix: leading whitespace, an optional sign, then
      the unsigned part.  `None` is NaN. */
  function ParseInt(s: string): Option<int> {
    var t := TrimStart(s);
    if t != [] && t[0] == '-' then
      match ParseUnsigned(t[1..])
      case None => None
      case Some(v) => Some(-v)
    else if t != [] && t[0] == '+' then ParseUnsigned(t[1..])
    else ParseUnsigned(t)
  }

  lemma {:induction false} DigitsValueOfNat(n: nat)
    ensures DigitRun(NatToString(n), 10) == |NatToString(n)|
    ensures DigitsValue(NatToString(n), 10) == n
    decreases n
  {
    var r := NatToString(n);
    if n < 10 {
      assert r[..|r| - 1] == [];
    } else {
      DigitsValueOfNat(n / 10);
      assert r[..|r| - 1] == NatToString(n / 10);
      DigitRunAll(r);
    }
  }

  lemma {:induction false} DigitRunAll(s: string)
    requires forall i :: 0 <= i < |s| ==> IsDigit(s[i])
    ensures DigitRun(s, 10) == |s|
  {
    if s != [] {
      DigitRunAll(s[1..]);
    }
  }

  lemma ParseUnsignedDecimal(r: string)
    requires |r| >= 1 && forall i :: 0 <= i < |r| ==> IsDigit(r[i])
    ensures ParseUnsigned(r) == Some(DigitsValue(r, 10))
  {
    assert !StartsWith(r, "0x") && !StartsWith(r, "0X") by {
      if |r| >= 2 { assert IsDigit(r[1]); }
    }
    DigitRunAll(r);
    assert r[..|r|] == r;
  }

  /** `parseInt(String(n))` gives `n` back. */
  lemma ParseIntNatToString(n: nat)
    ensures ParseInt(NatToString(n)) == Some(n)
  {
    var r := NatToString(n);
    TrimStartOfUnspaced(r);
    assert IsDigit(r[0]);
    ParseUnsignedDecimal(r);
    DigitsValueOfNat(n);
  }

  // ---------------------------------------------------------------------
  // Slicing, counting and byte length

  /** How `slice` reads a position: a negative one counts back from the end;
      the result is clamped to `[0, len]`. */
  function RelativeIndex(k: int, len: nat): (r: nat)
    ensures r <= len
    ensures 0 <= k <= len ==> r == k
    ensures 0 <= len + k && k < 0 ==> r == len + k
  {
    var n: int := len;
    if n + k < 0 then 0
    else if k < 0 then (n + k) as nat
    else if k > len then len
    else k as nat
  }

  /** `s.slice(start, end)`. */
  function Slice<T>(s: seq<T>, start: int, end: int): (r: seq<T>)
    ensures |r| <= |s|
  {
    var a := RelativeIndex(start, |s|);
    var b := RelativeIndex(end, |s|);
    if a <= b then s[a..b] else []
  }

  /** `s.slice(start)`. */
  function SliceFrom<T>(s: seq<T>, start: int): (r: seq<T>)
    ensures |r| <= |s|
  {
    Slice(s, start, |s|)
  }

  /** `s.split(c).length - 1` is the number of occurrences of `c`. */
  lemma {:induction false} SplitCharCount(s: string, c: char)
    ensures |SplitOn(s, [c])| == multiset(s)[c] + 1
    decreases |s|
  {
    var i := IndexOf(s, [c]);
    if i < 0 {
      if c in s {
        var k :| 0 <= k < |s| && s[k] == c;
        assert s[k..k + 1] == [c];
        assert OccursAt(s, [c], k);
      }
    } else {
      var rest := s[i + 1..];
      SplitCharCount(rest, c);
      assert s == s[..i] + [c] + rest by {
        assert s[i..i + 1] == [c];
      }
      assert c !in s[..i] by {
        forall k | 0 <= k < i ensures s[k] != c {
          assert !OccursAt(s, [c], k);
          assert s[k..k + 1] == [s[k]];
        }
      }
      assert multiset(s) == multiset(s[..i]) + multiset{c} + multiset(rest);
    }
  }

  /** Bytes needed to encode one character in UTF-8. */
  function Utf8Width(c: char): nat {
    if c as int < 0x80 then 1
    else if c as int < 0x800 then 2
    else if c as int < 0x10000 then 3
    else 4
  }

  /** `new Blob([s]).size`: the UTF-8 length of `s`. */
  function Utf8Length(s: string): (n: nat)
    ensures |s| <= n <= 4 * |s|
    ensures (forall i :: 0 <= i < |s| ==> s[i] as int < 0x80) ==> n == |s|
  {
    if s == [] then 0 else Utf8Width(s[0]) + Utf8Length(s[1..])
  }

  // ---------------------------------------------------------------------
  // Occurrence counting and global replacement

  /** Number of non-overlapping occurrences of a non-empty `p` found scanning
      left to right, as `(s.match(/p/g) || []).length` counts them. */
  function CountOf(s: string, p: string): nat
    requires |p| > 0
    decreases |s|
  {
    if |s| < |p| then 0
    else if s[..|p|] == p then 1 + CountOf(s[|p|..], p)
    else CountOf(s[1..], p)
  }

  /** Counting over a concatenation adds up the two counts when the
      appended text cannot complete an occurrence begun before it, that is,
      when its first character occurs in the pattern only at the start. */
  lemma {:induction false} CountOfAppend(s: string, t: string, p: string)
    requires |p| > 0 && t != [] && t[0] !in p[1..]
    ensures CountOf(s + t, p) == CountOf(s, p) + CountOf(t, p)
    decreases |s|
  {
    if s == [] {
      assert s + t == t;
    } else {
      var u := s + t;
      if |u| >= |p| && u[..|p|] == p {
        assert u[|s|] == t[0];
        assert |s| >= |p|;
        assert s[..|p|] == p;
        assert u[|p|..] == s[|p|..] + t;
        CountOfAppend(s[|p|..], t, p);
      } else {
        assert u[1..] == s[1..] + t;
        CountOfAppend(s[1..], t, p);
        if |s| >= |p| {
          assert s[..|p|] == u[..|p|];
        }
      }
    }
  }

  /** `s.replace(/p/g, r)` for a literal pattern `p` with no special characters
      in `r`. */
  function ReplaceAll(s: string, p: string, r: string): string
    requires |p| > 0
    decreases |s|
  {
    if |s| < |p| then s
    else if s[..|p|] == p then r + ReplaceAll(s[|p|..], p, r)
    else [s[0]] + ReplaceAll(s[1..], p, r)
  }

  /** A pattern that does not occur is not replaced. */
  lemma {:induction false} ReplaceAllAbsent(s: string, p: string, r: string)
    requires |p| > 0 && !Includes(s, p)
    ensures ReplaceAll(s, p, r) == s
    decreases |s|
  {
    if |s| >= |p| {
      assert !OccursAt(s, p, 0);
      assert s[..|p|] == s[0..|p|];
      var t := s[1..];
      if Includes(t, p) {
        OccursShift(s, p, IndexOf(t, p));
      }
      ReplaceAllAbsent(t, p, r);
    }
  }
}

/**
 * The ANSI-style colour tags of the terminal's output: `${red}`, `${bold}`,
 * `${reset}` and the like become HTML `<span>` tags, and spans left open
 * are closed at the end.
 */
module AnsiColors {

  import opened Wrappers
  import opened JsStrings

  /** The colour names and their hex values, in the order they are tried. */
  const Colors: seq<(string, string)> := [
    ("black", "#000000"), ("red", "#ff0000"), ("green", "#00ff00"), ("yellow", "#ffff00"),
    ("blue", "#0000ff"), ("magenta", "#ff00ff"), ("cyan", "#00ffff"), ("white", "#ffffff"),
    ("bright-black", "#808080"), ("bright-red", "#ff6b6b"), ("bright-green", "#69ff69"),
    ("bright-yellow", "#ffff69"), ("bright-blue", "#6b69ff"), ("bright-magenta", "#ff69ff"),
    ("bright-cyan", "#69ffff"), ("bright-white", "#ffffff")
  ]

  /** The style names and their CSS, in the order they are tried; `reset`
      closes a span instead. */
  const Styles: seq<(string, string)> := [
    ("reset", "reset"), ("bold", "font-weight: bold"), ("dim", "opacity: 0.7"),
    ("italic", "font-style: italic"), ("underline", "text-decoration: underline"),
    ("reverse", "filter: invert(1)")
  ]

  /** The tag `${name}` in a text. */
  function Token(name: string): (r: string)
    ensures |r| == |name| + 3 && r[0] == '$'
  {
    "${" + name + "}"
  }

  function ColorOpen(hex: string): string {
    "<span style=\"color: " + hex + "\">"
  }

  function StyleOpen(css: string): string {
    "<span style=\"" + css + "\">"
  }

  /** The replacement for each colour tag, in table order. */
  function ColorRules(colors: seq<(string, string)>): (r: seq<(string, string)>)
    ensures |r| == |colors|
    ensures forall i :: 0 <= i < |r| ==> r[i] == (colors[i].0, ColorOpen(colors[i].1))
  {
    seq(|colors|, i requires 0 <= i < |colors| => (colors[i].0, ColorOpen(colors[i].1)))
  }

  /** The replacement for each style tag, in table order. */
  function StyleRules(styles: seq<(string, string)>): (r: seq<(string, string)>)
    ensures |r| == |styles|
    ensures forall i :: 0 <= i < |r| ==>
      r[i] == (styles[i].0, if styles[i].0 == "reset" then "</span>" else StyleOpen(styles[i].1))
  {
    seq(|styles|, i requires 0 <= i < |styles| =>
      (styles[i].0, if styles[i].0 == "reset" then "</span>" else StyleOpen(styles[i].1)))
  }

  /** Each rule's tag replaced everywhere, the rules taken in order. */
  function ApplyRules(s: string, rules: seq<(string, string)>): string
    decreases |rules|
  {
    if rules == [] then s
    else
      var last := rules[|rules| - 1];
      ReplaceAll(ApplyRules(s, rules[..|rules| - 1]), Token(last.0), last.1)
  }

  /** `k` closing tags. */
  function ClosingTags(k: nat): (r: string)
    ensures |r| == 7 * k
  {
    if k == 0 then "" else ClosingTags(k - 1) + "</span>"
  }

  /** One `</span>` for each `<span` that has no closing tag. */
  function Close(h: string): string {
    var opens := CountOf(h, "<span");
    var closes := CountOf(h, "</span>");
    h + ClosingTags(if opens > closes then opens - closes else 0)
  }

  /** `colorize(text)`: nothing for a missing or empty text; otherwise the
      colour tags, then the style tags, replaced, and open spans closed.
      `None` stands for an argument that is not a string. */
  function Colorized(colors: seq<(string, string)>, styles: seq<(string, string)>, text: Option<string>): (r: string)
    ensures text.None? || text == Some("") ==> r == ""
  {
    if text.None? || text.value == "" then ""
    else Close(ApplyRules(ApplyRules(text.value, ColorRules(colors)), StyleRules(styles)))
  }

  // ---------------------------------------------------------------------
  // Counting tags

  /** A text with no character `p[0]` adds nothing to the count in front of
      any other text. */
  lemma {:induction false} CountSkipsPlain(x: string, y: string, p: string)
    requires |p| > 0 && p[0] !in x
    ensures CountOf(x + y, p) == CountOf(y, p)
    decreases |x|
  {
    if x != [] {
      var u := x + y;
      if |u| >= |p| {
        assert u[..|p|] != p by {
          assert u[0] == x[0];
        }
      }
      assert u[1..] == x[1..] + y;
      CountSkipsPlain(x[1..], y, p);
    } else {
      assert x + y == y;
    }
  }

  /** Appending closing tags adds to the closing count and leaves the
      opening count alone. */
  lemma {:induction false} ClosingTagsCount(h: string, k: nat)
    ensures CountOf(h + ClosingTags(k), "<span") == CountOf(h, "<span")
    ensures CountOf(h + ClosingTags(k), "</span>") == CountOf(h, "</span>") + k
  {
    if k == 0 {
      assert h + ClosingTags(0) == h;
    } else {
      ClosingTagsCount(h, k - 1);
      var before := h + ClosingTags(k - 1);
      assert h + ClosingTags(k) == before + "</span>" by {
        assert ClosingTags(k) == ClosingTags(k - 1) + "</span>";
      }
      AppendCloseTag(before);
    }
  }

  /** One closing tag more. */
  lemma AppendCloseTag(before: string)
    ensures CountOf(before + "</span>", "<span") == CountOf(before, "<span")
    ensures CountOf(before + "</span>", "</span>") == CountOf(before, "</span>") + 1
  {
    CloseTagCounts();
    CountOfAppend(before, "</span>", "<span");
    CountOfAppend(before, "</span>", "</span>");
  }

  /** A closing tag holds one closing tag and no opening one, and its first
      character cannot continue either pattern. */
  lemma CloseTagCounts()
    ensures CountOf("</span>", "<span") == 0 && CountOf("</span>", "</span>") == 1
    ensures '<' !in "<span"[1..] && '<' !in "</span>"[1..]
  {
    var c := "</span>";
    assert c[..5] != "<span" by {
      assert c[1] == '/';
    }
    CountSkipsPlain(c[1..], [], "<span");
    assert c[1..] + [] == c[1..];
    assert c[..7] == c;
    assert c[7..] == [];
  }

  /** However the tags were nested, the result has at least as many closing
      tags as opening ones. */
  lemma ColorizedBalanced(colors: seq<(string, string)>, styles: seq<(string, string)>, text: Option<string>)
    ensures CountOf(Colorized(colors, styles, text), "</span>") >= CountOf(Colorized(colors, styles, text), "<span")
  {
    if text.Some? && text.value != "" {
      CloseBalances(ApplyRules(ApplyRules(text.value, ColorRules(colors)), StyleRules(styles)));
    }
  }

  /** Closing the open spans of any text leaves none open. */
  lemma CloseBalances(h: string)
    ensures CountOf(Close(h), "</span>") >= CountOf(Close(h), "<span")
  {
    var opens := CountOf(h, "<span");
    var closes: int := CountOf(h, "</span>");
    var k := if opens > closes then opens - closes else 0;
    ClosingTagsCount(h, k);
    assert Close(h) == h + ClosingTags(k);
  }

  // ---------------------------------------------------------------------
  // Replacing tags

  /** Tag names: no `$` and no `}`, so that a tag ends at its first `}`. */
  predicate ValidName(n: string) {
    '$' !in n && '}' !in n
  }

  /** Rules whose names are tag names and whose replacements hold no `$`. */
  predicate RulesOk(rules: seq<(string, string)>) {
    forall i :: 0 <= i < |rules| ==> ValidName(rules[i].0) && '$' !in rules[i].1
  }

  /** Text with no `$` passes through a replacement untouched. */
  lemma {:induction false} ReplaceSkipsPlain(x: string, y: string, p: string, r: string)
    requires |p| > 0 && p[0] == '$' && '$' !in x
    ensures ReplaceAll(x + y, p, r) == x + ReplaceAll(y, p, r)
    decreases |x|
  {
    if x == [] {
      assert x + y == y;
    } else {
      var u := x + y;
      assert x[0] in x && u[0] == x[0];
      if |u| >= |p| {
        assert u[..|p|][0] != p[0];
        assert ReplaceAll(u, p, r) == [u[0]] + ReplaceAll(u[1..], p, r);
        assert u[1..] == x[1..] + y;
        ReplaceSkipsPlain(x[1..], y, p, r);
        assert [x[0]] + x[1..] == x;
      } else {
        assert |y| < |p|;
      }
    }
  }

  /** A tag at the front is replaced. */
  lemma ReplaceLeading(p: string, y: string, r: string)
    requires |p| > 0
    ensures ReplaceAll(p + y, p, r) == r + ReplaceAll(y, p, r)
  {
    assert (p + y)[..|p|] == p;
    assert (p + y)[|p|..] == y;
  }

  /** A tag does not start with a tag of another name. */
  lemma TokenMismatch(n: string, m: string, y: string)
    requires ValidName(n) && ValidName(m) && n != m && |Token(n) + y| >= |Token(m)|
    ensures (Token(n) + y)[..|Token(m)|] != Token(m)
  {
    var u := Token(n) + y;
    var pm := Token(m);
    if |m| < |n| {
      assert u[|m| + 2] == n[|m|] && n[|m|] in n;
      assert pm[|m| + 2] == '}';
    } else if |m| > |n| {
      assert u[|n| + 2] == '}';
      assert pm[|n| + 2] == m[|n|] && m[|n|] in m;
    } else {
      var k :| 0 <= k < |n| && n[k] != m[k];
      assert u[k + 2] == n[k] && pm[k + 2] == m[k];
    }
  }

  /** A tag with another name at the front passes through. */
  lemma ReplaceSkipsToken(n: string, m: string, y: string, r: string)
    requires ValidName(n) && ValidName(m) && n != m
    ensures ReplaceAll(Token(n) + y, Token(m), r) == Token(n) + ReplaceAll(y, Token(m), r)
  {
    var u := Token(n) + y;
    var pm := Token(m);
    var rest := "{" + n + "}";
    assert Token(n) == ['$'] + rest;
    assert u == ['$'] + (rest + y);
    if |u| >= |pm| {
      TokenMismatch(n, m, y);
      assert ReplaceAll(u, pm, r) == [u[0]] + ReplaceAll(u[1..], pm, r);
      assert u[1..] == rest + y;
      ReplaceSkipsPlain(rest, y, pm, r);
    } else {
      assert ReplaceAll(u, pm, r) == u;
      assert ReplaceAll(y, pm, r) == y;
    }
  }

  /** Text in which every `$` is followed by a character other than `{`:
      no tag can start inside it, whatever comes after it. */
  predicate NoTagStart(t: string) {
    forall j :: 0 <= j < |t| && t[j] == '$' ==> j + 1 < |t| && t[j + 1] != '{'
  }

  /** Text in which no tag can start passes through a tag replacement
      untouched. */
  lemma {:induction false} ReplaceSkipsRun(x: string, y: string, m: string, r: string)
    requires NoTagStart(x)
    ensures ReplaceAll(x + y, Token(m), r) == x + ReplaceAll(y, Token(m), r)
    decreases |x|
  {
    var p := Token(m);
    if x == [] {
      assert x + y == y;
    } else {
      var u := x + y;
      assert u[0] == x[0];
      if |u| >= |p| {
        if x[0] == '$' {
          assert u[1] == x[1] && p[1] == '{';
          assert u[..|p|][1] != p[1];
        } else {
          assert u[..|p|][0] != p[0];
        }
        assert ReplaceAll(u, p, r) == [u[0]] + ReplaceAll(u[1..], p, r);
        assert u[1..] == x[1..] + y;
        assert NoTagStart(x[1..]) by {
          forall j | 0 <= j < |x| - 1 && x[1..][j] == '$'
            ensures j + 1 < |x| - 1 && x[1..][j + 1] != '{'
          {
            assert x[j + 1] == '$';
          }
        }
        ReplaceSkipsRun(x[1..], y, m, r);
        assert [x[0]] + x[1..] == x;
      } else {
        assert |y| < |p|;
      }
    }
  }

  /** A text as the source of `colorize` sees it: runs of text in which no
      tag starts, and tags. */
  datatype Piece = Tag(name: string) | Run(text: string)

  function RenderPiece(p: Piece): string {
    match p
    case Tag(n) => Token(n)
    case Run(t) => t
  }

  function Render(ps: seq<Piece>): string {
    if ps == [] then "" else RenderPiece(ps[0]) + Render(ps[1..])
  }

  predicate WellFormed(ps: seq<Piece>) {
    forall i :: 0 <= i < |ps| ==> match ps[i]
      case Tag(n) => ValidName(n)
      case Run(t) => NoTagStart(t)
  }

  /** One rule applied to one piece. */
  function SubstPiece(p: Piece, rule: (string, string)): Piece {
    if p == Tag(rule.0) then Run(rule.1) else p
  }

  function Subst(ps: seq<Piece>, rule: (string, string)): (r: seq<Piece>)
    ensures |r| == |ps| && forall i :: 0 <= i < |ps| ==> r[i] == SubstPiece(ps[i], rule)
  {
    seq(|ps|, i requires 0 <= i < |ps| => SubstPiece(ps[i], rule))
  }

  /** Replacing a tag everywhere replaces exactly the pieces that are that
      tag. */
  lemma {:induction false} ReplacePieces(ps: seq<Piece>, rule: (string, string))
    requires WellFormed(ps) && ValidName(rule.0) && '$' !in rule.1
    ensures ReplaceAll(Render(ps), Token(rule.0), rule.1) == Render(Subst(ps, rule))
    ensures WellFormed(Subst(ps, rule))
    decreases |ps|
  {
    var qs := Subst(ps, rule);
    if ps != [] {
      ReplacePieces(ps[1..], rule);
      assert qs[1..] == Subst(ps[1..], rule);
      var y := Render(ps[1..]);
      match ps[0]
      case Tag(n) =>
        if n == rule.0 {
          ReplaceLeading(Token(n), y, rule.1);
        } else {
          ReplaceSkipsToken(n, rule.0, y, rule.1);
        }
      case Run(t) =>
        ReplaceSkipsRun(t, y, rule.0, rule.1);
    }
  }

  /** What the rules make of one piece: a tag becomes the first rule's
      replacement for its name, if any. */
  function Resolve(p: Piece, rules: seq<(string, string)>): Piece
    decreases |rules|
  {
    if rules == [] then p else SubstPiece(Resolve(p, rules[..|rules| - 1]), rules[|rules| - 1])
  }

  function ResolveAll(ps: seq<Piece>, rules: seq<(string, string)>): (r: seq<Piece>)
    ensures |r| == |ps| && forall i :: 0 <= i < |ps| ==> r[i] == Resolve(ps[i], rules)
  {
    seq(|ps|, i requires 0 <= i < |ps| => Resolve(ps[i], rules))
  }

  /** Applying the rules to a text of runs and tags resolves each piece on
      its own: every known tag becomes its replacement and nothing else
      changes. */
  lemma {:induction false} ApplyRulesPieces(ps: seq<Piece>, rules: seq<(string, string)>)
    requires WellFormed(ps) && RulesOk(rules)
    ensures ApplyRules(Render(ps), rules) == Render(ResolveAll(ps, rules))
    ensures WellFormed(ResolveAll(ps, rules))
    decreases |rules|
  {
    if rules != [] {
      var init := rules[..|rules| - 1];
      var last := rules[|rules| - 1];
      assert RulesOk(init) by {
        forall i | 0 <= i < |init| ensures ValidName(init[i].0) && '$' !in init[i].1 {
          assert init[i] == rules[i];
        }
      }
      ApplyRulesPieces(ps, init);
      assert ValidName(last.0) && '$' !in last.1;
      ReplacePieces(ResolveAll(ps, init), last);
      calc {
        ApplyRules(Render(ps), rules);
        ReplaceAll(ApplyRules(Render(ps), init), Token(last.0), last.1);
        ReplaceAll(Render(ResolveAll(ps, init)), Token(last.0), last.1);
        Render(Subst(ResolveAll(ps, init), last));
      }
      forall i | 0 <= i < |ps|
        ensures Subst(ResolveAll(ps, init), last)[i] == ResolveAll(ps, rules)[i]
      {
        assert Resolve(ps[i], rules) == SubstPiece(Resolve(ps[i], init), last);
      }
      assert Subst(ResolveAll(ps, init), last) == ResolveAll(ps, rules);
    } else {
      assert ResolveAll(ps, rules) == ps;
    }
  }

  /** The replacement bound to a name: the first rule with that name. */
  function Lookup(rules: seq<(string, string)>, n: string): Option<string>
    decreases |rules|
  {
    if rules == [] then None
    else
      var earlier := Lookup(rules[..|rules| - 1], n);
      if earlier.Some? then earlier
      else if rules[|rules| - 1].0 == n then Some(rules[|rules| - 1].1)
      else None
  }

  /** A tag resolves to its first rule's replacement, or stays a tag. */
  lemma {:induction false} ResolveTag(n: string, rules: seq<(string, string)>)
    ensures Resolve(Tag(n), rules) == if Lookup(rules, n).Some? then Run(Lookup(rules, n).value) else Tag(n)
    decreases |rules|
  {
    if rules != [] {
      ResolveTag(n, rules[..|rules| - 1]);
    }
  }

  /** A run is never changed. */
  lemma {:induction false} ResolveRun(t: string, rules: seq<(string, string)>)
    ensures Resolve(Run(t), rules) == Run(t)
    decreases |rules|
  {
    if rules != [] {
      ResolveRun(t, rules[..|rules| - 1]);
    }
  }

  /** The first rule for a name is the one at index `i` when no earlier
      rule has that name. */
  lemma {:induction false} LookupAt(rules: seq<(string, string)>, i: nat, n: string)
    requires i < |rules| && rules[i].0 == n
    requires forall j :: 0 <= j < i ==> rules[j].0 != n
    ensures Lookup(rules, n) == Some(rules[i].1)
    decreases |rules|
  {
    if i < |rules| - 1 {
      LookupAt(rules[..|rules| - 1], i, n);
    } else {
      LookupAbsent(rules[..i], n);
    }
  }

  /** No rule with the name: no replacement. */
  lemma {:induction false} LookupAbsent(rules: seq<(string, string)>, n: string)
    requires forall j :: 0 <= j < |rules| ==> rules[j].0 != n
    ensures Lookup(rules, n) == None
    decreases |rules|
  {
    if rules != [] {
      LookupAbsent(rules[..|rules| - 1], n);
    }
  }

  // ---------------------------------------------------------------------
  // What colorize promises

  /** A text made of plain runs and tags comes out with every known colour
      tag and then every known style tag replaced by its HTML, unknown tags
      left as they were, and open spans closed. */
  lemma ColorizeTags(colors: seq<(string, string)>, styles: seq<(string, string)>, ps: seq<Piece>)
    requires WellFormed(ps) && Render(ps) != ""
    requires RulesOk(ColorRules(colors)) && RulesOk(StyleRules(styles))
    ensures Colorized(colors, styles, Some(Render(ps)))
         == Close(Render(ResolveAll(ResolveAll(ps, ColorRules(colors)), StyleRules(styles))))
  {
    ApplyRulesPieces(ps, ColorRules(colors));
    ApplyRulesPieces(ResolveAll(ps, ColorRules(colors)), StyleRules(styles));
  }

  /** A dollar sign that starts no tag is plain text: `$5 ${red}x` is a
      run, a tag and a run. */
  lemma DollarTextPieces()
    ensures var ps := [Run("$5 "), Tag("red"), Run("x")];
      WellFormed(ps) && Render(ps) == "$5 ${red}x"
  {
    var ps := [Run("$5 "), Tag("red"), Run("x")];
    assert ps[1..][1..] == [Run("x")];
    assert ps[1..][1..][1..] == [];
  }

  /** Text with no `$` goes through every rule unchanged. */
  lemma {:induction false} ApplyRulesPlain(s: string, rules: seq<(string, string)>)
    requires '$' !in s && RulesOk(rules)
    ensures ApplyRules(s, rules) == s
    decreases |rules|
  {
    if rules != [] {
      var init := rules[..|rules| - 1];
      assert RulesOk(init) by {
        forall i | 0 <= i < |init| ensures ValidName(init[i].0) && '$' !in init[i].1 {
          assert init[i] == rules[i];
        }
      }
      ApplyRulesPlain(s, init);
      ReplaceSkipsPlain(s, [], Token(rules[|rules| - 1].0), rules[|rules| - 1].1);
      assert s + [] == s;
    }
  }

  /** A text with no tag of either table and no `<span` comes back exactly
      as it went in. */
  lemma {:induction false} UntaggedUnchanged(colors: seq<(string, string)>, styles: seq<(string, string)>, s: string)
    requires forall i :: 0 <= i < |colors| ==> !Includes(s, Token(colors[i].0))
    requires forall i :: 0 <= i < |styles| ==> !Includes(s, Token(styles[i].0))
    requires !Includes(s, "<span")
    ensures Colorized(colors, styles, Some(s)) == s
  {
    if s != "" {
      ApplyAbsent(s, ColorRules(colors));
      ApplyAbsent(s, StyleRules(styles));
      CountAbsent(s, "<span");
      assert s + ClosingTags(0) == s;
    }
  }

  /** Rules whose tags do not occur leave a text unchanged. */
  lemma {:induction false} ApplyAbsent(s: string, rules: seq<(string, string)>)
    requires forall i :: 0 <= i < |rules| ==> !Includes(s, Token(rules[i].0))
    ensures ApplyRules(s, rules) == s
    decreases |rules|
  {
    if rules != [] {
      var init := rules[..|rules| - 1];
      assert forall i :: 0 <= i < |init| ==> init[i] == rules[i];
      ApplyAbsent(s, init);
      ReplaceAllAbsent(s, Token(rules[|rules| - 1].0), rules[|rules| - 1].1);
    }
  }

  /** A pattern that does not occur is counted zero times. */
  lemma {:induction false} CountAbsent(s: string, p: string)
    requires |p| > 0 && !Includes(s, p)
    ensures CountOf(s, p) == 0
    decreases |s|
  {
    if |s| >= |p| {
      assert !OccursAt(s, p, 0);
      assert s[..|p|] == s[0..|p|];
      var t := s[1..];
      if Includes(t, p) {
        OccursShift(s, p, IndexOf(t, p));
      }
      CountAbsent(t, p);
    }
  }

  // ---------------------------------------------------------------------
  // The colour helpers

  /** `red(text)` and its siblings as written: the template literal
      consumes the `$`, so the result carries `{red}` and `{reset}`, which
      are not tags. */
  function TaggedAsWritten(name: string, text: string): (r: string)
    ensures '$' !in text && '$' !in name ==> '$' !in r
  {
    "{" + name + "}" + text + "{reset}"
  }

  /** As written, a helper's output goes through `colorize` unchanged: no
      span is produced for `red("x")`, which stays `{red}x{reset}`. */
  lemma HelperTagsPassThrough(colors: seq<(string, string)>, styles: seq<(string, string)>, name: string, text: string)
    requires RulesOk(ColorRules(colors)) && RulesOk(StyleRules(styles))
    requires '$' !in name && '<' !in name && '$' !in text && '<' !in text
    ensures Colorized(colors, styles, Some(TaggedAsWritten(name, text))) == TaggedAsWritten(name, text)
  {
    var s := TaggedAsWritten(name, text);
    ApplyRulesPlain(s, ColorRules(colors));
    ApplyRulesPlain(s, StyleRules(styles));
    CountSkipsPlain(s, [], "<span");
    assert s + [] == s;
    assert s + ClosingTags(0) == s;
  }

  /** The helpers as intended: the text between the named tag and
      `${reset}`. */
  function Tagged(name: string, text: string): (r: string)
    ensures StartsWith(r, Token(name)) && EndsWith(r, Token("reset"))
  {
    Token(name) + text + Token("reset")
  }

  function Red(text: string): string { Tagged("red", text) }
  function Green(text: string): string { Tagged("green", text) }
  function Yellow(text: string): string { Tagged("yellow", text) }
  function Cyan(text: string): string { Tagged("cyan", text) }
  function Magenta(text: string): string { Tagged("magenta", text) }
  function Blue(text: string): string { Tagged("blue", text) }
  function Bold(text: string): string { Tagged("bold", text) }
  function Dim(text: string): string { Tagged("dim", text) }

  /** The opening tag each helper is meant to produce. */
  function HelperOpen(name: string): Option<string> {
    if name == "red" then Some(ColorOpen("#ff0000"))
    else if name == "green" then Some(ColorOpen("#00ff00"))
    else if name == "yellow" then Some(ColorOpen("#ffff00"))
    else if name == "cyan" then Some(ColorOpen("#00ffff"))
    else if name == "magenta" then Some(ColorOpen("#ff00ff"))
    else if name == "blue" then Some(ColorOpen("#0000ff"))
    else if name == "bold" then Some(StyleOpen("font-weight: bold"))
    else if name == "dim" then Some(StyleOpen("opacity: 0.7"))
    else None
  }

  /** A table entry whose name is a tag name and whose value has no `$`. */
  predicate EntryOk(e: (string, string)) {
    ValidName(e.0) && '$' !in e.1
  }

  lemma ColorRulesOk(colors: seq<(string, string)>)
    requires forall i :: 0 <= i < |colors| ==> EntryOk(colors[i])
    ensures RulesOk(ColorRules(colors))
  {
  }

  lemma StyleRulesOk(styles: seq<(string, string)>)
    requires forall i :: 0 <= i < |styles| ==> EntryOk(styles[i])
    ensures RulesOk(StyleRules(styles))
  {
  }

  lemma ColorsOk()
    ensures forall i :: 0 <= i < |Colors| ==> EntryOk(Colors[i])
  {
  }

  lemma StylesOk()
    ensures forall i :: 0 <= i < |Styles| ==> EntryOk(Styles[i])
  {
  }

  /** The rule tables carry tag names and replacements without `$`. */
  lemma TablesOk()
    ensures RulesOk(ColorRules(Colors)) && RulesOk(StyleRules(Styles))
  {
    ColorsOk();
    ColorRulesOk(Colors);
    StylesOk();
    StyleRulesOk(Styles);
  }

  /** Three pieces side by side. */
  lemma RenderThree(a: Piece, b: Piece, c: Piece)
    ensures Render([a, b, c]) == RenderPiece(a) + RenderPiece(b) + RenderPiece(c)
  {
    var ps := [a, b, c];
    assert ps[1..] == [b, c];
    assert ps[1..][1..] == [c];
    assert ps[1..][1..][1..] == [];
    assert Render([c]) == RenderPiece(c) + "";
    assert Render([b, c]) == RenderPiece(b) + Render([c]);
  }

  /** The first seven colour names are all different. */
  lemma EarlyColorsDistinct()
    ensures forall i, j :: 0 <= j < i <= 6 ==> Colors[j].0 != Colors[i].0
  {
  }

  /** The table entries the colour helpers are named after. */
  lemma HelperColorEntries()
    ensures Colors[1] == ("red", "#ff0000") && Colors[2] == ("green", "#00ff00")
    ensures Colors[3] == ("yellow", "#ffff00") && Colors[4] == ("blue", "#0000ff")
    ensures Colors[5] == ("magenta", "#ff00ff") && Colors[6] == ("cyan", "#00ffff")
  {
  }

  /** A colour helper's tag becomes the colour's opening tag. */
  lemma ResolveColorHelper(i: nat)
    requires 1 <= i <= 6
    ensures Resolve(Resolve(Tag(Colors[i].0), ColorRules(Colors)), StyleRules(Styles)) == Run(ColorOpen(Colors[i].1))
  {
    var name := Colors[i].0;
    EarlyColorsDistinct();
    ResolveTag(name, ColorRules(Colors));
    LookupAt(ColorRules(Colors), i, name);
    ResolveRun(ColorOpen(Colors[i].1), StyleRules(Styles));
  }

  /** A style helper's tag is no colour and becomes the style's opening
      tag. */
  lemma ResolveStyleHelper(i: nat)
    requires i == 1 || i == 2
    ensures Resolve(Resolve(Tag(Styles[i].0), ColorRules(Colors)), StyleRules(Styles)) == Run(StyleOpen(Styles[i].1))
  {
    var name := Styles[i].0;
    assert forall j :: 0 <= j < |Colors| ==> Colors[j].0 != name;
    LookupAbsent(ColorRules(Colors), name);
    ResolveTag(name, ColorRules(Colors));
    assert Styles[0].0 != name;
    LookupAt(StyleRules(Styles), i, name);
    ResolveTag(name, StyleRules(Styles));
  }

  /** The opening tag produced for each helper's name, after both tables. */
  lemma ResolveHelper(name: string)
    requires HelperOpen(name).Some?
    ensures Resolve(Resolve(Tag(name), ColorRules(Colors)), StyleRules(Styles)) == Run(HelperOpen(name).value)
  {
    if name == "bold" || name == "dim" {
      ResolveStyleName(name);
    } else {
      ResolveColorName(name);
    }
  }

  /** The colour helpers' names resolve in the colour table. */
  lemma ResolveColorName(name: string)
    requires HelperOpen(name).Some? && name != "bold" && name != "dim"
    ensures Resolve(Resolve(Tag(name), ColorRules(Colors)), StyleRules(Styles)) == Run(HelperOpen(name).value)
  {
    HelperColorEntries();
    if name == "red" {
      ResolveColorHelper(1);
    } else if name == "green" {
      ResolveColorHelper(2);
    } else if name == "yellow" {
      ResolveColorHelper(3);
    } else if name == "blue" {
      ResolveColorHelper(4);
    } else if name == "magenta" {
      ResolveColorHelper(5);
    } else {
      ResolveColorHelper(6);
    }
  }

  /** The style helpers' names resolve in the style table. */
  lemma ResolveStyleName(name: string)
    requires name == "bold" || name == "dim"
    ensures HelperOpen(name).Some?
    ensures Resolve(Resolve(Tag(name), ColorRules(Colors)), StyleRules(Styles)) == Run(HelperOpen(name).value)
  {
    if name == "bold" {
      ResolveStyleHelper(1);
    } else {
      ResolveStyleHelper(2);
    }
  }

  /** `${reset}` becomes a closing tag. */
  lemma ResolveReset()
    ensures Resolve(Resolve(Tag("reset"), ColorRules(Colors)), StyleRules(Styles)) == Run("</span>")
  {
    LookupAbsent(ColorRules(Colors), "reset");
    ResolveTag("reset", ColorRules(Colors));
    LookupAt(StyleRules(Styles), 0, "reset");
    ResolveTag("reset", StyleRules(Styles));
  }

  /** An opening tag starts with `<span` and has no other `<`. */
  predicate OpenShaped(open: string) {
    |open| >= 5 && open[..5] == "<span" && '<' !in open[1..]
  }

  /** An opening tag, plain text and one closing tag: one of each. */
  lemma TagCounts(open: string, text: string)
    requires OpenShaped(open) && '<' !in text
    ensures CountOf(open + text + "</span>", "<span") == 1
    ensures CountOf(open + text + "</span>", "</span>") == 1
  {
    OpenTagCount(open, text);
    CloseTagCount(open, text);
  }

  lemma OpenTagCount(open: string, text: string)
    requires OpenShaped(open) && '<' !in text
    ensures CountOf(open + text + "</span>", "<span") == 1
  {
    var s := open + text + "</span>";
    CloseTagCounts();
    assert s[..5] == "<span";
    assert s[5..] == (open[5..] + text) + "</span>";
    CountSkipsPlain(open[5..] + text, "</span>", "<span");
  }

  lemma CloseTagCount(open: string, text: string)
    requires OpenShaped(open) && '<' !in text
    ensures CountOf(open + text + "</span>", "</span>") == 1
  {
    var s := open + text + "</span>";
    CloseTagCounts();
    assert s[..7] != "</span>" by {
      assert s[1] == 's';
    }
    assert s[1..] == (open[1..] + text) + "</span>";
    CountSkipsPlain(open[1..] + text, "</span>", "</span>");
  }

  lemma ColorOpenShaped(hex: string)
    requires '<' !in hex
    ensures OpenShaped(ColorOpen(hex))
  {
    var o := ColorOpen(hex);
    assert o == "<span" + " style=\"color: " + hex + "\">";
    assert o[1..] == "span" + " style=\"color: " + hex + "\">";
  }

  lemma StyleOpenShaped(css: string)
    requires '<' !in css
    ensures OpenShaped(StyleOpen(css))
  {
    var o := StyleOpen(css);
    assert o == "<span" + " style=\"" + css + "\">";
    assert o[1..] == "span" + " style=\"" + css + "\">";
  }

  lemma HelperOpenShaped(name: string)
    requires HelperOpen(name).Some?
    ensures OpenShaped(HelperOpen(name).value) && ValidName(name)
  {
    if name == "red" {
      ColorOpenShaped("#ff0000");
    } else if name == "green" {
      ColorOpenShaped("#00ff00");
    } else if name == "yellow" {
      ColorOpenShaped("#ffff00");
    } else if name == "cyan" {
      ColorOpenShaped("#00ffff");
    } else if name == "magenta" {
      ColorOpenShaped("#ff00ff");
    } else if name == "blue" {
      ColorOpenShaped("#0000ff");
    } else if name == "bold" {
      StyleOpenShaped("font-weight: bold");
    } else {
      StyleOpenShaped("opacity: 0.7");
    }
  }

  /** A tagged text whose tag resolves to an opening tag and whose
      `${reset}` resolves to a closing tag comes out as one span around the
      text. */
  lemma TaggedSpan(colors: seq<(string, string)>, styles: seq<(string, string)>, name: string, text: string, open: string)
    requires RulesOk(ColorRules(colors)) && RulesOk(StyleRules(styles))
    requires ValidName(name) && '$' !in text && '<' !in text && OpenShaped(open)
    requires Resolve(Resolve(Tag(name), ColorRules(colors)), StyleRules(styles)) == Run(open)
    requires Resolve(Resolve(Tag("reset"), ColorRules(colors)), StyleRules(styles)) == Run("</span>")
    ensures Colorized(colors, styles, Some(Tagged(name, text))) == open + text + "</span>"
  {
    var ps := [Tag(name), Run(text), Tag("reset")];
    RenderThree(Tag(name), Run(text), Tag("reset"));
    assert ValidName("reset");
    ColorizeTags(colors, styles, ps);
    TaggedPieces(ColorRules(colors), StyleRules(styles), name, text, open);
    RenderThree(Run(open), Run(text), Run("</span>"));
    TagCounts(open, text);
    assert open + text + "</span>" + ClosingTags(0) == open + text + "</span>";
  }

  /** The piece-level half of `TaggedSpan`: the text run passes both rule
      lists untouched while the two tags resolve. */
  lemma TaggedPieces(cr: seq<(string, string)>, sr: seq<(string, string)>, name: string, text: string, open: string)
    requires Resolve(Resolve(Tag(name), cr), sr) == Run(open)
    requires Resolve(Resolve(Tag("reset"), cr), sr) == Run("</span>")
    ensures ResolveAll(ResolveAll([Tag(name), Run(text), Tag("reset")], cr), sr)
         == [Run(open), Run(text), Run("</span>")]
  {
    ResolveRun(text, cr);
    ResolveRun(text, sr);
  }

  /** The helpers as intended: `colorize` turns the helper's output into
      the text inside one span of the helper's colour or style. */
  lemma HelperTagsBecomeSpans(name: string, text: string)
    requires HelperOpen(name).Some? && '$' !in text && '<' !in text
    ensures Colorized(Colors, Styles, Some(Tagged(name, text))) == HelperOpen(name).value + text + "</span>"
  {
    TablesOk();
    ResolveHelper(name);
    ResolveReset();
    HelperOpenShaped(name);
    TaggedSpan(Colors, Styles, name, text, HelperOpen(name).value);
  }

  // ---------------------------------------------------------------------
  // The colouriser object

  class ANSIColors {
    /** The colour table and the style table, fixed when the object is
        made. */
    const colors: seq<(string, string)>
    const styles: seq<(string, string)>

    constructor()
      ensures colors == Colors && styles == Styles
    {
      colors := Colors;
      styles := Styles;
    }

    method Colorize(text: Option<string>) returns (html: string)
      ensures html == Colorized(colors, styles, text)
    {
      if text.None? || text.value == "" {
        return "";
      }
      html := ReplaceColors(text.value);
      html := ReplaceStyles(html);
      html := CloseSpans(html);
    }

    /** The first `forEach`: each colour tag in table order. */
    method ReplaceColors(text: string) returns (html: string)
      ensures html == ApplyRules(text, ColorRules(colors))
    {
      html := text;
      ghost var rules := ColorRules(colors);
      var i := 0;
      while i < |colors|
        invariant 0 <= i <= |colors|
        invariant html == ApplyRules(text, rules[..i])
      {
        var entry := colors[i];
        assert rules[..i + 1][..i] == rules[..i];
        html := ReplaceAll(html, Token(entry.0), ColorOpen(entry.1));
        i := i + 1;
      }
      assert rules[..i] == rules;
    }

    /** The second `forEach`: each style tag in table order. */
    method ReplaceStyles(text: string) returns (html: string)
      ensures html == ApplyRules(text, StyleRules(styles))
    {
      html := text;
      ghost var rules := StyleRules(styles);
      var j := 0;
      while j < |styles|
        invariant 0 <= j <= |styles|
        invariant html == ApplyRules(text, rules[..j])
      {
        var entry := styles[j];
        assert rules[..j + 1][..j] == rules[..j];
        if entry.0 == "reset" {
          html := ReplaceAll(html, Token(entry.0), "</span>");
        } else {
          html := ReplaceAll(html, Token(entry.0), StyleOpen(entry.1));
        }
        j := j + 1;
      }
      assert rules[..j] == rules;
    }

    /** The counting loop: one closing tag per unclosed opening tag. */
    method CloseSpans(text: string) returns (html: string)
      ensures html == Close(text)
    {
      html := text;
      var openSpans: int := CountOf(html, "<span");
      var closeSpans: int := CountOf(html, "</span>");
      var k := 0;
      while k < openSpans - closeSpans
        invariant 0 <= k && (k == 0 || k <= openSpans - closeSpans)
        invariant html == text + ClosingTags(k)
      {
        html := html + "</span>";
        k := k + 1;
      }
      assert k == if openSpans > closeSpans then openSpans - closeSpans else 0;
    }
  }
}

/**
 * The Unix-style commands: the text tools `head`, `tail`, `grep`, `wc` and
 * `sort`, which read one file; `history` and `env`; the commands that change
 * the filesystem, `touch`, `mkdir`, `rm`, `cp` and `mv`; and `uname` and
 * `find`, whose registration never completes.
 *
 * Each command that changes the filesystem has a specification function
 * over a `Disk` value and a method on the `VirtualFilesystem` object that is
 * proved to act as the function says.
 */
module UnixCommands {

  import opened Wrappers
  import opened JsStrings
  import opened Ordering
  import opened OrderedMaps
  import opened Values
  import opened Filesystem
  import opened FileCommands

  // ---------------------------------------------------------------------
  // Reading a file for the text tools

  /** What the text tools make of `readFile`'s answer: a text that contains
      `No such file` is handed back as it is, anything else is worked on;
      an image object has no `content`, so it reads as empty text. */
  datatype Input = Passthrough(message: string) | Content(text: string)

  /** The error text of `readFile` mentions `No such file`. */
  lemma MissingFileMessage(filename: string)
    ensures Includes("cat: " + filename + ": No such file or directory", "No such file")
  {
    var s := "cat: " + filename + ": No such file or directory";
    var pre := "cat: " + filename + ": ";
    var k := |pre|;
    assert s == pre + "No such file" + " or directory";
    assert s[k..k + 12] == "No such file";
    assert OccursAt(s, "No such file", k);
    IncludesIff(s, "No such file");
  }

  function ReadInput(store: Store, filename: string): (r: Input)
    ensures GetFile(store, filename).None? ==>
      r == Passthrough("cat: " + filename + ": No such file or directory")
    ensures GetFile(store, filename).Some? && GetFile(store, filename).value.isImage ==>
      r == Content("")
    ensures GetFile(store, filename).Some? && !GetFile(store, filename).value.isImage ==>
      var t := GetFile(store, filename).value.content;
      r == if Includes(t, "No such file") then Passthrough(t) else Content(t)
  {
    MissingFileMessage(filename);
    match ReadFile(store, filename)
    case Text(t) => if Includes(t, "No such file") then Passthrough(t) else Content(t)
    case _ => Content("")
  }

  /** `content.split('\n')`. */
  function Lines(t: string): (r: seq<string>)
    ensures |r| >= 1
  {
    SplitOn(t, "\n")
  }

  /** Splitting the lines of a text and joining them again gives the text. */
  lemma LinesJoin(t: string)
    ensures Join(Lines(t), "\n") == t
  {
    JoinSplitOn(t, "\n");
  }

  /** No line of a text contains a newline. */
  lemma LinesFree(t: string)
    ensures forall i :: 0 <= i < |Lines(t)| ==> '\n' !in Lines(t)[i]
  {
    forall i | 0 <= i < |Lines(t)| ensures '\n' !in Lines(t)[i] {
      SplitCharPiecesFree(t, '\n', i);
    }
  }

  // ---------------------------------------------------------------------
  // head and tail

  /** The line count and the file name that `head` and `tail` read from
      their argument. */
  datatype LineRequest = LineRequest(count: int, filename: string)

  /** `parseInt(numStr) || 10`: NaN and zero give the default of 10. */
  function CountOrDefault(numStr: string): (n: int)
    ensures n != 0
    ensures ParseInt(numStr).None? ==> n == 10
    ensures ParseInt(numStr).Some? ==> n == if ParseInt(numStr).value == 0 then 10 else ParseInt(numStr).value
  {
    match ParseInt(numStr)
    case None => 10
    case Some(v) => if v == 0 then 10 else v
  }

  /** The `-n` parsing of `head` and `tail`.  Without `-n` the whole
      argument is the file name and the count is 10.  With it, the count is
      read from the first word after the first `-n`, and the file name is
      what follows the first occurrence of that word anywhere in the
      argument, trimmed.  When that word is empty the argument is split into
      characters and its second character is the file name. */
  function ParseLineRequest(args: string): (r: LineRequest)
    ensures r.count != 0
    ensures !Includes(args, "-n") ==> r == LineRequest(10, args)
  {
    if !Includes(args, "-n") then LineRequest(10, args)
    else
      SplitOnIncluded(args, "-n");
      var parts := SplitOn(args, "-n");
      var numStr := SplitOn(Trim(parts[1]), " ")[0];
      var lines := CountOrDefault(numStr);
      if numStr == "" then
        assert OccursAt(args, "-n", IndexOf(args, "-n"));
        LineRequest(lines, Trim(Chars(args)[1]))
      else
        SplitOnPiecesAreInfixes(Trim(parts[1]), " ", 0);
        SplitOnPiecesAreInfixes(args, "-n", 1);
        InfixTransitive(Trim(parts[1]), parts[1], args);
        InfixTransitive(numStr, Trim(parts[1]), args);
        IncludesIff(args, numStr);
        SplitOnIncluded(args, numStr);
        LineRequest(lines, Trim(SplitOn(args, numStr)[1]))
  }

  /** The first `count` lines of a text, or all but the last `-count`
      when `count` is negative: `lines.slice(0, count)`, joined.  The result
      is a prefix of the text. */
  function HeadText(t: string, count: int): (r: string)
    ensures StartsWith(t, r)
  {
    var lines := Lines(t);
    var b := RelativeIndex(count, |lines|);
    assert Slice(lines, 0, count) == lines[..b];
    JoinPrefix(lines, "\n", b);
    LinesJoin(t);
    Join(Slice(lines, 0, count), "\n")
  }

  /** The last `count` lines of a text, or all but the first `-count` when
      `count` is negative: `lines.slice(-count)`, joined.  The result is a
      suffix of the text. */
  function TailText(t: string, count: int): (r: string)
    ensures EndsWith(t, r)
  {
    var lines := Lines(t);
    var a := RelativeIndex(-count, |lines|);
    assert SliceFrom(lines, -count) == lines[a..];
    JoinSuffix(lines, "\n", a);
    LinesJoin(t);
    Join(SliceFrom(lines, -count), "\n")
  }

  /** `head [-n N] <file>`: N lines from the start of the file, N being 10
      by default. */
  function Head(store: Store, args: string): (r: string)
    ensures args == "" ==> r == "head: missing file operand"
    ensures args != "" && ReadInput(store, ParseLineRequest(args).filename).Passthrough? ==>
      r == ReadInput(store, ParseLineRequest(args).filename).message
    ensures args != "" && ReadInput(store, ParseLineRequest(args).filename).Content? ==>
      r == HeadText(ReadInput(store, ParseLineRequest(args).filename).text, ParseLineRequest(args).count)
  {
    if args == "" then "head: missing file operand"
    else
      var req := ParseLineRequest(args);
      match ReadInput(store, req.filename)
      case Passthrough(m) => m
      case Content(t) => HeadText(t, req.count)
  }

  /** `tail [-n N] <file>`: N lines from the end of the file, N being 10 by
      default. */
  function Tail(store: Store, args: string): (r: string)
    ensures args == "" ==> r == "tail: missing file operand"
    ensures args != "" && ReadInput(store, ParseLineRequest(args).filename).Passthrough? ==>
      r == ReadInput(store, ParseLineRequest(args).filename).message
    ensures args != "" && ReadInput(store, ParseLineRequest(args).filename).Content? ==>
      r == TailText(ReadInput(store, ParseLineRequest(args).filename).text, ParseLineRequest(args).count)
  {
    if args == "" then "tail: missing file operand"
    else
      var req := ParseLineRequest(args);
      match ReadInput(store, req.filename)
      case Passthrough(m) => m
      case Content(t) => TailText(t, req.count)
  }

  function Min(a: int, b: int): int {
    if a <= b then a else b
  }

  /** For a positive count, `head` gives exactly the first `count` lines of
      the text (all of them when it is shorter). */
  lemma HeadFirstLines(t: string, count: int)
    requires count > 0
    ensures Lines(HeadText(t, count)) == Lines(t)[..Min(count, |Lines(t)|)]
  {
    var lines := Lines(t);
    var k := Min(count, |lines|);
    assert Slice(lines, 0, count) == lines[..k];
    LinesFree(t);
    SplitOnJoin(lines[..k], '\n');
  }

  /** For a positive count, `tail` gives exactly the last `count` lines of
      the text (all of them when it is shorter). */
  lemma TailLastLines(t: string, count: int)
    requires count > 0
    ensures Lines(TailText(t, count)) == Lines(t)[|Lines(t)| - Min(count, |Lines(t)|)..]
  {
    var lines := Lines(t);
    var k := Min(count, |lines|);
    assert SliceFrom(lines, -count) == lines[|lines| - k..];
    LinesFree(t);
    SplitOnJoin(lines[|lines| - k..], '\n');
  }

  /** A missing file makes `head` and `tail` answer with `readFile`'s error
      text, unchanged. */
  lemma HeadTailMissingFile(store: Store, args: string)
    requires args != "" && GetFile(store, ParseLineRequest(args).filename).None?
    ensures Head(store, args) == "cat: " + ParseLineRequest(args).filename + ": No such file or directory"
    ensures Tail(store, args) == "cat: " + ParseLineRequest(args).filename + ": No such file or directory"
  {
  }

  /** Without `-n` the whole argument names the file and ten lines are
      shown. */
  lemma HeadTailDefaultCount(args: string)
    requires !Includes(args, "-n")
    ensures ParseLineRequest(args).count == 10 && ParseLineRequest(args).filename == args
  {
  }

  // ---------------------------------------------------------------------
  // grep

  /** The lines that contain the pattern, ignoring case, in their order. */
  function MatchingLines(lines: seq<string>, pattern: string): (r: seq<string>)
    ensures |r| <= |lines|
    ensures forall x :: x in r <==> x in lines && Includes(Lower(x), Lower(pattern))
  {
    if lines == [] then []
    else
      var rest := MatchingLines(lines[1..], pattern);
      assert forall x :: x in lines <==> x == lines[0] || x in lines[1..] by {
        assert lines == [lines[0]] + lines[1..];
      }
      if Includes(Lower(lines[0]), Lower(pattern)) then [lines[0]] + rest else rest
  }

  /** Filtering keeps the order: the matches of two blocks of lines are the
      matches of the first block followed by those of the second. */
  lemma {:induction false} MatchingLinesAppend(a: seq<string>, b: seq<string>, pattern: string)
    ensures MatchingLines(a + b, pattern) == MatchingLines(a, pattern) + MatchingLines(b, pattern)
  {
    if a != [] {
      assert (a + b)[1..] == a[1..] + b;
      MatchingLinesAppend(a[1..], b, pattern);
    } else {
      assert a + b == b;
    }
  }

  /** `grep <pattern> <file>`: the pattern is the text before the first
      space, the file name everything after it. */
  function Grep(store: Store, args: string): (r: string)
    ensures args == "" ==> r == "grep: missing pattern"
    ensures args != "" && !Includes(args, " ") ==> r == "grep: missing file operand"
    ensures args != "" && |SplitOn(args, " ")| >= 2
            && ReadInput(store, Join(SplitOn(args, " ")[1..], " ")).Passthrough?
            ==> r == ReadInput(store, Join(SplitOn(args, " ")[1..], " ")).message
  {
    if args == "" then "grep: missing pattern"
    else
      var parts := SplitOn(args, " ");
      if |parts| < 2 then "grep: missing file operand"
      else
        var pattern := parts[0];
        var filename := Join(parts[1..], " ");
        match ReadInput(store, filename)
        case Passthrough(m) => m
        case Content(t) =>
          var matches := MatchingLines(Lines(t), pattern);
          if |matches| > 0 then Join(matches, "\n") else ""
  }

  /** `grep` splits its argument at the first space: a pattern without
      spaces, then the file name as written, spaces included. */
  lemma GrepArguments(pattern: string, filename: string)
    requires ' ' !in pattern
    ensures SplitOn(pattern + " " + filename, " ")[0] == pattern
    ensures Join(SplitOn(pattern + " " + filename, " ")[1..], " ") == filename
  {
    var args := pattern + " " + filename;
    IndexOfAfterPlain(pattern, ' ', filename);
    assert args[..|pattern|] == pattern;
    assert args[|pattern| + 1..] == filename;
    assert SplitOn(args, " ")[1..] == SplitOn(filename, " ");
    JoinSplitOn(filename, " ");
  }

  /** `grep` answers with the lines of the file that contain the pattern,
      ignoring case, in file order, one per line; or with nothing when no
      line does. */
  lemma GrepFindsLines(store: Store, pattern: string, filename: string)
    requires ' ' !in pattern
    requires ReadInput(store, filename).Content?
    ensures var matches := MatchingLines(Lines(ReadInput(store, filename).text), pattern);
      && (matches == [] ==> Grep(store, pattern + " " + filename) == "")
      && (matches != [] ==> Lines(Grep(store, pattern + " " + filename)) == matches)
  {
    GrepArguments(pattern, filename);
    var args := pattern + " " + filename;
    assert args != "";
    var t := ReadInput(store, filename).text;
    var matches := MatchingLines(Lines(t), pattern);
    if matches != [] {
      LinesFree(t);
      forall i | 0 <= i < |matches| ensures '\n' !in matches[i] {
        var x := matches[i];
        assert x in Lines(t);
        var j :| 0 <= j < |Lines(t)| && Lines(t)[j] == x;
      }
      SplitOnJoin(matches, '\n');
    }
  }

  // ---------------------------------------------------------------------
  // wc and sort

  /** The first space-separated word of the trimmed argument: the file name
      `wc` and `sort` read. */
  function FirstWord(args: string): string {
    SplitOn(Trim(args), " ")[0]
  }

  /** The `wc` report for a text: lines, words and bytes, then the name. */
  function WcReport(t: string, filename: string): (r: string)
    ensures EndsWith(r, " " + filename)
  {
    var figures := "  " + NatToString(|Lines(t)| - 1) + "  " + NatToString(Count(SplitWs(t)))
      + "  " + NatToString(Utf8Length(t));
    assert figures + " " + filename == figures + (" " + filename);
    figures + " " + filename
  }

  /** `wc <file>`. */
  function Wc(store: Store, args: string): (r: string)
    ensures args == "" ==> r == "wc: missing file operand"
    ensures args != "" && ReadInput(store, FirstWord(args)).Passthrough? ==>
      r == ReadInput(store, FirstWord(args)).message
    ensures args != "" && ReadInput(store, FirstWord(args)).Content? ==>
      r == WcReport(ReadInput(store, FirstWord(args)).text, FirstWord(args))
  {
    if args == "" then "wc: missing file operand"
    else
      var filename := FirstWord(args);
      match ReadInput(store, filename)
      case Passthrough(m) => m
      case Content(t) => WcReport(t, filename)
  }

  /** The line figure of `wc` is the number of newline characters, the word
      figure the number of non-empty whitespace-separated words, and the byte
      figure the UTF-8 length (the character count for ASCII text, by
      `Utf8Length`'s contract). */
  lemma WcCounts(t: string, filename: string)
    ensures WcReport(t, filename) ==
      "  " + NatToString(multiset(t)['\n']) + "  " + NatToString(WordCount(t))
      + "  " + NatToString(Utf8Length(t)) + " " + filename
  {
    SplitCharCount(t, '\n');
  }

  /** `sort <file>`: the lines in code-unit order. */
  function SortLines(store: Store, args: string): (r: string)
    ensures args == "" ==> r == "sort: missing file operand"
    ensures args != "" && ReadInput(store, FirstWord(args)).Passthrough? ==>
      r == ReadInput(store, FirstWord(args)).message
  {
    if args == "" then "sort: missing file operand"
    else
      match ReadInput(store, FirstWord(args))
      case Passthrough(m) => m
      case Content(t) => Join(Sort(Lines(t)), "\n")
  }

  /** `sort` outputs the lines of the file, sorted, each exactly as often as
      in the file. */
  lemma SortOutputLines(store: Store, args: string)
    requires args != "" && ReadInput(store, FirstWord(args)).Content?
    ensures var lines := Lines(ReadInput(store, FirstWord(args)).text);
      && Sorted(Lines(SortLines(store, args)))
      && multiset(Lines(SortLines(store, args))) == multiset(lines)
  {
    var t := ReadInput(store, FirstWord(args)).text;
    var sorted := Sort(Lines(t));
    LinesFree(t);
    forall i | 0 <= i < |sorted| ensures '\n' !in sorted[i] {
      SortKeepsElements(Lines(t), sorted[i]);
    }
    assert |sorted| >= 1 by {
      assert |multiset(sorted)| == |multiset(Lines(t))|;
    }
    SplitOnJoin(sorted, '\n');
  }

  // ---------------------------------------------------------------------
  // history and env

  /** One line of `history`: the 1-based number right-aligned to width 4,
      two spaces, the command. */
  function HistoryLine(n: nat, command: string): string {
    PadStart(NatToString(n), 4) + "  " + command
  }

  /** `history`: the terminal's trimmed command lines, numbered. */
  function History(commandHistory: seq<string>): (r: string)
    ensures commandHistory == [] ==> r == "history: no commands yet"
  {
    if |commandHistory| == 0 then "history: no commands yet"
    else Join(seq(|commandHistory|, i requires 0 <= i < |commandHistory| =>
      HistoryLine(i + 1, commandHistory[i])), "\n")
  }

  /** With at least one command and no newline in any, `history` has one
      line per command, in order, numbered from 1. */
  lemma HistoryLines(commandHistory: seq<string>)
    requires commandHistory != []
    requires forall i :: 0 <= i < |commandHistory| ==> '\n' !in commandHistory[i]
    ensures |Lines(History(commandHistory))| == |commandHistory|
    ensures forall i :: 0 <= i < |commandHistory| ==>
      Lines(History(commandHistory))[i] == HistoryLine(i + 1, commandHistory[i])
  {
    var lines := seq(|commandHistory|, i requires 0 <= i < |commandHistory| =>
      HistoryLine(i + 1, commandHistory[i]));
    forall i | 0 <= i < |lines| ensures '\n' !in lines[i] {
      var num := NatToString(i + 1);
      var pad := PadStart(num, 4);
      assert '\n' !in num by {
        assert forall j :: 0 <= j < |num| ==> IsDigit(num[j]);
      }
      assert '\n' !in pad;
      assert lines[i] == pad + "  " + commandHistory[i];
    }
    SplitOnJoin(lines, '\n');
  }

  /** The shell variables of `env`, in declaration order. */
  function EnvVars(): (r: seq<(string, string)>)
    ensures |r| == 9
  {
    [ ("USER", "guest"), ("HOSTNAME", "retro"), ("PWD", "."), ("HOME", "."),
      ("TERM", "vt100"), ("SHELL", "/bin/bash"), ("LANG", "en_US.UTF-8"),
      ("PATH", "/usr/bin:/bin:/usr/sbin:/sbin"), ("EDITOR", "vi") ]
  }

  /** `KEY=value` lines for the given variables. */
  function EnvText(vars: seq<(string, string)>): string {
    Join(seq(|vars|, i requires 0 <= i < |vars| => vars[i].0 + "=" + vars[i].1), "\n")
  }

  /** `env`. */
  function Env(): string {
    EnvText(EnvVars())
  }

  /** Each variable gets one `KEY=value` line, in order, as long as no name
      or value contains a newline. */
  lemma EnvLines(vars: seq<(string, string)>)
    requires vars != []
    requires forall i :: 0 <= i < |vars| ==> '\n' !in vars[i].0 && '\n' !in vars[i].1
    ensures |Lines(EnvText(vars))| == |vars|
    ensures forall i :: 0 <= i < |vars| ==> Lines(EnvText(vars))[i] == vars[i].0 + "=" + vars[i].1
  {
    var lines := seq(|vars|, i requires 0 <= i < |vars| => vars[i].0 + "=" + vars[i].1);
    forall i | 0 <= i < |lines| ensures '\n' !in lines[i] {
      assert lines[i] == vars[i].0 + "=" + vars[i].1;
    }
    SplitOnJoin(lines, '\n');
  }

  // ---------------------------------------------------------------------
  // uname and find (never registered)

  /** The answers of `uname` to its single options. */
  const SystemName := "RetroOS"
  const NodeName := "retro"
  const Release := "1.0"
  const Machine := "x86_64"

  /** `uname [-a|-s|-n|-r|-m]`: the system name by default. */
  function Uname(args: string): string {
    if args == "-a" then SystemName + " " + Release + " " + NodeName + " " + Machine + " BSD-compatible"
    else if args == "-s" then SystemName
    else if args == "-n" then NodeName
    else if args == "-r" then Release
    else if args == "-m" then Machine
    else SystemName
  }

  /** The shape of `uname -a`: the four fields, space separated, then a suffix. */
  function AllFields(sys: string, rel: string, node: string, mach: string): string {
    sys + " " + rel + " " + node + " " + mach + " BSD-compatible"
  }

  /** Each field occurs in the joined line. */
  lemma FieldsInfix(sys: string, rel: string, node: string, mach: string)
    ensures var all := AllFields(sys, rel, node, mach);
      IsInfix(sys, all) && IsInfix(rel, all) && IsInfix(node, all) && IsInfix(mach, all)
  {
    var all := AllFields(sys, rel, node, mach);
    assert OccursAt(all, sys, 0) by { assert all[..|sys|] == sys; }
    FieldAt(sys + " ", rel, " " + node + " " + mach + " BSD-compatible", all);
    FieldAt(sys + " " + rel + " ", node, " " + mach + " BSD-compatible", all);
    FieldAt(sys + " " + rel + " " + node + " ", mach, " BSD-compatible", all);
  }

  /** The middle piece of a three-part concatenation occurs in it. */
  lemma FieldAt(a: string, b: string, c: string, all: string)
    requires all == a + b + c
    ensures IsInfix(b, all)
  {
    assert all[|a|..|a| + |b|] == b;
    assert OccursAt(all, b, |a|);
  }

  /** `uname -a` contains the answer to each single option. */
  lemma UnameAllContainsEach(option: string)
    ensures Includes(Uname("-a"), Uname(option))
  {
    var all := Uname("-a");
    assert all == AllFields(SystemName, Release, NodeName, Machine);
    if option == "-a" {
      FieldAt("", all, "", all);
    } else {
      FieldsInfix(SystemName, Release, NodeName, Machine);
    }
    IncludesIff(all, Uname(option));
  }

  /** The keys, in order, whose entries are files. */
  function FileKeys(keys: seq<string>, items: map<string, Entry>): (r: seq<string>)
    ensures forall k :: k in r <==> k in keys && k in items && items[k].File?
  {
    if keys == [] then []
    else
      var rest := FileKeys(keys[1..], items);
      assert forall k :: k in keys <==> k == keys[0] || k in keys[1..] by {
        assert keys == [keys[0]] + keys[1..];
      }
      if keys[0] in items && items[keys[0]].File? then [keys[0]] + rest else rest
  }

  /** `find`: every file key, sorted, or a notice when there is none. */
  function Find(store: Store): (r: string)
    requires OrderedMaps.Valid(store)
    ensures (forall k :: k in store.items ==> store.items[k].Directory?) ==> r == "find: no files found"
  {
    var fileKeys := FileKeys(store.keys, store.items);
    var files := Sort(fileKeys);
    assert fileKeys != [] ==> fileKeys[0] in fileKeys;
    assert |files| == |fileKeys| by {
      assert |multiset(files)| == |multiset(fileKeys)|;
    }
    if |files| == 0 then "find: no files found" else Join(files, "\n")
  }

  /** When some file exists and no key holds a newline, `find` lists
      exactly the file keys, sorted, one per line. */
  lemma FindListsFiles(store: Store)
    requires OrderedMaps.Valid(store)
    requires exists k :: k in store.items && store.items[k].File?
    requires forall k :: k in store.items ==> '\n' !in k
    ensures Sorted(Lines(Find(store)))
    ensures forall k :: k in Lines(Find(store)) <==> k in store.items && store.items[k].File?
  {
    var fileKeys := FileKeys(store.keys, store.items);
    var files := Sort(fileKeys);
    var k :| k in store.items && store.items[k].File?;
    SortKeepsElements(fileKeys, k);
    forall i | 0 <= i < |files| ensures '\n' !in files[i] {
      SortKeepsElements(fileKeys, files[i]);
    }
    SplitOnJoin(files, '\n');
    forall x ensures x in files <==> x in store.items && store.items[x].File? {
      SortKeepsElements(fileKeys, x);
    }
  }

  // ---------------------------------------------------------------------
  // Commands that change the filesystem

  /** Where `touch` puts its file: the lowercased, trimmed name, behind the
      current directory's key unless that is the root. */
  function TouchPath(cwd: string, args: string): string {
    if cwd == "." then Normalize(args) else cwd + Normalize(args)
  }

  /** `touch <name>`: an empty plain file under `TouchPath`, replacing what
      was there, and persisted. */
  function TouchSpec(d: Disk, cwd: string, args: string): (r: (Disk, string))
    requires DiskValid(d)
    ensures DiskValid(r.0)
    ensures args == "" ==> r == (d, "touch: missing file operand")
    ensures args != "" ==>
      && r.0.store.items == d.store.items[TouchPath(cwd, args) := TextFile("")]
      && r.0.saved == Some(r.0.store)
      && r.1 == Normalize(args) + " [created]"
  {
    if args == "" then (d, "touch: missing file operand")
    else
      var filename := Trim(Lower(args));
      LowerThenTrim(args);
      var fullPath := if cwd == "." then filename else cwd + filename;
      (AddFileTo(d, fullPath, ""), filename + " [created]")
  }

  method Touch(fs: VirtualFilesystem, cwd: string, args: string) returns (r: string)
    requires fs.Valid()
    modifies fs
    ensures fs.Valid()
    ensures (fs.Contents(), r) == TouchSpec(old(fs.Contents()), cwd, args)
  {
    if args == "" {
      return "touch: missing file operand";
    }
    var filename := Trim(Lower(args));
    var fullPath := if cwd == "." then filename else cwd + filename;
    fs.AddFile(fullPath, "");
    r := filename + " [created]";
  }

  /** Joining two reachable keys gives a reachable key. */
  lemma NormalizedConcat(a: string, b: string)
    requires Normalized(a) && Normalized(b)
    ensures Normalized(a + b)
  {
    var s := a + b;
    assert forall i :: 0 <= i < |s| ==> s[i] == if i < |a| then a[i] else b[i - |a|];
  }

  /** When the current directory is the root or a reachable key, `getFile`
      finds the file `touch` made, empty. */
  lemma TouchCreatesEmptyFile(d: Disk, cwd: string, args: string)
    requires DiskValid(d) && args != ""
    requires cwd == "." || Normalized(cwd)
    ensures GetFile(TouchSpec(d, cwd, args).0.store, TouchPath(cwd, args)) == Some(TextFile(""))
  {
    var path := TouchPath(cwd, args);
    var after := TouchSpec(d, cwd, args).0.store;
    assert after.items == d.store.items[path := TextFile("")];
    TouchPathNormalized(cwd, args);
    GetFileOfLowerKey(after, path);
  }

  /** `touch` leaves every other key as it was. */
  lemma TouchKeepsOtherKeys(d: Disk, cwd: string, args: string, k: string)
    requires DiskValid(d) && args != "" && k != TouchPath(cwd, args)
    ensures Get(TouchSpec(d, cwd, args).0.store, k) == Get(d.store, k)
  {
    OtherKeyKept(d.store, TouchSpec(d, cwd, args).0.store, TouchPath(cwd, args), TextFile(""), k);
  }

  /** Writing one key of a store leaves the others as they were. */
  lemma OtherKeyKept(before: Store, after: Store, path: string, e: Entry, k: string)
    requires after.items == before.items[path := e] && k != path
    ensures Get(after, k) == Get(before, k)
  {
  }

  /** The path `touch` writes is a reachable key. */
  lemma TouchPathNormalized(cwd: string, args: string)
    requires cwd == "." || Normalized(cwd)
    ensures Normalized(TouchPath(cwd, args))
  {
    if cwd != "." {
      NormalizedConcat(cwd, Normalize(args));
    }
  }

  /** `mkdir <name>`: an empty directory under the lowercased, trimmed name
      with `/` appended when missing; not persisted. */
  function MkdirSpec(d: Disk, args: string): (r: (Disk, string))
    requires DiskValid(d)
    ensures DiskValid(r.0)
    ensures args == "" ==> r == (d, "mkdir: missing operand")
    ensures args != "" ==> r.1 == "mkdir: created directory '" + Normalize(args) + "'"
  {
    if args == "" then (d, "mkdir: missing operand")
    else
      var dirname := Trim(Lower(args));
      LowerThenTrim(args);
      if !EndsWith(dirname, "/") then
        (AddDirectoryTo(d, dirname + "/"), "mkdir: created directory '" + dirname + "'")
      else
        (AddDirectoryTo(d, dirname), "mkdir: created directory '" + dirname + "'")
  }

  method Mkdir(fs: VirtualFilesystem, args: string) returns (r: string)
    requires fs.Valid()
    modifies fs
    ensures fs.Valid()
    ensures (fs.Contents(), r) == MkdirSpec(old(fs.Contents()), args)
  {
    if args == "" {
      return "mkdir: missing operand";
    }
    var dirname := Trim(Lower(args));
    if !EndsWith(dirname, "/") {
      var fullPath := dirname + "/";
      fs.AddDirectory(fullPath);
      return "mkdir: created directory '" + dirname + "'";
    }
    fs.AddDirectory(dirname);
    r := "mkdir: created directory '" + dirname + "'";
  }

  /** The directory key of a directory key is itself. */
  lemma DirectoryKeyIdempotent(path: string)
    ensures DirectoryKey(DirectoryKey(path)) == DirectoryKey(path)
  {
    NormalizedFixed(DirectoryKey(path));
  }

  /** `mkdir` writes exactly one key, the argument's directory key, holding
      an empty directory, and leaves the stored copy alone. */
  lemma MkdirMakesDirectory(d: Disk, args: string)
    requires DiskValid(d) && args != ""
    ensures MkdirSpec(d, args).0.store.items == d.store.items[DirectoryKey(args) := Directory([])]
    ensures MkdirSpec(d, args).0.saved == d.saved
  {
    LowerThenTrim(args);
    var dirname := Normalize(args);
    var path := if !EndsWith(dirname, "/") then dirname + "/" else dirname;
    assert path == DirectoryKey(args);
    DirectoryKeyIdempotent(args);
  }

  /** After `mkdir name`, `cd name` enters the new directory. */
  lemma MkdirThenCd(d: Disk, args: string)
    requires DiskValid(d) && args != "" && !ResetsToRoot(args)
    ensures Cd(MkdirSpec(d, args).0.store, args) == Changed(DirectoryKey(args))
  {
    MkdirMakesDirectory(d, args);
    CdIntoEmptyDirectory(MkdirSpec(d, args).0.store, args);
  }

  /** `split(' ').filter(a => a.trim())`: the pieces that are not blank. */
  function NonBlank(parts: seq<string>): (r: seq<string>)
    ensures |r| <= |parts|
  {
    if parts == [] then []
    else
      var rest := NonBlank(parts[1..]);
      if Trim(parts[0]) != "" then [parts[0]] + rest else rest
  }

  /** The filter keeps exactly the non-blank pieces. */
  lemma {:induction false} NonBlankMembers(parts: seq<string>, x: string)
    ensures x in NonBlank(parts) <==> x in parts && Trim(x) != ""
  {
    if parts != [] {
      var rest := NonBlank(parts[1..]);
      NonBlankMembers(parts[1..], x);
      assert x in parts <==> x == parts[0] || x in parts[1..] by {
        assert parts == [parts[0]] + parts[1..];
      }
      if Trim(parts[0]) != "" {
        assert NonBlank(parts) == [parts[0]] + rest;
      } else {
        assert NonBlank(parts) == rest;
      }
    }
  }

  /** Pieces that are all non-blank are kept as they are. */
  lemma {:induction false} NonBlankAll(parts: seq<string>)
    requires forall i :: 0 <= i < |parts| ==> Trim(parts[i]) != ""
    ensures NonBlank(parts) == parts
  {
    if parts != [] {
      NonBlankAll(parts[1..]);
    }
  }

  /** `rm` on one target: a name ending in `/` is refused, a file is
      removed, anything else is reported missing.  Only a file's key is
      ever deleted. */
  function RmOne(d: Disk, target: string): (r: (Disk, string))
    requires DiskValid(d)
    ensures DiskValid(r.0)
    ensures EndsWith(Normalize(target), "/") || GetFile(d.store, target).None? ==> r.0 == d
    ensures !EndsWith(Normalize(target), "/") && GetFile(d.store, target).Some? ==>
      r.0.store.items == d.store.items - {Normalize(target)} && r.0.saved == Some(r.0.store)
    ensures EndsWith(Normalize(target), "/") ==>
      r.1 == "rm: refusing to remove directory '" + Normalize(target) + "' (use rm -r)"
    ensures !EndsWith(Normalize(target), "/") && GetFile(d.store, target).Some? ==>
      r.1 == "rm: removed '" + Normalize(target) + "'"
    ensures !EndsWith(Normalize(target), "/") && GetFile(d.store, target).None? ==>
      r.1 == "rm: cannot remove '" + Normalize(target) + "': No such file or directory"
  {
    var cleanTarget := Trim(Lower(target));
    LowerThenTrim(target);
    NormalizeIdempotent(target);
    if EndsWith(cleanTarget, "/") then
      (d, "rm: refusing to remove directory '" + cleanTarget + "' (use rm -r)")
    else if GetFile(d.store, cleanTarget).Some? then
      (RemoveFrom(d, cleanTarget).0, "rm: removed '" + cleanTarget + "'")
    else
      (d, "rm: cannot remove '" + cleanTarget + "': No such file or directory")
  }

  /** `rm` on the targets in order: the final disk and one message each. */
  function RmAll(d: Disk, targets: seq<string>): (r: (Disk, seq<string>))
    requires DiskValid(d)
    ensures DiskValid(r.0) && |r.1| == |targets|
    decreases |targets|
  {
    if targets == [] then (d, [])
    else
      var prev := RmAll(d, targets[..|targets| - 1]);
      var step := RmOne(prev.0, targets[|targets| - 1]);
      (step.0, prev.1 + [step.1])
  }

  /** One more target is one more `RmOne` step. */
  lemma RmAllStep(d: Disk, targets: seq<string>, i: nat)
    requires DiskValid(d) && i < |targets|
    ensures var prev := RmAll(d, targets[..i]);
      RmAll(d, targets[..i + 1]) == (RmOne(prev.0, targets[i]).0, prev.1 + [RmOne(prev.0, targets[i]).1])
  {
    assert targets[..i + 1][..i] == targets[..i];
  }

  /** The `i`-th message is `RmOne`'s on the disk the earlier targets left. */
  lemma RmAllStepMessage(d: Disk, targets: seq<string>, i: nat)
    requires DiskValid(d) && i < |targets|
    ensures RmAll(d, targets[..i + 1]).1[i] == RmOne(RmAll(d, targets[..i]).0, targets[i]).1
  {
    RmAllStep(d, targets, i);
  }

  /** A later target leaves the earlier targets' messages alone. */
  lemma RmAllKeepsMessage(d: Disk, targets: seq<string>, i: nat, j: nat)
    requires DiskValid(d) && i < j < |targets|
    ensures RmAll(d, targets[..j + 1]).1[i] == RmAll(d, targets[..j]).1[i]
  {
    RmAllStep(d, targets, j);
  }

  /** The `i`-th message is fixed once target `i` has been handled. */
  lemma {:induction false} RmAllMessageFrom(d: Disk, targets: seq<string>, i: nat, j: nat)
    requires DiskValid(d) && i < j <= |targets|
    ensures RmAll(d, targets[..j]).1[i] == RmAll(d, targets[..i + 1]).1[i]
    decreases j
  {
    if j > i + 1 {
      RmAllKeepsMessage(d, targets, i, j - 1);
      RmAllMessageFrom(d, targets, i, j - 1);
    }
  }

  /** The message `rm` pushes for the `i`-th target is the one `RmOne`
      gives on the disk the earlier targets left. */
  lemma RmAllMessage(d: Disk, targets: seq<string>, i: nat)
    requires DiskValid(d) && i < |targets|
    ensures RmAll(d, targets).1[i] == RmOne(RmAll(d, targets[..i]).0, targets[i]).1
  {
    RmAllMessageFrom(d, targets, i, |targets|);
    assert targets[..|targets|] == targets;
    RmAllStepMessage(d, targets, i);
  }

  /** Every message `rm` pushes, target by target. */
  lemma RmAllMessages(d: Disk, targets: seq<string>)
    requires DiskValid(d)
    ensures forall i :: 0 <= i < |targets| ==>
      RmAll(d, targets).1[i] == RmOne(RmAll(d, targets[..i]).0, targets[i]).1
  {
    forall i | 0 <= i < |targets|
      ensures RmAll(d, targets).1[i] == RmOne(RmAll(d, targets[..i]).0, targets[i]).1
    {
      RmAllMessage(d, targets, i);
    }
  }

  /** `rm <file>...`. */
  function RmSpec(d: Disk, args: string): (r: (Disk, string))
    requires DiskValid(d)
    ensures DiskValid(r.0)
    ensures args == "" ==> r == (d, "rm: missing operand")
    ensures args != "" ==> r.0 == RmAll(d, NonBlank(SplitOn(args, " "))).0
    ensures args != "" ==> r.1 == Join(RmAll(d, NonBlank(SplitOn(args, " "))).1, "\n")
  {
    if args == "" then (d, "rm: missing operand")
    else
      var done := RmAll(d, NonBlank(SplitOn(args, " ")));
      (done.0, Join(done.1, "\n"))
  }

  /** The body of `rm`'s loop: one target. */
  method RmTarget(fs: VirtualFilesystem, target: string) returns (message: string)
    requires fs.Valid()
    modifies fs
    ensures fs.Valid()
    ensures (fs.Contents(), message) == RmOne(old(fs.Contents()), target)
  {
    var cleanTarget := Trim(Lower(target));
    if EndsWith(cleanTarget, "/") {
      message := "rm: refusing to remove directory '" + cleanTarget + "' (use rm -r)";
    } else if GetFile(fs.store, cleanTarget).Some? {
      var _ := fs.RemoveFile(cleanTarget);
      message := "rm: removed '" + cleanTarget + "'";
    } else {
      message := "rm: cannot remove '" + cleanTarget + "': No such file or directory";
    }
  }

  /** `rm`: handles each non-blank space-separated target in turn, pushing
      one message per target, and joins the messages with newlines. */
  method Rm(fs: VirtualFilesystem, args: string) returns (r: string)
    requires fs.Valid()
    modifies fs
    ensures fs.Valid()
    ensures (fs.Contents(), r) == RmSpec(old(fs.Contents()), args)
  {
    if args == "" {
      return "rm: missing operand";
    }
    var targets := NonBlank(SplitOn(args, " "));
    ghost var start := fs.Contents();
    var results: seq<string> := [];
    var i := 0;
    while i < |targets|
      invariant 0 <= i <= |targets|
      invariant fs.Valid()
      invariant (fs.Contents(), results) == RmAll(start, targets[..i])
    {
      var message := RmTarget(fs, targets[i]);
      RmAllStep(start, targets, i);
      results := results + [message];
      i := i + 1;
    }
    assert targets[..i] == targets;
    r := Join(results, "\n");
  }

  /** One `rm` target deletes at most the file under its normalized name,
      and nothing else. */
  lemma RmOneEffect(d: Disk, target: string, k: string)
    requires DiskValid(d)
    ensures var after := RmOne(d, target).0.store;
      && (k in after.items ==> k in d.store.items && after.items[k] == d.store.items[k])
      && (Normalize(target) != k ==> Get(after, k) == Get(d.store, k))
      && (Normalize(target) == k && !EndsWith(k, "/") ==> !(k in after.items && after.items[k].File?))
  {
  }

  /** The keys the targets name, in order. */
  function TargetKeys(targets: seq<string>): (r: seq<string>)
    ensures |r| == |targets|
    decreases |targets|
  {
    if targets == [] then []
    else TargetKeys(targets[..|targets| - 1]) + [Normalize(targets[|targets| - 1])]
  }

  /** `rm` only deletes: every key left keeps its entry.  A key that no
      target names is untouched, and a key that a target names (without a
      trailing `/`) no longer holds a file. */
  lemma {:induction false} RmAllEffect(d: Disk, targets: seq<string>, k: string)
    requires DiskValid(d)
    ensures var after := RmAll(d, targets).0.store;
      && (k in after.items ==> k in d.store.items && after.items[k] == d.store.items[k])
      && (k !in TargetKeys(targets) ==> Get(after, k) == Get(d.store, k))
      && (k in TargetKeys(targets) && !EndsWith(k, "/") ==> !(k in after.items && after.items[k].File?))
    decreases |targets|
  {
    if targets != [] {
      var init := targets[..|targets| - 1];
      var last := targets[|targets| - 1];
      RmAllEffect(d, init, k);
      var prev := RmAll(d, init).0;
      assert RmAll(d, targets).0 == RmOne(prev, last).0;
      RmOneEffect(prev, last, k);
    }
  }

  /** Copying a file that `getFile` finds: the destination, as given,
      becomes a plain file holding the source's content, which for an image
      is its URL; a missing source changes nothing. */
  function CopyFile(d: Disk, source: string, dest: string): (r: (Disk, string))
    requires DiskValid(d)
    ensures DiskValid(r.0)
    ensures GetFile(d.store, source).None? ==>
      r == (d, "cp: cannot open '" + source + "' for reading: No such file or directory")
    ensures GetFile(d.store, source).Some? ==>
      && r.0.store.items == d.store.items[dest := TextFile(GetFile(d.store, source).value.content)]
      && r.0.saved == Some(r.0.store)
      && r.1 == source + " -> " + dest
  {
    match GetFile(d.store, source)
    case None => (d, "cp: cannot open '" + source + "' for reading: No such file or directory")
    case Some(f) => (AddFileTo(d, dest, f.content), source + " -> " + dest)
  }

  /** `cp <source> <dest>`: the first two non-blank space-separated
      operands, lowercased. */
  function CpSpec(d: Disk, args: string): (r: (Disk, string))
    requires DiskValid(d)
    ensures DiskValid(r.0)
    ensures args == "" || |SplitOn(args, " ")| < 2 ==> r == (d, "cp: missing file operand")
    ensures args != "" && |SplitOn(args, " ")| >= 2 && |NonBlank(SplitOn(args, " "))| < 2 ==>
      r == (d, "cp: missing destination")
  {
    if args == "" || |SplitOn(args, " ")| < 2 then (d, "cp: missing file operand")
    else
      var parts := NonBlank(SplitOn(args, " "));
      if |parts| < 2 then (d, "cp: missing destination")
      else CopyFile(d, Lower(parts[0]), Lower(parts[1]))
  }

  method Cp(fs: VirtualFilesystem, args: string) returns (r: string)
    requires fs.Valid()
    modifies fs
    ensures fs.Valid()
    ensures (fs.Contents(), r) == CpSpec(old(fs.Contents()), args)
  {
    if args == "" || |SplitOn(args, " ")| < 2 {
      return "cp: missing file operand";
    }
    var parts := NonBlank(SplitOn(args, " "));
    if |parts| < 2 {
      return "cp: missing destination";
    }
    var source := Lower(parts[0]);
    var dest := Lower(parts[1]);
    var sourceFile := GetFile(fs.store, source);
    if sourceFile.None? {
      return "cp: cannot open '" + source + "' for reading: No such file or directory";
    }
    fs.AddFile(dest, sourceFile.value.content);
    r := source + " -> " + dest;
  }

  /** A word with no whitespace is its own trimmed form and has no space. */
  lemma PlainWord(w: string)
    requires w != [] && NoSpace(w)
    ensures ' ' !in w && Trim(w) == w
  {
    TrimStartOfUnspaced(w);
    TrimEndOfUnspaced(w);
    forall j | 0 <= j < |w| ensures w[j] != ' ' {
      assert !IsSpace(w[j]);
    }
  }

  /** Two words separated by one space are read back as the two operands. */
  lemma OperandsOf(source: string, dest: string)
    requires source != [] && NoSpace(source) && dest != [] && NoSpace(dest)
    ensures SplitOn(source + " " + dest, " ") == [source, dest]
    ensures NonBlank(SplitOn(source + " " + dest, " ")) == [source, dest]
  {
    PlainWord(source);
    PlainWord(dest);
    var ws := [source, dest];
    assert forall i :: 0 <= i < |ws| ==> ' ' !in ws[i] && Trim(ws[i]) != "" by {
      assert ws[0] == source && ws[1] == dest;
    }
    assert Join(ws, " ") == source + " " + dest by {
      assert ws[1..] == [dest];
      assert Join([dest], " ") == dest;
    }
    SplitOnJoin(ws, ' ');
    NonBlankAll(ws);
  }

  /** `cp a b` with two words copies from `a` to `b`, both lowercased. */
  lemma CpOperands(d: Disk, source: string, dest: string)
    requires DiskValid(d)
    requires source != [] && NoSpace(source) && dest != [] && NoSpace(dest)
    ensures CpSpec(d, source + " " + dest) == CopyFile(d, Lower(source), Lower(dest))
  {
    var args := source + " " + dest;
    OperandsOf(source, dest);
    assert args != "" && |SplitOn(args, " ")| == 2;
    var parts := NonBlank(SplitOn(args, " "));
    assert parts[0] == source && parts[1] == dest;
  }

  /** The message when a handler reads a property of a missing operand. */
  const UndefinedOperand := "Cannot read properties of undefined (reading 'toLowerCase')"

  /** Moving a file that `getFile` finds: a copy to the destination as
      given, then `removeFile` on the source, which deletes its normalized
      key even when that is the destination just written. */
  function MoveFile(d: Disk, source: string, dest: string): (r: (Disk, Outcome))
    requires DiskValid(d)
    ensures DiskValid(r.0) && r.1.Returned?
    ensures GetFile(d.store, source).None? ==>
      r == (d, Returned(Text("mv: cannot stat '" + source + "': No such file or directory")))
    ensures GetFile(d.store, source).Some? ==>
      && r.0.store.items == d.store.items[dest := TextFile(GetFile(d.store, source).value.content)] - {Normalize(source)}
      && r.0.saved == Some(r.0.store)
      && r.1 == Returned(Text(source + " -> " + dest))
  {
    match GetFile(d.store, source)
    case None => (d, Returned(Text("mv: cannot stat '" + source + "': No such file or directory")))
    case Some(f) =>
      var copied := AddFileTo(d, dest, f.content);
      assert Exists(copied.store, source);
      (RemoveFrom(copied, source).0, Returned(Text(source + " -> " + dest)))
  }

  /** `mv <source> <dest>`: the first two non-blank space-separated
      operands, lowercased.  With at least two pieces but fewer than two
      non-blank operands, the handler throws. */
  function MvSpec(d: Disk, args: string): (r: (Disk, Outcome))
    requires DiskValid(d)
    ensures DiskValid(r.0)
    ensures !r.1.Pending?
    ensures args == "" || |SplitOn(args, " ")| < 2 ==> r == (d, Returned(Text("mv: missing operand")))
    ensures r.1.Threw? <==> args != "" && |SplitOn(args, " ")| >= 2 && |NonBlank(SplitOn(args, " "))| < 2
    ensures r.1.Threw? ==> r == (d, Threw(UndefinedOperand))
  {
    if args == "" || |SplitOn(args, " ")| < 2 then (d, Returned(Text("mv: missing operand")))
    else
      var parts := NonBlank(SplitOn(args, " "));
      if |parts| < 2 then (d, Threw(UndefinedOperand))
      else MoveFile(d, Lower(parts[0]), Lower(parts[1]))
  }

  method Mv(fs: VirtualFilesystem, args: string) returns (r: Outcome)
    requires fs.Valid()
    modifies fs
    ensures fs.Valid()
    ensures (fs.Contents(), r) == MvSpec(old(fs.Contents()), args)
  {
    if args == "" || |SplitOn(args, " ")| < 2 {
      return Returned(Text("mv: missing operand"));
    }
    var parts := NonBlank(SplitOn(args, " "));
    if |parts| < 2 {
      return Threw(UndefinedOperand);
    }
    var source := Lower(parts[0]);
    var dest := Lower(parts[1]);
    r := MoveIn(fs, source, dest);
  }

  /** The copy-then-remove of `mv` once the operands are read. */
  method MoveIn(fs: VirtualFilesystem, source: string, dest: string) returns (r: Outcome)
    requires fs.Valid()
    modifies fs
    ensures fs.Valid()
    ensures (fs.Contents(), r) == MoveFile(old(fs.Contents()), source, dest)
  {
    var sourceFile := GetFile(fs.store, source);
    if sourceFile.None? {
      return Returned(Text("mv: cannot stat '" + source + "': No such file or directory"));
    }
    fs.AddFile(dest, sourceFile.value.content);
    var _ := fs.RemoveFile(source);
    r := Returned(Text(source + " -> " + dest));
  }

  /** `mv a b` with two words moves from `a` to `b`, both lowercased. */
  lemma MvOperands(d: Disk, source: string, dest: string)
    requires DiskValid(d)
    requires source != [] && NoSpace(source) && dest != [] && NoSpace(dest)
    ensures MvSpec(d, source + " " + dest) == MoveFile(d, Lower(source), Lower(dest))
  {
    var args := source + " " + dest;
    OperandsOf(source, dest);
    assert args != "" && |SplitOn(args, " ")| == 2;
    var parts := NonBlank(SplitOn(args, " "));
    assert parts[0] == source && parts[1] == dest;
  }

  /** `mv a a` copies the file onto itself and then removes it: the file is
      gone. */
  lemma MvOntoItselfDeletes(d: Disk, name: string)
    requires DiskValid(d)
    requires name != [] && NoSpace(name) && HasNoUpper(name)
    requires GetFile(d.store, name).Some?
    ensures MvSpec(d, name + " " + name).1 == Returned(Text(name + " -> " + name))
    ensures name !in MvSpec(d, name + " " + name).0.store.items
  {
    MvOperands(d, name, name);
    LowerOfNoUpper(name);
    assert Normalized(name);
    NormalizedFixed(name);
  }

  /** A word followed by a space, leaving a blank second operand, makes
      `mv` throw. */
  lemma MvThrowsOnTrailingSpace(d: Disk, w: string)
    requires DiskValid(d) && w != [] && NoSpace(w)
    ensures MvSpec(d, w + " ").1 == Threw(UndefinedOperand)
  {
    TrailingSpaceOperands(w);
  }

  /** A word and a space split into the word and a blank piece, which the
      filter drops. */
  lemma TrailingSpaceOperands(w: string)
    requires w != [] && NoSpace(w)
    ensures SplitOn(w + " ", " ") == [w, ""]
    ensures NonBlank(SplitOn(w + " ", " ")) == [w]
  {
    PlainWord(w);
    SplitWordSpace(w);
    DropsBlank(w);
  }

  /** A word followed by one space splits into the word and an empty piece. */
  lemma SplitWordSpace(w: string)
    requires ' ' !in w
    ensures SplitOn(w + " ", " ") == [w, ""]
  {
    var ws := [w, ""];
    assert Join(ws, " ") == w + " " by {
      assert ws[1..] == [""];
      assert Join([""], " ") == "";
    }
    SplitOnJoin(ws, ' ');
  }

  /** The empty piece after a word is dropped. */
  lemma DropsBlank(w: string)
    requires Trim(w) != ""
    ensures NonBlank([w, ""]) == [w]
  {
    var ws := [w, ""];
    assert ws[1..] == [""];
    assert Trim("") == "";
    assert NonBlank([""]) == [];
  }

  /** An argument made of words joined by single spaces, as the prompt
      produces, never makes `mv` throw. */
  lemma MvDoesNotThrowOnWords(d: Disk, words: seq<string>)
    requires DiskValid(d) && words != []
    requires forall i :: 0 <= i < |words| ==> words[i] != [] && NoSpace(words[i])
    ensures !MvSpec(d, Join(words, " ")).1.Threw?
  {
    WordOperands(words);
    MvKeepsOperands(d, Join(words, " "));
  }

  /** When the filter drops no piece, `mv` does not throw. */
  lemma MvKeepsOperands(d: Disk, args: string)
    requires DiskValid(d) && NonBlank(SplitOn(args, " ")) == SplitOn(args, " ")
    ensures !MvSpec(d, args).1.Threw?
  {
  }

  /** Words joined by single spaces split back into the same words, all
      kept by the filter. */
  lemma WordOperands(words: seq<string>)
    requires words != []
    requires forall i :: 0 <= i < |words| ==> words[i] != [] && NoSpace(words[i])
    ensures SplitOn(Join(words, " "), " ") == words
    ensures NonBlank(SplitOn(Join(words, " "), " ")) == words
  {
    forall i | 0 <= i < |words| ensures ' ' !in words[i] && Trim(words[i]) != "" {
      PlainWord(words[i]);
    }
    SplitOnJoin(words, ' ');
    NonBlankAll(words);
  }
}

/**
 * The base command handlers that read the registry: `help`, which lists the
 * visible commands once each, and `man`, which lays out a descriptor's
 * documentation; plus the trivial `echo` and `whoami`.
 */
module BaseCommands {

  import opened Wrappers
  import opened JsStrings
  import opened OrderedMaps
  import opened Registry

  // ---------------------------------------------------------------------
  // help

  const HelpHeader: seq<string> := ["AVAILABLE COMMANDS:", ""]

  const ManHint := "Use \"man &lt;command&gt;\" for more information on a command."
  const HiddenHint := "<span style=\"opacity: 0.5\">Hint: Some commands are hidden... try exploring!</span>"

  const HelpFooter: seq<string> := ["", ManHint, HiddenHint]

  /** One listed command: its name padded to twelve columns in cyan, then
      its description. */
  function HelpLine(cmd: Command): string {
    "  <span style=\"color: #00ffff\">" + PadEnd(cmd.name, 12) + "</span> - " + cmd.description
  }

  /** The names of the listed descriptors: the `seen` set. */
  function Names(listed: seq<Command>): set<string>
    decreases |listed|
  {
    if listed == [] then {} else Names(listed[..|listed| - 1]) + {listed[|listed| - 1].name}
  }

  /** A name is in `Names` exactly when some listed descriptor carries it. */
  lemma {:induction false} NamesMembers(listed: seq<Command>, x: string)
    ensures x in Names(listed) <==> exists c :: c in listed && c.name == x
    decreases |listed|
  {
    if listed != [] {
      var init := listed[..|listed| - 1];
      var last := listed[|listed| - 1];
      NamesMembers(init, x);
      assert listed == init + [last];
      if x in Names(init) {
        var c :| c in init && c.name == x;
        assert c in listed;
      }
      if exists c :: c in listed && c.name == x {
        var c :| c in listed && c.name == x;
        if c != last {
          assert c in init;
        }
      }
    }
  }

  /** The descriptors `help` lists from `cmds`: each visible descriptor whose
      name was not listed before it. */
  function Listed(cmds: seq<Command>): seq<Command>
    decreases |cmds|
  {
    if cmds == [] then []
    else
      var before := Listed(cmds[..|cmds| - 1]);
      var c := cmds[|cmds| - 1];
      if c.name !in Names(before) && !c.hidden then before + [c] else before
  }

  /** The help lines of the listed descriptors, in order. */
  function EntryLines(listed: seq<Command>): (r: seq<string>)
    ensures |r| == |listed|
    ensures forall i :: 0 <= i < |listed| ==> r[i] == HelpLine(listed[i])
  {
    if listed == [] then []
    else EntryLines(listed[..|listed| - 1]) + [HelpLine(listed[|listed| - 1])]
  }

  /** All lines of `help` over the registry's values. */
  function HelpLines(cmds: seq<Command>): seq<string> {
    HelpHeader + EntryLines(Listed(cmds)) + HelpFooter
  }

  /** One more descriptor walked: listed when visible and new. */
  lemma ListedStep(cmds: seq<Command>, i: nat)
    requires i < |cmds|
    ensures var before := Listed(cmds[..i]);
      Listed(cmds[..i + 1]) ==
        if cmds[i].name !in Names(before) && !cmds[i].hidden then before + [cmds[i]] else before
  {
    assert cmds[..i + 1][..i] == cmds[..i];
  }

  lemma NamesAppend(listed: seq<Command>, c: Command)
    ensures Names(listed + [c]) == Names(listed) + {c.name}
  {
    assert (listed + [c])[..|listed|] == listed;
  }

  lemma EntryLinesAppend(listed: seq<Command>, c: Command)
    ensures EntryLines(listed + [c]) == EntryLines(listed) + [HelpLine(c)]
  {
    assert (listed + [c])[..|listed|] == listed;
  }

  /** The help lines for the descriptors in the order given. */
  method HelpOver(cmds: seq<Command>) returns (lines: seq<string>)
    ensures lines == HelpLines(cmds)
  {
    var seen: set<string> := {};
    var entries: seq<string> := [];
    var i := 0;
    while i < |cmds|
      invariant 0 <= i <= |cmds|
      invariant seen == Names(Listed(cmds[..i]))
      invariant entries == EntryLines(Listed(cmds[..i]))
    {
      var cmd := cmds[i];
      ListedStep(cmds, i);
      if cmd.name !in seen && !cmd.hidden {
        NamesAppend(Listed(cmds[..i]), cmd);
        EntryLinesAppend(Listed(cmds[..i]), cmd);
        seen := seen + {cmd.name};
        entries := entries + [HelpLine(cmd)];
      }
      i := i + 1;
    }
    assert cmds[..i] == cmds;
    lines := HelpHeader + entries + HelpFooter;
  }

  /** `help`: walks the registry's values in order, keeps a set of the names
      listed so far, and pushes a line for each visible descriptor whose
      name is new, between the fixed header and footer. */
  method Help(commands: Commands) returns (r: string)
    requires Valid(commands)
    ensures r == Join(HelpLines(Values(commands)), "\n")
  {
    var lines := HelpOver(Values(commands));
    r := Join(lines, "\n");
  }

  /** Everything listed is a visible descriptor of `cmds`. */
  lemma {:induction false} ListedSound(cmds: seq<Command>)
    ensures forall c :: c in Listed(cmds) ==> c in cmds && !c.hidden
    decreases |cmds|
  {
    if cmds != [] {
      var init := cmds[..|cmds| - 1];
      ListedSound(init);
      assert forall c :: c in init ==> c in cmds;
    }
  }

  /** No name is listed twice. */
  lemma {:induction false} ListedDistinct(cmds: seq<Command>)
    ensures forall i, j :: 0 <= i < j < |Listed(cmds)| ==> Listed(cmds)[i].name != Listed(cmds)[j].name
    decreases |cmds|
  {
    if cmds != [] {
      var before := Listed(cmds[..|cmds| - 1]);
      var c := cmds[|cmds| - 1];
      ListedDistinct(cmds[..|cmds| - 1]);
      if c.name !in Names(before) && !c.hidden {
        var r := before + [c];
        forall i, j | 0 <= i < j < |r| ensures r[i].name != r[j].name {
          if j == |before| {
            assert r[i] in before;
            NamesMembers(before, c.name);
          }
        }
      }
    }
  }

  /** Every visible descriptor has its name listed. */
  lemma {:induction false} ListedComplete(cmds: seq<Command>, c: Command)
    requires c in cmds && !c.hidden
    ensures c.name in Names(Listed(cmds))
    decreases |cmds|
  {
    var init := cmds[..|cmds| - 1];
    var last := cmds[|cmds| - 1];
    var before := Listed(init);
    if last.name !in Names(before) && !last.hidden {
      NamesAppend(before, last);
    }
    if c != last {
      assert c in init by {
        var i :| 0 <= i < |cmds| && cmds[i] == c;
        assert i < |cmds| - 1;
        assert init[i] == c;
      }
      ListedComplete(init, c);
    }
  }

  /** What `help` promises of a registry: every visible descriptor reached
      through any key, alias or name, has its name listed; each listed name
      appears once; and only visible registered descriptors are listed, so
      hidden commands never show. */
  lemma HelpListsVisibleOnce(commands: Commands, k: string)
    requires Valid(commands)
    ensures forall c :: c in Listed(Values(commands)) ==>
              !c.hidden && exists key :: key in commands.items && commands.items[key] == c
    ensures forall i, j :: 0 <= i < j < |Listed(Values(commands))| ==>
              Listed(Values(commands))[i].name != Listed(Values(commands))[j].name
    ensures k in commands.items && !commands.items[k].hidden ==>
              commands.items[k].name in Names(Listed(Values(commands)))
  {
    var cmds := Values(commands);
    ListedSound(cmds);
    ListedDistinct(cmds);
    forall c | c in Listed(cmds)
      ensures exists key :: key in commands.items && commands.items[key] == c
    {
      var i :| 0 <= i < |cmds| && cmds[i] == c;
      assert commands.keys[i] in commands.items;
    }
    if k in commands.items && !commands.items[k].hidden {
      var i :| 0 <= i < |commands.keys| && commands.keys[i] == k;
      assert cmds[i] == commands.items[k];
      ListedComplete(cmds, commands.items[k]);
    }
  }

  // ---------------------------------------------------------------------
  // man

  const ManUsage := "Usage: man <command>\nUse \"help\" to see available commands."
  const NoDocumentation := "(No additional documentation available)"

  /** Each item behind a two-space indent. */
  function Indent(items: seq<string>): (r: seq<string>)
    ensures |r| == |items|
    ensures forall i :: 0 <= i < |items| ==> r[i] == "  " + items[i]
  {
    seq(|items|, i requires 0 <= i < |items| => "  " + items[i])
  }

  /** A section printed only when its list is present: a blank line, the
      heading, then the indented items. */
  function Section(heading: string, items: Option<seq<string>>): seq<string> {
    if items.None? then [] else ["", heading] + Indent(items.value)
  }

  function SectionLength(items: Option<seq<string>>): nat {
    if items.None? then 0 else 2 + |items.value|
  }

  /** One option: its name padded to twenty columns, a space, its text. */
  function OptionLine(option: (string, string)): string {
    PadEnd(option.0, 20) + " " + option.1
  }

  function OptionLines(options: Option<seq<(string, string)>>): (r: Option<seq<string>>)
    ensures r.None? <==> options.None?
    ensures r.Some? ==> |r.value| == |options.value|
    ensures r.Some? ==> forall i :: 0 <= i < |r.value| ==> r.value[i] == OptionLine(options.value[i])
  {
    if options.None? then None
    else Some(seq(|options.value|, i requires 0 <= i < |options.value| => OptionLine(options.value[i])))
  }

  /** The documentation part of a page. */
  function DocLines(doc: Option<Documentation>, cmdName: string): seq<string> {
    if doc.None? then ["", NoDocumentation]
    else
      var d := doc.value;
      ["", "USAGE", "  " + (if d.usage != "" then d.usage else cmdName)]
      + Section("EXAMPLES", d.examples)
      + Section("NOTES", d.notes)
      + Section("OPTIONS", OptionLines(d.options))
  }

  function AliasLines(aliases: seq<string>): seq<string> {
    if |aliases| > 0 then ["", "ALIASES", "  " + Join(aliases, ", ")] else []
  }

  /** The manual page of `cmd` looked up as `cmdName`. */
  function ManLines(cmdName: string, cmd: Command): seq<string> {
    [Upper(cmdName), "", "DESCRIPTION", "  " + cmd.description]
    + DocLines(cmd.documentation, cmdName)
    + AliasLines(cmd.aliases)
  }

  /** `man <name>`: the usage text without an argument, a refusal for a key
      the registry does not hold, and otherwise the page of the descriptor
      that key (name or alias) leads to. */
  function Man(commands: Commands, args: string): (r: string)
    ensures args == "" ==> r == ManUsage
    ensures args != "" && Get(commands, Lower(Trim(args))).None? ==>
              r == "man: No manual entry for '" + Lower(Trim(args)) + "'"
    ensures args != "" && Get(commands, Lower(Trim(args))).Some? ==>
              r == Join(ManLines(Lower(Trim(args)), Get(commands, Lower(Trim(args))).value), "\n")
  {
    if args == "" then ManUsage
    else
      var cmdName := Lower(Trim(args));
      var cmdObj := Get(commands, cmdName);
      if cmdObj.None? then "man: No manual entry for '" + cmdName + "'"
      else Join(ManLines(cmdName, cmdObj.value), "\n")
  }

  /** The layout of a page: the looked-up name in capitals and the
      description come first; then either the usage (falling back to the
      looked-up name) or the no-documentation notice; the alias section
      closes the page exactly when there are aliases. */
  lemma ManPageLayout(cmdName: string, cmd: Command)
    ensures var r := ManLines(cmdName, cmd);
      && |r| == 4 + |DocLines(cmd.documentation, cmdName)| + (if |cmd.aliases| > 0 then 3 else 0)
      && r[0] == Upper(cmdName) && r[1] == "" && r[2] == "DESCRIPTION"
      && r[3] == "  " + cmd.description
      && (cmd.documentation.None? ==> r[4] == "" && r[5] == NoDocumentation)
      && (cmd.documentation.Some? ==>
            var u := cmd.documentation.value.usage;
            r[4] == "" && r[5] == "USAGE" && r[6] == "  " + (if u != "" then u else cmdName))
      && (|cmd.aliases| > 0 ==>
            r[|r| - 2] == "ALIASES" && r[|r| - 1] == "  " + Join(cmd.aliases, ", "))
  {
  }

  /** EXAMPLES, when present, comes right after the usage, each example
      indented by two spaces. */
  lemma ManExamples(cmdName: string, cmd: Command, j: nat)
    requires cmd.documentation.Some? && cmd.documentation.value.examples.Some?
    ensures var ex := cmd.documentation.value.examples.value;
      var r := ManLines(cmdName, cmd);
      && r[7] == "" && r[8] == "EXAMPLES"
      && (j < |ex| ==> r[9 + j] == "  " + ex[j])
  {
  }

  /** NOTES, when present, comes right after the examples section (or the
      usage, without examples), each note indented by two spaces. */
  lemma ManNotes(cmdName: string, cmd: Command, j: nat)
    requires cmd.documentation.Some? && cmd.documentation.value.notes.Some?
    ensures var d := cmd.documentation.value;
      var r := ManLines(cmdName, cmd);
      var at := 8 + SectionLength(d.examples);
      && r[at - 1] == "" && r[at] == "NOTES"
      && (j < |d.notes.value| ==> r[at + 1 + j] == "  " + d.notes.value[j])
  {
    var d := cmd.documentation.value;
    var off := 3 + SectionLength(d.examples);
    SectionAt("NOTES", d.notes, j);
    DocSection(cmdName, cmd, off, 0);
    DocSection(cmdName, cmd, off, 1);
    if j < |d.notes.value| {
      DocSection(cmdName, cmd, off, 2 + j);
    }
  }

  /** OPTIONS, when present, comes after examples and notes, each option
      name padded to twenty columns before its text. */
  lemma ManOptions(cmdName: string, cmd: Command, j: nat)
    requires cmd.documentation.Some? && cmd.documentation.value.options.Some?
    ensures var d := cmd.documentation.value;
      var r := ManLines(cmdName, cmd);
      var at := 8 + SectionLength(d.examples) + SectionLength(d.notes);
      && r[at - 1] == "" && r[at] == "OPTIONS"
      && (j < |d.options.value| ==> r[at + 1 + j] == "  " + OptionLine(d.options.value[j]))
  {
    var d := cmd.documentation.value;
    var off := 3 + SectionLength(d.examples) + SectionLength(d.notes);
    SectionAt("OPTIONS", OptionLines(d.options), j);
    DocSection(cmdName, cmd, off, 0);
    DocSection(cmdName, cmd, off, 1);
    if j < |d.options.value| {
      DocSection(cmdName, cmd, off, 2 + j);
    }
  }

  /** Line `4 + k` of a page is line `k` of its documentation part; for a
      documented page, the notes start `3 + SectionLength(examples)` into
      it and the options after the notes. */
  lemma DocSection(cmdName: string, cmd: Command, off: nat, k: nat)
    requires cmd.documentation.Some?
    ensures var d := cmd.documentation.value;
      var doc := DocLines(cmd.documentation, cmdName);
      var notes := Section("NOTES", d.notes);
      var options := Section("OPTIONS", OptionLines(d.options));
      && (off == 3 + SectionLength(d.examples) && k < |notes| ==>
            4 + off + k < |ManLines(cmdName, cmd)| && ManLines(cmdName, cmd)[4 + off + k] == notes[k])
      && (off == 3 + SectionLength(d.examples) + SectionLength(d.notes) && k < |options| ==>
            4 + off + k < |ManLines(cmdName, cmd)| && ManLines(cmdName, cmd)[4 + off + k] == options[k])
  {
    var d := cmd.documentation.value;
    SectionAt("EXAMPLES", d.examples, 0);
    SectionAt("NOTES", d.notes, 0);
    SectionAt("OPTIONS", OptionLines(d.options), 0);
    var doc := DocLines(cmd.documentation, cmdName);
    var head := [Upper(cmdName), "", "DESCRIPTION", "  " + cmd.description];
    assert ManLines(cmdName, cmd) == head + doc + AliasLines(cmd.aliases);
    assert 4 + off + k < |head + doc| ==> (head + doc + AliasLines(cmd.aliases))[4 + off + k] == doc[off + k];
  }

  /** A present section is a blank line, its heading and its items. */
  lemma SectionAt(heading: string, items: Option<seq<string>>, j: nat)
    ensures |Section(heading, items)| == SectionLength(items)
    ensures items.Some? ==> Section(heading, items)[0] == "" && Section(heading, items)[1] == heading
    ensures items.Some? && j < |items.value| ==> Section(heading, items)[2 + j] == "  " + items.value[j]
  {
  }

  // ---------------------------------------------------------------------
  // echo and whoami

  /** `echo <text>`: the argument string, `''` when there is none. */
  function Echo(args: string): string {
    args
  }

  const CurrentUser := "guest"
}

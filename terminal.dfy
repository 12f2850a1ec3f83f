/**
 * The terminal itself: the command registry, `executeCommand`, which turns
 * whatever a handler does into one response, `processCommand`, which
 * tokenises the typed line and keeps the histories, and the key handler
 * with its line buffer and Tab completion.  The core and the legacy copy of
 * `RetroTerminal` behave alike in all of this and are modelled once.
 */
module Terminal {

  import opened Wrappers
  import opened JsStrings
  import opened OrderedMaps
  import opened Values
  import opened Filesystem
  import opened Registry
  import BaseCommands
  import FileCommands
  import UnixCommands

  /** What the terminal takes from the page around it: the clock's text
      for `date`, the outcome of the handlers that act outside the model
      (matrix rain, settings panel, CRT tuner, theme switcher), and the
      scheme names of `window.colorSchemes` when that object exists. */
  datatype Environment = Environment(
    now: string,
    external: string -> Outcome,
    themes: Option<seq<string>>)

  /** Everything a command can read or change: the line being typed, the
      raw lines entered, the trimmed non-empty ones, the registry, the
      current directory and the shared filesystem. */
  datatype Session = Session(
    line: string,
    history: seq<string>,
    commandHistory: seq<string>,
    commands: Commands,
    cwd: string,
    disk: Disk)

  ghost predicate SessionValid(s: Session) {
    OrderedMaps.Valid(s.commands) && DiskValid(s.disk)
  }

  /** The handlers that write to the filesystem. */
  predicate ChangesFiles(h: Handler) {
    h.Touch? || h.Mkdir? || h.Rm? || h.Cp? || h.Mv?
  }

  // ---------------------------------------------------------------------
  // Prompt

  /** `getPrompt()`: user and host, then `~` at the root or the directory
      key elsewhere. */
  function Prompt(cwd: string): (r: string)
    ensures r == "guest@lucy:" + FileCommands.Pwd(cwd) + "$"
  {
    var dir := if cwd == "." then "~" else cwd;
    "guest@lucy:" + dir + "$"
  }

  // ---------------------------------------------------------------------
  // Running one handler

  /** Calling a registered handler with the argument string: what it
      returns, throws or leaves pending, and what it changes. */
  function Invoke(s: Session, h: Handler, args: string, env: Environment): (r: (Session, Outcome))
    requires SessionValid(s)
    ensures SessionValid(r.0)
    ensures r.0.history == s.history && r.0.commandHistory == s.commandHistory
    ensures r.0.commands == s.commands
    ensures r.0.line == (if h == Clear then "" else s.line)
    ensures h != Cd ==> r.0.cwd == s.cwd
    ensures !ChangesFiles(h) ==> r.0.disk == s.disk
    ensures r.1.Pending? ==> h == Bootup || h.External?
  {
    if h == Clear then (s.(line := ""), Returned(Null))
    else if h == Cd then
      (match FileCommands.Cd(s.disk.store, args)
       case Changed(dir) => (s.(cwd := dir), Returned(Null))
       case Refused(message) => (s, Returned(Text(message))))
    else if ChangesFiles(h) then Write(s, h, args)
    else (s, Read(s, h, args, env))
  }

  /** A read-only handler leaves the session as it was. */
  lemma InvokeReads(s: Session, h: Handler, args: string, env: Environment)
    requires SessionValid(s) && !ChangesFiles(h) && h != Cd && h != Clear
    ensures Invoke(s, h, args, env) == (s, Read(s, h, args, env))
  {
  }

  lemma InvokeWrites(s: Session, h: Handler, args: string, env: Environment)
    requires SessionValid(s) && ChangesFiles(h)
    ensures Invoke(s, h, args, env) == Write(s, h, args)
  {
  }

  /** The handlers that only read: what each returns, throws or leaves
      pending. */
  function Read(s: Session, h: Handler, args: string, env: Environment): (r: Outcome)
    requires SessionValid(s) && !ChangesFiles(h) && h != Cd && h != Clear
    ensures r.Pending? ==> h == Bootup || h.External?
    ensures h == Bootup ==> r.Pending?
  {
    var store := s.disk.store;
    match h
    case Help => Returned(Text(Join(BaseCommands.HelpLines(OrderedMaps.Values(s.commands)), "\n")))
    case Man => Returned(Text(BaseCommands.Man(s.commands, args)))
    case Date => Returned(Text(env.now))
    case Whoami => Returned(Text(BaseCommands.CurrentUser))
    case Echo => Returned(Text(BaseCommands.Echo(args)))
    case Ls => Returned(Text(FileCommands.Ls(store)))
    case Cat => Returned(FileCommands.Cat(store, args))
    case Tree => Returned(Text(Join(FileCommands.TreeLines(RootListing(store)), "\n")))
    case Pwd => Returned(Text(FileCommands.Pwd(s.cwd)))
    case Head => Returned(Text(UnixCommands.Head(store, args)))
    case Tail => Returned(Text(UnixCommands.Tail(store, args)))
    case Grep => Returned(Text(UnixCommands.Grep(store, args)))
    case Wc => Returned(Text(UnixCommands.Wc(store, args)))
    case Sort => Returned(Text(UnixCommands.SortLines(store, args)))
    case History => Returned(Text(UnixCommands.History(s.commandHistory)))
    case Env => Returned(Text(UnixCommands.Env()))
    case Bootup => Pending
    case External(tag) => env.external(tag)
  }

  /** The handlers that change the filesystem: the new disk and what the
      handler returns or throws. */
  function Write(s: Session, h: Handler, args: string): (r: (Session, Outcome))
    requires SessionValid(s) && ChangesFiles(h)
    ensures SessionValid(r.0) && r.0 == s.(disk := r.0.disk)
    ensures r.1.Returned? || h == Mv
  {
    match h
    case Touch =>
      var (d, message) := UnixCommands.TouchSpec(s.disk, s.cwd, args);
      (s.(disk := d), Returned(Text(message)))
    case Mkdir =>
      var (d, message) := UnixCommands.MkdirSpec(s.disk, args);
      (s.(disk := d), Returned(Text(message)))
    case Rm =>
      var (d, message) := UnixCommands.RmSpec(s.disk, args);
      (s.(disk := d), Returned(Text(message)))
    case Cp =>
      var (d, message) := UnixCommands.CpSpec(s.disk, args);
      (s.(disk := d), Returned(Text(message)))
    case Mv =>
      var (d, outcome) := UnixCommands.MvSpec(s.disk, args);
      (s.(disk := d), outcome)
  }

  /** The response line for an unknown command name. */
  function NotFound(name: string): string {
    "Command not found: " + name + ". Type 'help' for available commands."
  }

  /** The response line for a handler that threw. */
  function Failure(message: string): string {
    "Error executing command: " + message
  }

  /** `executeCommand(name, args)`: an unknown name gets the not-found line
      and changes nothing; a Promise gives no response, a thrown error its
      message, and a returned value comes back as it is. */
  function Execute(s: Session, name: string, args: string, env: Environment): (r: (Session, Value))
    requires SessionValid(s)
    ensures SessionValid(r.0)
    ensures r.0.history == s.history && r.0.commandHistory == s.commandHistory
    ensures r.0.commands == s.commands
    ensures Get(s.commands, name).None? ==> r == (s, Text(NotFound(name)))
    ensures Get(s.commands, name).Some? ==>
      var (after, outcome) := Invoke(s, s.commands.items[name].handler, args, env);
      && r.0 == after
      && (outcome.Returned? ==> r.1 == outcome.value)
      && (outcome.Threw? ==> r.1 == Text(Failure(outcome.message)))
      && (outcome.Pending? ==> r.1 == Null)
  {
    match Get(s.commands, name)
    case None => (s, Text(NotFound(name)))
    case Some(cmd) =>
      var (after, outcome) := Invoke(s, cmd.handler, args, env);
      (after,
       match outcome
       case Returned(v) => v
       case Threw(message) => Text(Failure(message))
       case Pending => Null)
  }

  /** The asynchronous `bootup` replay yields a Promise, so it produces no
      response line and changes nothing in the terminal. */
  lemma BootupAnswersNothing(s: Session, name: string, args: string, env: Environment)
    requires SessionValid(s)
    requires name in s.commands.items && s.commands.items[name].handler == Bootup
    ensures Execute(s, name, args, env) == (s, Null)
  {
    BootupPending(s, args, env);
    ExecutePending(s, name, args, env);
  }

  /** A registered handler whose call leaves the session as it was and the
      answer pending gives no response line. */
  lemma ExecutePending(s: Session, name: string, args: string, env: Environment)
    requires SessionValid(s) && name in s.commands.items
    requires Invoke(s, s.commands.items[name].handler, args, env) == (s, Pending)
    ensures Execute(s, name, args, env) == (s, Null)
  {
    assert Get(s.commands, name) == Some(s.commands.items[name]);
  }

  /** The `bootup` handler leaves the session as it was and its answer
      pending. */
  lemma BootupPending(s: Session, args: string, env: Environment)
    requires SessionValid(s)
    ensures Invoke(s, Bootup, args, env) == (s, Pending)
  {
    assert Read(s, Bootup, args, env).Pending?;
    InvokeReads(s, Bootup, args, env);
  }

  /** Only the filesystem commands change files, and only `cd` moves. */
  lemma ExecuteFrame(s: Session, name: string, args: string, env: Environment)
    requires SessionValid(s)
    ensures var r := Execute(s, name, args, env);
      && (r.0.disk != s.disk ==> name in s.commands.items && ChangesFiles(s.commands.items[name].handler))
      && (r.0.cwd != s.cwd ==> name in s.commands.items && s.commands.items[name].handler == Cd)
  {
  }

  // ---------------------------------------------------------------------
  // Processing an entered line

  /** A line taken apart: the trimmed input, the lowercased command name
      and the argument string. */
  datatype Parsed = Parsed(input: string, name: string, args: string)

  /** The first token of the trimmed line split at whitespace runs,
      lowercased, and the other tokens joined by single spaces. */
  function Parse(line: string): (r: Parsed)
    ensures r.input == Trim(line)
    ensures NoSpace(r.name)
  {
    var input := Trim(line);
    var parts := SplitWs(input);
    SplitWsNoSpace(input, 0);
    forall i | 0 <= i < |parts[0]| ensures !IsSpace(LowerChar(parts[0][i])) {
      LowerCharSpace(parts[0][i]);
    }
    Parsed(input, Lower(parts[0]), Join(parts[1..], " "))
  }

  /** A line of words separated by whitespace runs, with any whitespace
      around them, names the first word lowercased and passes the other
      words joined by single spaces. */
  lemma ParseWords(lead: string, words: seq<string>, sep: string, trail: string)
    requires Blank(lead) && Blank(trail) && sep != [] && Blank(sep) && words != []
    requires forall i :: 0 <= i < |words| ==> words[i] != [] && NoSpace(words[i])
    ensures Parse(lead + Join(words, sep) + trail)
         == Parsed(Join(words, sep), Lower(words[0]), Join(words[1..], " "))
  {
    var joined := Join(words, sep);
    JoinEnds(words, sep);
    assert !IsSpace(words[0][0]);
    assert !IsSpace(words[|words| - 1][|words[|words| - 1]| - 1]);
    TrimPadded(lead, joined, trail);
    SplitWsJoin(words, sep);
  }

  /** The histories after a line is entered: the raw line always, the
      trimmed line only when it is not empty. */
  function Record(s: Session): (r: Session)
    ensures r.history == s.history + [s.line]
    ensures r.commandHistory == s.commandHistory + (if Trim(s.line) == "" then [] else [Trim(s.line)])
    ensures r.line == s.line && r.commands == s.commands && r.cwd == s.cwd && r.disk == s.disk
  {
    var input := Trim(s.line);
    s.(history := s.history + [s.line],
       commandHistory := if input != "" then s.commandHistory + [input] else s.commandHistory)
  }

  /** `processCommand()`: record the line, then either clear (for the name
      `clear`, without looking it up) or execute it; the line buffer ends
      empty either way. */
  function Process(s: Session, env: Environment): (r: (Session, Value))
    requires SessionValid(s)
    ensures SessionValid(r.0)
    ensures r.0.history == s.history + [s.line]
    ensures r.0.commandHistory == s.commandHistory + (if Trim(s.line) == "" then [] else [Trim(s.line)])
    ensures r.0.commands == s.commands
    ensures r.0.line == ""
    ensures Parse(s.line).name == "clear" ==> r == (Record(s).(line := ""), Null)
  {
    var p := Parse(s.line);
    Dispatch(Record(s), p.name, p.args, env)
  }

  /** The second half of `processCommand()`: `clear` empties the line
      without a lookup; any other name is executed and the line emptied. */
  function Dispatch(s: Session, name: string, args: string, env: Environment): (r: (Session, Value))
    requires SessionValid(s)
    ensures SessionValid(r.0)
    ensures r.0.history == s.history && r.0.commandHistory == s.commandHistory
    ensures r.0.commands == s.commands
    ensures r.0.line == ""
    ensures name == "clear" ==> r == (s.(line := ""), Null)
  {
    if name == "clear" then (s.(line := ""), Null)
    else
      var (after, response) := Execute(s, name, args, env);
      (after.(line := ""), response)
  }

  /** A line whose command name is not `clear` answers with what executing
      that name answers, after the line is recorded. */
  lemma ProcessExecutes(s: Session, env: Environment)
    requires SessionValid(s) && Parse(s.line).name != "clear"
    ensures Process(s, env).1 == Execute(Record(s), Parse(s.line).name, Parse(s.line).args, env).1
  {
  }

  /** An entered line of words runs its lowercased first word with the
      remaining words, single-spaced, as the argument. */
  lemma ProcessRunsFirstWord(s: Session, env: Environment, lead: string, words: seq<string>, sep: string, trail: string)
    requires SessionValid(s)
    requires Blank(lead) && Blank(trail) && sep != [] && Blank(sep) && words != []
    requires forall i :: 0 <= i < |words| ==> words[i] != [] && NoSpace(words[i])
    requires s.line == lead + Join(words, sep) + trail
    requires Lower(words[0]) != "clear"
    ensures Process(s, env).1 == Execute(Record(s), Lower(words[0]), Join(words[1..], " "), env).1
  {
    ParseWords(lead, words, sep, trail);
    ProcessExecutes(s, env);
  }

  /** A name bound to a read-only handler answers with what the handler
      returns for that session. */
  lemma ExecuteReads(s: Session, name: string, args: string, env: Environment, v: Value)
    requires SessionValid(s) && name in s.commands.items
    requires var h := s.commands.items[name].handler;
      !ChangesFiles(h) && h != Cd && h != Clear && Read(s, h, args, env) == Returned(v)
    ensures Execute(s, name, args, env) == (s, v)
  {
    assert Get(s.commands, name) == Some(s.commands.items[name]);
    InvokeReads(s, s.commands.items[name].handler, args, env);
  }

  /** `echo` (by its name or an alias, the first word) answers with the
      other words single-spaced, however they were separated on the line. */
  lemma EchoCollapsesWhitespace(s: Session, env: Environment, lead: string,
                                words: seq<string>, sep: string, trail: string)
    requires SessionValid(s)
    requires Blank(lead) && Blank(trail) && sep != [] && Blank(sep) && words != []
    requires forall i :: 0 <= i < |words| ==> words[i] != [] && NoSpace(words[i])
    requires s.line == lead + Join(words, sep) + trail
    requires Lower(words[0]) == words[0] && words[0] != "clear"
    requires words[0] in s.commands.items && s.commands.items[words[0]].handler == Echo
    ensures Process(s, env).1 == Text(Join(words[1..], " "))
  {
    ProcessRunsFirstWord(s, env, lead, words, sep, trail);
    EchoAnswersArgs(Record(s), words[0], Join(words[1..], " "), env);
  }

  /** A name bound to `echo` answers with its argument string. */
  lemma EchoAnswersArgs(s: Session, name: string, args: string, env: Environment)
    requires SessionValid(s) && name in s.commands.items && s.commands.items[name].handler == Echo
    ensures Execute(s, name, args, env).1 == Text(args)
  {
    assert Read(s, Echo, args, env) == Returned(Text(args));
    ExecuteReads(s, name, args, env, Text(args));
  }

  /** Pressing Enter on a blank line records it in `history` only and, as
      no command has the empty name, answers with the not-found line for
      an empty name. */
  lemma BlankLineNotFound(s: Session, env: Environment)
    requires SessionValid(s)
    requires Blank(s.line) && "" !in s.commands.items
    ensures Process(s, env) == (Record(s).(line := ""), Text(NotFound("")))
    ensures Process(s, env).0.commandHistory == s.commandHistory
  {
    TrimBlank(s.line);
    assert SplitWs("") == [""];
  }

  /** A line naming the `history` command, by its name or an alias,
      lists itself as the last entry. */
  lemma HistoryIncludesItself(s: Session, env: Environment, word: string)
    requires SessionValid(s)
    requires word != [] && NoSpace(word) && Lower(word) == word && word != "clear"
    requires Trim(s.line) == word
    requires word in s.commands.items && s.commands.items[word].handler == History
    ensures Process(s, env).1 == Text(UnixCommands.History(s.commandHistory + [word]))
  {
    LoneWord(word);
    assert Parse(s.line) == Parsed(word, word, "");
    ProcessExecutes(s, env);
    var r := Record(s);
    assert r.commandHistory == s.commandHistory + [word];
    ExecuteReads(r, word, "", env, Text(UnixCommands.History(r.commandHistory)));
  }

  // ---------------------------------------------------------------------
  // Keys and Tab completion

  /** The line after a key other than Enter and Tab: Backspace drops the
      last character of a non-empty line, a one-character key (space
      included) is appended, anything else is ignored. */
  function EditLine(line: string, key: string): (r: string)
    ensures key == "Backspace" ==> r == (if line == "" then "" else line[..|line| - 1])
    ensures |key| == 1 ==> r == line + key
    ensures key != "Backspace" && |key| != 1 ==> r == line
  {
    if key == "Backspace" then (if |line| > 0 then line[..|line| - 1] else line)
    else if key == " " then line + " "
    else if |key| == 1 then line + key
    else line
  }

  /** Backspace undoes typing one character. */
  lemma TypeThenBackspace(line: string, key: string)
    requires |key| == 1
    ensures EditLine(EditLine(line, key), "Backspace") == line
  {
    assert (line + key)[..|line|] == line;
  }

  /** The registry keys, in order, that start with `prefix` and belong to a
      visible command. */
  function VisibleMatches(m: Commands, keys: seq<string>, prefix: string): (r: seq<string>)
    requires forall k :: k in keys ==> k in m.items
    ensures |r| <= |keys|
  {
    if keys == [] then []
    else
      var k := keys[0];
      (if StartsWith(k, prefix) && !m.items[k].hidden then [k] else [])
      + VisibleMatches(m, keys[1..], prefix)
  }

  lemma {:induction false} VisibleMatchesMembers(m: Commands, keys: seq<string>, prefix: string, x: string)
    requires forall k :: k in keys ==> k in m.items
    ensures x in VisibleMatches(m, keys, prefix) <==>
      x in keys && StartsWith(x, prefix) && !m.items[x].hidden
  {
    if keys != [] {
      VisibleMatchesMembers(m, keys[1..], prefix, x);
    }
  }

  /** When exactly one visible key starts with the prefix, it is the only
      match, even though other keys may lead to the same command. */
  lemma {:induction false} VisibleMatchesUnique(m: Commands, keys: seq<string>, prefix: string, k: string)
    requires forall x :: x in keys ==> x in m.items
    requires Distinct(keys)
    requires k in keys && StartsWith(k, prefix) && !m.items[k].hidden
    requires forall j :: 0 <= j < |keys| && keys[j] != k ==>
      !(StartsWith(keys[j], prefix) && !m.items[keys[j]].hidden)
    ensures VisibleMatches(m, keys, prefix) == [k]
  {
    if keys[0] == k {
      assert k !in keys[1..];
      assert VisibleMatches(m, keys[1..], prefix) == [] by {
        if VisibleMatches(m, keys[1..], prefix) != [] {
          var x := VisibleMatches(m, keys[1..], prefix)[0];
          VisibleMatchesMembers(m, keys[1..], prefix, x);
        }
      }
    } else {
      VisibleMatchesUnique(m, keys[1..], prefix, k);
    }
  }

  /** The names in `names` that start with `prefix`, in order. */
  function PrefixMatches(names: seq<string>, prefix: string): (r: seq<string>)
    ensures |r| <= |names|
  {
    if names == [] then []
    else (if StartsWith(names[0], prefix) then [names[0]] else []) + PrefixMatches(names[1..], prefix)
  }

  lemma {:induction false} PrefixMatchesMembers(names: seq<string>, prefix: string, x: string)
    ensures x in PrefixMatches(names, prefix) <==> x in names && StartsWith(x, prefix)
  {
    if names != [] {
      PrefixMatchesMembers(names[1..], prefix, x);
    }
  }

  /** `handleTabAutocomplete()`.  One token and no trailing space: complete
      a visible command name, or list the matches.  After a trailing space
      following `theme`: complete or list scheme names matching the last
      token.  The `cd` branch calls a method the filesystem does not have
      and so changes nothing. */
  function TabComplete(s: Session, env: Environment): (r: (Session, Value))
    requires SessionValid(s)
    ensures r.0 == s.(line := r.0.line)
  {
    TabOn(s, env, SplitWs(Trim(s.line)))
  }

  /** Tab once the trimmed line is split into `parts`. */
  function TabOn(s: Session, env: Environment, parts: seq<string>): (r: (Session, Value))
    requires SessionValid(s) && |parts| >= 1
    ensures r.0 == s.(line := r.0.line)
  {
    if |parts| == 1 && !EndsWith(s.line, " ") then CompleteCommand(s, parts[0])
    else if EndsWith(s.line, " ") && parts[0] == "theme" && env.themes.Some? then
      CompleteTheme(s, env.themes.value, parts[|parts| - 1])
    else (s, Null)
  }

  /** The command branch of Tab: the one visible match and a space, or the
      list of several matches. */
  function CompleteCommand(s: Session, word: string): (r: (Session, Value))
    requires SessionValid(s)
    ensures r.0 == s.(line := r.0.line)
  {
    var matches := VisibleMatches(s.commands, s.commands.keys, word);
    if |matches| == 1 then (s.(line := matches[0] + " "), Null)
    else if |matches| > 1 then (s, Text("Matching commands: " + Join(matches, ", ")))
    else (s, Null)
  }

  /** The `theme` branch of Tab: `theme` and the one matching scheme name,
      or the list of several. */
  function CompleteTheme(s: Session, themes: seq<string>, word: string): (r: (Session, Value))
    ensures r.0 == s.(line := r.0.line)
  {
    var matches := PrefixMatches(themes, word);
    if |matches| == 1 then (s.(line := "theme " + matches[0]), Null)
    else if |matches| > 1 then (s, Text("Available themes: " + Join(matches, ", ")))
    else (s, Null)
  }

  /** A lone word is its own trimmed form and its only token. */
  lemma LoneWord(word: string)
    requires word != [] && NoSpace(word)
    ensures Trim(word) == word && SplitWs(word) == [word] && !EndsWith(word, " ")
  {
    assert !IsSpace(word[0]) && !IsSpace(word[|word| - 1]);
    assert Blank("");
    assert "" + word + "" == word;
    TrimPadded("", word, "");
    var words := [word];
    assert Join(words, " ") == word;
    assert Blank(" ");
    assert forall i :: 0 <= i < |words| ==> words[i] != [] && NoSpace(words[i]);
    SplitWsJoin(words, " ");
  }

  /** Tab on a lone partial word with exactly one visible registry key
      starting with it completes the line to that key and a space. */
  lemma TabCompletesUniqueCommand(s: Session, env: Environment, word: string, k: string)
    requires SessionValid(s)
    requires word != [] && NoSpace(word) && s.line == word
    requires k in s.commands.items && StartsWith(k, word) && !s.commands.items[k].hidden
    requires forall j :: 0 <= j < |s.commands.keys| && s.commands.keys[j] != k ==>
      !(StartsWith(s.commands.keys[j], word) && !s.commands.items[s.commands.keys[j]].hidden)
    ensures TabComplete(s, env) == (s.(line := k + " "), Null)
  {
    LoneWord(word);
    VisibleMatchesUnique(s.commands, s.commands.keys, word, k);
  }

  /** Tab on a lone word lists the visible keys that start with it; with
      no match or several, the line is left as it is. */
  lemma TabCommandMatches(s: Session, env: Environment, word: string, x: string)
    requires SessionValid(s)
    requires word != [] && NoSpace(word) && s.line == word
    ensures var matches := VisibleMatches(s.commands, s.commands.keys, word);
      && (x in matches <==> x in s.commands.items && StartsWith(x, word) && !s.commands.items[x].hidden)
      && (|matches| != 1 ==> TabComplete(s, env).0 == s)
      && (|matches| > 1 ==> TabComplete(s, env).1 == Text("Matching commands: " + Join(matches, ", ")))
  {
    LoneWord(word);
    VisibleMatchesMembers(s.commands, s.commands.keys, word, x);
  }

  /** After `theme` and a trailing space, the word matched against the
      scheme names is the last token: `theme ` alone trims to the single
      token `theme`, so it is `theme` itself that is looked up. */
  lemma ThemeTabUsesLastToken(s: Session, env: Environment, words: seq<string>)
    requires SessionValid(s) && env.themes.Some?
    requires |words| >= 1 && words[0] == "theme"
    requires forall i :: 0 <= i < |words| ==> words[i] != [] && NoSpace(words[i])
    requires s.line == Join(words, " ") + " "
    ensures TabComplete(s, env) == CompleteTheme(s, env.themes.value, words[|words| - 1])
  {
    TrailingSpace(words);
  }

  /** Words single-spaced and followed by a space are read back as the
      same words, and the line ends with a space. */
  lemma TrailingSpace(words: seq<string>)
    requires words != []
    requires forall i :: 0 <= i < |words| ==> words[i] != [] && NoSpace(words[i])
    ensures SplitWs(Trim(Join(words, " ") + " ")) == words
    ensures EndsWith(Join(words, " ") + " ", " ")
  {
    TrimJoinedLine(words);
    SpaceBlank();
    SplitWsJoin(words, " ");
    EndsWithAppended(Join(words, " "), " ");
  }

  /** A key press other than Enter and Tab edits the line and nothing
      else; Enter processes the line, Tab completes. */
  function KeyPress(s: Session, key: string, env: Environment): (r: (Session, Value))
    requires SessionValid(s)
    ensures SessionValid(r.0)
    ensures key != "Enter" ==> r.0 == s.(line := r.0.line)
    ensures r.0.history == s.history + (if key == "Enter" then [s.line] else [])
    ensures key != "Enter" && key != "Tab" ==> r == (s.(line := EditLine(s.line, key)), Null)
  {
    if key == "Enter" then Process(s, env)
    else if key == "Tab" then TabComplete(s, env)
    else (s.(line := EditLine(s.line, key)), Null)
  }

  // ---------------------------------------------------------------------
  // The terminal object

  class RetroTerminal {
    var currentLine: string
    var history: seq<string>
    var commandHistory: seq<string>
    var commands: Commands
    var currentDirectory: string
    /** The page's one filesystem object. */
    const filesystem: VirtualFilesystem

    ghost predicate Valid()
      reads this, filesystem
    {
      OrderedMaps.Valid(commands) && filesystem.Valid()
    }

    /** The terminal's state as a value. */
    function State(): Session
      reads this, filesystem
    {
      Session(currentLine, history, commandHistory, commands, currentDirectory, filesystem.Contents())
    }

    /** A terminal with an empty line, no history, no commands and the
      root as its directory, working on the given filesystem. */
    constructor(fs: VirtualFilesystem)
      requires fs.Valid()
      ensures Valid() && filesystem == fs
      ensures State() == Session("", [], [], Empty(), ".", fs.Contents())
    {
      currentLine := "";
      history := [];
      commandHistory := [];
      commands := Empty();
      currentDirectory := ".";
      filesystem := fs;
    }

    function GetPrompt(): (r: string)
      reads this
      ensures r == Prompt(currentDirectory)
    {
      Prompt(currentDirectory)
    }

    /** `registerCommand(...)`: one shared descriptor under the name and
        then under each alias, in order. */
    method RegisterCommand(name: string, description: string, handler: Handler,
                           aliases: Option<seq<string>>, documentation: Option<Documentation>,
                           hidden: Option<bool>)
      requires Valid()
      modifies this
      ensures Valid()
      ensures State() == old(State()).(commands := Register(old(commands), Describe(name, description, handler, aliases, documentation, hidden)))
    {
      var cmd := Describe(name, description, handler, aliases, documentation, hidden);
      ghost var keys := KeysOf(cmd);
      commands := Put(commands, name, cmd);
      assert keys[..1] == [name];
      var i := 0;
      while i < |cmd.aliases|
        invariant 0 <= i <= |cmd.aliases|
        invariant OrderedMaps.Valid(commands)
        invariant commands == BindAll(old(commands), keys[..i + 1], cmd)
        invariant State() == old(State()).(commands := commands)
      {
        BindPrefixStep(old(commands), keys, i + 1, cmd);
        commands := Put(commands, cmd.aliases[i], cmd);
        i := i + 1;
      }
      assert keys[..i + 1] == keys;
    }

    /** `clearTerminal()`: the line buffer is emptied. */
    method ClearTerminal()
      modifies this
      ensures State() == old(State()).(line := "")
    {
      currentLine := "";
    }

    /** The handlers that only read the terminal and the filesystem. */
    method RunReader(h: Handler, args: string, env: Environment) returns (outcome: Outcome)
      requires Valid()
      requires !ChangesFiles(h) && h != Cd && h != Clear
      ensures outcome == Read(State(), h, args, env)
    {
      var store := filesystem.store;
      match h
      case Help =>
        var text := BaseCommands.Help(commands);
        outcome := Returned(Text(text));
      case Man => outcome := Returned(Text(BaseCommands.Man(commands, args)));
      case Date => outcome := Returned(Text(env.now));
      case Whoami => outcome := Returned(Text(BaseCommands.CurrentUser));
      case Echo => outcome := Returned(Text(BaseCommands.Echo(args)));
      case Ls => outcome := Returned(Text(FileCommands.Ls(store)));
      case Cat => outcome := Returned(FileCommands.Cat(store, args));
      case Tree =>
        var text := FileCommands.Tree(store);
        outcome := Returned(Text(text));
      case Pwd => outcome := Returned(Text(FileCommands.Pwd(currentDirectory)));
      case Head => outcome := Returned(Text(UnixCommands.Head(store, args)));
      case Tail => outcome := Returned(Text(UnixCommands.Tail(store, args)));
      case Grep => outcome := Returned(Text(UnixCommands.Grep(store, args)));
      case Wc => outcome := Returned(Text(UnixCommands.Wc(store, args)));
      case Sort => outcome := Returned(Text(UnixCommands.SortLines(store, args)));
      case History => outcome := Returned(Text(UnixCommands.History(commandHistory)));
      case Env => outcome := Returned(Text(UnixCommands.Env()));
      case Bootup => outcome := Pending;
      case External(tag) => outcome := env.external(tag);
    }

    /** The handlers that write to the filesystem. */
    method RunWriter(h: Handler, args: string) returns (outcome: Outcome)
      requires Valid() && ChangesFiles(h)
      modifies filesystem
      ensures Valid()
      ensures (State(), outcome) == Write(old(State()), h, args)
    {
      var message: string;
      match h
      case Touch =>
        message := UnixCommands.Touch(filesystem, currentDirectory, args);
        outcome := Returned(Text(message));
      case Mkdir =>
        message := UnixCommands.Mkdir(filesystem, args);
        outcome := Returned(Text(message));
      case Rm =>
        message := UnixCommands.Rm(filesystem, args);
        outcome := Returned(Text(message));
      case Cp =>
        message := UnixCommands.Cp(filesystem, args);
        outcome := Returned(Text(message));
      case Mv =>
        outcome := UnixCommands.Mv(filesystem, args);
    }

    /** Calling the handler `h` with `args`. */
    method RunHandler(h: Handler, args: string, env: Environment) returns (outcome: Outcome)
      requires Valid()
      modifies this, filesystem
      ensures Valid()
      ensures (State(), outcome) == Invoke(old(State()), h, args, env)
    {
      if h == Clear {
        ClearTerminal();
        outcome := Returned(Null);
      } else if h == Cd {
        match FileCommands.Cd(filesystem.store, args)
        case Changed(dir) =>
          currentDirectory := dir;
          outcome := Returned(Null);
        case Refused(message) =>
          outcome := Returned(Text(message));
      } else if ChangesFiles(h) {
        InvokeWrites(State(), h, args, env);
        outcome := RunWriter(h, args);
      } else {
        InvokeReads(State(), h, args, env);
        outcome := RunReader(h, args, env);
      }
    }

    /** `executeCommand(name, args)`. */
    method ExecuteCommand(name: string, args: string, env: Environment) returns (response: Value)
      requires Valid()
      modifies this, filesystem
      ensures Valid()
      ensures (State(), response) == Execute(old(State()), name, args, env)
    {
      var found := Get(commands, name);
      if found.None? {
        return Text(NotFound(name));
      }
      var outcome := RunHandler(found.value.handler, args, env);
      match outcome
      case Returned(v) => response := v;
      case Threw(message) => response := Text(Failure(message));
      case Pending => response := Null;
    }

    /** `processCommand()`. */
    method ProcessCommand(env: Environment) returns (response: Value)
      requires Valid()
      modifies this, filesystem
      ensures Valid()
      ensures (State(), response) == Process(old(State()), env)
    {
      var commandName, args := RecordLine();
      response := DispatchCommand(commandName, args, env);
    }

    /** The head of `processCommand()`: the line joins the history, a
        non-blank one the command history, and the command name and
        argument string are read from it. */
    method RecordLine() returns (commandName: string, args: string)
      requires Valid()
      modifies this
      ensures Valid()
      ensures State() == Record(old(State()))
      ensures commandName == Parse(old(currentLine)).name && args == Parse(old(currentLine)).args
    {
      history := history + [currentLine];
      var input := Trim(currentLine);
      var parts := SplitWs(input);
      commandName := Lower(parts[0]);
      args := Join(parts[1..], " ");
      if input != "" {
        commandHistory := commandHistory + [input];
      }
    }

    /** The tail of `processCommand()`, after the histories are updated. */
    method DispatchCommand(commandName: string, args: string, env: Environment) returns (response: Value)
      requires Valid()
      modifies this, filesystem
      ensures Valid()
      ensures (State(), response) == Dispatch(old(State()), commandName, args, env)
    {
      if commandName == "clear" {
        ClearTerminal();
        return Null;
      }
      response := ExecuteCommand(commandName, args, env);
      currentLine := "";
    }

    /** `handleTabAutocomplete()`; the listing it would display is
        returned. */
    method HandleTabAutocomplete(env: Environment) returns (shown: Value)
      requires Valid()
      modifies this
      ensures Valid()
      ensures (State(), shown) == TabComplete(old(State()), env)
    {
      var parts := SplitWs(Trim(currentLine));
      assert TabComplete(State(), env) == TabOn(State(), env, parts);
      shown := TabWith(env, parts);
    }

    method TabWith(env: Environment, parts: seq<string>) returns (shown: Value)
      requires Valid() && |parts| >= 1
      modifies this
      ensures Valid()
      ensures (State(), shown) == TabOn(old(State()), env, parts)
    {
      if |parts| == 1 && !EndsWith(currentLine, " ") {
        shown := CompleteCommandName(parts[0]);
      } else if EndsWith(currentLine, " ") && parts[0] == "theme" && env.themes.Some? {
        shown := CompleteThemeName(env.themes.value, parts[|parts| - 1]);
      } else {
        shown := Null;
      }
    }

    method CompleteCommandName(incomplete: string) returns (shown: Value)
      requires Valid()
      modifies this
      ensures Valid()
      ensures (State(), shown) == CompleteCommand(old(State()), incomplete)
    {
      shown := Null;
      var matches := VisibleMatches(commands, commands.keys, incomplete);
      if |matches| == 1 {
        currentLine := matches[0] + " ";
      } else if |matches| > 1 {
        shown := Text("Matching commands: " + Join(matches, ", "));
      }
    }

    method CompleteThemeName(themes: seq<string>, incomplete: string) returns (shown: Value)
      requires Valid()
      modifies this
      ensures Valid()
      ensures (State(), shown) == CompleteTheme(old(State()), themes, incomplete)
    {
      shown := Null;
      var matches := PrefixMatches(themes, incomplete);
      if |matches| == 1 {
        currentLine := "theme " + matches[0];
      } else if |matches| > 1 {
        shown := Text("Available themes: " + Join(matches, ", "));
      }
    }

    /** `handleKeyPress(event)`; whatever the key makes the terminal
        display is returned. */
    method HandleKeyPress(key: string, env: Environment) returns (shown: Value)
      requires Valid()
      modifies this, filesystem
      ensures Valid()
      ensures (State(), shown) == KeyPress(old(State()), key, env)
    {
      shown := Null;
      if key == "Enter" {
        shown := ProcessCommand(env);
      } else if key == "Backspace" {
        if |currentLine| > 0 {
          currentLine := currentLine[..|currentLine| - 1];
        }
      } else if key == "Tab" {
        shown := HandleTabAutocomplete(env);
      } else if key == " " {
        currentLine := currentLine + " ";
      } else if |key| == 1 {
        currentLine := currentLine + key;
      }
    }
  }
}

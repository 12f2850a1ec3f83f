/**
 * The keybinds layered over the terminal's key handler: a cursor into the
 * line history for the arrow keys, a completion list that Tab cycles
 * through, and the Ctrl chords that clear the line.
 */
module Keybinds {

  import opened JsStrings
  import opened Values
  import opened Terminal

  /** The keybinds' own state: the history cursor (-1 when not browsing)
      and the completion list with the index of the entry shown. */
  datatype KeyState = KeyState(historyIndex: int, completions: seq<string>, completionIndex: int)

  /** The history cursor is -1 or an index of the history; the completion
      index is -1 exactly when there is no completion list, and otherwise an
      index of it. */
  predicate KeyStateValid(k: KeyState, historyLength: nat) {
    && -1 <= k.historyIndex < historyLength
    && (if k.completions == [] then k.completionIndex == -1
        else 0 <= k.completionIndex < |k.completions|)
  }

  /** A key event: the key's name and the modifier flags. */
  datatype KeyEvent = KeyEvent(key: string, ctrl: bool, meta: bool, shift: bool)

  // ---------------------------------------------------------------------
  // History navigation

  /** ArrowUp's move: from -1 to the newest entry, otherwise one step older
      but never past the oldest. */
  function PreviousIndex(index: int, n: nat): (r: int)
    requires -1 <= index < n
    ensures n > 0 ==> 0 <= r < n
  {
    if index == -1 then n - 1
    else if index > 0 then index - 1
    else index
  }

  /** ArrowDown's move: one step newer, or back to -1 from the newest. */
  function NextIndex(index: int, n: nat): (r: int)
    requires -1 <= index < n
    ensures -1 <= r < n
  {
    if index < n - 1 then index + 1 else -1
  }

  /** ArrowDown undoes ArrowUp everywhere except at the oldest entry, where
      ArrowUp does not move. */
  lemma DownUndoesUp(index: int, n: nat)
    requires n > 0 && -1 <= index < n && index != 0
    ensures NextIndex(PreviousIndex(index, n), n) == index
  {
  }

  /** `showPreviousCommand()`: nothing on an empty history; otherwise move
      the cursor back and load that entry. */
  function ShowPrevious(k: KeyState, s: Session): (r: (KeyState, Session))
    requires KeyStateValid(k, |s.history|)
    ensures KeyStateValid(r.0, |s.history|)
    ensures r.0 == k.(historyIndex := r.0.historyIndex) && r.1 == s.(line := r.1.line)
    ensures s.history == [] ==> r == (k, s)
    ensures s.history != [] ==> 0 <= r.0.historyIndex && r.1.line == s.history[r.0.historyIndex]
  {
    if |s.history| == 0 then (k, s)
    else
      var i := PreviousIndex(k.historyIndex, |s.history|);
      (k.(historyIndex := i), s.(line := s.history[i]))
  }

  /** `showNextCommand()`: nothing on an empty history; below the newest
      entry, move forward and load it; at the newest, stop browsing and
      empty the line. */
  function ShowNext(k: KeyState, s: Session): (r: (KeyState, Session))
    requires KeyStateValid(k, |s.history|)
    ensures KeyStateValid(r.0, |s.history|)
    ensures r.0 == k.(historyIndex := r.0.historyIndex) && r.1 == s.(line := r.1.line)
    ensures s.history == [] ==> r == (k, s)
    ensures s.history != [] && r.0.historyIndex >= 0 ==> r.1.line == s.history[r.0.historyIndex]
    ensures s.history != [] && r.0.historyIndex == -1 ==> r.1.line == ""
  {
    if |s.history| == 0 then (k, s)
    else
      var i := NextIndex(k.historyIndex, |s.history|);
      if i >= 0 then (k.(historyIndex := i), s.(line := s.history[i]))
      else (k.(historyIndex := -1), s.(line := ""))
  }

  /** `count` presses of ArrowUp in a row. */
  function Ups(k: KeyState, s: Session, count: nat): (r: (KeyState, Session))
    requires KeyStateValid(k, |s.history|)
    ensures KeyStateValid(r.0, |s.history|) && r.1.history == s.history
  {
    if count == 0 then (k, s)
    else
      var (k1, s1) := Ups(k, s, count - 1);
      ShowPrevious(k1, s1)
  }

  /** Starting afresh, ArrowUp pressed `count` times loads the entry
      `count` back from the newest, and stays on the oldest after that. */
  lemma {:induction false} UpsWalkBack(k: KeyState, s: Session, count: nat)
    requires KeyStateValid(k, |s.history|) && k.historyIndex == -1
    requires s.history != [] && count >= 1
    ensures var i := if count <= |s.history| then |s.history| - count else 0;
      Ups(k, s, count).0.historyIndex == i && Ups(k, s, count).1.line == s.history[i]
  {
    if count > 1 {
      UpsWalkBack(k, s, count - 1);
    }
  }

  // ---------------------------------------------------------------------
  // Ctrl chords

  /** `handleControlKeybinds(event)`: Ctrl+L clears the screen, Ctrl+C the
      input and the history cursor, Ctrl+U and Ctrl+K the input; Ctrl+Shift+S
      opens the settings panel, outside this model; any other chord does
      nothing. */
  function Control(k: KeyState, s: Session, key: string): (r: (KeyState, Session))
    ensures r.1 == s.(line := r.1.line)
    ensures r.0 == k || r.0 == k.(historyIndex := -1)
    ensures Lower(key) in {"l", "c", "u", "k"} ==> r.1.line == ""
    ensures r.0 != k ==> Lower(key) == "c"
    ensures Lower(key) !in {"l", "c", "u", "k"} ==> r == (k, s)
  {
    var chord := Lower(key);
    if chord == "l" then (k, s.(line := ""))
    else if chord == "c" then (k.(historyIndex := -1), s.(line := ""))
    else if chord == "u" || chord == "k" then (k, s.(line := ""))
    else (k, s)
  }

  // ---------------------------------------------------------------------
  // Tab completion

  /** The fixed file names Tab offers after the command names.  The
      functions below take the list as a parameter `files`; the keybinds
      object holds this one. */
  const Files: seq<string> := ["portfolio.txt", "projects", "skills.dat", "contact.info"]

  /** The names whose lowercase form starts with `prefix`, in order. */
  function LowerStartingWith(names: seq<string>, prefix: string): (r: seq<string>)
    ensures |r| <= |names|
  {
    if names == [] then []
    else
      (if StartsWith(Lower(names[0]), prefix) then [names[0]] else [])
      + LowerStartingWith(names[1..], prefix)
  }

  /** The names whose lowercase form contains `part`, in order. */
  function LowerContaining(names: seq<string>, part: string): (r: seq<string>)
    ensures |r| <= |names|
  {
    if names == [] then []
    else
      (if Includes(Lower(names[0]), part) then [names[0]] else [])
      + LowerContaining(names[1..], part)
  }

  lemma {:induction false} LowerStartingWithMembers(names: seq<string>, prefix: string, x: string)
    ensures x in LowerStartingWith(names, prefix) <==> x in names && StartsWith(Lower(x), prefix)
  {
    if names != [] {
      LowerStartingWithMembers(names[1..], prefix, x);
    }
  }

  lemma {:induction false} LowerContainingMembers(names: seq<string>, part: string, x: string)
    ensures x in LowerContaining(names, part) <==> x in names && Includes(Lower(x), part)
  {
    if names != [] {
      LowerContainingMembers(names[1..], part, x);
    }
  }

  /** The first Tab's candidates for a word: command keys starting with the
      lowercased word; failing that, file names starting with it (compared
      in lowercase); failing that, keys and files containing it. */
  function Candidates(keys: seq<string>, files: seq<string>, word: string): seq<string> {
    var w := Lower(word);
    var commands := PrefixMatches(keys, w);
    if commands != [] then commands
    else
      var named := LowerStartingWith(files, w);
      if named != [] then named
      else LowerContaining(keys + files, w)
  }

  /** The candidates come in the stated order of preference: a candidate is
      a command key with the prefix; or, when there is none, a file with
      the prefix; or, when there is neither, any key or file containing the
      word. */
  lemma CandidatesPreference(keys: seq<string>, files: seq<string>, word: string, x: string)
    ensures var w := Lower(word);
      && ((exists y :: y in keys && StartsWith(y, w)) ==>
            (x in Candidates(keys, files, word) <==> x in keys && StartsWith(x, w)))
      && ((forall y :: y in keys ==> !StartsWith(y, w)) && (exists y :: y in files && StartsWith(Lower(y), w)) ==>
            (x in Candidates(keys, files, word) <==> x in files && StartsWith(Lower(x), w)))
      && ((forall y :: y in keys ==> !StartsWith(y, w)) && (forall y :: y in files ==> !StartsWith(Lower(y), w)) ==>
            (x in Candidates(keys, files, word) <==> x in keys + files && Includes(Lower(x), w)))
  {
    var w := Lower(word);
    PrefixMatchesMembers(keys, w, x);
    LowerStartingWithMembers(files, w, x);
    LowerContainingMembers(keys + files, w, x);
    if exists y :: y in keys && StartsWith(y, w) {
      var y :| y in keys && StartsWith(y, w);
      PrefixMatchesMembers(keys, w, y);
    } else if exists y :: y in files && StartsWith(Lower(y), w) {
      var y :| y in files && StartsWith(Lower(y), w);
      LowerStartingWithMembers(files, w, y);
      if PrefixMatches(keys, w) != [] {
        PrefixMatchesMembers(keys, w, PrefixMatches(keys, w)[0]);
      }
    } else {
      if PrefixMatches(keys, w) != [] {
        PrefixMatchesMembers(keys, w, PrefixMatches(keys, w)[0]);
      }
      if LowerStartingWith(files, w) != [] {
        LowerStartingWithMembers(files, w, LowerStartingWith(files, w)[0]);
      }
    }
  }

  /** `applyCompletion(prefix, _)`: the earlier words, a space and the
      completion, or the completion alone when there are no earlier words. */
  function ApplyCompletion(prefix: string, completion: string): string {
    if prefix != "" then prefix + " " + completion else completion
  }

  /** The last word of a trimmed line and the words before it. */
  function LastWord(input: string): (r: (string, string))
  {
    var parts := SplitOn(input, " ");
    (Join(parts[..|parts| - 1], " "), parts[|parts| - 1])
  }

  /** Completing replaces the last word of the trimmed line and keeps
      everything before it. */
  lemma CompletionReplacesLastWord(input: string, completion: string)
    requires input != [] && !IsSpace(input[0])
    ensures var (prefix, word) := LastWord(input);
      exists before :: input == before + word && ApplyCompletion(prefix, completion) == before + completion
  {
    var parts := SplitOn(input, " ");
    var n := |parts|;
    var (prefix, word) := LastWord(input);
    JoinSplitOn(input, " ");
    if n == 1 {
      assert parts[..0] == [];
      assert input == "" + word && ApplyCompletion(prefix, completion) == "" + completion;
    } else {
      JoinAt(parts, " ", n - 1);
      assert parts[n - 1..] == [word];
      assert input == prefix + " " + word;
      assert prefix != "";
      assert input == (prefix + " ") + word;
      assert ApplyCompletion(prefix, completion) == (prefix + " ") + completion;
    }
  }

  /** `showNextCompletion()`: with a non-empty list, advance the index
      cyclically and load that entry as the whole line. */
  function ShowNextCompletion(k: KeyState, s: Session): (r: (KeyState, Session))
    requires k.completions != [] ==> -1 <= k.completionIndex < |k.completions|
    ensures r.0 == k.(completionIndex := r.0.completionIndex) && r.1 == s.(line := r.1.line)
    ensures k.completions != [] ==>
      0 <= r.0.completionIndex < |k.completions| && r.1.line == k.completions[r.0.completionIndex]
    ensures k.completions == [] ==> r == (k, s)
  {
    if |k.completions| > 0 then
      var i := (k.completionIndex + 1) % |k.completions|;
      (k.(completionIndex := i), s.(line := k.completions[i]))
    else (k, s)
  }

  /** `handleTabCompletion(event)`: an empty line restarts the list with
      every registry key; otherwise the first Tab picks the candidates for
      the last word and later ones cycle through them. */
  function Complete(k: KeyState, s: Session, files: seq<string>): (r: (KeyState, Session))
    requires KeyStateValid(k, |s.history|)
    ensures KeyStateValid(r.0, |s.history|)
    ensures r.0.historyIndex == k.historyIndex && r.1 == s.(line := r.1.line)
  {
    CompleteOn(k, s, files, Trim(s.line))
  }

  /** Tab once the line is trimmed to `input`. */
  function CompleteOn(k: KeyState, s: Session, files: seq<string>, input: string): (r: (KeyState, Session))
    requires KeyStateValid(k, |s.history|)
    ensures KeyStateValid(r.0, |s.history|)
    ensures r.0.historyIndex == k.historyIndex && r.1 == s.(line := r.1.line)
  {
    if input == "" then ShowNextCompletion(k.(completions := s.commands.keys, completionIndex := -1), s)
    else if k.completions == [] then FirstCompletion(k, s, files, LastWord(input))
    else CycleCompletion(k, s, LastWord(input).0)
  }

  /** The first Tab on a line: the candidates for the last word, the first
      of them put in its place. */
  function FirstCompletion(k: KeyState, s: Session, files: seq<string>, split: (string, string)): (r: (KeyState, Session))
    requires KeyStateValid(k, |s.history|) && k.completions == []
    ensures KeyStateValid(r.0, |s.history|)
    ensures r.0.historyIndex == k.historyIndex && r.1 == s.(line := r.1.line)
    ensures r.0.completions == Candidates(s.commands.keys, files, split.1)
    ensures r.0.completions != [] ==>
      r.0.completionIndex == 0 && r.1.line == ApplyCompletion(split.0, r.0.completions[0])
    ensures r.0.completions == [] ==> r == (k, s)
  {
    var found := Candidates(s.commands.keys, files, split.1);
    if found != [] then
      (k.(completions := found, completionIndex := 0), s.(line := ApplyCompletion(split.0, found[0])))
    else (k, s)
  }

  /** A later Tab: the next candidate, wrapping round, in place of the last
      word. */
  function CycleCompletion(k: KeyState, s: Session, prefix: string): (r: (KeyState, Session))
    requires KeyStateValid(k, |s.history|) && k.completions != []
    ensures KeyStateValid(r.0, |s.history|)
    ensures r.0.historyIndex == k.historyIndex && r.1 == s.(line := r.1.line)
    ensures r.0.completions == k.completions
    ensures r.0.completionIndex == if k.completionIndex == |k.completions| - 1 then 0 else k.completionIndex + 1
    ensures r.1.line == ApplyCompletion(prefix, k.completions[r.0.completionIndex])
  {
    var i := (k.completionIndex + 1) % |k.completions|;
    (k.(completionIndex := i), s.(line := ApplyCompletion(prefix, k.completions[i])))
  }

  /** Tab on an empty line offers every registry key, hidden ones and
      aliases included, starting with the first. */
  lemma TabOnEmptyLine(k: KeyState, s: Session, files: seq<string>)
    requires KeyStateValid(k, |s.history|) && Trim(s.line) == "" && s.commands.keys != []
    ensures Complete(k, s, files).0 == k.(completions := s.commands.keys, completionIndex := 0)
    ensures Complete(k, s, files).1.line == s.commands.keys[0]
  {
  }

  /** With a list under way, each Tab on a non-blank line moves one place
      along the list, wrapping round after the last entry, and puts that
      entry in place of the last word. */
  lemma TabCycles(k: KeyState, s: Session, files: seq<string>)
    requires KeyStateValid(k, |s.history|) && Trim(s.line) != "" && k.completions != []
    ensures var next := if k.completionIndex == |k.completions| - 1 then 0 else k.completionIndex + 1;
      && Complete(k, s, files).0 == k.(completionIndex := next)
      && Complete(k, s, files).1.line == ApplyCompletion(LastWord(Trim(s.line)).0, k.completions[next])
  {
  }

  /** The first Tab on a non-blank line stores the candidates for its last
      word; when there are any, the first of them replaces that word,
      otherwise nothing changes. */
  lemma TabFirst(k: KeyState, s: Session, files: seq<string>)
    requires KeyStateValid(k, |s.history|) && Trim(s.line) != "" && k.completions == []
    ensures var split := LastWord(Trim(s.line));
      var found := Candidates(s.commands.keys, files, split.1);
      && Complete(k, s, files).0.completions == found
      && (found != [] ==> Complete(k, s, files) == (k.(completions := found, completionIndex := 0),
                                                     s.(line := ApplyCompletion(split.0, found[0]))))
      && (found == [] ==> Complete(k, s, files) == (k, s))
  {
  }

  // ---------------------------------------------------------------------
  // The key handler

  /** `handleKeyPressWithKeybinds(event)`: Tab completes; a Ctrl or Meta
      chord goes to the chord table; the arrows browse the history; any
      other key drops the completion list and goes to the terminal's own
      handler. */
  function Press(k: KeyState, s: Session, files: seq<string>, e: KeyEvent, env: Environment): (r: (KeyState, Session, Value))
    requires SessionValid(s) && KeyStateValid(k, |s.history|)
    ensures SessionValid(r.1) && KeyStateValid(r.0, |r.1.history|)
  {
    if e.key == "Tab" then
      var r := Complete(k, s, files);
      (r.0, r.1, Null)
    else if e.ctrl || e.meta then
      var r := Control(k, s, e.key);
      (r.0, r.1, Null)
    else if e.key == "ArrowUp" then
      var r := ShowPrevious(k, s);
      (r.0, r.1, Null)
    else if e.key == "ArrowDown" then
      var r := ShowNext(k, s);
      (r.0, r.1, Null)
    else
      var r := KeyPress(s, e.key, env);
      (k.(completions := [], completionIndex := -1), r.0, r.1)
  }

  /** The line history grows only by the line a plain Enter submits; every
      other key leaves it as it was, so the history cursor stays valid. */
  lemma PressAppendsHistory(k: KeyState, s: Session, files: seq<string>, e: KeyEvent, env: Environment)
    requires SessionValid(s) && KeyStateValid(k, |s.history|)
    ensures Press(k, s, files, e, env).1.history
         == s.history + (if e.key == "Enter" && !e.ctrl && !e.meta then [s.line] else [])
  {
    var r := Press(k, s, files, e, env).1;
    if e.key == "Tab" {
      assert r == Complete(k, s, files).1;
    } else if e.ctrl || e.meta {
      assert r == Control(k, s, e.key).1;
    } else if e.key == "ArrowUp" {
      assert r == ShowPrevious(k, s).1;
    } else if e.key == "ArrowDown" {
      assert r == ShowNext(k, s).1;
    } else {
      assert r == KeyPress(s, e.key, env).0;
    }
  }

  /** Any key that is not Tab, a chord or an arrow ends the completion
      cycle and is handled exactly as the terminal alone would. */
  lemma OtherKeysResetCompletion(k: KeyState, s: Session, files: seq<string>, e: KeyEvent, env: Environment)
    requires SessionValid(s) && KeyStateValid(k, |s.history|)
    requires e.key != "Tab" && !e.ctrl && !e.meta && e.key != "ArrowUp" && e.key != "ArrowDown"
    ensures Press(k, s, files, e, env).0 == KeyState(k.historyIndex, [], -1)
    ensures (Press(k, s, files, e, env).1, Press(k, s, files, e, env).2) == KeyPress(s, e.key, env)
  {
  }

  // ---------------------------------------------------------------------
  // The keybinds object

  class TerminalKeybinds {
    const terminal: RetroTerminal
    const files: seq<string>
    var historyIndex: int
    var completions: seq<string>
    var completionIndex: int

    ghost predicate Valid()
      reads this, terminal, terminal.filesystem
    {
      terminal.Valid() && KeyStateValid(State(), |terminal.history|)
    }

    function State(): KeyState
      reads this
    {
      KeyState(historyIndex, completions, completionIndex)
    }

    /** Attached to a terminal, not browsing and with no completion list. */
    constructor(t: RetroTerminal)
      requires t.Valid()
      ensures Valid() && terminal == t && files == Files && State() == KeyState(-1, [], -1)
    {
      terminal := t;
      files := Files;
      historyIndex := -1;
      completions := [];
      completionIndex := -1;
    }

    method ShowPreviousCommand()
      requires Valid()
      modifies this, terminal
      ensures Valid()
      ensures (State(), terminal.State()) == ShowPrevious(old(State()), old(terminal.State()))
    {
      if |terminal.history| == 0 {
        return;
      }
      if historyIndex == -1 {
        historyIndex := |terminal.history| - 1;
      } else if historyIndex > 0 {
        historyIndex := historyIndex - 1;
      }
      if historyIndex >= 0 {
        terminal.currentLine := terminal.history[historyIndex];
      }
    }

    method ShowNextCommand()
      requires Valid()
      modifies this, terminal
      ensures Valid()
      ensures (State(), terminal.State()) == ShowNext(old(State()), old(terminal.State()))
    {
      if |terminal.history| == 0 {
        return;
      }
      if historyIndex < |terminal.history| - 1 {
        historyIndex := historyIndex + 1;
        terminal.currentLine := terminal.history[historyIndex];
      } else if historyIndex == |terminal.history| - 1 {
        historyIndex := -1;
        terminal.currentLine := "";
      }
    }

    /** Ctrl+C: the line is emptied and history browsing ends. */
    method ClearCurrentInput()
      requires Valid()
      modifies this, terminal
      ensures Valid()
      ensures State() == old(State()).(historyIndex := -1)
      ensures terminal.State() == old(terminal.State()).(line := "")
    {
      terminal.currentLine := "";
      historyIndex := -1;
    }

    /** Ctrl+U: the whole line is emptied (there is no cursor inside it). */
    method ClearLineFromStart()
      requires Valid()
      modifies terminal
      ensures Valid()
      ensures terminal.State() == old(terminal.State()).(line := "")
    {
      terminal.currentLine := "";
    }

    /** Ctrl+K: the whole line is emptied as well. */
    method ClearLineToEnd()
      requires Valid()
      modifies terminal
      ensures Valid()
      ensures terminal.State() == old(terminal.State()).(line := "")
    {
      terminal.currentLine := "";
    }

    method HandleControlKeybinds(key: string)
      requires Valid()
      modifies this, terminal
      ensures Valid()
      ensures (State(), terminal.State()) == Control(old(State()), old(terminal.State()), key)
    {
      var chord := Lower(key);
      if chord == "l" {
        terminal.ClearTerminal();
      } else if chord == "c" {
        ClearCurrentInput();
      } else if chord == "u" {
        ClearLineFromStart();
      } else if chord == "k" {
        ClearLineToEnd();
      }
    }

    method ApplyCompletionAt(prefix: string)
      requires Valid() && 0 <= completionIndex < |completions|
      modifies terminal
      ensures Valid()
      ensures terminal.State() == old(terminal.State()).(line := ApplyCompletion(prefix, completions[completionIndex]))
    {
      var completion := completions[completionIndex];
      if prefix != "" {
        terminal.currentLine := prefix + " " + completion;
      } else {
        terminal.currentLine := completion;
      }
    }

    method ShowNextCompletionOf()
      requires terminal.Valid() && -1 <= historyIndex < |terminal.history|
      requires completions != [] ==> -1 <= completionIndex < |completions|
      requires completions == [] ==> completionIndex == -1
      modifies this, terminal
      ensures Valid()
      ensures (State(), terminal.State()) == ShowNextCompletion(old(State()), old(terminal.State()))
    {
      if |completions| > 0 {
        completionIndex := (completionIndex + 1) % |completions|;
        terminal.currentLine := completions[completionIndex];
      }
    }

    method HandleTabCompletion()
      requires Valid()
      modifies this, terminal
      ensures Valid()
      ensures (State(), terminal.State()) == Complete(old(State()), old(terminal.State()), files)
    {
      var input := Trim(terminal.currentLine);
      assert Complete(State(), terminal.State(), files) == CompleteOn(State(), terminal.State(), files, input);
      CompleteInput(input);
    }

    method CompleteInput(input: string)
      requires Valid()
      modifies this, terminal
      ensures Valid()
      ensures (State(), terminal.State()) == CompleteOn(old(State()), old(terminal.State()), files, input)
    {
      if input == "" {
        completions := terminal.commands.keys;
        completionIndex := -1;
        ShowNextCompletionOf();
        return;
      }
      var parts := SplitOn(input, " ");
      var lastWord := parts[|parts| - 1];
      var prefix := Join(parts[..|parts| - 1], " ");
      assert (prefix, lastWord) == LastWord(input);
      if |completions| == 0 {
        FirstCompletionOf(prefix, lastWord);
      } else {
        CycleCompletionOf(prefix);
      }
    }

    method CycleCompletionOf(prefix: string)
      requires Valid() && completions != []
      modifies this, terminal
      ensures Valid()
      ensures (State(), terminal.State()) == CycleCompletion(old(State()), old(terminal.State()), prefix)
    {
      completionIndex := (completionIndex + 1) % |completions|;
      ApplyCompletionAt(prefix);
    }

    method FirstCompletionOf(prefix: string, lastWord: string)
      requires Valid() && completions == []
      modifies this, terminal
      ensures Valid()
      ensures (State(), terminal.State()) == FirstCompletion(old(State()), old(terminal.State()), files, (prefix, lastWord))
    {
      completions := Candidates(terminal.commands.keys, files, lastWord);
      if |completions| > 0 {
        completionIndex := 0;
        ApplyCompletionAt(prefix);
      }
    }

    /** The key handler the keybinds install in place of the terminal's. */
    method HandleKeyPressWithKeybinds(e: KeyEvent, env: Environment) returns (shown: Value)
      requires Valid()
      modifies this, terminal, terminal.filesystem
      ensures Valid()
      ensures (State(), terminal.State(), shown) == Press(old(State()), old(terminal.State()), files, e, env)
    {
      shown := Null;
      if e.key == "Tab" {
        HandleTabCompletion();
      } else if e.ctrl || e.meta {
        HandleControlKeybinds(e.key);
      } else if e.key == "ArrowUp" {
        ShowPreviousCommand();
      } else if e.key == "ArrowDown" {
        ShowNextCommand();
      } else {
        completionIndex := -1;
        completions := [];
        shown := terminal.HandleKeyPress(e.key, env);
      }
    }
  }
}

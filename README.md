# Retro terminal: a Dafny model of the command layer and its virtual filesystem

The site is a browser page dressed as an old CRT terminal. A visitor types
commands at a prompt (`guest@lucy:~$`). A `RetroTerminal` object keeps the
line being typed, the lines entered, a registry of commands and the current
directory. Entered lines go to command handlers (`ls`, `cat`, `cd`, `tree`,
`help`, `man`, `echo`, `touch`, `mkdir`, `rm`, `cp`, `mv`, `head`, `tail`,
`grep`, `wc`, `sort`, `history`, `env`, …). The handlers read and change a flat
in-memory filesystem. Around these sit:

- a keybinding layer for history recall, line clearing and Tab-completion cycling;
- a colour-scheme selector;
- a colouriser that turns `${red}`-style tags into HTML spans;
- a queue of page-ready callbacks ordered by priority.

This project models that core and proves properties about it. It has one
module per source file, plus shared modules for JavaScript semantics.

- `Wrappers`, `Values`: `Option` and the three kinds of value a command
  returns: nothing (`null`), text, or an image.
- `JsStrings`: the string built-ins the handlers rely on, written out with
  their JavaScript behaviour:
  - `trim` with the ECMAScript whitespace set;
  - ASCII `toLowerCase`/`toUpperCase`;
  - `split` on a literal and on `/\s+/`;
  - `join`, `slice` with negative positions, `padStart`/`padEnd`;
  - `indexOf`/`includes`;
  - `parseInt` with sign, `0x` prefix and NaN.
- `Ordering`: the default `Array.prototype.sort` order on strings, and the
  sort itself, with uniqueness of sorted arrangements.
- `OrderedMaps`: a `Map` or plain object, with its keys in insertion
  order. A `Map` keeps that order. A plain object lists integer-like keys
  (such as `"10"`) first, in ascending order, and the rest in insertion
  order. No code modelled here can see the difference:
  - the root listing sorts the filesystem's keys before returning them;
  - the colour-scheme table, the environment and the documentation option
    tables have fixed keys that are not integer-like;
  - `addScheme` has no caller.
- `Filesystem` (`scripts/virtual-filesystem.js`):
  - the lookups are functions of the dictionary;
  - the `VirtualFilesystem` class updates the dictionary in place;
  - browser storage is an optional saved copy.
- `Registry`: command descriptors and `registerCommand`'s name-then-aliases
  binding.
- `FileCommands`, `BaseCommands`, `UnixCommands`: the command handlers of
  `scripts/commands/file-commands.js`, `scripts/commands/base-commands.js`
  and `scripts/unix-commands.js`. The pure ones are functions. The ones that
  change the filesystem are a specification function plus a method on the
  filesystem object, and the `rm` loop is a `while` loop proved against its
  specification.
- `Terminal` (`scripts/core/retro-terminal.js`): parsing, dispatch,
  `executeCommand`'s normalisation of results, the line editor and Tab
  completion, as functions over a `Session` value. The `RetroTerminal` class
  updates its fields so that its state always follows those functions.
- `Keybinds` (`scripts/terminal-keybinds.js`): the history cursor and the
  completion cycler, as a state machine on a value and as the
  `TerminalKeybinds` class.
- `ColorSchemes` (`scripts/config/terminal-colorschemes.js`): the invariant
  that the scheme in use is a registered one.
- `AnsiColors` (`scripts/utils/ansi-colors.js`): tag rewriting as a sequence
  of tags and text runs, then span balancing.
- `DomInitializer` (`scripts/utils/dom-initializer.js`): the stable
  priority queue of callbacks and how it runs them.

The legacy copy `scripts/retro-terminal.js` has the same registry and
dispatcher as `scripts/core/retro-terminal.js`. Its inline handlers behave
exactly like the separate command modules, so the same members model both
copies:

- help, lines 47-66: `BaseCommands.Help`;
- man, lines 68-127: `BaseCommands.Man`;
- echo, lines 190-192: `Terminal.EchoAnswersArgs`;
- cd, lines 301-321: `FileCommands.Cd`;
- tree, lines 329-340: `FileCommands.Tree`;
- getPrompt, lines 432-438: `Terminal.RetroTerminal.GetPrompt`.

## Model

| member | source | states |
|---|---|---|
| Filesystem.DefaultStore | scripts/virtual-filesystem.js:9-74 | the seed dictionary is well formed and lists its thirteen keys in declaration order |
| Filesystem.SeedLookup | scripts/virtual-filesystem.js:9-74 | each seed key holds its declared entry |
| Filesystem.Normalize | scripts/virtual-filesystem.js:121 | the lookup key has no uppercase letter and no whitespace at either end |
| Filesystem.LowerThenTrim | scripts/virtual-filesystem.js:207 | lowercasing then trimming gives the same key as trimming then lowercasing |
| Filesystem.NormalizeIdempotent | scripts/virtual-filesystem.js:121 | normalizing a normalized key changes nothing |
| Filesystem.GetFile | scripts/virtual-filesystem.js:117-132 | an entry comes back exactly when the normalized key holds a file, and it is that entry; directories and absent keys give none |
| Filesystem.RootListing | scripts/virtual-filesystem.js:142-146 | the root listing is sorted and holds exactly the keys without `/` or ending in `/` |
| Filesystem.GetDirectory | scripts/virtual-filesystem.js:134-154 | `.`, `` and `/` give the root listing; a directory key gives its `files` list verbatim; anything else gives none |
| Filesystem.ListDirectory | scripts/virtual-filesystem.js:156-167 | a missing directory gives the `ls: cannot access` message with the path as given; otherwise every listed name occurs in the joined answer |
| Filesystem.ReadFile | scripts/virtual-filesystem.js:169-189 | a missing file gives the `cat:` error naming the path as given; an image gives an image value with the URL and the alt text or the path; any other file its raw content |
| Filesystem.DirectoryKey | scripts/virtual-filesystem.js:242-243 | the directory key is normalized and ends in `/` |
| Filesystem.ReadmeListedButUnreachable | scripts/virtual-filesystem.js:15 | `README.md` is in the root listing of the seed, yet no path normalizes to it |
| Filesystem.AddFileTo | scripts/virtual-filesystem.js:191-201 | the path exactly as given holds a new plain file, every other key is unchanged, and the result is persisted |
| Filesystem.AddDirectoryTo | scripts/virtual-filesystem.js:238-250 | the directory key holds an empty directory, every other key is unchanged, and nothing is persisted |
| Filesystem.RemoveFrom | scripts/virtual-filesystem.js:225-236 | the answer is whether the object answers to the normalized key; if so that key alone is deleted and the result persisted, otherwise nothing changes |
| Filesystem.VirtualFilesystem.constructor | scripts/virtual-filesystem.js:76-77 | the dictionary is the stored copy when there is one, else the seed |
| Filesystem.VirtualFilesystem.ResetToDefaults | scripts/virtual-filesystem.js:109-115 | the dictionary and its stored copy both equal the seed |
| Filesystem.VirtualFilesystem.AddFile | scripts/virtual-filesystem.js:191-201 | the new contents are `AddFileTo` of the old |
| Filesystem.VirtualFilesystem.AddDirectory | scripts/virtual-filesystem.js:238-250 | the new contents are `AddDirectoryTo` of the old |
| Filesystem.VirtualFilesystem.RemoveFile | scripts/virtual-filesystem.js:225-236 | the new contents and the answer are `RemoveFrom` of the old contents |
| Filesystem.AddFileEffect | scripts/virtual-filesystem.js:195-199 | after adding, the path holds the new file and every other key what it held before |
| Filesystem.RemoveFileEffect | scripts/virtual-filesystem.js:228-231 | after removing, the object no longer answers to the key unless through its prototype, and every other key keeps its entry |
| Filesystem.GetFileOfLowerKey | scripts/virtual-filesystem.js:117-131 | a file under a normalized key is found through that key |
| Filesystem.AddDirectoryExists | scripts/virtual-filesystem.js:218-223 | after `addDirectory`, `exists` answers for the new directory key |
| FileCommands.Ls | scripts/commands/file-commands.js:20-23 | `ls` prints the root listing joined by two spaces, whatever the argument or current directory |
| FileCommands.Cat | scripts/commands/file-commands.js:61-74 | no argument gives the usage line; a missing file gives the error naming it; an existing file gives its text exactly when it is not an image, and an image file gives the image record with its content as source and its alt text, or the path as typed when it has none |
| FileCommands.Pwd | scripts/commands/file-commands.js:109-112 | the output is `~` exactly when the current directory is the root (or literally `~`); otherwise it is the directory key itself |
| FileCommands.Cd | scripts/commands/file-commands.js:31-53 | no argument, `/` and `..` return to the root; any other argument succeeds exactly when its lowercased, trimmed, slash-terminated key is a directory, moves there, and otherwise is refused with the `No such directory` message |
| FileCommands.GetDirectoryOfKey | scripts/virtual-filesystem.js:134-154 | every non-root normalized directory key is found through itself, with its list of names |
| FileCommands.CdIntoEmptyDirectory | scripts/commands/file-commands.js:47-48 | `cd` into an existing directory with no entries still succeeds |
| FileCommands.CdRefusesFiles | scripts/commands/file-commands.js:47-51 | `cd` to a key that holds a file is refused |
| FileCommands.TreeLines | scripts/commands/file-commands.js:90-98 | `tree` has one line more than the root has entries, `.` first, then each entry behind its branch marker |
| FileCommands.Tree | scripts/commands/file-commands.js:89-100 | the output is the joined tree lines of the root listing |
| FileCommands.CollectTreeLines | scripts/commands/file-commands.js:93-98 | the loop pushes exactly the tree lines, in listing order |
| FileCommands.TreeOutputLines | scripts/commands/file-commands.js:100 | splitting the `tree` output on newlines gives back its lines, one more than the root entries |
| BaseCommands.NamesMembers | scripts/commands/base-commands.js:23-29 | a name is in the `seen` set exactly when some listed descriptor carries it |
| BaseCommands.EntryLines | scripts/commands/base-commands.js:30 | one help line per listed descriptor, in listing order, name padded to twelve columns |
| BaseCommands.HelpOver | scripts/commands/base-commands.js:22-37 | the loop over the registry's values with its `seen` set yields the header, one line per visible descriptor whose name is new, and the footer |
| BaseCommands.Help | scripts/commands/base-commands.js:21-38 | `help` prints the help lines of the registry's values, joined by newlines |
| BaseCommands.ListedSound | scripts/commands/base-commands.js:28 | every listed descriptor is one of the walked descriptors and is not hidden |
| BaseCommands.ListedDistinct | scripts/commands/base-commands.js:28-29 | no name is listed twice |
| BaseCommands.ListedComplete | scripts/commands/base-commands.js:27-31 | every visible descriptor walked has its name listed |
| BaseCommands.HelpListsVisibleOnce | scripts/commands/base-commands.js:21-38 | over a registry: only visible registered descriptors are listed, each name once, and every visible descriptor reached through any key (name or alias) has its name listed |
| BaseCommands.Indent | scripts/commands/base-commands.js:71-81 | each example or note is printed behind a two-space indent, one per line |
| BaseCommands.OptionLines | scripts/commands/base-commands.js:84-89 | options are present exactly when the documentation has them, one line per option, name padded to twenty columns |
| BaseCommands.Man | scripts/commands/base-commands.js:43-103 | no argument gives the usage text; a lowercased, trimmed key the registry lacks gives the `No manual entry` refusal naming it; otherwise the page of the descriptor that key (name or alias) leads to |
| BaseCommands.ManPageLayout | scripts/commands/base-commands.js:56-100 | a page starts with the key in capitals and the description, then the usage falling back to the key, or the no-documentation notice; the ALIASES section closes it exactly when there are aliases |
| BaseCommands.ManExamples | scripts/commands/base-commands.js:68-74 | EXAMPLES follows the usage, each example indented |
| BaseCommands.ManNotes | scripts/commands/base-commands.js:76-82 | NOTES follows the examples (or the usage), each note indented |
| BaseCommands.ManOptions | scripts/commands/base-commands.js:84-90 | OPTIONS follows examples and notes, each option padded to twenty columns before its text |
| BaseCommands.DocSection | scripts/commands/base-commands.js:63-90 | the notes and options sections sit at the offsets fixed by the sections before them |
| BaseCommands.SectionAt | scripts/commands/base-commands.js:68-90 | a present section is a blank line, its heading and its indented items |
| Registry.DescribeDefaults | scripts/core/retro-terminal.js:489-497 | omitted arguments give no aliases, no documentation and a visible command |
| Registry.KeysOf | scripts/core/retro-terminal.js:499-504 | a registration sets the name first and then each alias, in order |
| Registry.BindAllEffect | scripts/core/retro-terminal.js:502-504 | after the alias loop every bound key answers with the descriptor and every other key answers as before |
| Registry.BindAllOrder | scripts/core/retro-terminal.js:502-504 | the alias loop keeps existing keys in place and appends only bound keys |
| Registry.RegisterEffect | scripts/core/retro-terminal.js:489-505 | the name and every alias lead to the one shared descriptor, every other key is untouched, and earlier keys keep their place in the order |
| UnixCommands.MissingFileMessage | scripts/unix-commands.js:213 | the error text of `readFile` passes the `No such file` test |
| UnixCommands.ReadInput | scripts/unix-commands.js:212-217 | a missing file hands back the `cat:` error; an image reads as empty text; a text is handed back when it mentions `No such file` and worked on otherwise |
| UnixCommands.LinesJoin | scripts/unix-commands.js:218-219 | joining the split lines of a text gives the text back |
| UnixCommands.LinesFree | scripts/unix-commands.js:218 | no line of a split text holds a newline |
| UnixCommands.CountOrDefault | scripts/unix-commands.js:208 | `parseInt(numStr) \|\| 10`: never zero; NaN and zero give 10 |
| UnixCommands.ParseLineRequest | scripts/unix-commands.js:201-210 | the count is never zero, and without `-n` the whole argument is the file name with a count of 10 |
| UnixCommands.HeadText | scripts/unix-commands.js:218-219 | the output of `head` is a prefix of the file text, for any count |
| UnixCommands.TailText | scripts/unix-commands.js:253-254 | the output of `tail` is a suffix of the file text, for any count |
| UnixCommands.Head | scripts/unix-commands.js:196-219 | no argument gives the missing-operand message; a passed-through error is returned as is; otherwise the head of the file text for the parsed count |
| UnixCommands.Tail | scripts/unix-commands.js:231-254 | no argument gives the missing-operand message; a passed-through error is returned as is; otherwise the tail of the file text for the parsed count |
| UnixCommands.HeadFirstLines | scripts/unix-commands.js:218-219 | for a positive count `head` yields exactly the first `count` lines (all when fewer) |
| UnixCommands.TailLastLines | scripts/unix-commands.js:253-254 | for a positive count `tail` yields exactly the last `count` lines (all when fewer) |
| UnixCommands.HeadTailMissingFile | scripts/unix-commands.js:212-215 | a missing file makes `head` and `tail` answer with `readFile`'s error text |
| UnixCommands.HeadTailDefaultCount | scripts/unix-commands.js:201-202 | without `-n` the count is 10 and the argument names the file |
| UnixCommands.MatchingLines | scripts/unix-commands.js:288-290 | a line is kept exactly when it contains the pattern ignoring case; never more lines than given |
| UnixCommands.MatchingLinesAppend | scripts/unix-commands.js:288-290 | the filter keeps file order |
| UnixCommands.Grep | scripts/unix-commands.js:266-292 | no argument gives `missing pattern`; an argument without a space gives `missing file operand`; a file operand that is missing or reads as an error hands that message back as is |
| UnixCommands.GrepArguments | scripts/unix-commands.js:271-277 | the pattern is the text before the first space and the file name everything after it, spaces included |
| UnixCommands.GrepFindsLines | scripts/unix-commands.js:279-292 | `grep` answers with the matching lines of the file in order, one per line, or the empty string when none match |
| UnixCommands.WcReport | scripts/unix-commands.js:319 | the report ends with a space and the file name |
| UnixCommands.Wc | scripts/unix-commands.js:302-319 | no argument gives the missing-operand message; the first word of the trimmed argument names the file; an error passes through; otherwise its report |
| UnixCommands.WcCounts | scripts/unix-commands.js:315-319 | the line figure is the number of newlines, the word figure the number of non-empty whitespace-separated words, the byte figure the UTF-8 length |
| UnixCommands.SortLines | scripts/unix-commands.js:329-344 | no argument gives the missing-operand message; an error passes through |
| UnixCommands.SortOutputLines | scripts/unix-commands.js:341-342 | the output lines are sorted in code-unit order and are a permutation of the file's lines |
| UnixCommands.History | scripts/unix-commands.js:354-357 | an empty history gives `history: no commands yet` |
| UnixCommands.HistoryLines | scripts/unix-commands.js:359-363 | one output line per command, in order, numbered from 1 and right-aligned to four columns |
| UnixCommands.EnvVars | scripts/unix-commands.js:15-27 | nine variables, in declaration order |
| UnixCommands.EnvLines | scripts/unix-commands.js:373-378 | one `KEY=value` line per variable, in order |
| UnixCommands.FieldsInfix | scripts/unix-commands.js:397-398 | each field of the `uname -a` line occurs in it |
| UnixCommands.UnameAllContainsEach | scripts/unix-commands.js:397-409 | the `uname -a` line contains the answer to every other option |
| UnixCommands.FileKeys | scripts/unix-commands.js:436-437 | exactly the keys whose entries are files |
| UnixCommands.Find | scripts/unix-commands.js:430-444 | a filesystem with no file gives `find: no files found` |
| UnixCommands.FindListsFiles | scripts/unix-commands.js:436-444 | otherwise the output lines are sorted and are exactly the file keys |
| UnixCommands.TouchSpec | scripts/unix-commands.js:61-72 | no argument changes nothing and gives the missing-operand message; otherwise an empty plain file is written at the lowercased, trimmed name under the current directory, the filesystem is saved, and the message names the file |
| UnixCommands.Touch | scripts/unix-commands.js:61-72 | the method leaves the filesystem object holding what `TouchSpec` gives and returns its message |
| UnixCommands.NormalizedConcat | scripts/unix-commands.js:69 | joining two reachable keys gives a reachable key |
| UnixCommands.TouchCreatesEmptyFile | scripts/unix-commands.js:69-71 | under the root or a reachable directory, `getFile` then finds the empty file at the touched path |
| UnixCommands.TouchKeepsOtherKeys | scripts/unix-commands.js:71 | every other key answers as before |
| UnixCommands.TouchPathNormalized | scripts/unix-commands.js:66-69 | the touched path is a reachable key |
| UnixCommands.MkdirSpec | scripts/unix-commands.js:82-95 | no argument changes nothing; otherwise the message names the lowercased, trimmed directory |
| UnixCommands.Mkdir | scripts/unix-commands.js:82-95 | the method leaves the filesystem object holding what `MkdirSpec` gives and returns its message |
| UnixCommands.DirectoryKeyIdempotent | scripts/unix-commands.js:87-94 | a name already ending in `/` is not given a second slash |
| UnixCommands.MkdirMakesDirectory | scripts/unix-commands.js:87-95 | `mkdir` writes exactly one key, the name's directory key, holding an empty directory, and does not save |
| UnixCommands.MkdirThenCd | scripts/unix-commands.js:87-95 | after `mkdir name`, `cd name` enters the new directory |
| UnixCommands.NonBlank | scripts/unix-commands.js:110 | the filter never adds pieces |
| UnixCommands.NonBlankMembers | scripts/unix-commands.js:110 | the filter keeps exactly the non-blank pieces |
| UnixCommands.NonBlankAll | scripts/unix-commands.js:110 | pieces that are all non-blank are kept as they are |
| UnixCommands.RmOne | scripts/unix-commands.js:113-124 | a lower-cased, trimmed name ending in `/` changes nothing and answers `rm: refusing to remove directory '<name>' (use rm -r)`; an existing file has exactly its normalized key deleted, is saved, and answers `rm: removed '<name>'`; anything else changes nothing and answers `rm: cannot remove '<name>': No such file or directory` |
| UnixCommands.RmAll | scripts/unix-commands.js:110-125 | one message per target, and the disk stays well formed |
| UnixCommands.RmAllStep | scripts/unix-commands.js:113-125 | each target is one more `RmOne` step on the disk left by the ones before |
| UnixCommands.RmAllStepMessage | scripts/unix-commands.js:113-124 | the message pushed for target `i` is `RmOne`'s answer on the disk the targets before it left |
| UnixCommands.RmAllKeepsMessage | scripts/unix-commands.js:113-125 | handling a later target does not alter a message already pushed |
| UnixCommands.RmAllMessageFrom | scripts/unix-commands.js:113-125 | a message, once pushed, is the same in every longer run of targets |
| UnixCommands.RmAllMessage | scripts/unix-commands.js:113-125 | in the full run the `i`-th message is `RmOne`'s answer for target `i` on the disk the earlier targets left |
| UnixCommands.RmAllMessages | scripts/unix-commands.js:110-125 | every message of the run, index by index, is that `RmOne` answer |
| UnixCommands.RmSpec | scripts/unix-commands.js:105-127 | no argument changes nothing and gives `rm: missing operand`; otherwise the disk is what the non-blank space-separated targets leave in turn and the answer is their messages joined by newlines |
| UnixCommands.RmTarget | scripts/unix-commands.js:114-124 | the loop body acts on the filesystem object as `RmOne` says |
| UnixCommands.Rm | scripts/unix-commands.js:105-127 | the method leaves the filesystem object holding what `RmSpec` gives and returns its message |
| UnixCommands.RmOneEffect | scripts/unix-commands.js:119-121 | one target deletes at most the file under its normalized name and nothing else |
| UnixCommands.TargetKeys | scripts/unix-commands.js:114 | one normalized key per target |
| UnixCommands.RmAllEffect | scripts/unix-commands.js:110-125 | `rm` only deletes: every key left keeps its entry, a key no target names is untouched, and a named key without a trailing `/` no longer holds a file |
| UnixCommands.CopyFile | scripts/unix-commands.js:150-157 | a missing source changes nothing and gives the `cannot open` error; otherwise the destination, as given, becomes a plain file with the source's content, the filesystem is saved, and the message is `source -> dest` |
| UnixCommands.CpSpec | scripts/unix-commands.js:137-157 | fewer than two space-separated pieces give `missing file operand`; fewer than two non-blank ones give `missing destination`; neither changes anything |
| UnixCommands.Cp | scripts/unix-commands.js:137-157 | the method leaves the filesystem object holding what `CpSpec` gives and returns its message |
| UnixCommands.PlainWord | scripts/unix-commands.js:142 | a word without whitespace is its own trimmed form |
| UnixCommands.OperandsOf | scripts/unix-commands.js:142 | two words separated by one space are read back as the two operands |
| UnixCommands.CpOperands | scripts/unix-commands.js:142-157 | `cp a b` copies from `a` to `b`, both lowercased |
| UnixCommands.MoveFile | scripts/unix-commands.js:176-186 | a missing source changes nothing and gives the `cannot stat` error; otherwise the destination gets the source's content, the source's normalized key is deleted afterwards, the filesystem is saved, and the message is `source -> dest` |
| UnixCommands.MvSpec | scripts/unix-commands.js:167-186 | fewer than two pieces give `missing operand`; the handler throws exactly when there are two pieces but fewer than two non-blank operands, and then changes nothing |
| UnixCommands.Mv | scripts/unix-commands.js:167-186 | the method leaves the filesystem object holding what `MvSpec` gives and returns its outcome |
| UnixCommands.MoveIn | scripts/unix-commands.js:176-184 | the copy-then-remove acts on the filesystem object as `MoveFile` says |
| UnixCommands.MvOperands | scripts/unix-commands.js:172-174 | `mv a b` moves from `a` to `b`, both lowercased |
| UnixCommands.MvOntoItselfDeletes | scripts/unix-commands.js:182-184 | `mv a a` reports success and leaves no entry under `a` |
| UnixCommands.MvThrowsOnTrailingSpace | scripts/unix-commands.js:168-174 | a word followed by a space makes the handler throw |
| UnixCommands.TrailingSpaceOperands | scripts/unix-commands.js:172 | a word and a space split into the word and a blank piece, which the filter drops |
| UnixCommands.MvDoesNotThrowOnWords | scripts/unix-commands.js:168-174 | any non-empty list of words joined by single spaces never makes `mv` throw |
| UnixCommands.MvKeepsOperands | scripts/unix-commands.js:172-174 | when the filter drops no piece, `mv` does not throw |
| UnixCommands.WordOperands | scripts/unix-commands.js:172 | words joined by single spaces split back into the same words, all kept by the filter |
| Terminal.Prompt | scripts/core/retro-terminal.js:149-155 | the prompt is `guest@lucy:`, the directory as `pwd` prints it, and `$` |
| Terminal.Invoke | scripts/core/retro-terminal.js:519 | calling a handler never touches the histories or the registry; only `clear` empties the line, only `cd` moves, only the filesystem commands change files, and only `bootup` and the outside handlers can leave a Promise |
| Terminal.InvokeReads | scripts/core/retro-terminal.js:519 | a read-only handler leaves the whole session as it was |
| Terminal.InvokeWrites | scripts/core/retro-terminal.js:519 | a handler that writes to the filesystem changes the session only as its write says |
| Terminal.Read | scripts/commands/base-commands.js:21-141 | only `bootup` and the outside handlers can be pending, and `bootup` always is |
| Terminal.Write | scripts/unix-commands.js:61-186 | a filesystem command changes only the disk, and only `mv` can throw |
| Terminal.Execute | scripts/core/retro-terminal.js:507-537 | an unknown name gives the not-found line and changes nothing; otherwise a returned value comes back as it is, a thrown error as `Error executing command:` and its message, and a Promise as no response |
| Terminal.BootupAnswersNothing | scripts/retro-terminal.js:291-299 | the asynchronous `bootup` replay gives no response line and changes nothing in the terminal |
| Terminal.BootupPending | scripts/core/retro-terminal.js:519-526 | the `bootup` handler leaves the session as it was and its answer pending |
| Terminal.ExecutePending | scripts/core/retro-terminal.js:521-526 | a handler that answers with a Promise and changes nothing gives no response line |
| Terminal.ExecuteFrame | scripts/core/retro-terminal.js:507-537 | only a registered filesystem command can change files, and only a registered `cd` can move |
| Terminal.Parse | scripts/core/retro-terminal.js:391-394 | the input is the trimmed line and the command name holds no whitespace |
| Terminal.ParseWords | scripts/core/retro-terminal.js:391-394 | words separated by whitespace runs, with any whitespace around them, name the first word lowercased and pass the rest joined by single spaces |
| Terminal.Record | scripts/core/retro-terminal.js:388-399 | the raw line always joins `history`; the trimmed line joins `commandHistory` exactly when it is not empty; nothing else changes |
| Terminal.Process | scripts/core/retro-terminal.js:386-459 | the histories grow as `Record` says, the registry is kept, the line ends empty, and the name `clear` clears without a lookup or response |
| Terminal.Dispatch | scripts/core/retro-terminal.js:402-456 | `clear` empties the line without a lookup; any other name is executed and the line emptied; histories and registry are kept |
| Terminal.ProcessExecutes | scripts/core/retro-terminal.js:425 | a line whose name is not `clear` answers with what executing that name answers after the line is recorded |
| Terminal.ProcessRunsFirstWord | scripts/core/retro-terminal.js:391-425 | an entered line of words runs its lowercased first word with the other words, single-spaced, as the argument |
| Terminal.ExecuteReads | scripts/core/retro-terminal.js:512-533 | a name bound to a read-only handler answers with what that handler returns and changes nothing |
| Terminal.EchoCollapsesWhitespace | scripts/commands/base-commands.js:139-141 | `echo` answers with the other words single-spaced, however they were separated on the line |
| Terminal.EchoAnswersArgs | scripts/commands/base-commands.js:139-141 | a name bound to `echo` answers with its argument string |
| Terminal.BlankLineNotFound | scripts/core/retro-terminal.js:388-399 | Enter on a blank line records it in `history` only and answers with the not-found line for the empty name |
| Terminal.HistoryIncludesItself | scripts/unix-commands.js:354-363 | a line naming `history` lists itself as the last entry, as the command history is updated before the command runs |
| Terminal.EditLine | scripts/core/retro-terminal.js:345-379 | Backspace drops the last character of a non-empty line, a one-character key is appended, any other key leaves the line |
| Terminal.TypeThenBackspace | scripts/core/retro-terminal.js:345-379 | Backspace undoes typing one character |
| Terminal.VisibleMatches | scripts/core/retro-terminal.js:586-589 | never more matches than keys |
| Terminal.VisibleMatchesMembers | scripts/core/retro-terminal.js:586-589 | a key matches exactly when it starts with the word and its command is not hidden |
| Terminal.VisibleMatchesUnique | scripts/core/retro-terminal.js:586-592 | when one visible key starts with the word it is the only match, even if other keys lead to the same command |
| Terminal.PrefixMatches | scripts/core/retro-terminal.js:608 | never more matches than names; also the command-key candidates of the keybinds' first Tab |
| Terminal.PrefixMatchesMembers | scripts/core/retro-terminal.js:608 | a name matches exactly when it starts with the word, for scheme names here and command keys in the keybinds |
| Terminal.TabComplete | scripts/core/retro-terminal.js:575-637 | Tab changes at most the line |
| Terminal.TabOn | scripts/core/retro-terminal.js:584-617 | each branch changes at most the line |
| Terminal.CompleteCommand | scripts/core/retro-terminal.js:584-598 | the command branch changes at most the line |
| Terminal.CompleteTheme | scripts/core/retro-terminal.js:603-617 | the theme branch changes at most the line |
| Terminal.LoneWord | scripts/core/retro-terminal.js:580 | a lone word is its own trimmed form and its only token |
| Terminal.TabCompletesUniqueCommand | scripts/core/retro-terminal.js:584-593 | Tab on a lone partial word with one visible matching key completes the line to that key and a space |
| Terminal.TabCommandMatches | scripts/core/retro-terminal.js:584-598 | the listed matches are exactly the visible keys starting with the word; with none or several the line is kept, and several are listed as `Matching commands:` |
| Terminal.ThemeTabUsesLastToken | scripts/core/retro-terminal.js:599-617 | after `theme` and a trailing space the word matched is the last token, so `theme ` alone matches against `theme` itself |
| Terminal.TrailingSpace | scripts/core/retro-terminal.js:580 | single-spaced words followed by a space read back as the same words |
| Terminal.KeyPress | scripts/core/retro-terminal.js:333-381 | keys other than Enter change only the line; only Enter adds to `history`; keys other than Enter and Tab edit the line and show nothing |
| Terminal.RetroTerminal.constructor | scripts/core/retro-terminal.js:14-47 | an empty line, no history, no commands, the root as directory, on the given filesystem |
| Terminal.RetroTerminal.GetPrompt | scripts/core/retro-terminal.js:149-155 | the object's prompt is the prompt of its current directory |
| Terminal.RetroTerminal.RegisterCommand | scripts/core/retro-terminal.js:489-505 | the loop binds the name and then each alias to one shared descriptor, and changes nothing else |
| Terminal.RetroTerminal.ClearTerminal | scripts/core/retro-terminal.js:561-573 | only the line buffer is emptied |
| Terminal.RetroTerminal.RunReader | scripts/core/retro-terminal.js:519 | a read-only handler returns what `Read` says |
| Terminal.RetroTerminal.RunWriter | scripts/core/retro-terminal.js:519 | a filesystem command leaves the object as `Write` says |
| Terminal.RetroTerminal.RunHandler | scripts/core/retro-terminal.js:519 | calling a handler leaves the object as `Invoke` says |
| Terminal.RetroTerminal.ExecuteCommand | scripts/core/retro-terminal.js:507-537 | the object and the response are as `Execute` says |
| Terminal.RetroTerminal.ProcessCommand | scripts/core/retro-terminal.js:386-459 | the object and the response are as `Process` says |
| Terminal.RetroTerminal.RecordLine | scripts/core/retro-terminal.js:388-399 | the histories are updated as `Record` says and the name and arguments are those `Parse` reads |
| Terminal.RetroTerminal.DispatchCommand | scripts/core/retro-terminal.js:402-456 | the object and the response are as `Dispatch` says |
| Terminal.RetroTerminal.HandleTabAutocomplete | scripts/core/retro-terminal.js:575-637 | the object and what is shown are as `TabComplete` says |
| Terminal.RetroTerminal.TabWith | scripts/core/retro-terminal.js:584-617 | the object and what is shown are as `TabOn` says |
| Terminal.RetroTerminal.CompleteCommandName | scripts/core/retro-terminal.js:584-598 | the object and what is shown are as `CompleteCommand` says |
| Terminal.RetroTerminal.CompleteThemeName | scripts/core/retro-terminal.js:603-617 | the object and what is shown are as `CompleteTheme` says |
| Terminal.RetroTerminal.HandleKeyPress | scripts/core/retro-terminal.js:333-381 | the object and what is shown are as `KeyPress` says |
| Keybinds.PreviousIndex | scripts/terminal-keybinds.js:118-124 | ArrowUp's cursor is always an index of a non-empty history |
| Keybinds.NextIndex | scripts/terminal-keybinds.js:136-144 | ArrowDown's cursor stays between -1 and the newest index |
| Keybinds.DownUndoesUp | scripts/terminal-keybinds.js:114-147 | ArrowDown undoes ArrowUp everywhere except at the oldest entry, where ArrowUp does not move |
| Keybinds.ShowPrevious | scripts/terminal-keybinds.js:114-130 | an empty history changes nothing; otherwise the cursor lands on an entry and the line holds that entry; only the cursor and the line change |
| Keybinds.ShowNext | scripts/terminal-keybinds.js:132-147 | an empty history changes nothing; otherwise the line holds the entry under the cursor, or is empty once the cursor leaves the newest entry |
| Keybinds.Ups | scripts/terminal-keybinds.js:114-130 | repeated ArrowUp keeps the cursor valid and the history unchanged |
| Keybinds.UpsWalkBack | scripts/terminal-keybinds.js:114-130 | from a fresh start, `count` presses of ArrowUp load the entry `count` back from the newest, and stay on the oldest after that |
| Keybinds.Control | scripts/terminal-keybinds.js:58-100 | Ctrl+L, Ctrl+C, Ctrl+U and Ctrl+K (any case) empty the line; only Ctrl+C also resets the history cursor; any other chord changes nothing |
| Keybinds.LowerStartingWith | scripts/terminal-keybinds.js:233-235 | never more candidates than file names |
| Keybinds.LowerContaining | scripts/terminal-keybinds.js:240-242 | never more candidates than keys and file names |
| Keybinds.LowerStartingWithMembers | scripts/terminal-keybinds.js:233-235 | a file is a candidate exactly when its lowercase form starts with the word |
| Keybinds.LowerContainingMembers | scripts/terminal-keybinds.js:240-242 | an item is a candidate exactly when its lowercase form contains the word |
| Keybinds.CandidatesPreference | scripts/terminal-keybinds.js:225-243 | command keys with the prefix are preferred; failing those, files with the prefix; failing both, any key or file containing the word |
| Keybinds.CompletionReplacesLastWord | scripts/terminal-keybinds.js:219-222 | completing replaces the last word of the trimmed line and keeps everything before it |
| Keybinds.ShowNextCompletion | scripts/terminal-keybinds.js:268-275 | with a list, the index moves to a valid entry and the line becomes that entry; with none, nothing changes |
| Keybinds.Complete | scripts/terminal-keybinds.js:195-254 | Tab changes only the completion state and the line, and keeps the state valid |
| Keybinds.CompleteOn | scripts/terminal-keybinds.js:211-253 | each branch changes only the completion state and the line |
| Keybinds.FirstCompletion | scripts/terminal-keybinds.js:225-248 | the first Tab stores the candidates for the last word; when there are any, the index becomes 0 and the first candidate replaces the last word, and when there are none nothing changes |
| Keybinds.CycleCompletion | scripts/terminal-keybinds.js:249-253 | a later Tab keeps the list, moves one place wrapping round after the last, and puts that entry in place of the last word |
| Keybinds.TabOnEmptyLine | scripts/terminal-keybinds.js:211-216 | Tab on a blank line offers every registry key, hidden ones and aliases included, starting with the first |
| Keybinds.TabFirst | scripts/terminal-keybinds.js:225-248 | the first Tab on a non-blank line stores the candidates for its last word and puts the first in its place, or changes nothing when there are none |
| Keybinds.TabCycles | scripts/terminal-keybinds.js:249-265 | with a list under way, each Tab on a non-blank line moves one place along it, wrapping round |
| Keybinds.Press | scripts/terminal-keybinds.js:41-56 | every key keeps the session and the keybind state valid |
| Keybinds.PressAppendsHistory | scripts/terminal-keybinds.js:41-56 | the line history grows only by the line a plain Enter submits |
| Keybinds.OtherKeysResetCompletion | scripts/terminal-keybinds.js:49-55 | any key that is not Tab, a chord or an arrow drops the completion list and is handled exactly as the terminal alone would |
| Keybinds.TerminalKeybinds.constructor | scripts/terminal-keybinds.js:7-14 | attached to the terminal, not browsing, with no completion list |
| Keybinds.TerminalKeybinds.ShowPreviousCommand | scripts/terminal-keybinds.js:114-130 | the object and the terminal change as `ShowPrevious` says |
| Keybinds.TerminalKeybinds.ShowNextCommand | scripts/terminal-keybinds.js:132-147 | the object and the terminal change as `ShowNext` says |
| Keybinds.TerminalKeybinds.ClearCurrentInput | scripts/terminal-keybinds.js:149-155 | Ctrl+C empties the line and ends history browsing |
| Keybinds.TerminalKeybinds.ClearLineFromStart | scripts/terminal-keybinds.js:177-184 | Ctrl+U empties the whole line |
| Keybinds.TerminalKeybinds.ClearLineToEnd | scripts/terminal-keybinds.js:186-193 | Ctrl+K empties the whole line |
| Keybinds.TerminalKeybinds.HandleControlKeybinds | scripts/terminal-keybinds.js:58-100 | the object and the terminal change as `Control` says |
| Keybinds.TerminalKeybinds.ApplyCompletionAt | scripts/terminal-keybinds.js:256-266 | the line becomes the earlier words, a space and the completion, or the completion alone |
| Keybinds.TerminalKeybinds.ShowNextCompletionOf | scripts/terminal-keybinds.js:268-275 | the object and the terminal change as `ShowNextCompletion` says |
| Keybinds.TerminalKeybinds.HandleTabCompletion | scripts/terminal-keybinds.js:195-254 | the object and the terminal change as `Complete` says |
| Keybinds.TerminalKeybinds.CompleteInput | scripts/terminal-keybinds.js:211-253 | the object and the terminal change as `CompleteOn` says |
| Keybinds.TerminalKeybinds.CycleCompletionOf | scripts/terminal-keybinds.js:249-253 | the object and the terminal change as `CycleCompletion` says |
| Keybinds.TerminalKeybinds.FirstCompletionOf | scripts/terminal-keybinds.js:225-248 | the object and the terminal change as `FirstCompletion` says |
| Keybinds.TerminalKeybinds.HandleKeyPressWithKeybinds | scripts/terminal-keybinds.js:41-56 | the object, the terminal and what is shown are as `Press` says |
| ColorSchemes.Defaults | scripts/config/terminal-colorschemes.js:13-234 | the ten default schemes form a well-formed table that holds `oldschool` |
| ColorSchemes.Load | scripts/config/terminal-colorschemes.js:240-245 | the table and storage are untouched; the name in use changes only to the stored name, and exactly when that is non-empty and names a scheme; a valid selector stays valid |
| ColorSchemes.Select | scripts/config/terminal-colorschemes.js:251-260 | the call succeeds exactly when the name is a scheme of the table; then the name is in use and stored, otherwise nothing changes; the name in use always names a scheme |
| ColorSchemes.SelectIdempotent | scripts/config/terminal-colorschemes.js:251-260 | selecting the same name twice is the same as selecting it once |
| ColorSchemes.SelectedSchemeReloads | scripts/config/terminal-colorschemes.js:236-258 | a selected non-empty name survives a reload: a selector built afresh over the same table adopts it |
| ColorSchemes.Add | scripts/config/terminal-colorschemes.js:304-306 | the name now holds the given scheme, every other name is untouched, earlier names keep their order, and the name in use stays valid |
| ColorSchemes.Summaries | scripts/config/terminal-colorschemes.js:296-302 | one row per scheme; row `i` has the `i`-th key as id, with that scheme's name and description; every scheme listed, none twice |
| ColorSchemes.CurrentOf | scripts/config/terminal-colorschemes.js:308-313 | the scheme in use, with its name as id |
| ColorSchemes.SelectAsWritten | scripts/config/terminal-colorschemes.js:251-272 | as written, a name failing the truthiness test is refused with no change; any other name is made current and stored first; a scheme of the table then answers true, while a prototype name makes `applyScheme` throw, so it never answers true |
| ColorSchemes.LoadAsWritten | scripts/config/terminal-colorschemes.js:240-245 | as written, a non-empty stored name that passes the truthiness test, prototype names included, becomes current; otherwise nothing changes |
| ColorSchemes.SelectAsWrittenStoresPrototypeName | scripts/config/terminal-colorschemes.js:251-272 | as written, `setScheme("constructor")` throws in `applyScheme` after storing the name and making it current, which then names no scheme; a later reload adopts the stored name again, and applying it throws again |
| ColorSchemes.SelectAgreesAwayFromPrototype | scripts/config/terminal-colorschemes.js:251-260 | the own-key lookup gives the same state and answer as the source for every name that is not a prototype name |
| ColorSchemes.LoadAgreesAwayFromPrototype | scripts/config/terminal-colorschemes.js:240-245 | the own-key reload agrees with the source unless storage holds a prototype name |
| ColorSchemes.TerminalColorSchemes.constructor | scripts/config/terminal-colorschemes.js:12-238 | the default table with `oldschool` in use, then the stored name loaded |
| ColorSchemes.TerminalColorSchemes.LoadSchemeFromStorage | scripts/config/terminal-colorschemes.js:240-245 | the object changes as `Load` says |
| ColorSchemes.TerminalColorSchemes.SaveSchemeToStorage | scripts/config/terminal-colorschemes.js:247-249 | storage now holds the name in use |
| ColorSchemes.TerminalColorSchemes.SetScheme | scripts/config/terminal-colorschemes.js:251-260 | the object and the answer are as `Select` says |
| ColorSchemes.TerminalColorSchemes.GetScheme | scripts/config/terminal-colorschemes.js:292-294 | a scheme exactly for the names of the table, the one stored under that name |
| ColorSchemes.TerminalColorSchemes.AddScheme | scripts/config/terminal-colorschemes.js:304-306 | the object changes as `Add` says |
| AnsiColors.Token | scripts/utils/ansi-colors.js:54 | a tag is its name behind `${` and before `}` |
| AnsiColors.ColorRules | scripts/utils/ansi-colors.js:53-56 | one rule per colour, in table order, replacing its tag with a colour span |
| AnsiColors.StyleRules | scripts/utils/ansi-colors.js:59-66 | one rule per style, in table order; `reset` closes a span and every other style opens one |
| AnsiColors.ClosingTags | scripts/utils/ansi-colors.js:71-73 | `k` closing tags take seven characters each |
| AnsiColors.Colorized | scripts/utils/ansi-colors.js:44-47 | a missing, non-string or empty text gives the empty string |
| AnsiColors.ClosingTagsCount | scripts/utils/ansi-colors.js:71-73 | appending `k` closing tags adds `k` to the closing count and leaves the opening count |
| AnsiColors.ColorizedBalanced | scripts/utils/ansi-colors.js:68-75 | however the tags were nested, the output has at least as many closing tags as opening ones |
| AnsiColors.CloseBalances | scripts/utils/ansi-colors.js:69-73 | closing the open spans of any text leaves none open |
| AnsiColors.ReplacePieces | scripts/utils/ansi-colors.js:54-55 | replacing a tag everywhere replaces exactly the pieces that are that tag |
| AnsiColors.ApplyRulesPieces | scripts/utils/ansi-colors.js:53-66 | applying the rules in order resolves each piece of a text on its own: known tags become their replacement and nothing else changes |
| AnsiColors.ResolveTag | scripts/utils/ansi-colors.js:53-66 | a tag becomes its first rule's replacement, or stays a tag |
| AnsiColors.ResolveRun | scripts/utils/ansi-colors.js:53-66 | plain text is never changed |
| AnsiColors.ColorizeTags | scripts/utils/ansi-colors.js:44-75 | a text of tags and runs, where a run may hold `$` as long as no `${` starts in it, comes out with every known colour tag and then every known style tag replaced, unknown tags left, and open spans closed |
| AnsiColors.DollarTextPieces | scripts/utils/ansi-colors.js:44-75 | a text with a stray dollar such as `$5 ${red}x` splits into a run, a tag and a run that `ColorizeTags` covers |
| AnsiColors.ApplyRulesPlain | scripts/utils/ansi-colors.js:53-66 | text without `$` goes through every rule unchanged |
| AnsiColors.UntaggedUnchanged | scripts/utils/ansi-colors.js:44-75 | a text with no tag of either table and no `<span` comes back exactly as it went in |
| AnsiColors.ApplyAbsent | scripts/utils/ansi-colors.js:53-66 | rules whose tags do not occur leave a text unchanged |
| AnsiColors.TaggedAsWritten | scripts/utils/ansi-colors.js:81-111 | as written, a helper's output holds no `$` |
| AnsiColors.HelperTagsPassThrough | scripts/utils/ansi-colors.js:81-83 | as written, `colorize` hands a helper's output back unchanged, so no span is produced |
| AnsiColors.Tagged | scripts/utils/ansi-colors.js:81-111 | as intended, a helper's output starts with its tag and ends with `${reset}` |
| AnsiColors.ResolveHelper | scripts/utils/ansi-colors.js:8-37 | each helper's name resolves, through the two tables, to its colour or style span |
| AnsiColors.ResolveReset | scripts/utils/ansi-colors.js:61-62 | `${reset}` resolves to a closing tag |
| AnsiColors.TaggedSpan | scripts/utils/ansi-colors.js:44-75 | a tagged text whose tags resolve to an opening and a closing tag comes out as one span around the text |
| AnsiColors.HelperTagsBecomeSpans | scripts/utils/ansi-colors.js:81-111 | as intended, `colorize` turns each helper's output into the text inside one span of the helper's colour or style |
| AnsiColors.ANSIColors.constructor | scripts/utils/ansi-colors.js:7-38 | the object holds the colour table and the style table |
| AnsiColors.ANSIColors.Colorize | scripts/utils/ansi-colors.js:44-76 | the output is what `Colorized` gives for the object's tables |
| AnsiColors.ANSIColors.ReplaceColors | scripts/utils/ansi-colors.js:53-56 | the loop applies the colour rules in table order |
| AnsiColors.ANSIColors.ReplaceStyles | scripts/utils/ansi-colors.js:59-66 | the loop applies the style rules in table order |
| AnsiColors.ANSIColors.CloseSpans | scripts/utils/ansi-colors.js:69-73 | the loop appends one closing tag per unclosed opening tag |
| DomInitializer.PriorityOf | scripts/utils/dom-initializer.js:29 | a missing priority is 100; a given one is kept |
| DomInitializer.InsertStable | scripts/utils/dom-initializer.js:35-38 | insertion adds exactly the one entry |
| DomInitializer.SortByPriority | scripts/utils/dom-initializer.js:38 | the sort is a permutation of the list |
| DomInitializer.InsertSorted | scripts/utils/dom-initializer.js:35-38 | inserting into an ordered list keeps it in ascending priority order |
| DomInitializer.InsertKeepsOrder | scripts/utils/dom-initializer.js:35-38 | inserting keeps each priority's entries in order and puts the new one after those of equal priority |
| DomInitializer.SortSorted | scripts/utils/dom-initializer.js:38 | the sorted list is in ascending priority order |
| DomInitializer.SortStable | scripts/utils/dom-initializer.js:38 | the sort is stable: the entries of each priority keep their order |
| DomInitializer.SortIdentity | scripts/utils/dom-initializer.js:38 | an ordered list is left as it is |
| DomInitializer.PushThenSort | scripts/utils/dom-initializer.js:35-38 | pushing onto an ordered list and sorting is one stable insertion |
| DomInitializer.Ids | scripts/utils/dom-initializer.js:50 | one identifier per listed callback, in list order |
| DomInitializer.StartedAppend | scripts/utils/dom-initializer.js:50-56 | the callbacks started over two runs are those of the first followed by those of the second |
| DomInitializer.EveryCallbackStarts | scripts/utils/dom-initializer.js:49-57 | an exception does not stop the loop: every listed callback starts exactly once, in list order |
| DomInitializer.FailureReported | scripts/utils/dom-initializer.js:51-55 | a callback's failure is reported exactly when it throws, and only after it started |
| DomInitializer.RegisterRejects | scripts/utils/dom-initializer.js:30-33 | a non-function registers nothing and runs nothing; only the error is reported |
| DomInitializer.RegisterOrders | scripts/utils/dom-initializer.js:35-38 | registration keeps the list in ascending priority order, adds exactly the one entry with the given or default priority, and places it after every entry of the same priority |
| DomInitializer.RegisterRunsWhenReady | scripts/utils/dom-initializer.js:40-43 | once the document is ready a registered callback runs at once and its exception reaches the caller; before, it only waits |
| DomInitializer.LoadedRunsAll | scripts/utils/dom-initializer.js:17-20 | on load every waiting callback starts once, in priority order, and the queue is ready |
| DomInitializer.DOMInitializer.constructor | scripts/utils/dom-initializer.js:8-22 | an empty list, ready when the document has loaded, nothing run |
| DomInitializer.DOMInitializer.ContentLoaded | scripts/utils/dom-initializer.js:17-20 | the object changes as `Loaded` says |
| DomInitializer.DOMInitializer.OnReady | scripts/utils/dom-initializer.js:29-44 | the object and whether the call threw are as `Register` says, and the list stays in priority order |
| DomInitializer.DOMInitializer.ExecuteCallbacks | scripts/utils/dom-initializer.js:49-57 | the loop runs every listed callback in order, each inside its own `try` |
| JsStrings.ParseIntNatToString | scripts/unix-commands.js:208 | `parseInt` applied to the decimal spelling of a natural number gives that number back |
| JsStrings.ParseUnsignedDecimal | scripts/unix-commands.js:243 | a non-empty run of decimal digits is read as its base-10 value |
| JsStrings.RelativeIndex | scripts/unix-commands.js:254 | a `slice` position is clamped into `[0, len]`; a non-negative one in range is kept and a negative one counts back from the end |
| JsStrings.JoinSplitOn | scripts/unix-commands.js:218-219 | splitting on a non-empty separator and joining on it again returns the original text |
| JsStrings.SplitOnJoin | scripts/unix-commands.js:342 | pieces free of the separator character, joined and split again on it, come back unchanged |
| JsStrings.SplitCharCount | scripts/unix-commands.js:315 | the number of pieces of `split(c)` is one more than the number of occurrences of `c` |
| JsStrings.SplitWsJoin | scripts/core/retro-terminal.js:392 | non-empty words without whitespace, joined by a whitespace run, split on `/\s+/` back into the same words |
| JsStrings.Utf8Length | scripts/unix-commands.js:317 | the byte count of a text lies between its length and four times its length, and equals its length for ASCII text |
| JsStrings.PadEndProperties | scripts/commands/base-commands.js:30 | `padEnd` keeps the text as a prefix, fills only with spaces and reaches the larger of the text's length and the width |
| JsStrings.Trim | scripts/commands/base-commands.js:48 | the trimmed text occurs in the original and neither starts nor ends with whitespace |
| JsStrings.TrimIdempotent | scripts/core/retro-terminal.js:580 | trimming a trimmed text changes nothing |
| JsStrings.TrimLowerCommute | scripts/unix-commands.js:66 | lower-casing then trimming equals trimming then lower-casing |
| JsStrings.LowerIdempotent | scripts/core/retro-terminal.js:540 | lower-casing a lower-cased text changes nothing |
| JsStrings.IndexOf | scripts/unix-commands.js:206-209 | the result is the first position where the pattern occurs, or -1 when it occurs nowhere |
| Ordering.Sort | scripts/unix-commands.js:342 | the result is in ascending order and is a permutation of the input |
| Ordering.SortedUnique | scripts/unix-commands.js:438 | two sorted arrangements of the same multiset of strings are equal, so any correct sort gives the same result |
| Ordering.SortKeepsElements | scripts/unix-commands.js:342 | a string occurs in the sorted list exactly when it occurs in the input |
| OrderedMaps.Put | scripts/core/retro-terminal.js:499 | `set` maps the key to the value; a new key goes last in iteration order and an existing key keeps its place |
| OrderedMaps.Get | scripts/core/retro-terminal.js:512 | `get` finds a value exactly when the key is present, and it is the stored value |
| OrderedMaps.Values | scripts/commands/base-commands.js:22 | `values()` gives one value per key, in insertion order |
| JsStrings.Upper | scripts/commands/base-commands.js:57 | `toUpperCase` keeps the length and maps each character on its own |
| OrderedMaps.Delete | scripts/virtual-filesystem.js:231 | `delete` removes exactly the one key and keeps the order of the rest |
| OrderedMaps.FromEntries | scripts/config/terminal-colorschemes.js:13 | an object literal answers to exactly the keys it lists |

## Left out

- Page parameters: the clock (`date`), browser storage and the handlers that act outside the model are parameters of the model (`Environment.now`, `Disk.saved`, `Environment.external`). The outside handlers are the matrix rain, the settings panel, the CRT tuner and the theme switcher; only their returned outcome is modelled.
- Rendering and audio:
  - DOM rendering of output, images and HTML, and the cursor, scrolling and focus: a command's output is modelled as the value it returns.
  - Audio playback and the boot animation: `bootup` is modelled only as a pending Promise that produces no response line.
- Asynchrony:
  - a handler that returns a Promise is modelled as `Pending`, and its later effects are not modelled;
  - `waitForElement`/`waitForGlobal` are polling with timers and are not part of this model.
- `who` reads the clock and is never registered (below), so it is not modelled.
- The `cd` branch of Tab autocompletion calls a filesystem method `list` that does not exist, so the model leaves the line unchanged there.
- Keybinds:
  - `addCompletions`/`addFileCompletions` push onto fields that are never initialised, so they always throw; they are not modelled.
  - Ctrl+Shift+S opens the settings panel, which is outside the model.
- Registration of `uname` throws a ReferenceError, because its documentation object names `options` outside the handler. `uname`, `who` and `find` are therefore never registered, and `uname` and `find` are modelled as standalone functions only.
- `findFiles` builds a RegExp from user text; it is not part of this model.
- The first `addDirectory` definition in the filesystem class is overridden by the second one; only the effective second definition is modelled.
- The page creates a second filesystem object for the unix commands. The model has one filesystem shared by all handlers, so it does not capture the two copies drifting apart.
- `getCommandResponse` is an unused lookup table and is not modelled.
- Colour schemes:
  - applying a scheme (CSS variables, effect intensities as floating point numbers) is not modelled;
  - a scheme added under `__proto__` is not modelled;
  - a scheme whose data carries its own `id` field, which the spread in `getCurrentScheme` would let through, is not modelled.
- `StorageManager` persistence details (JSON encoding, quota errors) are not modelled: a save always succeeds.
- Characters: one Dafny character stands for one UTF-16 code unit, and case mapping covers ASCII letters only.
- DomInitializer: priorities are integers, so `NaN` and fractional priorities are not modelled. A callback's own effects are not modelled, nor a callback that registers further callbacks while the queue runs.
- ColorSchemes.Load: looks the stored name up among the table's own keys. The source's truthiness test would also accept inherited names such as `constructor`; that test is modelled in `ColorSchemes.LoadAsWritten` and `ColorSchemes.SelectAsWritten`.
- ColorSchemes.TerminalColorSchemes.GetScheme: answers `None` for a name that is not a key of the table. For a prototype name such as `constructor` or `__proto__`, the source returns the inherited value (the `Object` function or `Object.prototype`), which is not a scheme and has no place in the model.
- UnixCommands.RmAll: its own contract gives one message per target and a well-formed disk, not what each message says. Stating the messages there makes the function's own proof too costly, so they are proved about it separately in `UnixCommands.RmAllMessage` and `UnixCommands.RmAllMessages`.
- Filesystem.AddFileTo: a file written under the root key `__proto__` (for instance by `touch __proto__`, or by `cp` or `mv` onto that name) becomes an ordinary key here. In the source the assignment to the plain dictionary object replaces its prototype instead. That file is then never listed, never saved and never deleted by `rm`, and `exists` answers for the new prototype's fields. The same gap reaches `UnixCommands.TouchSpec`, `UnixCommands.CopyFile` and `UnixCommands.MoveFile`.
- Filesystem.VirtualFilesystem.AddFile: carries the `__proto__` gap of `Filesystem.AddFileTo`.
- AnsiColors.ColorizeTags: covers texts whose plain runs never hold a `$` followed by `{` or ending the run. A run such as `${nosuch` or one ending in `$` is not covered, because whether a tag forms there depends on the piece that follows and on the replacement texts.
- JsStrings.Utf8Length: states only bounds on the byte count of `new Blob([text]).size` (exact for ASCII text), because characters are UTF-16 code units here.
- Filesystem.ListDirectory: states that every listed name occurs in the answer rather than the exact two-space join.

## Findings

| source | as written | input that shows it | evidently intended | confidence | as-written member | corrected member |
|---|---|---|---|---|---|---|
| scripts/config/terminal-colorschemes.js:251-260 | `setScheme` checks `this.schemes[name]` for truthiness, which inherited object properties pass | `setScheme("constructor")` stores `constructor` and makes it current, then `applyScheme` throws a TypeError reading `colors.bg`, so the command reports an execution error; every later page load adopts the stored name and applying it throws again | only registered scheme names are accepted, so the current scheme is always a key of the table | not executed | `ColorSchemes.SelectAsWrittenStoresPrototypeName` | `ColorSchemes.Select` |
| scripts/utils/ansi-colors.js:81-111 | the helpers build `'{red}' + text + '{reset}'`, because the template drops the `$` | `red("x")` gives `{red}x{reset}`, which `colorize` leaves unchanged | the helpers emit `${red}` tags, which `colorize` turns into a coloured span | not executed | `AnsiColors.HelperTagsPassThrough` | `AnsiColors.HelperTagsBecomeSpans` |

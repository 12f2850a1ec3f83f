/**
 * The filesystem commands `ls`, `cd`, `cat`, `tree` and `pwd`.  Each reads the
 * filesystem and, for `cd` and `pwd`, the terminal's current directory.  The
 * legacy terminal registers the same `ls`, `cat`, `cd` and `tree` inline, with
 * the same behaviour.
 */
module FileCommands {

  import opened Wrappers
  import opened JsStrings
  import opened Ordering
  import opened OrderedMaps
  import opened Values
  import opened Filesystem

  /** `ls`: the root listing joined by two spaces, whatever the argument and
      the current directory are. */
  function Ls(store: Store): (r: string)
    requires OrderedMaps.Valid(store)
    ensures r == Join(RootListing(store), "  ")
  {
    assert Normalize(".") == "." by {
      assert Normalized(".");
      NormalizedFixed(".");
    }
    ListDirectory(store, ".")
  }

  /** `cat <file>`: a usage line without an argument, otherwise what
      `readFile` gives: the text, the image, or the error naming the file. */
  function Cat(store: Store, args: string): (r: Value)
    ensures args == "" ==> r == Text("Usage: cat <filename>")
    ensures args != "" && GetFile(store, args).None? ==>
      r == Text("cat: " + args + ": No such file or directory")
    ensures args != "" && GetFile(store, args).Some? ==>
      (r.Text? <==> !GetFile(store, args).value.isImage)
    ensures args != "" && GetFile(store, args).Some? && r.Text? ==>
      r.text == GetFile(store, args).value.content
    ensures args != "" && GetFile(store, args).Some? && GetFile(store, args).value.isImage ==>
      r == Image(GetFile(store, args).value.content,
                 if GetFile(store, args).value.alt == "" then args else GetFile(store, args).value.alt)
  {
    if args == "" then Text("Usage: cat <filename>") else ReadFile(store, args)
  }

  /** `pwd`: `~` at the root, the directory key elsewhere. */
  function Pwd(cwd: string): (r: string)
    ensures r == "~" <==> cwd == "." || cwd == "~"
    ensures r != "~" ==> r == cwd
  {
    if cwd == "." then "~" else cwd
  }

  /** What `cd` does to the current directory: move to a directory, or refuse
      with a message and stay. */
  datatype CdResult = Changed(dir: string) | Refused(message: string)

  predicate ResetsToRoot(args: string) {
    args == "" || args == "/" || args == ".."
  }

  /** `cd <dir>`: no argument, `/` and `..` go back to the root; any other
      argument moves to its lowercased, trimmed, `/`-terminated form when
      `getDirectory` knows it, and is refused otherwise. */
  function Cd(store: Store, args: string): (r: CdResult)
    requires OrderedMaps.Valid(store)
    ensures ResetsToRoot(args) ==> r == Changed(".")
    ensures !ResetsToRoot(args) ==>
      (r.Changed? <==> GetDirectory(store, DirectoryKey(args)).Some?)
    ensures !ResetsToRoot(args) && r.Changed? ==> r.dir == DirectoryKey(args)
    ensures r.Refused? ==> r.message == "cd: " + args + ": No such directory"
  {
    if ResetsToRoot(args) then Changed(".")
    else
      var targetDir := Trim(Lower(args));
      LowerThenTrim(args);
      var dirWithSlash := if EndsWith(targetDir, "/") then targetDir else targetDir + "/";
      if GetDirectory(store, dirWithSlash).Some? then Changed(dirWithSlash)
      else Refused("cd: " + args + ": No such directory")
  }

  /** `getDirectory` finds every directory entry through its own key. */
  lemma GetDirectoryOfKey(store: Store, key: string)
    requires OrderedMaps.Valid(store)
    requires key in store.items && store.items[key].Directory? && Normalized(key)
    requires !IsRootPath(key)
    ensures GetDirectory(store, key) == Some(store.items[key].files)
  {
    NormalizedFixed(key);
  }

  /** `cd` succeeds into an existing directory even when its list of names is
      empty: only a missing entry counts as not found. */
  lemma CdIntoEmptyDirectory(store: Store, args: string)
    requires OrderedMaps.Valid(store) && !ResetsToRoot(args)
    requires DirectoryKey(args) in store.items
    requires store.items[DirectoryKey(args)] == Directory([])
    ensures Cd(store, args) == Changed(DirectoryKey(args))
  {
    var key := DirectoryKey(args);
    NormalizedFixed(key);
  }

  /** `cd` to a name that is not a directory key is refused, whatever the
      key holds. */
  lemma CdRefusesFiles(store: Store, args: string)
    requires OrderedMaps.Valid(store) && !ResetsToRoot(args)
    requires !IsRootPath(DirectoryKey(args))
    requires DirectoryKey(args) in store.items && store.items[DirectoryKey(args)].File?
    ensures Cd(store, args) == Refused("cd: " + args + ": No such directory")
  {
    NormalizedFixed(DirectoryKey(args));
  }

  /** One line of `tree` output for the root entry at index `i`. */
  function TreeLine(items: seq<string>, i: nat): string
    requires i < |items|
  {
    (if i == |items| - 1 then "└── " else "├── ") + items[i]
  }

  /** The lines of `tree`: `.` and then one line per root entry. */
  function TreeLines(items: seq<string>): (r: seq<string>)
    ensures |r| == |items| + 1 && r[0] == "."
    ensures forall i :: 0 <= i < |items| ==> r[i + 1] == TreeLine(items, i)
  {
    ["."] + seq(|items|, i requires 0 <= i < |items| => TreeLine(items, i))
  }

  /** `tree`: the root listing's lines, joined. */
  method Tree(store: Store) returns (r: string)
    requires OrderedMaps.Valid(store)
    ensures r == Join(TreeLines(RootListing(store)), "\n")
  {
    RootKeyNormal();
    var items := GetDirectory(store, ".").value;
    var lines := CollectTreeLines(items);
    r := Join(lines, "\n");
  }

  /** `.` is its own lookup key. */
  lemma RootKeyNormal()
    ensures Normalize(".") == "."
  {
    assert Normalized(".");
    NormalizedFixed(".");
  }

  /** Pushes `.` and then, for each root entry in listing order, the entry
      behind its branch marker. */
  method CollectTreeLines(items: seq<string>) returns (lines: seq<string>)
    ensures lines == TreeLines(items)
  {
    lines := ["."];
    var index := 0;
    while index < |items|
      invariant 0 <= index <= |items|
      invariant |lines| == index + 1 && lines[0] == "."
      invariant forall i :: 0 <= i < index ==> lines[i + 1] == TreeLine(items, i)
    {
      var isLast := index == |items| - 1;
      var prefix := if isLast then "└── " else "├── ";
      lines := lines + [prefix + items[index]];
      index := index + 1;
    }
    var spec := TreeLines(items);
    forall i | 0 <= i < |lines| ensures lines[i] == spec[i] {
      if i > 0 {
        assert lines[i] == TreeLine(items, i - 1);
      }
    }
  }

  /** Splitting the `tree` output on newlines gives back its lines, one more
      than there are root entries, as long as no name holds a newline: `.`
      first, the last entry behind `└── ` and every other behind `├── `. */
  lemma TreeOutputLines(items: seq<string>)
    requires forall i :: 0 <= i < |items| ==> '\n' !in items[i]
    ensures SplitOn(Join(TreeLines(items), "\n"), "\n") == TreeLines(items)
    ensures |SplitOn(Join(TreeLines(items), "\n"), "\n")| == |items| + 1
  {
    var lines := TreeLines(items);
    forall i | 0 <= i < |lines| ensures '\n' !in lines[i] {
      if i > 0 {
        var prefix := if i - 1 == |items| - 1 then "└── " else "├── ";
        assert lines[i] == prefix + items[i - 1];
      }
    }
    SplitOnJoin(lines, '\n');
  }
}

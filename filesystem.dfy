/**
 * The terminal's virtual filesystem: a flat dictionary from path strings to
 * entries.  A file entry holds text (or, for an image, its URL); a directory
 * entry lists the names it contains.  Directory keys end in `/`, and the
 * files under a directory are separate keys such as `projects/crt-effects.js`.
 *
 * Lookups are functions of the dictionary; adding, removing and resetting
 * change the dictionary held by a `VirtualFilesystem` object.  The copy kept
 * in browser storage is the field `saved`.
 */
module Filesystem {

  import opened Wrappers
  import opened JsStrings
  import opened Ordering
  import opened OrderedMaps
  import opened Values

  /** A dictionary entry.  `alt` is `""` when the entry has no alt text. */
  datatype Entry =
    | File(content: string, isImage: bool, alt: string)
    | Directory(files: seq<string>)

  type Store = OrderedMap<string, Entry>

  function TextFile(content: string): Entry {
    File(content, false, "")
  }

  /** The seed keys, in their declaration order. */
  function SeedKeys(): (r: seq<string>)
    ensures |r| == 13
  {
    [ "portfolio.txt", "README.md", "contact.info", "skills.dat",
      "projects/", "projects/retro-terminal.js", "projects/crt-effects.js", "projects/terminal-keybinds.js",
      "secrets/", "secrets/hidden.txt", "config.json", "images/", "images/sample.jpg" ]
  }

  /** The seed entry stored under `SeedKeys()[i]`. */
  function SeedEntry(i: nat): Entry
    requires i < 13
  {
    match i
    case 0 => TextFile("Welcome to my retro portfolio!\n\nThis is a fun terminal-style interface.\nUse \"ls\" to explore and \"cat\" to read files.")
    case 1 => TextFile("RETRO TERMINAL\n==============\n\nA nostalgic terminal interface with CRT effects.\nType \"help\" for available commands.")
    case 2 => TextFile("Contact Information\n===================\n\nEmail: guest@lucy.local\nLocation: The Matrix\nStatus: Online")
    case 3 => TextFile("SKILLS DATABASE\n===============\n\nJavaScript - Expert\nHTML/CSS - Expert\nTerminal UI - Enthusiast\nRetro Computing - Fan\nCRT Effects - Specialist")
    case 4 => Directory(["retro-terminal.js", "crt-effects.js", "terminal-keybinds.js"])
    case 5 => TextFile("Main terminal implementation with command registry system.")
    case 6 => TextFile("CRT monitor effects including scanlines, flicker, and sweep animations.")
    case 7 => TextFile("Terminal keybinds including tab completion, history navigation, and control codes.")
    case 8 => Directory(["hidden.txt"])
    case 9 => TextFile("> You found the hidden directory!\n> Here be dragons... or easter eggs.\n> Try \"matrix\" command for a surprise.")
    case 10 => TextFile("{\n  \"theme\": \"retro-green\",\n  \"flicker_intensity\": 0.05,\n  \"sound_enabled\": true,\n  \"animations\": [\"scanlines\", \"sweep\", \"flicker\", \"chroma\"]\n}")
    case 11 => Directory(["sample.jpg"])
    case 12 => File("https://plus.unsplash.com/premium_photo-1752542964592-815e143c42f0?ixlib=rb-4.1.0&ixid=M3wxMjA3fDB8MHxwaG90by1wYWdlfHx8fGVufDB8fHx8fA%3D%3D&auto=format&fit=crop&q=80&w=1740", true, "Sample image")
  }

  lemma SeedKeysDistinct()
    ensures Distinct(SeedKeys())
  {
    var s := SeedKeys();
    forall i, j | 0 <= i < j < |s| ensures s[i] != s[j] {
      assert |s[i]| != |s[j]| || s[i][0] != s[j][0] || s[i][1] != s[j][1] || s[i][|s[i]| - 1] != s[j][|s[j]| - 1];
    }
  }

  /** The seed dictionary. */
  function DefaultStore(): (r: Store)
    ensures OrderedMaps.Valid(r)
    ensures r.keys == SeedKeys()
  {
    var ks := SeedKeys();
    SeedKeysDistinct();
    var items := map i | 0 <= i < 13 :: ks[i] := SeedEntry(i);
    forall k ensures k in items <==> k in ks {
      if k in ks {
        var i :| 0 <= i < |ks| && ks[i] == k;
      }
    }
    OrderedMap(ks, items)
  }

  /** The seed dictionary holds `SeedEntry(i)` under `SeedKeys()[i]`. */
  lemma SeedLookup(i: nat)
    requires i < 13
    ensures SeedKeys()[i] in DefaultStore().items
    ensures DefaultStore().items[SeedKeys()[i]] == SeedEntry(i)
  {
    SeedKeysDistinct();
  }

  /** Names every plain JavaScript object answers to through its prototype
      and that survive lowercasing: `obj[name]` is truthy for them although
      no entry was ever stored under them. */
  const InheritedNames: set<string> := {"constructor", "__proto__"}

  /** A key that lookups can reach: no uppercase letter, no whitespace at
      either end. */
  predicate Normalized(s: string) {
    HasNoUpper(s) && (s == [] || (!IsSpace(s[0]) && !IsSpace(s[|s| - 1])))
  }

  /** `path.trim().toLowerCase()`, the key a lookup uses. */
  function Normalize(path: string): (r: string)
    ensures Normalized(r)
  {
    var t := Trim(path);
    LowerHasNoUpper(t);
    LowerCharSpace(if t == [] then ' ' else t[0]);
    LowerCharSpace(if t == [] then ' ' else t[|t| - 1]);
    Lower(t)
  }

  /** `path.toLowerCase().trim()`, the other order the source writes, is the
      same key. */
  lemma LowerThenTrim(path: string)
    ensures Trim(Lower(path)) == Normalize(path)
  {
    TrimLowerCommute(path);
  }

  /** Normalizing leaves a normalized key alone. */
  lemma NormalizedFixed(s: string)
    requires Normalized(s)
    ensures Normalize(s) == s
  {
    TrimStartOfUnspaced(s);
    TrimEndOfUnspaced(s);
    LowerOfNoUpper(s);
  }

  /** Normalizing is idempotent. */
  lemma NormalizeIdempotent(path: string)
    ensures Normalize(Normalize(path)) == Normalize(path)
  {
    NormalizedFixed(Normalize(path));
  }

  /** A normalized key with `/` appended is still normalized. */
  lemma NormalizedAppendSlash(s: string)
    requires Normalized(s)
    ensures Normalized(s + "/")
  {
    var t := s + "/";
    assert t[|t| - 1] == '/';
    assert forall i :: 0 <= i < |s| ==> t[i] == s[i];
  }

  /** `getFile(path)`: the entry under the normalized path if it is a file. */
  function GetFile(store: Store, path: string): (r: Option<Entry>)
    ensures r.Some? <==> Normalize(path) in store.items && store.items[Normalize(path)].File?
    ensures r.Some? ==> r.value == store.items[Normalize(path)]
  {
    var p := Normalize(path);
    if p in store.items && store.items[p].File? then Some(store.items[p]) else None
  }

  /** Keys shown in the root listing: top-level files and directories. */
  predicate IsRootKey(k: string) {
    !Includes(k, "/") || EndsWith(k, "/")
  }

  function FilterRoot(keys: seq<string>): (r: seq<string>)
    ensures forall k :: k in r <==> k in keys && IsRootKey(k)
  {
    if keys == [] then []
    else if IsRootKey(keys[0]) then [keys[0]] + FilterRoot(keys[1..])
    else FilterRoot(keys[1..])
  }

  /** The root listing: the root keys, sorted. */
  function RootListing(store: Store): (r: seq<string>)
    requires OrderedMaps.Valid(store)
    ensures Sorted(r)
    ensures forall k :: k in r <==> k in store.items && IsRootKey(k)
  {
    var r := Sort(FilterRoot(store.keys));
    forall k ensures k in r <==> k in FilterRoot(store.keys) {
      SortKeepsElements(FilterRoot(store.keys), k);
    }
    r
  }

  predicate IsRootPath(p: string) {
    p == "." || p == "" || p == "/"
  }

  /** `getDirectory(path)`: the root listing for `.`, `` or `/`; the
      `files` list of a directory entry; otherwise `null`. */
  function GetDirectory(store: Store, path: string): (r: Option<seq<string>>)
    requires OrderedMaps.Valid(store)
    ensures IsRootPath(Normalize(path)) ==> r == Some(RootListing(store))
    ensures !IsRootPath(Normalize(path)) ==>
      (r.Some? <==> Normalize(path) in store.items && store.items[Normalize(path)].Directory?)
    ensures !IsRootPath(Normalize(path)) && r.Some? ==> r.value == store.items[Normalize(path)].files
  {
    var p := Normalize(path);
    if IsRootPath(p) then Some(RootListing(store))
    else if p in store.items && store.items[p].Directory? then Some(store.items[p].files)
    else None
  }

  /** `listDirectory(path)`: the listing joined by two spaces, or an error
      naming the path as given. */
  function ListDirectory(store: Store, path: string): (r: string)
    requires OrderedMaps.Valid(store)
    ensures GetDirectory(store, path).None? ==>
      r == "ls: cannot access '" + path + "': No such file or directory"
    ensures GetDirectory(store, path).Some? ==>
      forall i :: 0 <= i < |GetDirectory(store, path).value| ==> IsInfix(GetDirectory(store, path).value[i], r)
  {
    match GetDirectory(store, path)
    case None => "ls: cannot access '" + path + "': No such file or directory"
    case Some(items) =>
      var r := Join(items, "  ");
      forall i | 0 <= i < |items| ensures IsInfix(items[i], r) {
        JoinHasParts(items, "  ", i);
      }
      r
  }

  /** `readFile(path)`: the text of a file, the image object of an image
      file, or an error naming the path as given. */
  function ReadFile(store: Store, path: string): (r: Value)
    ensures r != Null
    ensures GetFile(store, path).None? ==> r == Text("cat: " + path + ": No such file or directory")
    ensures GetFile(store, path).Some? && !GetFile(store, path).value.isImage ==>
      r == Text(GetFile(store, path).value.content)
    ensures GetFile(store, path).Some? && GetFile(store, path).value.isImage ==>
      r.Image? && r.src == GetFile(store, path).value.content
      && r.alt == (if GetFile(store, path).value.alt == "" then path else GetFile(store, path).value.alt)
  {
    match GetFile(store, path)
    case None => Text("cat: " + path + ": No such file or directory")
    case Some(f) =>
      if f.isImage then Image(f.content, if f.alt == "" then path else f.alt)
      else Text(f.content)
  }

  /** `exists(path)`: whether the object answers to the normalized path. */
  predicate Exists(store: Store, path: string) {
    var p := Normalize(path);
    p in store.items || p in InheritedNames
  }

  /** The key `addDirectory` writes: the normalized path ending in `/`. */
  function DirectoryKey(path: string): (r: string)
    ensures EndsWith(r, "/") && Normalized(r)
  {
    var p := Normalize(path);
    if EndsWith(p, "/") then p else NormalizedAppendSlash(p); p + "/"
  }

  lemma ReadmeIsRootKey()
    ensures IsRootKey("README.md")
  {
    CharAbsentNotIncluded("README.md", '/');
  }

  lemma ReadmeListed()
    ensures "README.md" in DefaultStore().items
  {
    var r := DefaultStore();
    assert r.keys[1] == "README.md";
    assert "README.md" in r.keys;
  }

  /** The mixed-case seed key `README.md` is listed at the root but no
      normalized lookup can reach it. */
  lemma ReadmeListedButUnreachable(path: string)
    ensures "README.md" in RootListing(DefaultStore())
    ensures Normalize(path) != "README.md"
  {
    ReadmeIsRootKey();
    ReadmeListed();
    assert !HasNoUpper("README.md") by {
      assert 'A' <= "README.md"[0] <= 'Z';
    }
  }

  /** The dictionary together with its copy in browser storage. */
  datatype Disk = Disk(store: Store, saved: Option<Store>)

  ghost predicate DiskValid(d: Disk) {
    OrderedMaps.Valid(d.store) && (d.saved.Some? ==> OrderedMaps.Valid(d.saved.value))
  }

  /** `addFile(path, content)`: a plain file under the path exactly as given,
      replacing whatever was there, and persisted. */
  function AddFileTo(d: Disk, path: string, content: string): (r: Disk)
    requires DiskValid(d)
    ensures DiskValid(r)
    ensures r.store.items == d.store.items[path := TextFile(content)]
    ensures r.saved == Some(r.store)
  {
    var s := Put(d.store, path, TextFile(content));
    Disk(s, Some(s))
  }

  /** `addDirectory(path)` as finally defined: an empty directory under the
      normalized, `/`-terminated path; nothing is persisted. */
  function AddDirectoryTo(d: Disk, path: string): (r: Disk)
    requires DiskValid(d)
    ensures DiskValid(r)
    ensures r.store.items == d.store.items[DirectoryKey(path) := Directory([])]
    ensures r.saved == d.saved
  {
    Disk(Put(d.store, DirectoryKey(path), Directory([])), d.saved)
  }

  /** After `addDirectory(path)`, `exists` answers for the directory key. */
  lemma AddDirectoryExists(d: Disk, path: string)
    requires DiskValid(d)
    ensures Exists(AddDirectoryTo(d, path).store, DirectoryKey(path))
  {
    NormalizedFixed(DirectoryKey(path));
  }

  /** `removeFile(path)`: when the object answers to the normalized key, the
      key is deleted, file or directory, the result persisted and `true`
      returned; otherwise nothing changes and the answer is `false`. */
  function RemoveFrom(d: Disk, path: string): (r: (Disk, bool))
    requires DiskValid(d)
    ensures DiskValid(r.0)
    ensures r.1 == Exists(d.store, path)
    ensures r.1 ==> r.0.store.items == d.store.items - {Normalize(path)} && r.0.saved == Some(r.0.store)
    ensures !r.1 ==> r.0 == d
  {
    if Exists(d.store, path) then
      var s := Delete(d.store, Normalize(path));
      (Disk(s, Some(s)), true)
    else (d, false)
  }

  /** The browser-side filesystem object. */
  class VirtualFilesystem {
    /** The dictionary the terminal works on. */
    var store: Store
    /** The copy in browser storage, if any was ever written. */
    var saved: Option<Store>

    ghost predicate Valid()
      reads this
    {
      DiskValid(Contents())
    }

    /** The dictionary and its stored copy, as a value. */
    function Contents(): Disk
      reads this
    {
      Disk(store, saved)
    }

    /** Starts from the stored copy when there is one, else from the seed. */
    constructor(stored: Option<Store>)
      requires stored.Some? ==> OrderedMaps.Valid(stored.value)
      ensures Valid()
      ensures store == (if stored.Some? then stored.value else DefaultStore())
      ensures saved == stored
    {
      store := if stored.Some? then stored.value else DefaultStore();
      saved := stored;
    }

    /** `resetToDefaults()`: back to the seed, and persisted. */
    method ResetToDefaults()
      modifies this
      ensures Valid()
      ensures store == DefaultStore() && saved == Some(DefaultStore())
    {
      store := DefaultStore();
      saved := Some(store);
    }

    /** `addFile(path, content)`: a plain file under the path exactly as
      given, replacing whatever was there, and persisted. */
    method AddFile(path: string, content: string)
      requires Valid()
      modifies this
      ensures Valid()
      ensures Contents() == AddFileTo(old(Contents()), path, content)
    {
      store := Put(store, path, TextFile(content));
      saved := Some(store);
    }

    /** `addDirectory(path)` as finally defined: an empty directory under the
      normalized, `/`-terminated path; nothing is persisted. */
    method AddDirectory(path: string)
      requires Valid()
      modifies this
      ensures Valid()
      ensures Contents() == AddDirectoryTo(old(Contents()), path)
    {
      var cleanPath := Trim(Lower(path));
      LowerThenTrim(path);
      var dirPath := if EndsWith(cleanPath, "/") then cleanPath else cleanPath + "/";
      store := Put(store, dirPath, Directory([]));
    }

    /** `removeFile(path)`: deletes the normalized key, file or directory,
      and persists, when the object answers to it. */
    method RemoveFile(path: string) returns (removed: bool)
      requires Valid()
      modifies this
      ensures Valid()
      ensures (Contents(), removed) == RemoveFrom(old(Contents()), path)
    {
      var cleanPath := Trim(Lower(path));
      LowerThenTrim(path);
      if cleanPath in store.items || cleanPath in InheritedNames {
        store := Delete(store, cleanPath);
        saved := Some(store);
        removed := true;
      } else {
        removed := false;
      }
    }
  }

  /** After `addFile`, the path as given holds the new file and every other
      key holds what it held before. */
  lemma AddFileEffect(store: Store, path: string, content: string, k: string)
    requires OrderedMaps.Valid(store)
    ensures Get(Put(store, path, TextFile(content)), k) ==
      (if k == path then Some(TextFile(content)) else Get(store, k))
  {
  }

  /** After `removeFile`, the normalized key is gone, the object no longer
      answers to it unless through its prototype, and other keys keep their
      entries. */
  lemma RemoveFileEffect(store: Store, path: string, k: string)
    requires OrderedMaps.Valid(store)
    ensures !Exists(Delete(store, Normalize(path)), path) || Normalize(path) in InheritedNames
    ensures k != Normalize(path) ==> Get(Delete(store, Normalize(path)), k) == Get(store, k)
  {
    var p := Normalize(path);
    assert Delete(store, p).items == store.items - {p};
  }

  /** A seeded file is only reachable through a path that normalizes to its
      key, so a lookup through a lowercase key finds it. */
  lemma GetFileOfLowerKey(store: Store, key: string)
    requires key in store.items && store.items[key].File? && Normalized(key)
    ensures GetFile(store, key) == Some(store.items[key])
  {
    NormalizedFixed(key);
  }
}

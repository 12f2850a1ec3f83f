/**
 * The colour-scheme selector: the table of named retro themes, the name of
 * the one in use, and the name remembered in the browser's storage under
 * `terminal-colorscheme`.  The selector's promise is that the name in use
 * always names a scheme of the table.
 */
module ColorSchemes {

  import opened Wrappers
  import opened OrderedMaps

  /** The colours a scheme sets as CSS variables (the numeric intensities
      are left out). */
  datatype Palette = Palette(bg: string, fg: string, accent: string, chromaBlue: string, chromaRed: string)

  /** Which CRT effects a scheme switches on. */
  datatype Effects = Effects(scanlines: bool, sweep: bool, flicker: bool, chroma: bool)

  datatype Scheme = Scheme(name: string, description: string, colors: Palette, effects: Effects)

  /** `this.schemes`: scheme names in the order of the object literal. */
  type Schemes = OrderedMap<string, Scheme>

  /** The ten schemes the selector starts with. */
  function Defaults(): (r: Schemes)
    ensures Valid(r) && "oldschool" in r.items
  {
    var entries := [
      ("oldschool", Scheme("Old School", "Classic CRT monitor green",
        Palette("#0c1d12", "#cfe", "#00ff99", "rgba(0,30,255,.5)", "rgba(255,0,80,.3)"),
        Effects(true, true, true, true))),
      ("vibrant", Scheme("Vibrant", "Bright neon cyberpunk style",
        Palette("#0a0e27", "#00ffff", "#ff00ff", "rgba(0,255,255,.2)", "rgba(255,0,255,.15)"),
        Effects(true, true, true, true))),
      ("amber", Scheme("Amber Monochrome", "Classic 1980s amber CRT terminals",
        Palette("#1a0f0a", "#ffb81c", "#ffcc33", "rgba(255,100,0,.1)", "rgba(255,150,0,.1)"),
        Effects(true, true, true, false))),
      ("phosphor-green", Scheme("Phosphor Green", "1970s-80s IBM 3270 phosphor green",
        Palette("#0a0f0a", "#00b050", "#00ff41", "rgba(0,100,0,.05)", "rgba(0,180,0,.05)"),
        Effects(true, true, true, false))),
      ("apple-ii", Scheme("Apple II Green", "1977 Apple II monochrome green",
        Palette("#000000", "#1db91d", "#2dff2d", "rgba(0,150,0,.1)", "rgba(0,200,0,.1)"),
        Effects(true, true, true, false))),
      ("tektronix", Scheme("Tektronix Display", "1980s high-end workstation white",
        Palette("#0a0a0a", "#ffffff", "#e0e0e0", "rgba(100,150,255,.08)", "rgba(200,100,100,.05)"),
        Effects(true, true, false, true))),
      ("monochrome", Scheme("Classic Monochrome", "VT100 Unix terminals - pure black and white",
        Palette("#000000", "#ffffff", "#e0e0e0", "rgba(100,100,100,.05)", "rgba(100,100,100,.05)"),
        Effects(true, false, true, false))),
      ("hacker-green", Scheme("Hacker Neon Green", "1990s Hollywood hacker movie vibe",
        Palette("#001a00", "#39ff14", "#66ff1a", "rgba(0,255,0,.3)", "rgba(50,255,0,.2)"),
        Effects(true, true, true, true))),
      ("cold-blue", Scheme("Cold Blue", "1980s IBM data center mainframe style",
        Palette("#000a2e", "#6dd5ed", "#00ffff", "rgba(100,200,255,.15)", "rgba(50,100,200,.08)"),
        Effects(true, true, true, true))),
      ("sepia", Scheme("Warm Sepia", "Aged vintage paper aesthetic",
        Palette("#1a1410", "#d4a574", "#e8c4a0", "rgba(200,150,100,.1)", "rgba(210,140,80,.12)"),
        Effects(true, true, true, false)))
    ];
    assert entries[0].0 == "oldschool";
    FromEntries(entries)
  }

  /** The selector's state: the table, the name in use and the stored name
      (`None` when storage holds nothing). */
  datatype Selector = Selector(schemes: Schemes, current: string, stored: Option<string>)

  /** The name in use is a key of the table. */
  ghost predicate SelectorValid(st: Selector) {
    Valid(st.schemes) && st.current in st.schemes.items
  }

  /** `loadSchemeFromStorage()`: a stored name is adopted when it is not
      empty and names a scheme; otherwise nothing changes. */
  function Load(st: Selector): (r: Selector)
    ensures r.schemes == st.schemes && r.stored == st.stored
    ensures r.current != st.current ==> st.stored == Some(r.current) && r.current in st.schemes.items
    ensures st.stored.Some? && st.stored.value != "" && st.stored.value in st.schemes.items
            ==> r.current == st.stored.value
    ensures SelectorValid(st) ==> SelectorValid(r)
  {
    if st.stored.Some? && st.stored.value != "" && st.stored.value in st.schemes.items then
      st.(current := st.stored.value)
    else st
  }

  /** `setScheme(name)`: an unknown name is refused and changes nothing; a
      known one becomes the name in use and is written to storage. */
  function Select(st: Selector, name: string): (r: (Selector, bool))
    ensures r.1 <==> name in st.schemes.items
    ensures r.1 ==> r.0 == st.(current := name, stored := Some(name))
    ensures !r.1 ==> r.0 == st
    ensures SelectorValid(st) ==> SelectorValid(r.0)
  {
    if name !in st.schemes.items then (st, false)
    else (st.(current := name, stored := Some(name)), true)
  }

  /** Selecting the same name twice is the same as selecting it once. */
  lemma SelectIdempotent(st: Selector, name: string)
    ensures Select(Select(st, name).0, name) == Select(st, name)
  {
  }

  /** A selected scheme survives a reload: a selector built afresh over the
      same table adopts the name that was stored, unless that name is
      empty (an empty stored value reads as nothing stored). */
  lemma SelectedSchemeReloads(st: Selector, name: string, start: string)
    requires Select(st, name).1 && name != ""
    ensures Load(Selector(st.schemes, start, Select(st, name).0.stored)).current == name
  {
  }

  /** `addScheme(name, data)`: the one key is set (a new name goes last),
      every other key and the name in use are untouched. */
  function Add(st: Selector, name: string, data: Scheme): (r: Selector)
    requires Valid(st.schemes)
    ensures r.current == st.current && r.stored == st.stored
    ensures Get(r.schemes, name) == Some(data)
    ensures forall k :: k != name ==> Get(r.schemes, k) == Get(st.schemes, k)
    ensures |st.schemes.keys| <= |r.schemes.keys| && r.schemes.keys[..|st.schemes.keys|] == st.schemes.keys
    ensures SelectorValid(st) ==> SelectorValid(r)
  {
    st.(schemes := Put(st.schemes, name, data))
  }

  /** One row of `getAllSchemes()`. */
  datatype Summary = Summary(id: string, name: string, description: string)

  /** `getAllSchemes()`: one summary per scheme, in key order, whose id is
      the key; so every scheme is listed, and listed once. */
  function Summaries(m: Schemes): (r: seq<Summary>)
    requires Valid(m)
    ensures |r| == |m.keys|
    ensures forall i :: 0 <= i < |r| ==> r[i].id == m.keys[i]
    ensures forall i :: 0 <= i < |r| ==>
      r[i].id in m.items && r[i].name == m.items[r[i].id].name && r[i].description == m.items[r[i].id].description
    ensures forall k :: k in m.items ==> exists i :: 0 <= i < |r| && r[i].id == k
    ensures forall i, j :: 0 <= i < j < |r| ==> r[i].id != r[j].id
  {
    var r := seq(|m.keys|, i requires 0 <= i < |m.keys| =>
      Summary(m.keys[i], m.items[m.keys[i]].name, m.items[m.keys[i]].description));
    assert forall k :: k in m.items ==> exists i :: 0 <= i < |r| && r[i].id == k by {
      forall k | k in m.items ensures exists i :: 0 <= i < |r| && r[i].id == k {
        var i :| 0 <= i < |m.keys| && m.keys[i] == k;
        assert r[i].id == k;
      }
    }
    r
  }

  /** `getCurrentScheme()`: the scheme in use, with its name as `id`. */
  datatype Current = Current(id: string, scheme: Scheme)

  function CurrentOf(st: Selector): (r: Current)
    requires SelectorValid(st)
    ensures r.id == st.current && Get(st.schemes, r.id) == Some(r.scheme)
  {
    Current(st.current, st.schemes.items[st.current])
  }

  // ---------------------------------------------------------------------
  // The lookup as written

  /** The names a plain object answers through `Object.prototype`, so that
      `this.schemes[name]` is truthy for them although no scheme has that
      name. */
  const PrototypeNames: set<string> := {
    "constructor", "__proto__", "hasOwnProperty", "isPrototypeOf", "propertyIsEnumerable",
    "toLocaleString", "toString", "valueOf",
    "__defineGetter__", "__defineSetter__", "__lookupGetter__", "__lookupSetter__"
  }

  /** The truthiness test the source applies to `this.schemes[name]`. */
  predicate LookupAsWritten(m: Schemes, name: string) {
    name in m.items || name in PrototypeNames
  }

  /** How `setScheme` ends as written: it returns its answer, or the
      `applyScheme` it calls throws (reading `colors.bg` of a value that
      has no `colors`). */
  datatype SetAnswer = Answered(ok: bool) | ThrewInApply

  /** `applyScheme()` as written on the name in use: a scheme of the table
      is applied, a prototype name reaches a value without colours and the
      read of its first colour throws. */
  predicate ApplyThrows(m: Schemes, name: string) {
    name !in m.items && name in PrototypeNames
  }

  /** `setScheme(name)` with the lookup as written: a name that fails the
      truthiness test is refused; any other is made the name in use and
      written to storage, and then `applyScheme` runs, which throws for a
      prototype name, so the call never answers true for one. */
  function SelectAsWritten(st: Selector, name: string): (r: (Selector, SetAnswer))
    ensures !LookupAsWritten(st.schemes, name) ==> r == (st, Answered(false))
    ensures LookupAsWritten(st.schemes, name) ==> r.0 == st.(current := name, stored := Some(name))
    ensures name in st.schemes.items ==> r.1 == Answered(true)
    ensures name !in st.schemes.items && name in PrototypeNames ==> r.1 == ThrewInApply
  {
    if !LookupAsWritten(st.schemes, name) then (st, Answered(false))
    else
      var after := st.(current := name, stored := Some(name));
      (after, if ApplyThrows(after.schemes, name) then ThrewInApply else Answered(true))
  }

  /** `loadSchemeFromStorage()` with the lookup as written: a stored
      prototype name passes the truthiness test too. */
  function LoadAsWritten(st: Selector): (r: Selector)
    ensures st.stored.Some? && st.stored.value != "" && LookupAsWritten(st.schemes, st.stored.value)
            ==> r == st.(current := st.stored.value)
    ensures !(st.stored.Some? && st.stored.value != "" && LookupAsWritten(st.schemes, st.stored.value))
            ==> r == st
  {
    if st.stored.Some? && st.stored.value != "" && LookupAsWritten(st.schemes, st.stored.value) then
      st.(current := st.stored.value)
    else st
  }

  /** As written, `setScheme("constructor")` never answers true: it stores
      the name and makes it the name in use, which then names no scheme,
      and throws in `applyScheme`; every later reload over the same table
      adopts the stored name again, so `applyScheme` meets it again. */
  lemma SelectAsWrittenStoresPrototypeName(st: Selector, start: string)
    requires SelectorValid(st) && "constructor" !in st.schemes.items
    ensures SelectAsWritten(st, "constructor").1 == ThrewInApply
    ensures SelectAsWritten(st, "constructor").0.stored == Some("constructor")
    ensures !SelectorValid(SelectAsWritten(st, "constructor").0)
    ensures var reloaded := LoadAsWritten(Selector(st.schemes, start, SelectAsWritten(st, "constructor").0.stored));
      reloaded.current == "constructor" && ApplyThrows(reloaded.schemes, reloaded.current)
  {
  }

  /** The own-key lookup the model uses agrees with the source on every
      name that is not a prototype name. */
  lemma SelectAgreesAwayFromPrototype(st: Selector, name: string)
    requires name !in PrototypeNames
    ensures SelectAsWritten(st, name) == (Select(st, name).0, Answered(Select(st, name).1))
  {
  }

  /** Likewise for a reload, unless storage holds a prototype name. */
  lemma LoadAgreesAwayFromPrototype(st: Selector)
    requires st.stored.None? || st.stored.value !in PrototypeNames
    ensures LoadAsWritten(st) == Load(st)
  {
  }

  // ---------------------------------------------------------------------
  // The selector object

  class TerminalColorSchemes {
    var schemes: Schemes
    var currentScheme: string
    /** The `terminal-colorscheme` entry of the browser's storage. */
    var stored: Option<string>

    function State(): Selector
      reads this
    {
      Selector(schemes, currentScheme, stored)
    }

    ghost predicate Valid()
      reads this
    {
      SelectorValid(State())
    }

    /** The ten default schemes, "oldschool" in use unless storage names
      another of them. */
    constructor(saved: Option<string>)
      ensures Valid()
      ensures State() == Load(Selector(Defaults(), "oldschool", saved))
    {
      schemes := Defaults();
      currentScheme := "oldschool";
      stored := saved;
      new;
      LoadSchemeFromStorage();
    }

    method LoadSchemeFromStorage()
      modifies this
      ensures State() == Load(old(State()))
    {
      if stored.Some? && stored.value != "" && stored.value in schemes.items {
        currentScheme := stored.value;
      }
    }

    method SaveSchemeToStorage()
      modifies this
      ensures State() == old(State()).(stored := Some(currentScheme))
    {
      stored := Some(currentScheme);
    }

    method SetScheme(schemeName: string) returns (ok: bool)
      requires Valid()
      modifies this
      ensures Valid()
      ensures (State(), ok) == Select(old(State()), schemeName)
    {
      if schemeName !in schemes.items {
        return false;
      }
      currentScheme := schemeName;
      SaveSchemeToStorage();
      return true;
    }

    /** `getScheme(name)`: the scheme, or `None` for a name with none. */
    function GetScheme(schemeName: string): (r: Option<Scheme>)
      reads this
      ensures r.Some? <==> schemeName in schemes.items
      ensures r.Some? ==> r.value == schemes.items[schemeName]
    {
      Get(schemes, schemeName)
    }

    function GetAllSchemes(): (r: seq<Summary>)
      requires Valid()
      reads this
    {
      Summaries(schemes)
    }

    method AddScheme(schemeName: string, schemeData: Scheme)
      requires Valid()
      modifies this
      ensures Valid()
      ensures State() == Add(old(State()), schemeName, schemeData)
    {
      schemes := Put(schemes, schemeName, schemeData);
    }

    function GetCurrentScheme(): (r: Current)
      requires Valid()
      reads this
    {
      CurrentOf(State())
    }
  }
}

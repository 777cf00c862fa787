/**
 * The user settings (app/infrastructure/settings.py): a safe, whitelisted overlay over read-only defaults that is written
 * to a file and read back. The whitelist, sections with their keys, is a parameter, and so are the defaults.
 */
module Settings {
  import opened Wrappers
  import opened Text
  import opened SettingsFile

  type Whitelist = map<string, set<string>>

  // ---------------------------------------------------------------- safe values

  /** The parts of `s.split("+")` that are not blank, stripped and in lower case. */
  function HotkeyParts(s: string): seq<string>
    decreases |s|
  {
    var n := PartLength(s);
    var part := Lower(Strip(s[..n]));
    (if part == "" then [] else [part]) + if n == |s| then [] else HotkeyParts(s[n + 1..])
  }

  function PartLength(s: string): (n: nat)
    ensures n <= |s|
  {
    if s == "" || s[0] == '+' then 0 else 1 + PartLength(s[1..])
  }

  predicate IsControlName(part: string) {
    part == "ctrl" || part == "control" || part == "ctrl_l" || part == "ctrl_r" || part == "<ctrl>"
  }

  /** `_is_reserved_copy_hotkey`, which no text of a number or a Boolean satisfies. */
  predicate IsReservedCopyHotkey(v: Toml) {
    v.Str? &&
    var parts := HotkeyParts(v.text);
    |parts| == 2 && "c" in parts && exists i | 0 <= i < 2 :: IsControlName(parts[i])
  }

  predicate IsHotkey(section: string, key: string) {
    key == "hotkey" && (section == "trigger" || section == "input")
  }

  predicate IsAccepted(section: string, key: string, v: Toml) {
    IsScalar(v) && !(IsHotkey(section, key) && IsReservedCopyHotkey(v))
  }

  function SafeValues(section: string, keys: set<string>, values: map<string, Toml>): map<string, Toml> {
    map k | k in keys && k in values && IsAccepted(section, k, values[k]) :: values[k]
  }

  /** `_safe_user_data`. */
  function Safe(allowed: Whitelist, data: map<string, Toml>): Sections {
    map s | s in allowed && s in data && data[s].Table? && SafeValues(s, allowed[s], data[s].entries) != map[] ::
      SafeValues(s, allowed[s], data[s].entries)
  }

  method SafeUserData(allowed: Whitelist, data: map<string, Toml>) returns (safe: Sections)
    ensures safe == Safe(allowed, data)
  {
    safe := map[];
    var sections := allowed.Keys;
    ghost var done := {};
    while sections != {}
      invariant done + sections == allowed.Keys && done !! sections
      invariant safe == map s | s in Safe(allowed, data) && s in done :: Safe(allowed, data)[s]
    {
      var s :| s in sections;
      if s in data && data[s].Table? {
        var values := SafeSection(s, allowed[s], data[s].entries);
        if values != map[] {
          safe := safe[s := values];
        }
      }
      sections, done := sections - {s}, done + {s};
    }
  }

  method SafeSection(section: string, keys: set<string>, values: map<string, Toml>) returns (safe: map<string, Toml>)
    ensures safe == SafeValues(section, keys, values)
  {
    safe := map[];
    var rest := keys;
    while rest != {}
      invariant rest <= keys
      invariant safe == SafeValues(section, keys - rest, values)
    {
      var k :| k in rest;
      assert keys - (rest - {k}) == (keys - rest) + {k};
      if k in values && IsAccepted(section, k, values[k]) {
        safe := safe[k := values[k]];
      }
      rest := rest - {k};
    }
    assert keys - rest == keys;
  }

  // ---------------------------------------------------------------- merging

  /** `_deep_merge` of two values under one key: tables are merged, anything else is replaced. */
  function DeepMerge(base: Toml, override: Toml): Toml
    decreases override
  {
    if base.Table? && override.Table? then
      Table(map k | k in base.entries.Keys + override.entries.Keys ::
              if k in base.entries && k in override.entries then DeepMerge(base.entries[k], override.entries[k])
              else if k in override.entries then override.entries[k]
              else base.entries[k])
    else override
  }

  function Merged(base: map<string, Toml>, override: map<string, Toml>): map<string, Toml> {
    DeepMerge(Table(base), Table(override)).entries
  }

  /** The merged value under a key. */
  lemma {:induction false} MergedEntry(base: Toml, override: Toml, k: string)
    requires base.Table? && override.Table?
    ensures var whole := DeepMerge(base, override).entries;
            && (k in whole <==> k in base.entries || k in override.entries)
            && (k in whole ==>
                  whole[k] == if k in base.entries && k in override.entries && base.entries[k].Table?
                                 && override.entries[k].Table?
                              then DeepMerge(base.entries[k], override.entries[k])
                              else if k in override.entries then override.entries[k] else base.entries[k])
  {
    if k in base.entries && k in override.entries && !(base.entries[k].Table? && override.entries[k].Table?) {
      assert DeepMerge(base.entries[k], override.entries[k]) == override.entries[k];
    }
  }

  method MergeTables(base: Toml, override: Toml) returns (r: Toml)
    requires base.Table? && override.Table?
    ensures r == DeepMerge(base, override)
    decreases override
  {
    var result := base.entries;
    var rest := override.entries.Keys;
    ghost var whole := DeepMerge(base, override).entries;
    while rest != {}
      invariant rest <= override.entries.Keys
      invariant result == map k | k in whole && (k in base.entries || k !in rest) ::
                            if k in rest then base.entries[k] else whole[k]
    {
      var k :| k in rest;
      MergedEntry(base, override, k);
      var v := override.entries[k];
      if k in result && result[k].Table? && v.Table? {
        v := MergeTables(result[k], v);
      }
      result := result[k := v];
      rest := rest - {k};
    }
    r := Table(result);
  }

  function AsTables(u: Sections): map<string, Toml> {
    map s | s in u :: Table(u[s])
  }

  /** What the user file holds, or nothing if it is missing or malformed. */
  function Loaded(file: Option<string>): map<string, Toml> {
    if file.Some? && Parse(file.value).Some? then AsTables(Parse(file.value).value) else map[]
  }

  function Saved(allowed: Whitelist, user: Sections, values: map<string, Toml>): Sections {
    Safe(allowed, Merged(AsTables(user), AsTables(Safe(allowed, values))))
  }

  predicate UsesLegacyOpacity(user: Sections) {
    "overlay" in user && "background_opacity" !in user["overlay"] && "opacity" in user["overlay"]
  }

  /** `_apply_legacy_overlay_opacity`. */
  function WithLegacyOpacity(data: map<string, Toml>, user: Sections): map<string, Toml> {
    if UsesLegacyOpacity(user) && "overlay" in data && data["overlay"].Table?
    then data["overlay" := Table(data["overlay"].entries["background_opacity" := user["overlay"]["opacity"]])]
    else data
  }

  function Effective(defaults: map<string, Toml>, user: Sections): map<string, Toml> {
    WithLegacyOpacity(Merged(defaults, AsTables(user)), user)
  }

  // ---------------------------------------------------------------- the manager

  ghost predicate BareNames(allowed: Whitelist) {
    forall s | s in allowed :: IsName(s) && forall k | k in allowed[s] :: IsName(k)
  }

  predicate Printable(values: map<string, Toml>) {
    values != map[] && forall k | k in values :: IsName(k) && IsScalar(values[k])
  }

  predicate AllPrintable(u: Sections) {
    forall s | s in u :: IsName(s) && Printable(u[s])
  }

  lemma {:induction false} SafeIsPrintable(allowed: Whitelist, data: map<string, Toml>)
    requires BareNames(allowed)
    ensures AllPrintable(Safe(allowed, data))
  {
  }

  /** Lists a table in some order. */
  method ListPairs(values: map<string, Toml>) returns (pairs: Pairs)
    requires forall k | k in values :: IsName(k) && IsScalar(values[k])
    ensures IsPairs(pairs) && MapOf(pairs) == values
  {
    pairs := [];
    var rest := values.Keys;
    while rest != {}
      invariant rest <= values.Keys && IsPairs(pairs)
      invariant MapOf(pairs) == map k | k in values && k !in rest :: values[k]
    {
      var k :| k in rest;
      assert ([(k, values[k])] + pairs)[1..] == pairs;
      pairs := [(k, values[k])] + pairs;
      rest := rest - {k};
    }
  }

  /** The sections that are not among `rest`. */
  function Without(u: Sections, rest: set<string>): Sections {
    map s | s in u && s !in rest :: u[s]
  }

  lemma {:induction false} WithoutOneLess(u: Sections, rest: set<string>, s: string)
    requires s in rest && s in u
    ensures Without(u, rest - {s}) == Without(u, rest)[s := u[s]] && s !in Without(u, rest)
  {
  }

  lemma {:induction false} ListedFirst(s: string, pairs: Pairs, l: Listing)
    requires IsName(s) && IsPairs(pairs) && MapOf(pairs) != map[] && IsListing(l) && s !in SectionsOf(l)
    ensures IsListing([(s, pairs)] + l) && SectionsOf([(s, pairs)] + l) == SectionsOf(l)[s := MapOf(pairs)]
  {
    assert ([(s, pairs)] + l)[1..] == l;
  }

  method ListSections(u: Sections) returns (l: Listing)
    requires AllPrintable(u)
    ensures IsListing(l) && SectionsOf(l) == u
  {
    l := [];
    var rest := u.Keys;
    while rest != {}
      invariant rest <= u.Keys && IsListing(l)
      invariant SectionsOf(l) == Without(u, rest)
    {
      var s :| s in rest;
      var pairs := ListPairs(u[s]);
      ListedFirst(s, pairs, l);
      WithoutOneLess(u, rest, s);
      l := [(s, pairs)] + l;
      rest := rest - {s};
    }
  }

  class SettingsManager {
    const allowed: Whitelist
    const defaults: map<string, Toml>
    var userFile: Option<string>
    var userData: Sections
    var data: map<string, Toml>

    constructor (allowed: Whitelist, defaults: map<string, Toml>, userFile: Option<string>)
      ensures this.allowed == allowed && this.defaults == defaults && this.userFile == userFile
      ensures userData == Safe(allowed, Loaded(userFile)) && data == Effective(defaults, userData)
    {
      this.allowed, this.defaults, this.userFile := allowed, defaults, userFile;
      new;
      Reload();
    }

    method Reload()
      modifies this`userData, this`data
      ensures userData == Safe(allowed, Loaded(userFile)) && data == Effective(defaults, userData)
    {
      userData := SafeUserData(allowed, Loaded(userFile));
      Merge();
    }

    method Merge()
      modifies this`data
      ensures data == Effective(defaults, userData)
    {
      var merged := MergeTables(Table(defaults), Table(AsTables(userData)));
      data := WithLegacyOpacity(merged.entries, userData);
    }

    /** A save that cannot write raises after it has changed the user data; file and effective data stay. */
    method Save(values: map<string, Toml>, writeFails: bool) returns (raised: bool, ghost l: Listing)
      requires BareNames(allowed)
      modifies this
      ensures raised == writeFails && userData == Saved(allowed, old(userData), values)
      ensures raised ==> userFile == old(userFile) && data == old(data)
      ensures !raised ==>
                && IsListing(l) && ScalarListing(l) && SectionsOf(l) == userData && userFile == Some(Dump(l))
                && data == Effective(defaults, userData)
    {
      var update := SafeUserData(allowed, values);
      var merged := MergeTables(Table(AsTables(userData)), Table(AsTables(update)));
      userData := SafeUserData(allowed, merged.entries);
      l := [];
      if writeFails {
        return true, l;
      }
      SafeIsPrintable(allowed, merged.entries);
      var listing := ListSections(userData);
      ListingIsScalar(listing);
      var text := PrintText(listing);
      userFile, l := Some(text), listing;
      Merge();
      raised := false;
    }
  }

  // ---------------------------------------------------------------- saving and reading back

  predicate CleanValues(values: map<string, Toml>) {
    forall k | k in values :: IsClean(values[k])
  }

  predicate CleanSections(u: Sections) {
    forall s | s in u :: CleanValues(u[s])
  }

  lemma {:induction false} CleanPairsAre(pairs: Pairs)
    requires IsPairs(pairs)
    ensures CleanPairs(pairs) <==> CleanValues(MapOf(pairs))
  {
    if pairs != [] {
      CleanPairsAre(pairs[1..]);
      assert MapOf(pairs)[pairs[0].0] == pairs[0].1;
      assert forall k | k in MapOf(pairs[1..]) :: MapOf(pairs)[k] == MapOf(pairs[1..])[k];
    }
  }

  lemma {:induction false} CleanListingIs(l: Listing)
    requires IsListing(l)
    ensures CleanListing(l) <==> CleanSections(SectionsOf(l))
  {
    if l != [] {
      CleanPairsAre(l[0].1);
      CleanListingIs(l[1..]);
      assert SectionsOf(l)[l[0].0] == MapOf(l[0].1);
      assert forall s | s in SectionsOf(l[1..]) :: SectionsOf(l)[s] == SectionsOf(l[1..])[s];
    }
  }

  /** Safe data is whitelisted, scalar, without empty sections and without a reserved hotkey. */
  ghost predicate IsSafe(allowed: Whitelist, u: Sections) {
    forall s | s in u :: s in allowed && u[s] != map[] && forall k | k in u[s] :: k in allowed[s] && IsAccepted(s, k, u[s][k])
  }

  lemma {:induction false} SafeIsSafe(allowed: Whitelist, data: map<string, Toml>)
    ensures IsSafe(allowed, Safe(allowed, data))
  {
  }

  /** Filtering keeps exactly the data that is safe. */
  lemma {:induction false} SafeKeeps(allowed: Whitelist, u: Sections)
    ensures Safe(allowed, AsTables(u)) == u <==> IsSafe(allowed, u)
  {
    if IsSafe(allowed, u) {
      forall s | s in u
        ensures SafeValues(s, allowed[s], u[s]) == u[s]
      {
      }
    } else {
      SafeIsSafe(allowed, AsTables(u));
    }
  }

  /**
   * After a save, a reload finds the user data that was saved exactly if no saved string has U+007F; otherwise it finds
   * none, since the file is malformed.
   */
  lemma {:induction false} SaveThenReload(allowed: Whitelist, user: Sections, values: map<string, Toml>, l: Listing)
    requires IsListing(l) && ScalarListing(l) && SectionsOf(l) == Saved(allowed, user, values)
    ensures Safe(allowed, Loaded(Some(Dump(l))))
            == if CleanSections(Saved(allowed, user, values)) then Saved(allowed, user, values) else map[]
    ensures Safe(allowed, Loaded(Some(Dump(l)))) == Saved(allowed, user, values)
            <==> CleanSections(Saved(allowed, user, values))
  {
    var saved := Saved(allowed, user, values);
    PrintedIsRead(l);
    CleanListingIs(l);
    SafeIsSafe(allowed, Merged(AsTables(user), AsTables(Safe(allowed, values))));
    SafeKeeps(allowed, saved);
    if !CleanSections(saved) {
      assert Safe(allowed, map[]) == map[] && saved != map[];
    }
  }

  // ---------------------------------------------------------------- what a save changes, and what is in effect

  function Lookup(u: Sections, s: string, k: string): Option<Toml> {
    if s in u && k in u[s] then Some(u[s][k]) else None
  }

  /** After a save each key has the value of the update, if that is safe, and the old value otherwise. */
  lemma {:induction false} SaveIsUpdate(allowed: Whitelist, user: Sections, values: map<string, Toml>, s: string, k: string)
    requires IsSafe(allowed, user)
    ensures var update := Lookup(Safe(allowed, values), s, k);
            Lookup(Saved(allowed, user, values), s, k) == if update.Some? then update else Lookup(user, s, k)
    ensures IsSafe(allowed, Saved(allowed, user, values))
  {
    SafeIsSafe(allowed, values);
    SafeIsSafe(allowed, Merged(AsTables(user), AsTables(Safe(allowed, values))));
    SafeMerge(allowed, user, Safe(allowed, values), s);
  }

  function Joined(user: Sections, update: Sections, s: string): map<string, Toml>
    requires s in user || s in update
  {
    if s in user && s in update then user[s] + update[s] else if s in update then update[s] else user[s]
  }

  /** Filtering a merge of safe data removes nothing. */
  lemma {:induction false} SafeMerge(allowed: Whitelist, user: Sections, update: Sections, s: string)
    requires IsSafe(allowed, user) && IsSafe(allowed, update)
    ensures var safe := Safe(allowed, Merged(AsTables(user), AsTables(update)));
            && (s in safe <==> s in user || s in update)
            && (s in safe ==> safe[s] == Joined(user, update, s))
  {
    SafeSectionOf(allowed, Merged(AsTables(user), AsTables(update)), s);
    if s in user || s in update {
      MergedSections(allowed, user, update, s);
      MergedIsAccepted(allowed, user, update, s, Joined(user, update, s));
      AllAccepted(s, allowed[s], Joined(user, update, s));
    } else {
      MergedSection(AsTables(user), AsTables(update), s);
    }
  }

  lemma {:induction false} AllAccepted(s: string, keys: set<string>, values: map<string, Toml>)
    requires forall k | k in values :: k in keys && IsAccepted(s, k, values[k])
    ensures SafeValues(s, keys, values) == values
  {
  }

  lemma {:induction false} MergedSections(allowed: Whitelist, user: Sections, update: Sections, s: string)
    requires IsSafe(allowed, update) && (s in user || s in update)
    ensures var merged := Merged(AsTables(user), AsTables(update));
            s in merged && merged[s] == Table(Joined(user, update, s))
  {
    if s in update {
      assert Flat(AsTables(update)[s]);
    }
    MergedSection(AsTables(user), AsTables(update), s);
  }

  lemma {:induction false} MergedIsAccepted(allowed: Whitelist, user: Sections, update: Sections, s: string,
                                            entries: map<string, Toml>)
    requires IsSafe(allowed, user) && IsSafe(allowed, update) && (s in user || s in update)
    requires entries == Joined(user, update, s)
    ensures s in allowed && entries != map[] && forall k | k in entries :: k in allowed[s] && IsAccepted(s, k, entries[k])
  {
    var x := if s in update then update[s] else user[s];
    assert x != map[] && x.Keys <= entries.Keys;
    assert x.Keys != {};
  }

  lemma {:induction false} SafeSectionOf(allowed: Whitelist, data: map<string, Toml>, s: string)
    ensures s in Safe(allowed, data) <==>
              s in allowed && s in data && data[s].Table? && SafeValues(s, allowed[s], data[s].entries) != map[]
    ensures s in Safe(allowed, data) ==> Safe(allowed, data)[s] == SafeValues(s, allowed[s], data[s].entries)
  {
  }

  /** Values of tables whose entries are no tables. */
  predicate Flat(t: Toml) {
    t.Table? && forall k | k in t.entries :: !t.entries[k].Table?
  }

  /** Merging flat tables adds or replaces their entries. */
  lemma {:induction false} MergedSection(base: map<string, Toml>, override: map<string, Toml>, s: string)
    requires s in override ==> Flat(override[s])
    ensures s in Merged(base, override) <==> s in base || s in override
    ensures s in override && s in base && base[s].Table? ==>
              Merged(base, override)[s] == Table(base[s].entries + override[s].entries)
    ensures s in override && !(s in base && base[s].Table?) ==> Merged(base, override)[s] == override[s]
    ensures s !in override && s in base ==> Merged(base, override)[s] == base[s]
  {
    MergedEntry(Table(base), Table(override), s);
    if s in override && s in base && base[s].Table? {
      MergedFlat(base[s], override[s]);
    }
  }

  lemma {:induction false} MergedFlat(base: Toml, override: Toml)
    requires base.Table? && Flat(override)
    ensures DeepMerge(base, override) == Table(base.entries + override.entries)
  {
    var r := DeepMerge(base, override).entries;
    forall k
      ensures k in r <==> k in base.entries + override.entries
      ensures k in r ==> r[k] == (base.entries + override.entries)[k]
    {
      MergedEntry(base, override, k);
    }
  }

  /** The effective value under a key of a section. */
  function InEffect(data: map<string, Toml>, s: string, k: string): Option<Toml> {
    if s in data && data[s].Table? && k in data[s].entries then Some(data[s].entries[k]) else None
  }

  /** A user's setting is in effect, a default where there is none; an old opacity stands for the background's. */
  lemma {:induction false} UserSettingsAreInEffect(allowed: Whitelist, defaults: map<string, Toml>, user: Sections, s: string,
                                                   k: string)
    requires IsSafe(allowed, user)
    ensures InEffect(Effective(defaults, user), s, k)
            == if Lookup(user, s, k).Some? then Lookup(user, s, k)
               else if UsesLegacyOpacity(user) && s == "overlay" && k == "background_opacity"
               then Lookup(user, "overlay", "opacity")
               else InEffect(defaults, s, k)
  {
    MergedInEffect(allowed, defaults, user, s, k);
    if UsesLegacyOpacity(user) {
      MergedInEffect(allowed, defaults, user, "overlay", "opacity");
    }
  }

  lemma {:induction false} MergedInEffect(allowed: Whitelist, defaults: map<string, Toml>, user: Sections, s: string, k: string)
    requires IsSafe(allowed, user)
    ensures InEffect(Merged(defaults, AsTables(user)), s, k)
            == if Lookup(user, s, k).Some? then Lookup(user, s, k) else InEffect(defaults, s, k)
    ensures s in user ==> s in Merged(defaults, AsTables(user)) && Merged(defaults, AsTables(user))[s].Table?
  {
    if s in user {
      assert Flat(AsTables(user)[s]);
    }
    MergedSection(defaults, AsTables(user), s);
  }

  // ---------------------------------------------------------------- the spellings of Ctrl+C

  predicate IsPiece(piece: string) {
    forall i | 0 <= i < |piece| :: piece[i] != '+'
  }

  predicate ArePieces(pieces: seq<string>) {
    pieces != [] && forall i | 0 <= i < |pieces| :: IsPiece(pieces[i])
  }

  /** The key that a piece between two plus signs names: in lower case, without the white space around it. */
  function KeyName(piece: string): string {
    Lower(Strip(piece))
  }

  function KeyNames(pieces: seq<string>): seq<string> {
    if pieces == [] then [] else (if KeyName(pieces[0]) == "" then [] else [KeyName(pieces[0])]) + KeyNames(pieces[1..])
  }

  /** Two keys between plus signs, in either order: the letter c, and a control key; nothing but white space otherwise. */
  ghost predicate SpellsCopy(text: string) {
    exists pieces | ArePieces(pieces) && Join("+", pieces) == text ::
      exists k | k in {"ctrl", "control", "ctrl_l", "ctrl_r", "<ctrl>"} ::
        KeyNames(pieces) == [k, "c"] || KeyNames(pieces) == ["c", k]
  }

  lemma {:induction false} PieceEnds(piece: string, rest: string)
    requires IsPiece(piece) && (rest == "" || rest[0] == '+')
    ensures PartLength(piece + rest) == |piece|
  {
    if piece == "" {
      assert piece + rest == rest;
    } else {
      assert (piece + rest)[1..] == piece[1..] + rest && piece[0] != '+';
      PieceEnds(piece[1..], rest);
    }
  }

  lemma {:induction false} PartsOfJoin(pieces: seq<string>)
    requires ArePieces(pieces)
    ensures HotkeyParts(Join("+", pieces)) == KeyNames(pieces)
  {
    var first, rest := pieces[0], pieces[1..];
    if rest == [] {
      assert Join("+", pieces) == first && first + "" == first && first[..|first|] == first;
      PieceEnds(first, "");
      assert KeyNames(rest) == [];
    } else {
      var joined := Join("+", rest);
      var text := first + "+" + joined;
      assert Join("+", pieces) == text && text == first + ("+" + joined);
      PieceEnds(first, "+" + joined);
      PartsOfJoin(rest);
      assert text[..|first|] == first && text[|first| + 1..] == joined;
    }
  }

  function Pieces(text: string): (pieces: seq<string>)
    ensures pieces != []
    decreases |text|
  {
    var n := PartLength(text);
    [text[..n]] + if n == |text| then [] else Pieces(text[n + 1..])
  }

  lemma {:induction false} FirstPiece(text: string)
    ensures IsPiece(text[..PartLength(text)])
    ensures PartLength(text) < |text| ==> text[PartLength(text)] == '+'
  {
    if text != "" && text[0] != '+' {
      FirstPiece(text[1..]);
      assert text[..PartLength(text)] == [text[0]] + text[1..][..PartLength(text[1..])];
    }
  }

  lemma {:induction false} PiecesJoin(text: string)
    ensures ArePieces(Pieces(text)) && Join("+", Pieces(text)) == text
    decreases |text|
  {
    var n := PartLength(text);
    FirstPiece(text);
    if n == |text| {
      assert Pieces(text) == [text[..n]] && text[..n] == text;
    } else {
      var rest := Pieces(text[n + 1..]);
      PiecesJoin(text[n + 1..]);
      assert Pieces(text) == [text[..n]] + rest && ([text[..n]] + rest)[1..] == rest;
      assert text == text[..n] + "+" + text[n + 1..];
    }
  }

  /** A text is reserved exactly if it spells Ctrl+C. */
  lemma {:induction false} ReservedSpellsCopy(text: string)
    ensures IsReservedCopyHotkey(Str(text)) <==> SpellsCopy(text)
  {
    var parts := HotkeyParts(text);
    if SpellsCopy(text) {
      var pieces :| ArePieces(pieces) && Join("+", pieces) == text
                    && exists k | k in {"ctrl", "control", "ctrl_l", "ctrl_r", "<ctrl>"} ::
                         KeyNames(pieces) == [k, "c"] || KeyNames(pieces) == ["c", k];
      PartsOfJoin(pieces);
      var k :| k in {"ctrl", "control", "ctrl_l", "ctrl_r", "<ctrl>"} && (parts == [k, "c"] || parts == ["c", k]);
      assert IsControlName(k) && (parts[0] == k || parts[1] == k);
    }
    if IsReservedCopyHotkey(Str(text)) {
      PiecesJoin(text);
      PartsOfJoin(Pieces(text));
      TwoParts(parts);
    }
  }

  lemma {:induction false} TwoParts(parts: seq<string>)
    requires |parts| == 2 && "c" in parts && exists i | 0 <= i < 2 :: IsControlName(parts[i])
    ensures exists k | k in {"ctrl", "control", "ctrl_l", "ctrl_r", "<ctrl>"} :: parts == [k, "c"] || parts == ["c", k]
  {
    var i :| 0 <= i < 2 && IsControlName(parts[i]);
    assert parts[i] != "c" && parts[i] in {"ctrl", "control", "ctrl_l", "ctrl_r", "<ctrl>"};
    assert parts == [parts[0], parts[1]];
  }

  /** No saved hotkey takes Ctrl+C, however it is spelled, from the program in front. */
  lemma {:induction false} CopyStaysFree(allowed: Whitelist, user: Sections, values: map<string, Toml>, s: string)
    requires s == "trigger" || s == "input"
    ensures var v := Lookup(Saved(allowed, user, values), s, "hotkey");
            v.Some? && v.value.Str? ==> !SpellsCopy(v.value.text)
  {
    SafeIsSafe(allowed, Merged(AsTables(user), AsTables(Safe(allowed, values))));
    var v := Lookup(Saved(allowed, user, values), s, "hotkey");
    if v.Some? && v.value.Str? {
      ReservedSpellsCopy(v.value.text);
    }
  }
}

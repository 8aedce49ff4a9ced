/**
  Staging of the theme files in the temporary directory, as a fill-then-override
  over a map from file name to content: first one placeholder per known theme
  (the packaged `<theme>.empty.xtf`, renamed), then one file per configured
  key, fetched from a URL or copied from a local path and replacing whatever
  the directory already holds under that name.
 */
module Staging {
  import opened Outcomes
  import opened JavaStrings

  type Bytes = seq<bv8>

  /** The temporary directory: file name to content. */
  type Dir = map<string, Bytes>

  /** The class-path resources packaged with the program: name to content. */
  type Store = map<string, Bytes>

  /** What can abort staging. */
  datatype StageError =
    | ResourceMissing(resource: string)
    | SourceUnavailable(key: string, url: string)
    | SourceNotFound(key: string, path: string)

  /** What the network (URL to body) and the local file system (path to
      content) can deliver; a location missing from its map cannot be read. */
  datatype Sources = Sources(web: map<string, Bytes>, disk: map<string, Bytes>)

  /** The packaged placeholder document of a theme. */
  function EmptyName(theme: string): string {
    theme + ".empty.xtf"
  }

  /** The name the seed pass gives a theme's placeholder: every `empty` in
      the resource name replaced by the survey number. */
  function SeedName(theme: string, fosnr: string): string {
    Replace(EmptyName(theme), "empty", fosnr)
  }

  /** The name the override pass gives a configured key's file. */
  function StagedName(key: string, fosnr: string): string {
    key + "." + fosnr + ".xtf"
  }

  /** A theme name in which no `empty` can be matched: it has no `y`. */
  predicate IsPlainTheme(theme: string) {
    'y' !in theme
  }

  predicate AllPlain(themes: seq<string>) {
    forall m :: m in themes ==> IsPlainTheme(m)
  }

  /** For a plain theme the placeholder lands exactly where the override
      pass writes the theme's configured file. */
  lemma SeedNameOfPlainTheme(theme: string, fosnr: string)
    requires IsPlainTheme(theme)
    ensures SeedName(theme, fosnr) == StagedName(theme, fosnr)
  {
    var s := EmptyName(theme);
    var n := |theme|;
    EmptyFoundAfterPlainTheme(theme);
    assert s[n + 6..] == ".xtf" by {
      assert s[n..] == ".empty.xtf";
      assert s[n + 6..] == s[n..][6..];
    }
    assert IndexOf(".xtf", "empty") == None;
    assert Replace(".xtf", "empty", fosnr) == ".xtf";
    assert s[..n + 1] == theme + ".";
    calc {
      SeedName(theme, fosnr);
      Replace(s, "empty", fosnr);
      s[..n + 1] + fosnr + Replace(s[n + 6..], "empty", fosnr);
      theme + "." + fosnr + ".xtf";
    }
  }

  /** In `<theme>.empty.xtf` of a plain theme the first `empty` is the one
      after the dot. */
  lemma EmptyFoundAfterPlainTheme(theme: string)
    requires IsPlainTheme(theme)
    ensures IndexOf(EmptyName(theme), "empty") == Some(|theme| + 1)
  {
    var s := EmptyName(theme);
    var n := |theme|;
    assert s[n..] == ".empty.xtf";
    assert OccursAt(s, "empty", n + 1) by {
      assert s[n + 1..n + 6] == s[n..][1..6];
    }
    forall j: nat | j <= n
      ensures !OccursAt(s, "empty", j)
    {
      if j + 4 < n {
        assert s[j + 4] == theme[j + 4];
      } else {
        assert s[j + 4] == s[n..][j + 4 - n];
      }
      assert s[j + 4] != 'y';
    }
    LeftmostIsIndexOf(s, "empty", n + 1);
  }

  /** Distinct keys are staged under distinct names. */
  lemma StagedNameInjective(k1: string, k2: string, fosnr: string)
    requires StagedName(k1, fosnr) == StagedName(k2, fosnr)
    ensures k1 == k2
  {
    assert |k1| == |k2|;
    assert k1 == StagedName(k1, fosnr)[..|k1|];
    assert k2 == StagedName(k2, fosnr)[..|k2|];
  }

  /** The keys a sequence lists. */
  function Listed(keys: seq<string>): set<string> {
    set k | k in keys
  }

  /** The file names a set of keys is staged under. */
  function StagedNames(keys: set<string>, fosnr: string): set<string> {
    set k | k in keys :: StagedName(k, fosnr)
  }

  /** A key outside a set has its file name outside the set's names. */
  lemma UnlistedKeyUnlistedName(k: string, keys: set<string>, fosnr: string)
    ensures k !in keys ==> StagedName(k, fosnr) !in StagedNames(keys, fosnr)
  {
    if StagedName(k, fosnr) in StagedNames(keys, fosnr) {
      var k' :| k' in keys && StagedName(k', fosnr) == StagedName(k, fosnr);
      StagedNameInjective(k', k, fosnr);
    }
  }

  /** A map keyed by theme or key, moved to the staged file names. */
  function Renamed(m: map<string, Bytes>, fosnr: string): (d: Dir)
    ensures d.Keys == StagedNames(m.Keys, fosnr)
    ensures forall k :: k in m ==> d[StagedName(k, fosnr)] == m[k]
  {
    forall k1, k2 | k1 in m && k2 in m && StagedName(k1, fosnr) == StagedName(k2, fosnr)
      ensures k1 == k2
    {
      StagedNameInjective(k1, k2, fosnr);
    }
    map k | k in m :: StagedName(k, fosnr) := m[k]
  }

  // ---------------------------------------------------------------------------
  // Seed pass
  // ---------------------------------------------------------------------------

  function SeedNames(themes: seq<string>, fosnr: string): set<string> {
    set m | m in themes :: SeedName(m, fosnr)
  }

  /** Every theme's placeholder document is among the resources. */
  predicate PlaceholdersPackaged(themes: seq<string>, res: Store) {
    forall m :: m in themes ==> EmptyName(m) in res
  }

  /** The seed loop over the theme list: copy each `<theme>.empty.xtf` from the
      store into `dir` under its seed name; a missing resource aborts. */
  function Seed(themes: seq<string>, res: Store, fosnr: string, dir: Dir): (r: Result<Dir, StageError>)
    ensures r.Ok? <==> PlaceholdersPackaged(themes, res)
    ensures r.Err? ==> r.error.ResourceMissing? && r.error.resource !in res
    ensures r.Err? ==> exists m :: m in themes && r.error.resource == EmptyName(m)
    ensures r.Ok? ==> r.value.Keys == dir.Keys + SeedNames(themes, fosnr)
    ensures r.Ok? ==> forall n :: n in dir && n !in SeedNames(themes, fosnr) ==> r.value[n] == dir[n]
    decreases |themes|
  {
    if |themes| == 0 then
      Ok(dir)
    else
      var name := EmptyName(themes[0]);
      if name !in res then
        Err(ResourceMissing(name))
      else
        var r := Seed(themes[1..], res, fosnr, dir[SeedName(themes[0], fosnr) := res[name]]);
        assert themes == [themes[0]] + themes[1..];
        assert SeedNames(themes, fosnr) == {SeedName(themes[0], fosnr)} + SeedNames(themes[1..], fosnr);
        r
  }

  /** The placeholder content of every theme, keyed by theme. */
  function Placeholders(themes: seq<string>, res: Store): (p: map<string, Bytes>)
    requires PlaceholdersPackaged(themes, res)
    ensures p.Keys == Listed(themes)
    ensures forall m :: m in themes ==> p[m] == res[EmptyName(m)]
  {
    map m | m in themes :: res[EmptyName(m)]
  }

  /** Writing `x` before laying `tail` over the directory is laying the
      updated `tail` over it, when `tail` agrees on `x`. */
  lemma UpdateThenOverlay(dir: Dir, x: string, c: Bytes, tail: Dir)
    requires x in tail ==> tail[x] == c
    ensures dir[x := c] + tail == dir + tail[x := c]
  {
  }

  lemma RenamedUpdate(m: map<string, Bytes>, k: string, c: Bytes, fosnr: string)
    ensures Renamed(m[k := c], fosnr) == Renamed(m, fosnr)[StagedName(k, fosnr) := c]
  {
    var l := Renamed(m[k := c], fosnr);
    var r := Renamed(m, fosnr)[StagedName(k, fosnr) := c];
    assert l.Keys == r.Keys by {
      assert m[k := c].Keys == m.Keys + {k};
    }
    forall n | n in l ensures l[n] == r[n] {
      var k' :| k' in m[k := c] && n == StagedName(k', fosnr);
      RenamedUpdateAt(m, k, k', c, fosnr);
    }
  }

  lemma RenamedUpdateAt(m: map<string, Bytes>, k: string, k': string, c: Bytes, fosnr: string)
    requires k' in m[k := c]
    ensures Renamed(m[k := c], fosnr)[StagedName(k', fosnr)]
         == Renamed(m, fosnr)[StagedName(k, fosnr) := c][StagedName(k', fosnr)]
  {
    if k' != k {
      UnlistedKeyUnlistedName(k, {k'}, fosnr);
      assert StagedName(k', fosnr) != StagedName(k, fosnr);
    }
  }

  lemma PlaceholdersCons(themes: seq<string>, res: Store)
    requires |themes| > 0
    requires PlaceholdersPackaged(themes, res)
    ensures Placeholders(themes, res) == Placeholders(themes[1..], res)[themes[0] := res[EmptyName(themes[0])]]
  {
    assert themes == [themes[0]] + themes[1..];
  }

  /** One step of the seed loop over a plain theme writes its staged name. */
  lemma SeedStep(themes: seq<string>, res: Store, fosnr: string, dir: Dir)
    requires |themes| > 0 && IsPlainTheme(themes[0]) && EmptyName(themes[0]) in res
    ensures Seed(themes, res, fosnr, dir)
         == Seed(themes[1..], res, fosnr, dir[StagedName(themes[0], fosnr) := res[EmptyName(themes[0])]])
  {
    SeedNameOfPlainTheme(themes[0], fosnr);
  }

  /** Laying the first theme's placeholder down before the others is the
      same as laying all placeholders down at once. */
  lemma SeedOverlayStep(themes: seq<string>, res: Store, fosnr: string, dir: Dir)
    requires |themes| > 0
    requires PlaceholdersPackaged(themes, res)
    ensures dir[StagedName(themes[0], fosnr) := res[EmptyName(themes[0])]] + Renamed(Placeholders(themes[1..], res), fosnr)
         == dir + Renamed(Placeholders(themes, res), fosnr)
  {
    var t := themes[0];
    var c := res[EmptyName(t)];
    var x := StagedName(t, fosnr);
    var p := Placeholders(themes[1..], res);
    PlaceholdersCons(themes, res);
    RenamedUpdate(p, t, c, fosnr);
    var tail := Renamed(p, fosnr);
    if x in tail {
      var k :| k in p && x == StagedName(k, fosnr);
      StagedNameInjective(k, t, fosnr);
    }
    UpdateThenOverlay(dir, x, c, tail);
  }

  /** For plain themes the seed pass is the placeholder map moved to the
      staged names and laid over `dir`. */
  lemma {:induction false} SeedOfPlainThemes(themes: seq<string>, res: Store, fosnr: string, dir: Dir)
    requires AllPlain(themes) && PlaceholdersPackaged(themes, res)
    ensures Seed(themes, res, fosnr, dir) == Ok(dir + Renamed(Placeholders(themes, res), fosnr))
    decreases |themes|
  {
    if |themes| == 0 {
      assert Renamed(Placeholders(themes, res), fosnr) == map[];
      assert dir + map[] == dir;
    } else {
      var dir' := dir[StagedName(themes[0], fosnr) := res[EmptyName(themes[0])]];
      SeedStep(themes, res, fosnr, dir);
      assert forall m :: m in themes[1..] ==> m in themes;
      SeedOfPlainThemes(themes[1..], res, fosnr, dir');
      SeedOverlayStep(themes, res, fosnr, dir);
    }
  }

  // ---------------------------------------------------------------------------
  // Override pass
  // ---------------------------------------------------------------------------

  /** A location is fetched over the network if and only if it starts with
      `http`; any other location is a local path. */
  predicate IsUrl(location: string) {
    StartsWith(location, "http")
  }

  /** The content one configured entry contributes, or why it cannot be read. */
  function Fetch(key: string, location: string, src: Sources): (r: Result<Bytes, StageError>)
    ensures r.Ok? <==> (if IsUrl(location) then location in src.web else location in src.disk)
    ensures r.Err? ==> r.error == (if IsUrl(location) then SourceUnavailable(key, location) else SourceNotFound(key, location))
  {
    if IsUrl(location) then
      if location in src.web then Ok(src.web[location]) else Err(SourceUnavailable(key, location))
    else
      if location in src.disk then Ok(src.disk[location]) else Err(SourceNotFound(key, location))
  }

  /** A URL's fetch never looks at the file system and a path's never at the
      network. */
  lemma FetchRouting(key: string, location: string, web: map<string, Bytes>, disk: map<string, Bytes>,
                     web': map<string, Bytes>, disk': map<string, Bytes>)
    ensures IsUrl(location) ==> Fetch(key, location, Sources(web, disk)) == Fetch(key, location, Sources(web, disk'))
    ensures IsUrl(location) && location in web ==> Fetch(key, location, Sources(web, disk)) == Ok(web[location])
    ensures !IsUrl(location) ==> Fetch(key, location, Sources(web, disk)) == Fetch(key, location, Sources(web', disk))
    ensures !IsUrl(location) && location in disk ==> Fetch(key, location, Sources(web, disk)) == Ok(disk[location])
  {
  }

  /** The override loop over the configuration in its iteration order `order`:
      fetch each entry into `<key>.<fosnr>.xtf`, replacing an existing file;
      the first entry that cannot be read aborts. */
  function Override(order: seq<string>, resolved: map<string, string>, fosnr: string, src: Sources, dir: Dir)
    : (r: Result<Dir, StageError>)
    requires forall k :: k in order ==> k in resolved
    ensures r.Ok? <==> forall k :: k in order ==> Fetch(k, resolved[k], src).Ok?
    ensures r.Err? ==> exists k :: k in order && Fetch(k, resolved[k], src) == Err(r.error)
    ensures r.Ok? ==> r.value.Keys == dir.Keys + StagedNames(Listed(order), fosnr)
    ensures r.Ok? ==> forall k :: k in order ==> r.value[StagedName(k, fosnr)] == Fetch(k, resolved[k], src).value
    ensures r.Ok? ==> forall n :: n in dir && n !in StagedNames(Listed(order), fosnr) ==> r.value[n] == dir[n]
    decreases |order|
  {
    if |order| == 0 then
      Ok(dir)
    else
      var k := order[0];
      match Fetch(k, resolved[k], src)
      case Err(e) => Err(e)
      case Ok(content) =>
        StagedNamesCons(order, fosnr);
        UnlistedKeyUnlistedName(k, Listed(order[1..]), fosnr);
        Override(order[1..], resolved, fosnr, src, dir[StagedName(k, fosnr) := content])
  }

  /** The names of a non-empty key list: the first key's, then the rest's. */
  lemma StagedNamesCons(keys: seq<string>, fosnr: string)
    requires |keys| > 0
    ensures forall k :: k in keys <==> k == keys[0] || k in keys[1..]
    ensures StagedNames(Listed(keys), fosnr) == {StagedName(keys[0], fosnr)} + StagedNames(Listed(keys[1..]), fosnr)
  {
    assert keys == [keys[0]] + keys[1..];
  }

  /** Every configured location can be read. */
  predicate AllAvailable(resolved: map<string, string>, src: Sources) {
    forall k :: k in resolved ==> Fetch(k, resolved[k], src).Ok?
  }

  /** The content every configured key fetches, keyed by key. */
  function Fetched(resolved: map<string, string>, src: Sources): (f: map<string, Bytes>)
    requires AllAvailable(resolved, src)
    ensures f.Keys == resolved.Keys
  {
    map k | k in resolved :: Fetch(k, resolved[k], src).value
  }

  /** `order` lists exactly the keys of `resolved`, as a map's iteration does. */
  predicate Enumerates(order: seq<string>, resolved: map<string, string>) {
    && (forall k :: k in order ==> k in resolved)
    && (forall k :: k in resolved ==> k in order)
  }

  /** An enumeration of the configuration names exactly the files the
      fetched map is moved to. */
  lemma EnumeratedNames(order: seq<string>, resolved: map<string, string>, fosnr: string, src: Sources)
    requires Enumerates(order, resolved)
    requires AllAvailable(resolved, src)
    ensures StagedNames(Listed(order), fosnr) == Renamed(Fetched(resolved, src), fosnr).Keys
  {
  }

  /** Order-free reference for the override pass: it succeeds iff every
      configured location can be read, and then lays the fetched files over
      `dir` (user file wins, every other file unchanged). */
  lemma OverrideSpec(order: seq<string>, resolved: map<string, string>, fosnr: string, src: Sources, dir: Dir)
    requires Enumerates(order, resolved)
    ensures Override(order, resolved, fosnr, src, dir).Ok? <==> AllAvailable(resolved, src)
    ensures AllAvailable(resolved, src) ==>
      Override(order, resolved, fosnr, src, dir) == Ok(dir + Renamed(Fetched(resolved, src), fosnr))
  {
    var r := Override(order, resolved, fosnr, src, dir);
    if AllAvailable(resolved, src) {
      var expected := dir + Renamed(Fetched(resolved, src), fosnr);
      EnumeratedNames(order, resolved, fosnr, src);
      assert r.value.Keys == expected.Keys;
      forall n | n in expected ensures r.value[n] == expected[n] {
        if n !in StagedNames(Listed(order), fosnr) {
        } else {
          var k :| k in order && n == StagedName(k, fosnr);
        }
      }
      assert r.value == expected;
    }
  }

  /** The iteration order of the configuration map changes neither whether the
      override pass succeeds nor the directory it leaves. */
  lemma OverrideOrderIndependent(o1: seq<string>, o2: seq<string>, resolved: map<string, string>,
                                 fosnr: string, src: Sources, dir: Dir)
    requires Enumerates(o1, resolved) && Enumerates(o2, resolved)
    ensures Override(o1, resolved, fosnr, src, dir).Ok? == Override(o2, resolved, fosnr, src, dir).Ok?
    ensures Override(o1, resolved, fosnr, src, dir).Ok? ==>
      Override(o1, resolved, fosnr, src, dir).value == Override(o2, resolved, fosnr, src, dir).value
  {
    OverrideSpec(o1, resolved, fosnr, src, dir);
    OverrideSpec(o2, resolved, fosnr, src, dir);
  }

  // ---------------------------------------------------------------------------
  // Both passes
  // ---------------------------------------------------------------------------

  /** Staging into a fresh, empty directory: seed, then override. A missing
      placeholder is reported before any configured source is read. */
  function Stage(themes: seq<string>, res: Store, order: seq<string>, resolved: map<string, string>,
                 fosnr: string, src: Sources): (r: Result<Dir, StageError>)
    requires forall k :: k in order ==> k in resolved
    ensures r.Ok? <==> PlaceholdersPackaged(themes, res)
                       && (forall k :: k in order ==> Fetch(k, resolved[k], src).Ok?)
    ensures !PlaceholdersPackaged(themes, res) ==> r.Err? && r.error.ResourceMissing?
  {
    match Seed(themes, res, fosnr, map[])
    case Err(e) => Err(e)
    case Ok(seeded) => Override(order, resolved, fosnr, src, seeded)
  }

  /** Staging as a formula: the fetched files laid over the placeholders. */
  lemma StageIsOverlay(themes: seq<string>, res: Store, order: seq<string>, resolved: map<string, string>,
                       fosnr: string, src: Sources)
    requires AllPlain(themes) && PlaceholdersPackaged(themes, res)
    requires Enumerates(order, resolved)
    requires AllAvailable(resolved, src)
    ensures Stage(themes, res, order, resolved, fosnr, src)
         == Ok(Renamed(Placeholders(themes, res), fosnr) + Renamed(Fetched(resolved, src), fosnr))
  {
    SeedOfPlainThemes(themes, res, fosnr, map[]);
    var seeded := Renamed(Placeholders(themes, res), fosnr);
    assert map[] + seeded == seeded;
    OverrideSpec(order, resolved, fosnr, src, seeded);
  }

  /** Staging with an empty configuration leaves exactly one placeholder per
      theme, under its staged name. */
  lemma StageWithoutConfiguration(themes: seq<string>, res: Store, fosnr: string, src: Sources)
    requires AllPlain(themes) && PlaceholdersPackaged(themes, res)
    ensures Stage(themes, res, [], map[], fosnr, src) == Ok(Renamed(Placeholders(themes, res), fosnr))
  {
    SeedOfPlainThemes(themes, res, fosnr, map[]);
    var seeded := Renamed(Placeholders(themes, res), fosnr);
    assert map[] + seeded == seeded;
    assert Seed(themes, res, fosnr, map[]) == Ok(seeded);
    assert Override([], map[], fosnr, src, seeded) == Ok(seeded);
  }

  /** The overlay holds a file for every theme and every configured key. */
  lemma OverlayKeys(themes: seq<string>, res: Store, resolved: map<string, string>, fosnr: string, src: Sources)
    requires PlaceholdersPackaged(themes, res)
    requires AllAvailable(resolved, src)
    ensures (Renamed(Placeholders(themes, res), fosnr) + Renamed(Fetched(resolved, src), fosnr)).Keys
         == StagedNames(Listed(themes), fosnr) + StagedNames(resolved.Keys, fosnr)
  {
    assert Renamed(Placeholders(themes, res), fosnr).Keys == StagedNames(Listed(themes), fosnr);
  }

  /** An unconfigured theme keeps its placeholder in the overlay. */
  lemma OverlayKeepsPlaceholder(themes: seq<string>, res: Store, resolved: map<string, string>, fosnr: string,
                                src: Sources, m: string)
    requires PlaceholdersPackaged(themes, res)
    requires AllAvailable(resolved, src)
    requires m in themes && m !in resolved
    ensures (Renamed(Placeholders(themes, res), fosnr) + Renamed(Fetched(resolved, src), fosnr))[StagedName(m, fosnr)]
         == res[EmptyName(m)]
  {
    UnlistedKeyUnlistedName(m, resolved.Keys, fosnr);
  }

  /**
    The staging invariant: staging succeeds iff every placeholder is packaged
    and every configured source can be read, and then every theme has a file,
    a configured key's file holds what its source delivered (replacing the
    placeholder), an unconfigured theme keeps its placeholder, and the
    directory holds nothing else. Neither outcome depends on the iteration
    order of the configuration.
   */
  lemma StageInvariant(themes: seq<string>, res: Store, order: seq<string>, resolved: map<string, string>,
                       fosnr: string, src: Sources)
    requires AllPlain(themes)
    requires Enumerates(order, resolved)
    ensures var r := Stage(themes, res, order, resolved, fosnr, src);
      && (r.Ok? <==> PlaceholdersPackaged(themes, res) && AllAvailable(resolved, src))
      && (r.Ok? ==> r.value.Keys == StagedNames(Listed(themes), fosnr) + StagedNames(resolved.Keys, fosnr))
      && (r.Ok? ==> forall m :: m in themes && m !in resolved ==> r.value[StagedName(m, fosnr)] == res[EmptyName(m)])
      && (r.Ok? ==> forall k :: k in resolved ==> r.value[StagedName(k, fosnr)] == Fetch(k, resolved[k], src).value)
  {
    var r := Stage(themes, res, order, resolved, fosnr, src);
    if r.Ok? {
      StageIsOverlay(themes, res, order, resolved, fosnr, src);
      OverlayKeys(themes, res, resolved, fosnr, src);
      forall m | m in themes && m !in resolved
        ensures r.value[StagedName(m, fosnr)] == res[EmptyName(m)]
      {
        OverlayKeepsPlaceholder(themes, res, resolved, fosnr, src, m);
      }
    }
  }

  /** The outcome of staging does not depend on the iteration order of the
      configuration map. */
  lemma StageOrderIndependent(themes: seq<string>, res: Store, o1: seq<string>, o2: seq<string>,
                              resolved: map<string, string>, fosnr: string, src: Sources)
    requires Enumerates(o1, resolved) && Enumerates(o2, resolved)
    ensures Stage(themes, res, o1, resolved, fosnr, src).Ok? == Stage(themes, res, o2, resolved, fosnr, src).Ok?
    ensures Stage(themes, res, o1, resolved, fosnr, src).Ok? ==>
      Stage(themes, res, o1, resolved, fosnr, src).value == Stage(themes, res, o2, resolved, fosnr, src).value
  {
    var seeded := Seed(themes, res, fosnr, map[]);
    if seeded.Ok? {
      OverrideOrderIndependent(o1, o2, resolved, fosnr, src, seeded.value);
    }
  }
}

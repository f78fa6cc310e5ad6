/**
 * Icon themes (generate_icon.py, class `Theme` and `ThemeSubdirectory`):
 * where a theme's directory is found, what a theme is once its
 * `index.theme` is read, the size rule of each of its subdirectories, and
 * the cache of themes already read.
 *
 * The filesystem is data: `Env` lists the theme roots, the directories that
 * exist, the lines of every `index.theme` by theme directory, the files that
 * exist and the fallback directories. A path is joined as `a + "/" + b`.
 */
module Themes {
  import opened Wrappers
  import opened Text
  import opened IndexParser
  import opened SizeMatcher

  /** What the lookup can observe of the filesystem. */
  datatype Env = Env(
    roots: seq<string>,
    isDir: set<string>,
    indexes: map<string, seq<string>>,
    existing: set<string>,
    fallbackDirs: seq<string>)

  /** The `/` of `pathlib` without normalisation. */
  function JoinPath(a: string, b: string): string {
    a + "/" + b
  }

  /** A path joined under `a` keeps `a`, the separator and `b` in place. */
  lemma JoinPathParts(a: string, b: string)
    ensures var p := JoinPath(a, b);
      && |p| == |a| + 1 + |b| && p[..|a|] == a && p[|a|] == '/' && p[|a| + 1..] == b
  {
  }

  // ---------------------------------------------------------------------
  // Finding a theme's directory (generate_icon.py:15-23)
  // ---------------------------------------------------------------------

  /** The first of `roots[from..]` under which `name` is a directory. */
  function ThemeDirectoryFrom(roots: seq<string>, isDir: set<string>, name: string, from: nat): (r: Option<string>)
    requires from <= |roots|
    ensures r.None? ==> forall i :: from <= i < |roots| ==> JoinPath(roots[i], name) !in isDir
    ensures r.Some? ==> exists i ::
                          && from <= i < |roots| && r.value == JoinPath(roots[i], name) && r.value in isDir
                          && (forall j :: from <= j < i ==> JoinPath(roots[j], name) !in isDir)
    decreases |roots| - from
  {
    if from == |roots| then None
    else if JoinPath(roots[from], name) in isDir then Some(JoinPath(roots[from], name))
    else ThemeDirectoryFrom(roots, isDir, name, from + 1)
  }

  /**
   * `Theme.get_theme_directory`: the first root, in order, holding a
   * directory named after the theme; `None` when no root does.
   */
  function ThemeDirectory(roots: seq<string>, isDir: set<string>, name: string): Option<string> {
    ThemeDirectoryFrom(roots, isDir, name, 0)
  }

  /** The loop of `get_theme_directory`, returning at the first root that holds the theme. */
  method GetThemeDirectory(roots: seq<string>, isDir: set<string>, name: string) returns (r: Option<string>)
    ensures r == ThemeDirectory(roots, isDir, name)
  {
    var i := 0;
    while i < |roots|
      invariant 0 <= i <= |roots|
      invariant ThemeDirectoryFrom(roots, isDir, name, i) == ThemeDirectory(roots, isDir, name)
    {
      var themeDirectory := JoinPath(roots[i], name);
      if themeDirectory in isDir {
        return Some(themeDirectory);
      }
      i := i + 1;
    }
    return None;
  }

  // ---------------------------------------------------------------------
  // A theme and its subdirectories (generate_icon.py:39-101)
  // ---------------------------------------------------------------------

  /**
   * A theme: its directory, the names of the themes it inherits from, in
   * `Inherits` order, and its subdirectories, in `Directories` order. The
   * parents are kept by name and resolved when the search reaches them.
   */
  datatype Theme = Theme(path: string, parents: seq<string>, directories: seq<SubdirEntry>)

  /**
   * The theme read from the index file at `dir`: its header's lists (empty
   * when the key is absent) and, for each listed relative path, that
   * subdirectory's section.
   */
  function ParseTheme(dir: string, lines: seq<string>): (t: Theme)
    ensures t.path == dir
  {
    var h := HeaderOf(lines);
    var names := h.directories.GetOr([]);
    Theme(dir, h.inherits.GetOr([]), seq(|names|, i requires 0 <= i < |names| => SubdirectoryOf(lines, names[i])))
  }

  /**
   * The subdirectories of a parsed theme are those its header lists, in the
   * listed order, each read from its own section.
   */
  lemma ParseThemeDirectories(dir: string, lines: seq<string>)
    ensures var t, names := ParseTheme(dir, lines), HeaderOf(lines).directories.GetOr([]);
      && |t.directories| == |names|
      && (forall i :: 0 <= i < |names| ==> t.directories[i].relpath == names[i])
      && (forall i :: 0 <= i < |names| ==> t.directories[i] == SubdirectoryOf(lines, names[i]))
  {
  }

  /**
   * `Theme.__init__`: one pass for the header, then one section pass per
   * listed subdirectory.
   */
  method NewTheme(dir: string, lines: seq<string>) returns (t: Theme)
    ensures t == ParseTheme(dir, lines)
  {
    var header := ParseThemeHeader(lines);
    var names := header.directories.GetOr([]);
    var directories: seq<SubdirEntry> := [];
    var i := 0;
    while i < |names|
      invariant 0 <= i <= |names|
      invariant |directories| == i
      invariant forall k :: 0 <= k < i ==> directories[k] == SubdirectoryOf(lines, names[k])
    {
      var subdirectory := ParseSubdirectory(lines, names[i]);
      directories := directories + [subdirectory];
      i := i + 1;
    }
    t := Theme(dir, header.inherits.GetOr([]), directories);
  }

  /** `Theme.has_parents`: whether the theme inherits from any theme. */
  predicate HasParents(t: Theme) {
    |t.parents| > 0
  }

  /**
   * A parsed theme has parents exactly when its header has an `Inherits`
   * line: even an empty value names one (empty) parent.
   */
  lemma HasParentsIffInherits(dir: string, lines: seq<string>)
    ensures HasParents(ParseTheme(dir, lines)) <==> HeaderOf(lines).inherits.Some?
  {
    HeaderFieldSource(lines, HeaderEnd(lines, 0), "Inherits");
  }

  /** `ThemeSubdirectory.full_path`: the subdirectory under its theme's directory. */
  function FullPath(t: Theme, sd: SubdirEntry): string {
    JoinPath(t.path, sd.relpath)
  }

  /**
   * Distinct relative paths give distinct full paths within one theme, and
   * each full path lies under the theme's directory.
   */
  lemma FullPathInjective(t: Theme, a: SubdirEntry, b: SubdirEntry)
    ensures FullPath(t, a)[..|t.path|] == t.path
    ensures FullPath(t, a) == FullPath(t, b) <==> a.relpath == b.relpath
  {
    JoinPathParts(t.path, a.relpath);
    JoinPathParts(t.path, b.relpath);
  }

  // ---------------------------------------------------------------------
  // The size rule of a subdirectory
  // ---------------------------------------------------------------------

  /**
   * The `Threshold` used for Threshold subdirectories. The code never reads
   * a `Threshold` key, so the default of the icon theme specification is used.
   */
  const DefaultThreshold: nat := 2

  /** The `Type` value: "Fixed" and "Scalable" by name, anything else (or none) is Threshold. */
  function KindOf(typ: Option<string>): DirType {
    if typ == Some("Fixed") then Fixed
    else if typ == Some("Scalable") then Scalable
    else Threshold
  }

  /** The name under which a type is written. */
  function TypeName(kind: DirType): string {
    match kind
    case Fixed => "Fixed"
    case Scalable => "Scalable"
    case Threshold => "Threshold"
  }

  /** A numeric key's value, or `default` when the key is absent; `None` when it is not a number. */
  function NumberOr(v: Option<string>, default: nat): Option<nat> {
    match v
    case None => Some(default)
    case Some(s) => ParseNat(s)
  }

  /**
   * A key the directory's type never reads: its value when it is a number,
   * otherwise `default`. Such a key never decides whether the directory is served.
   */
  function Unused(v: Option<string>, default: nat): nat {
    if v.Some? && IsDecimal(v.value) then DigitsValue(v.value) else default
  }

  /** Whether an optional numeric key is absent or a decimal number. */
  predicate Readable(v: Option<string>) {
    v.None? || IsDecimal(v.value)
  }

  /** Whether a Scalable bound can be read: its own key when given, otherwise `Size`. */
  predicate BoundReadable(bound: Option<string>, size: Option<string>) {
    if bound.Some? then IsDecimal(bound.value) else size.Some? && IsDecimal(size.value)
  }

  /**
   * The size rule of a subdirectory. Each type reads only the keys the
   * matcher and the distance use for it (lines 166-169 and 177-184): Fixed
   * and Threshold read Size, Scalable reads MinSize and MaxSize, every type
   * reads Scale. Defaults are those of the icon theme specification: MinSize
   * and MaxSize default to Size, Scale to 1. A subdirectory missing a key
   * its type uses, or with a used key that is not a number, has no rule
   * (the code would fail on it). A Scalable rule without a numeric Size
   * carries MinSize in its unused `size` field.
   */
  function Rule(e: SubdirEntry): Option<SizeRule> {
    var kind := KindOf(e.typ);
    var size := if e.size.Some? then ParseNat(e.size.value) else None;
    var scale := NumberOr(e.scale, 1);
    if scale.None? then None
    else if kind == Scalable then
      var minSize := if e.minSize.Some? then ParseNat(e.minSize.value) else size;
      var maxSize := if e.maxSize.Some? then ParseNat(e.maxSize.value) else size;
      if minSize.None? || maxSize.None? then None
      else Some(SizeRule(kind, size.GetOr(minSize.value), minSize.value, maxSize.value, DefaultThreshold, scale.value))
    else if size.None? then None
    else Some(SizeRule(kind, size.value, Unused(e.minSize, size.value), Unused(e.maxSize, size.value), DefaultThreshold, scale.value))
  }

  /**
   * A subdirectory has a rule exactly when the keys its type uses can be
   * read: Scale absent or a number; for Scalable, MinSize and MaxSize (or
   * Size in place of an absent one) numbers; for the other types, Size a
   * number. An absent Type means Threshold, absent MinSize and MaxSize mean
   * Size, an absent Scale means 1.
   */
  lemma RuleDefaults(e: SubdirEntry)
    ensures var r := Rule(e);
      r.Some? <==>
        && Readable(e.scale)
        && (KindOf(e.typ) == Scalable ==> BoundReadable(e.minSize, e.size) && BoundReadable(e.maxSize, e.size))
        && (KindOf(e.typ) != Scalable ==> e.size.Some? && IsDecimal(e.size.value))
    ensures var r := Rule(e);
      r.Some? ==>
        && r.value.kind == KindOf(e.typ)
        && r.value.threshold == DefaultThreshold
        && (e.typ.None? ==> r.value.kind == Threshold)
        && (e.minSize.None? ==> r.value.minSize == r.value.size)
        && (e.maxSize.None? ==> r.value.maxSize == r.value.size)
        && (e.scale.None? ==> r.value.scale == 1)
  {
  }

  /**
   * Keys a type does not use never change whether a subdirectory is served
   * or how well it matches: two sections that agree on Type, Scale and the
   * keys that type reads have rules that match and measure alike.
   */
  lemma RuleReadsUsedKeysOnly(e: SubdirEntry, other: SubdirEntry, size: nat, scale: nat)
    requires e.typ == other.typ && e.scale == other.scale
    requires KindOf(e.typ) != Scalable ==> e.size == other.size
    requires KindOf(e.typ) == Scalable ==>
      && e.minSize == other.minSize && e.maxSize == other.maxSize
      && (e.minSize.None? || e.maxSize.None? ==> e.size == other.size)
    ensures Rule(e).Some? <==> Rule(other).Some?
    ensures Rule(e).Some? ==>
      && Matches(Rule(e).value, size, scale) == Matches(Rule(other).value, size, scale)
      && Distance(Rule(e).value, size, scale) == Distance(Rule(other).value, size, scale)
  {
  }

  /**
   * A Scalable section with MinSize 8, MaxSize 512 and no Size is served,
   * and matches a request of 16 at scale 1.
   */
  lemma ScalableWithoutSizeIsServed()
    ensures var e := SubdirEntry("a", Some("Scalable"), None, Some("8"), Some("512"), Some("1"));
      Rule(e) == Some(SizeRule(Scalable, 8, 8, 512, DefaultThreshold, 1)) && Matches(Rule(e).value, 16, 1)
  {
    assert "512"[..2] == "51" && "51"[..1] == "5";
    assert DigitsValue("512") == 10 * DigitsValue("51") + 2;
    assert DigitsValue("51") == 10 * DigitsValue("5") + 1;
  }

  /** A section that spells out every key of a rule. */
  function WrittenEntry(relpath: string, rule: SizeRule): SubdirEntry {
    SubdirEntry(relpath, Some(TypeName(rule.kind)), Some(NatToString(rule.size)),
      Some(NatToString(rule.minSize)), Some(NatToString(rule.maxSize)), Some(NatToString(rule.scale)))
  }

  /** Writing a rule's keys out and reading them back gives the rule again. */
  lemma RuleRoundTrip(relpath: string, rule: SizeRule)
    requires rule.threshold == DefaultThreshold
    ensures Rule(WrittenEntry(relpath, rule)) == Some(rule)
  {
    ParseNatRoundTrip(rule.size);
    ParseNatRoundTrip(rule.minSize);
    ParseNatRoundTrip(rule.maxSize);
    ParseNatRoundTrip(rule.scale);
    assert KindOf(Some(TypeName(rule.kind))) == rule.kind;
  }

  // ---------------------------------------------------------------------
  // Loading and caching themes (generate_icon.py:6, 26-36)
  // ---------------------------------------------------------------------

  /** The theme whose index file lives in `dir`; `None` when there is none (the code would fail to open it). */
  function LoadTheme(indexes: map<string, seq<string>>, dir: string): (r: Option<Theme>)
    ensures r.Some? <==> dir in indexes
    ensures r.Some? ==> r.value.path == dir
  {
    if dir in indexes then Some(ParseTheme(dir, indexes[dir])) else None
  }

  /** `Theme.from_theme_name` without the cache: find the theme's directory and read it. */
  function ResolveTheme(env: Env, name: string): (r: Option<Theme>)
    ensures r.Some? ==> r.value.path in env.indexes && r.value.path in env.isDir
  {
    match ThemeDirectory(env.roots, env.isDir, name)
    case None => None
    case Some(dir) => LoadTheme(env.indexes, dir)
  }

  /**
   * The theme cache (`THEME_CACHE`, a dictionary from theme directory to
   * theme; the code initialises it with a list, evidently meaning an empty
   * dictionary). Every cached theme is the theme its directory's index file
   * describes.
   */
  class ThemeRegistry {
    var cache: map<string, Theme>
    const env: Env

    ghost predicate Valid()
      reads this
    {
      forall dir :: dir in cache ==> LoadTheme(env.indexes, dir) == Some(cache[dir])
    }

    constructor(env: Env)
      ensures Valid()
      ensures this.env == env && cache == map[]
    {
      this.env := env;
      cache := map[];
    }

    /**
     * `Theme.check_cache_before_creation`: the cached theme when the
     * directory is cached, otherwise a freshly read one. Either way it is
     * the theme the index file describes, so the cache never changes a result.
     */
    method CheckCacheBeforeCreation(dir: string) returns (t: Option<Theme>)
      requires Valid()
      ensures dir in cache ==> t == Some(cache[dir])
      ensures t == LoadTheme(env.indexes, dir)
    {
      if dir in cache {
        t := Some(cache[dir]);
      } else if dir in env.indexes {
        var theme := NewTheme(dir, env.indexes[dir]);
        t := Some(theme);
      } else {
        t := None;
      }
    }

    /** `Theme.from_theme_name`: the theme's directory, then the cache or a fresh read. */
    method FromThemeName(name: string) returns (t: Option<Theme>)
      requires Valid()
      ensures t == ResolveTheme(env, name)
    {
      var dir := GetThemeDirectory(env.roots, env.isDir, name);
      if dir.None? {
        t := None;
      } else {
        t := CheckCacheBeforeCreation(dir.value);
      }
    }

    /**
     * Records a theme read from its directory. The code never inserts into
     * its cache; this is how the cache is meant to be filled, and it keeps
     * every cached theme faithful to its index file.
     */
    method Store(t: Theme)
      requires Valid()
      requires LoadTheme(env.indexes, t.path) == Some(t)
      modifies this
      ensures Valid()
      ensures cache == old(cache)[t.path := t]
    {
      cache := cache[t.path := t];
    }
  }
}

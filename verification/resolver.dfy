/**
 * The search across themes (generate_icon.py, `find_icon` and
 * `find_icon_helper`): the requested theme, then the themes it inherits
 * from, depth first in `Inherits` order; then `hicolor` the same way; then
 * the fallback directories.
 *
 * `SearchOrder` lists the themes in the order the search visits them, and
 * `FirstFound` takes the first of them in which the per-theme lookup finds
 * the icon; `FindIconHelperIsPreorderSearch` proves that the recursive
 * search is exactly that.
 *
 * Parents are resolved by name when the search reaches them. Two cases the
 * code does not survive are given a meaning here: a parent whose directory
 * or index file does not exist is skipped (the code fails constructing it),
 * and a parent already on the current path of the search is skipped (the
 * code recurses without end on an inheritance cycle). A theme reached twice
 * along different paths is searched twice, as in the code.
 */
module Resolver {
  import opened Wrappers
  import opened Themes
  import opened Lookup

  /** The name of the theme searched after the requested one. */
  const Hicolor: string := "hicolor"

  /**
   * `find_icon_helper`: look the icon up in `t`; failing that, search each
   * parent in turn and return the first hit. `onPath` holds the directories
   * of the themes whose search is in progress.
   */
  function FindIconHelper(env: Env, t: Theme, icon: string, size: nat, scale: nat, onPath: set<string>): (r: Option<string>)
    requires t.path in env.indexes && t.path !in onPath
    ensures r.Some? ==> r.value in env.existing
    decreases env.indexes.Keys - onPath, 0
  {
    IconLookupSpec(t, icon, size, scale, env.existing);
    var filename := IconLookup(t, icon, size, scale, env.existing);
    if filename.Some? then filename
    else if HasParents(t) then SearchParents(env, t.parents, 0, icon, size, scale, onPath + {t.path})
    else None
  }

  /** The loop over `theme.parents` in `find_icon_helper`, from the `i`-th parent on. */
  function SearchParents(env: Env, names: seq<string>, i: nat, icon: string, size: nat, scale: nat, onPath: set<string>)
    : (r: Option<string>)
    requires i <= |names|
    ensures r.Some? ==> r.value in env.existing
    decreases env.indexes.Keys - onPath, 1, |names| - i
  {
    if i == |names| then None
    else
      match ResolveTheme(env, names[i])
      case None => SearchParents(env, names, i + 1, icon, size, scale, onPath)
      case Some(parent) =>
        if parent.path in onPath then SearchParents(env, names, i + 1, icon, size, scale, onPath)
        else
          var filename := FindIconHelper(env, parent, icon, size, scale, onPath);
          if filename.Some? then filename
          else SearchParents(env, names, i + 1, icon, size, scale, onPath)
  }

  // ---------------------------------------------------------------------
  // The order of the search
  // ---------------------------------------------------------------------

  /** The themes searched from `t`, in order: `t` itself, then each parent's themes, depth first. */
  function SearchOrder(env: Env, t: Theme, onPath: set<string>): (ts: seq<Theme>)
    requires t.path in env.indexes && t.path !in onPath
    ensures |ts| > 0 && ts[0] == t
    decreases env.indexes.Keys - onPath, 0
  {
    [t] + ParentsOrder(env, t.parents, 0, onPath + {t.path})
  }

  /** The themes searched from the parents `names[i..]`, in order. */
  function ParentsOrder(env: Env, names: seq<string>, i: nat, onPath: set<string>): seq<Theme>
    requires i <= |names|
    decreases env.indexes.Keys - onPath, 1, |names| - i
  {
    if i == |names| then []
    else
      match ResolveTheme(env, names[i])
      case None => ParentsOrder(env, names, i + 1, onPath)
      case Some(parent) =>
        if parent.path in onPath then ParentsOrder(env, names, i + 1, onPath)
        else SearchOrder(env, parent, onPath) + ParentsOrder(env, names, i + 1, onPath)
  }

  /** The lookup result of the first theme in `ts` where the per-theme lookup finds the icon. */
  function FirstFound(ts: seq<Theme>, icon: string, size: nat, scale: nat, existing: set<string>): Option<string> {
    if ts == [] then None
    else
      var filename := IconLookup(ts[0], icon, size, scale, existing);
      if filename.Some? then filename else FirstFound(ts[1..], icon, size, scale, existing)
  }

  /**
   * `FirstFound` returns nothing exactly when no theme in the list has the
   * icon, and otherwise what the lookup in the first theme that has it returns.
   */
  lemma {:induction false} FirstFoundIsFirst(ts: seq<Theme>, icon: string, size: nat, scale: nat, existing: set<string>)
    ensures var r := FirstFound(ts, icon, size, scale, existing);
      r.None? <==> forall k :: 0 <= k < |ts| ==> IconLookup(ts[k], icon, size, scale, existing).None?
    ensures var r := FirstFound(ts, icon, size, scale, existing);
      r.Some? ==> exists k ::
                    && 0 <= k < |ts| && r == IconLookup(ts[k], icon, size, scale, existing)
                    && (forall j :: 0 <= j < k ==> IconLookup(ts[j], icon, size, scale, existing).None?)
  {
    if ts != [] {
      var tail := ts[1..];
      FirstFoundIsFirst(tail, icon, size, scale, existing);
      assert forall k :: 0 < k < |ts| ==> ts[k] == tail[k - 1];
      var r := FirstFound(ts, icon, size, scale, existing);
      if IconLookup(ts[0], icon, size, scale, existing).None? && r.Some? {
        var k :| && 0 <= k < |tail| && r == IconLookup(tail[k], icon, size, scale, existing)
                 && (forall j :: 0 <= j < k ==> IconLookup(tail[j], icon, size, scale, existing).None?);
        assert r == IconLookup(ts[k + 1], icon, size, scale, existing);
      }
    }
  }

  /** Searching a concatenation searches the first part, then the second. */
  lemma {:induction false} FirstFoundAppend(a: seq<Theme>, b: seq<Theme>, icon: string, size: nat, scale: nat, existing: set<string>)
    ensures FirstFound(a + b, icon, size, scale, existing)
      == if FirstFound(a, icon, size, scale, existing).Some? then FirstFound(a, icon, size, scale, existing)
         else FirstFound(b, icon, size, scale, existing)
  {
    if a != [] {
      assert (a + b)[0] == a[0] && (a + b)[1..] == a[1..] + b;
      FirstFoundAppend(a[1..], b, icon, size, scale, existing);
    } else {
      assert a + b == b;
    }
  }

  /**
   * `find_icon_helper` searches the themes in `SearchOrder`: the theme
   * itself before any parent, the parents depth first in `Inherits` order,
   * and stops at the first theme that has the icon.
   */
  lemma {:induction false} FindIconHelperIsPreorderSearch(env: Env, t: Theme, icon: string, size: nat, scale: nat, onPath: set<string>)
    requires t.path in env.indexes && t.path !in onPath
    ensures FindIconHelper(env, t, icon, size, scale, onPath)
      == FirstFound(SearchOrder(env, t, onPath), icon, size, scale, env.existing)
    decreases env.indexes.Keys - onPath, 0
  {
    var rest := ParentsOrder(env, t.parents, 0, onPath + {t.path});
    SearchParentsIsPreorderSearch(env, t.parents, 0, icon, size, scale, onPath + {t.path});
    assert SearchOrder(env, t, onPath)[1..] == rest;
    if !HasParents(t) {
      assert rest == [];
    }
  }

  /** The loop over the parents searches the themes in `ParentsOrder`. */
  lemma {:induction false} SearchParentsIsPreorderSearch(
    env: Env, names: seq<string>, i: nat, icon: string, size: nat, scale: nat, onPath: set<string>)
    requires i <= |names|
    ensures SearchParents(env, names, i, icon, size, scale, onPath)
      == FirstFound(ParentsOrder(env, names, i, onPath), icon, size, scale, env.existing)
    decreases env.indexes.Keys - onPath, 1, |names| - i
  {
    if i < |names| {
      SearchParentsIsPreorderSearch(env, names, i + 1, icon, size, scale, onPath);
      match ResolveTheme(env, names[i])
      case None =>
      case Some(parent) =>
        if parent.path !in onPath {
          FindIconHelperIsPreorderSearch(env, parent, icon, size, scale, onPath);
          FirstFoundAppend(SearchOrder(env, parent, onPath), ParentsOrder(env, names, i + 1, onPath),
            icon, size, scale, env.existing);
        }
    }
  }

  // ---------------------------------------------------------------------
  // find_icon (generate_icon.py:104-113)
  // ---------------------------------------------------------------------

  /** The search from the theme named `name`; nothing when that theme cannot be found. */
  function FindInTheme(env: Env, name: string, icon: string, size: nat, scale: nat): (r: Option<string>)
    ensures r.Some? ==> r.value in env.existing
  {
    match ResolveTheme(env, name)
    case None => None
    case Some(t) => FindIconHelper(env, t, icon, size, scale, {})
  }

  /** The themes searched from the theme named `name`, in order. */
  function ThemeOrder(env: Env, name: string): seq<Theme> {
    match ResolveTheme(env, name)
    case None => []
    case Some(t) => SearchOrder(env, t, {})
  }

  /**
   * `find_icon`: the requested theme and its ancestors, then `hicolor` and
   * its ancestors, then the fallback directories. Whatever it returns
   * exists; when it returns nothing, no fallback file exists either.
   */
  function FindIcon(env: Env, themeName: string, icon: string, size: nat, scale: nat): (r: Option<string>)
    ensures r.Some? ==> r.value in env.existing
    ensures r.None? ==> FallbackLookup(env.fallbackDirs, icon, env.existing).None?
  {
    var filename := FindInTheme(env, themeName, icon, size, scale);
    if filename.Some? then filename
    else
      var fromHicolor := FindInTheme(env, Hicolor, icon, size, scale);
      if fromHicolor.Some? then fromHicolor
      else FallbackLookup(env.fallbackDirs, icon, env.existing)
  }

  /**
   * The whole search order of `find_icon`: the themes searched from the
   * requested theme, then those searched from `hicolor`, the first theme
   * that has the icon winning; the fallback directories only when none has it.
   */
  lemma FindIconSearchOrder(env: Env, themeName: string, icon: string, size: nat, scale: nat)
    ensures var found := FirstFound(ThemeOrder(env, themeName) + ThemeOrder(env, Hicolor), icon, size, scale, env.existing);
      FindIcon(env, themeName, icon, size, scale)
        == if found.Some? then found else FallbackLookup(env.fallbackDirs, icon, env.existing)
  {
    var requested, hicolor := ResolveTheme(env, themeName), ResolveTheme(env, Hicolor);
    if requested.Some? {
      FindIconHelperIsPreorderSearch(env, requested.value, icon, size, scale, {});
    }
    if hicolor.Some? {
      FindIconHelperIsPreorderSearch(env, hicolor.value, icon, size, scale, {});
    }
    FirstFoundAppend(ThemeOrder(env, themeName), ThemeOrder(env, Hicolor), icon, size, scale, env.existing);
  }
}

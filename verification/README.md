# Icon theme lookup, modelled in Dafny

This project models `generate_icon.py`. That program resolves an icon name, a
size and a scale to an image file, following the freedesktop icon theme
lookup rules.

**Themes.** A theme is a directory holding an `index.theme` file. It is found
under the first icon-theme root, in order, that has a directory of that name.
Its `[Icon Theme]` header lists:
- `Inherits`: the themes it inherits from;
- `Directories`: its subdirectories.

Each subdirectory has a section of its own, `[relpath]`, with its `Type`,
`Size`, `MinSize`, `MaxSize` and `Scale`.

**Search.** The search runs in this order:
1. The requested theme: the exact match first, then the closest match.
2. The themes it inherits from, depth first in `Inherits` order.
3. `hicolor` and its ancestors, in the same way.
4. A list of fallback directories.

The filesystem is data: an `Env` value (module `Themes`) holds
- the theme roots;
- the directories that exist;
- the lines of every `index.theme`, by theme directory;
- the files that exist;
- the fallback directories.

Paths are joined as `a + "/" + b`, without normalisation.

Modules, in dependency order:
- `Wrappers`: `Option`.
- `Text`: `str.strip`, `str.split` and `int()` on decimal text, with their round trips.
- `IndexParser`: the two readers of `index.theme`. Each is a loop method proved equal to a declarative definition.
- `SizeMatcher`: `directory_matches_size` and `directory_size_distance`.
- `Themes`: finding a theme's directory; `Theme.__init__`; size rules; the theme cache (`ThemeRegistry`, a class over a map).
- `Lookup`: `lookup_icon` and `lookup_fallback_icon`. Each is a loop method proved equal to a function, and the function is characterised by lemmas.
- `Resolver`: `find_icon_helper` and `find_icon`. Proved to be a first-hit search over an explicit search order.

Several lines of the code cannot run as written. The model gives each the
meaning the code evidently intends, and says so where it is modelled:
- `THEME_CACHE` is initialised with a list (line 6). It is modelled as an empty map.
- `read` in `ThemeSubdirectory.__init__` is never initialised (line 78). It is modelled as starting false.
- `MAXINT` is undefined (line 138). It is modelled as "no distance yet" (`None`).
- `basename list` is not valid syntax (line 154). It is modelled as a list of fallback directories, given as a parameter.
- The `is` comparisons of the type strings (lines 166-170) compare identity. They are modelled as string equality.
- The sizes are stored as `str` (lines 86-94) and compared and multiplied as numbers. They are modelled as numbers read with `int()`. Each type reads only the keys the matcher and the distance use for it (lines 166-171, 177-184, 196-201): Fixed and Threshold use Size, Scalable uses MinSize and MaxSize, and every type uses Scale.
- The Scalable distance inside the range falls off the end of the function (lines 180-184). It is modelled as 0, as the uncommented pseudo-code after it (lines 190-195) says.

In four places (the four rows of the table) the matcher and the distance are wrong rather than merely
unrunnable. Those are listed under Findings: the model keeps the code as
written beside the corrected version, which is what the rest of the model
uses.

The code has no error reporting: it returns `None` or raises whatever
Python raises. The model follows the code's results where it has any, with
these exceptions, each listed under Left out:
- a section that leaves out `Type`, `Scale`, `MinSize` or `MaxSize`, or gives an unknown `Type`, takes the icon theme specification's defaults, where the code skips the directory or crashes on it;
- section names are matched as written, where the code normalises them as paths first.

Every case where the code crashes is given a defined meaning, also listed under Left out.

## Model

| member | source | states |
|---|---|---|
| Text.StripIsSlice | generate_icon.py:45 | `line.strip()` removes whitespace only, and only from the two ends: the result is a contiguous slice of the line, with no whitespace at either end |
| Text.JoinSplit | generate_icon.py:49-53 | splitting a line on `=` or `,` loses nothing: joining the pieces with the separator gives the line back |
| Text.SplitJoin | generate_icon.py:53 | splitting a join of pieces that do not contain the separator gives the pieces back, in order: a comma-separated list keeps its items and their order |
| Text.SplitCount | generate_icon.py:49-50 | a split yields one piece more than the separators in the text, so `len(split_line) == 2` means exactly one `=` |
| Text.ParseNat | generate_icon.py:86-94 | a size value can be read as a number exactly when it is a non-empty string of decimal digits |
| Text.ParseNatRoundTrip | generate_icon.py:86-94 | a number written in decimal reads back as the same number |
| IndexParser.KeyValueMeaning | generate_icon.py:49-52 | a line is a `key=value` line exactly when it holds one `=`, and then it is key, `=`, value, with no `=` in either part |
| IndexParser.HeaderEnd | generate_icon.py:44-47 | the header pass stops at the first stripped line starting with `[` other than `[Icon Theme]`, or at the end of the file; no earlier line is such a line |
| IndexParser.ParseThemeHeader | generate_icon.py:43-57 | the header loop of `Theme.__init__` computes exactly the `Inherits` and `Directories` lists of the declarative header reading |
| IndexParser.LastKeyLine | generate_icon.py:49-57 | the last line for a key in a range: none exactly when no line in the range is that key's line; otherwise no later line in the range is one |
| IndexParser.HeaderFieldSource | generate_icon.py:49-57 | after the first n lines, the `Inherits` (or `Directories`) list is absent exactly when no line so far sets it; otherwise it is the last such line's value split on `,` |
| IndexParser.HeaderOfSource | generate_icon.py:43-57 | over the whole file: a header list comes from the last line setting that key before the header ends, split on `,` in order; it is absent exactly when no such line exists |
| IndexParser.HeaderOfAgrees | generate_icon.py:46-47 | the header depends only on the lines up to the first foreign section: files that agree that far have the same header, whatever follows |
| IndexParser.SectionStart | generate_icon.py:97-98 | the section of a subdirectory starts at the first line that, stripped, is exactly `[relpath]`; no earlier line is |
| IndexParser.SectionEnd | generate_icon.py:79-80 | the section ends at the next stripped line starting with `[`, or at the end of the file |
| IndexParser.SubdirectoryOf | generate_icon.py:71-72 | a subdirectory keeps the relative path it was created for |
| IndexParser.ParseSubdirectory | generate_icon.py:71-98 | the loop of `ThemeSubdirectory.__init__`, with the `read` flag, computes exactly the declarative reading of the subdirectory's section |
| IndexParser.EntryFieldStep | generate_icon.py:82-94 | one line changes at most the field its key names, setting it to the line's value; lines with other keys leave the field alone |
| IndexParser.SubdirFieldsLast | generate_icon.py:82-94 | over a range of lines, a field is unset exactly when no line in the range sets its key; otherwise it is the value of the last line that does |
| IndexParser.SubdirectoryFieldSource | generate_icon.py:75-98 | a field of a subdirectory comes only from a `key=value` line inside its own `[relpath]` section (after the first such header, before the next section), the last one winning; it is unset exactly when there is none |
| SizeMatcher.Matches | generate_icon.py:163-165 | a subdirectory never matches a request at a scale other than its own |
| SizeMatcher.ThresholdDistance | generate_icon.py:196-201 | the Threshold distance is never negative, and is 0 exactly inside the scaled window `(Size ± Threshold) * Scale` |
| SizeMatcher.Distance | generate_icon.py:174-201 | the distance is never negative, for every type |
| SizeMatcher.DistanceIsDistanceToWindow | generate_icon.py:174-201 | for every type, the distance is how far `size * scale` is from the subdirectory's window of scaled sizes, and it is 0 exactly inside that window |
| SizeMatcher.MatchesIffZeroDistance | generate_icon.py:163-201 | at the subdirectory's own scale, an exact match and distance 0 coincide for Fixed, Scalable and Threshold alike; a Fixed subdirectory matches its own size |
| SizeMatcher.DistanceMonotoneOutsideWindow | generate_icon.py:174-201 | below the window the distance shrinks as the requested size grows; above a non-empty window it grows with the size |
| SizeMatcher.AsWrittenNeverMatchesNumericScale | generate_icon.py:164-165 | as written, the matcher rejects every scale given as a number |
| SizeMatcher.AsWrittenRejectsExactScale | generate_icon.py:164-167 | as written, a Fixed 16 directory at scale 1 is rejected for a request of 16 at scale 1, which it matches exactly |
| SizeMatcher.AsWrittenNeverMatchesThreshold | generate_icon.py:170-171 | as written, a Threshold directory never matches, for every size and every scale text |
| SizeMatcher.AsWrittenRejectsThresholdAtOwnSize | generate_icon.py:170-171 | as written, a Threshold 16 directory is rejected for a request of 16 even with the scale text the code expects, though it matches exactly as intended |
| SizeMatcher.ThresholdDistanceAsWrittenGoesNegative | generate_icon.py:196-198 | as written, the Threshold distance below the window can be negative (-1 where the distance to the window is 2) |
| SizeMatcher.ThresholdDistanceAsWrittenSquaresSize | generate_icon.py:199-200 | as written, the Threshold distance above the window squares the size (21 where the scaled distance is 4) |
| Themes.ThemeDirectoryFrom | generate_icon.py:15-23 | the theme's directory is the one under the first root, in order, holding it; there is none exactly when no root holds it |
| Themes.GetThemeDirectory | generate_icon.py:15-23 | the loop over the roots, returning at the first hit, computes exactly that directory |
| Themes.ParseTheme | generate_icon.py:39-40 | a theme read from a directory keeps that directory as its path |
| Themes.ParseThemeDirectories | generate_icon.py:56-57 | a theme's subdirectories are those `Directories` lists, in the listed order, each with its relative path and read from its own section |
| Themes.NewTheme | generate_icon.py:39-57 | `Theme.__init__` (the header pass, then one section pass per listed subdirectory) computes exactly the declarative theme |
| Themes.HasParentsIffInherits | generate_icon.py:54-60 | a theme has parents exactly when its header has an `Inherits` line |
| Themes.FullPathInjective | generate_icon.py:100-101 | a subdirectory's full path lies under its theme's directory; within one theme, full paths are equal exactly when the relative paths are |
| Themes.RuleDefaults | generate_icon.py:163-184 | a subdirectory has a size rule exactly when the keys its type uses can be read: Scale absent or a number; for Scalable, MinSize and MaxSize numbers (Size standing in for an absent one); for Fixed and Threshold, Size a number. Absent Type is Threshold, absent MinSize and MaxSize are Size, absent Scale is 1 |
| Themes.RuleReadsUsedKeysOnly | generate_icon.py:163-184 | keys a type does not use never change whether a subdirectory is served or how it matches and measures: sections agreeing on Type, Scale and the keys that type reads match and measure alike |
| Themes.RuleRoundTrip | generate_icon.py:85-94 | a section that spells out every key of a rule is read back as that rule |
| Themes.LoadTheme | generate_icon.py:36 | a theme can be created for a directory exactly when it has an index file, and the theme keeps that directory as its path |
| Themes.ResolveTheme | generate_icon.py:27-28 | a theme resolved by name lives in an existing directory that holds an index file |
| Themes.ThemeRegistry.constructor | generate_icon.py:6 | the cache starts empty and consistent |
| Themes.ThemeRegistry.CheckCacheBeforeCreation | generate_icon.py:32-36 | a cached directory yields the cached theme; in every case the result is the theme its index file describes, so the cache never changes a result |
| Themes.ThemeRegistry.FromThemeName | generate_icon.py:27-28 | resolving a name through the cache gives the same theme as resolving it afresh |
| Themes.ThemeRegistry.Store | generate_icon.py:33-34 | the code never inserts into its cache; `Store` is the insertion it lacks, and it keeps the cache lookup of lines 33-34 correct: after inserting a theme read from its own directory, every cached entry is still faithful to its index file, and only that entry changes |
| Lookup.CandidateAt | generate_icon.py:131-142 | the candidate files are visited subdirectory by subdirectory in `Directories` order, and png, svg, xpm within each |
| Lookup.FirstExactIsFirst | generate_icon.py:131-136 | the exact pass finds nothing exactly when no existing candidate matches exactly; otherwise it finds the first one that does |
| Lookup.ClosestScanIsArgMin | generate_icon.py:138-145 | the closest pass picks nothing exactly when no candidate is usable; otherwise a usable candidate whose distance is minimal among all usable ones, and strictly smaller than every earlier one, so the earliest wins on a tie |
| Lookup.IconLookupSpec | generate_icon.py:130-150 | `lookup_icon` returns an existing file; it returns nothing only when no candidate is usable; an exact match wins, the first in order; otherwise the closest, the earliest on a tie |
| Lookup.LookupIcon | generate_icon.py:130-150 | the two passes of `lookup_icon` compute exactly the exact-then-closest lookup |
| Lookup.ExactPass | generate_icon.py:131-136 | the nested loops of the first pass return exactly the first existing, exactly matching file |
| Lookup.ClosestPass | generate_icon.py:138-150 | the nested loops of the second pass, with `minimal_size` and `closest_filename`, return exactly the file the strict-minimum scan picks |
| Lookup.FallbackFileAt | generate_icon.py:154-156 | the fallback files are visited directory by directory, and png, svg, xpm within each |
| Lookup.FirstExistingFrom | generate_icon.py:154-158 | the search finds nothing exactly when no file from that point on exists; otherwise the first one that does |
| Lookup.FallbackLookup | generate_icon.py:153-160 | the fallback lookup returns nothing exactly when no fallback file exists; otherwise the first existing one |
| Lookup.LookupFallbackIcon | generate_icon.py:153-160 | the loops of `lookup_fallback_icon` compute exactly the fallback lookup |
| Resolver.FindIconHelper | generate_icon.py:116-127 | whatever the search from a theme returns is an existing file |
| Resolver.SearchParents | generate_icon.py:121-125 | whatever the search over a theme's parents returns is an existing file |
| Resolver.SearchOrder | generate_icon.py:116-123 | the search from a theme visits that theme first |
| Resolver.FirstFoundIsFirst | generate_icon.py:117-125 | a first-hit search over themes finds nothing exactly when no theme has the icon; otherwise it returns the lookup of the first theme that has it |
| Resolver.FirstFoundAppend | generate_icon.py:104-113 | searching the themes of one list and then of another is the same as searching their concatenation |
| Resolver.FindIconHelperIsPreorderSearch | generate_icon.py:116-127 | `find_icon_helper` is the first-hit search over the theme and then its ancestors, depth first in `Inherits` order |
| Resolver.SearchParentsIsPreorderSearch | generate_icon.py:121-126 | the loop over the parents is the first-hit search over each parent's themes, parent after parent |
| Resolver.FindInTheme | generate_icon.py:105-109 | whatever the search from a named theme returns is an existing file |
| Resolver.FindIcon | generate_icon.py:104-113 | `find_icon` returns an existing file, and it returns nothing only when no fallback file exists either |
| Resolver.FindIconSearchOrder | generate_icon.py:104-113 | `find_icon` is the first-hit search over the requested theme's search order followed by hicolor's; only when no theme has the icon does it fall back to the fallback directories |

## Left out

- Reading files and querying directories: the filesystem is the `Env` value, fixed for the whole lookup. The home directory and the roots are part of `Env.roots`. Paths are joined as text, with no normalisation, no `Path` objects and no symlinks.
- Whitespace: `str.strip` is modelled for ASCII whitespace only, not every Unicode space.
- Numbers: `int()` is modelled on plain decimal digits. Signs, underscores and surrounding spaces are not accepted.
- Scale as text: `find_icon` receives the scale as `str` and multiplies it as a number. The model takes the scale as a number everywhere. `SizeMatcher.MatchesAsWritten` keeps the text form only to exhibit line 164.
- Themes.Rule: a subdirectory missing a key its type uses (Size for Fixed and Threshold; MinSize or MaxSize with no Size to stand in, for Scalable), or whose used key or Scale is not a number, has no size rule and is never returned. Where the code reaches such a directory in the matcher or the distance, it raises: comparing or multiplying `None`, or `int()` on text that is not a number.
- Themes.Rule: keys left out of a section take the icon theme specification's defaults. The code, even with the corrections listed above, does something else in each case:
  - no `Type`: the model uses Threshold. In the code, `directory_matches_size` takes no branch and returns `None`, so the directory is never an exact match. `directory_size_distance` also returns `None`, and comparing that with the minimal size raises. So where the code skips the directory in the exact pass, the model can pick it: with `Directories=a,b`, `[a]` `Size=16` `Scale=1` and no `Type`, `[b]` `Type=Fixed` `Size=17` `Scale=1`, both `icon.png` files present and a request of 17 at scale 1, the model returns `a`'s file (Threshold window 14..18, first in order) and the code `b`'s (the exact pass skips `a` and matches `b`).
  - a `Type` other than Fixed, Scalable or Threshold: the model uses Threshold (`Themes.KindOf`). The code never matches such a directory, and its distance raises as for a missing `Type`.
  - no `Scale`: the model uses 1. With line 164 corrected, the code compares the request's scale with `None` and never matches; its distance raises multiplying by `None`.
  - no `MinSize` or `MaxSize`: the model uses Size. The code raises comparing a number with `None` on a Scalable directory.
- `Threshold` key: the code never reads a `Threshold` key, so Threshold subdirectories use the icon theme specification's default of 2.
- Resolver.SearchParents: a parent that cannot be resolved (no directory, or no index file) is skipped. The code fails while constructing it.
- Resolver.SearchParents: a parent already on the current path of the search is skipped, so an inheritance cycle ends. This goes beyond the code, which recurses without end. A theme reached along two different paths is still searched twice, as in the code.
- Resolver.FindInTheme: a requested theme (or `hicolor`) that cannot be found contributes nothing and the search goes on. The code would try to read `None/index.theme` and fail.
- Eager parents: `Theme.__init__` constructs every parent theme while reading `Inherits`. The model keeps the parents by name and resolves them when the search reaches them. Each resolution reads the same index file, so the order of the search and its results are unchanged; a parent that fails to resolve is the case listed above.
- Object identity: `ThemeSubdirectory.theme` is a back-reference to its theme. Here a subdirectory is a value, and its full path is taken together with the theme (`Themes.FullPath`). Whether two resolutions return the same object is not modelled; they return equal values.
- Section names: the code wraps each `Directories` entry in `Path` (line 57) and looks for `[{str(relpath)}]` (line 97), so `apps/` and `./apps` look for `[apps]`, and an empty entry looks for `[.]`. IndexParser.SectionHeader uses the entry as written. With `Directories=apps/` and an `[apps]` section, the code reads that section; the model finds none, so the directory has no size rule and is never returned.
- Themes.LoadTheme: a theme directory that exists but has no `index.theme` gives no theme, so the search skips it (as a parent or as the requested theme or `hicolor`). The code raises opening the file (line 43).
- Themes.ParseTheme: a theme without `Inherits` or `Directories` has empty lists, where the code keeps `None`. `lookup_icon` would fail iterating over `None` directories; here such a theme has no candidates.
- Themes.ThemeRegistry.Store: the code never inserts into its cache. `Store` is how the cache is meant to be filled. `Resolver` reads themes through `Themes.ResolveTheme`. This is sound because `Themes.ThemeRegistry.FromThemeName` is proved to return the same theme whatever the cache holds.
- Concurrency: the code is single-threaded, and so is the model; no locking of the cache is modelled.

## Findings

| source | as written | input that shows it | evidently intended | confidence | as-written member | corrected member |
|---|---|---|---|---|---|---|
| generate_icon.py:164 | the requested scale is compared with the literal text `"iconscale"`, so any real scale returns False | a Fixed 16 directory at scale 1, request 16 at scale `"1"`: rejected | compare with the subdirectory's `Scale` | high, not executed | SizeMatcher.AsWrittenRejectsExactScale | SizeMatcher.MatchesIffZeroDistance |
| generate_icon.py:170-171 | the Threshold branch tests the builtin `type`, never equal to `"Threshold"`, and uses the scale as the half-width | a Threshold 16 directory, request 16 at scale `"iconscale"`: no match | test `subdir.type` and use the window `Size ± Threshold` | high, not executed | SizeMatcher.AsWrittenNeverMatchesThreshold | SizeMatcher.MatchesIffZeroDistance |
| generate_icon.py:196-198 | below the window, the Threshold distance is measured from `MinSize * Scale`, not from the window's lower edge | a Threshold directory with Size 10, MinSize 5, Scale 1, request 6 at scale 1: -1 | `(Size - Threshold) * Scale - size * scale`, here 2 | high, not executed | SizeMatcher.ThresholdDistanceAsWrittenGoesNegative | SizeMatcher.ThresholdDistance |
| generate_icon.py:199-200 | above the window, the Threshold test and distance use `icon_size * icon_size` and `MaxSize` | a Threshold directory with Size 4, Scale 1, request 5 at scale 2: 21 | `size * scale - (Size + Threshold) * Scale`, here 4 | high, not executed | SizeMatcher.ThresholdDistanceAsWrittenSquaresSize | SizeMatcher.DistanceIsDistanceToWindow |

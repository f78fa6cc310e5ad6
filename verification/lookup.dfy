/**
 * Looking an icon up in one theme (generate_icon.py, `lookup_icon`) and in
 * the fallback directories (`lookup_fallback_icon`).
 *
 * Both walk a sequence of candidate files: for a theme, every subdirectory
 * in `Directories` order and, within one, the extensions png, svg and xpm;
 * for the fallback, every fallback directory and, within one, the same
 * extensions. The methods are the loops of the code; the functions they are
 * proved equal to are characterised by lemmas.
 */
module Lookup {
  import opened Wrappers
  import opened IndexParser
  import opened SizeMatcher
  import opened Themes

  /** The extensions tried, in order. */
  const Extensions: seq<string> := ["png", "svg", "xpm"]

  /** `f"{dir}/{iconname}.{extension}"`. */
  function IconFile(dir: string, icon: string, ext: string): string {
    JoinPath(dir, icon + "." + ext)
  }

  /** A file the theme lookup may return, with the size rule of the subdirectory holding it. */
  datatype Candidate = Candidate(file: string, rule: Option<SizeRule>)

  /** The icon with extension `e` in subdirectory `i`. */
  function CandidateOf(t: Theme, icon: string, i: nat, e: nat): Candidate
    requires i < |t.directories| && e < |Extensions|
  {
    Candidate(IconFile(FullPath(t, t.directories[i]), icon, Extensions[e]), Rule(t.directories[i]))
  }

  /** The candidates of subdirectories `i` onwards, subdirectory by subdirectory, extension by extension. */
  function CandidatesFrom(t: Theme, icon: string, i: nat): (cs: seq<Candidate>)
    requires i <= |t.directories|
    ensures |cs| == 3 * (|t.directories| - i)
    decreases |t.directories| - i
  {
    if i == |t.directories| then []
    else [CandidateOf(t, icon, i, 0), CandidateOf(t, icon, i, 1), CandidateOf(t, icon, i, 2)] + CandidatesFrom(t, icon, i + 1)
  }

  /**
   * The candidate files of a theme in the order both passes of the lookup
   * visit them: candidate `3 * i + e` is subdirectory `i` with extension `e`.
   */
  function Candidates(t: Theme, icon: string): (cs: seq<Candidate>)
    ensures |cs| == 3 * |t.directories|
  {
    CandidatesFrom(t, icon, 0)
  }

  lemma {:induction false} CandidatesFromAt(t: Theme, icon: string, from: nat, i: nat, e: nat)
    requires from <= i < |t.directories| && e < 3
    ensures 3 * (i - from) + e < |CandidatesFrom(t, icon, from)|
    ensures CandidatesFrom(t, icon, from)[3 * (i - from) + e] == CandidateOf(t, icon, i, e)
    decreases i - from
  {
    if from < i {
      CandidatesFromAt(t, icon, from + 1, i, e);
    }
  }

  /** Candidate `3 * i + e` is the icon in subdirectory `i` with extension `e`. */
  lemma CandidateAt(t: Theme, icon: string, i: nat, e: nat)
    requires i < |t.directories| && e < 3
    ensures 3 * i + e < |Candidates(t, icon)|
    ensures Candidates(t, icon)[3 * i + e] == CandidateOf(t, icon, i, e)
  {
    CandidatesFromAt(t, icon, 0, i, e);
  }

  /** Whether the candidate's file exists and its subdirectory has a size rule. */
  predicate Usable(c: Candidate, existing: set<string>) {
    c.file in existing && c.rule.Some?
  }

  /** Whether the candidate's subdirectory serves the requested size exactly. */
  predicate IsExact(c: Candidate, size: nat, scale: nat) {
    c.rule.Some? && Matches(c.rule.value, size, scale)
  }

  /** The distance of the candidate's subdirectory from the requested size. */
  function CandidateDistance(c: Candidate, size: nat, scale: nat): int {
    if c.rule.Some? then Distance(c.rule.value, size, scale) else 0
  }

  /** The first candidate at or after `k` that exists and matches exactly. */
  function FirstExactFrom(cs: seq<Candidate>, k: nat, size: nat, scale: nat, existing: set<string>): (r: Option<nat>)
    requires k <= |cs|
    ensures r.Some? ==> k <= r.value < |cs|
    decreases |cs| - k
  {
    if k == |cs| then None
    else if Usable(cs[k], existing) && IsExact(cs[k], size, scale) then Some(k)
    else FirstExactFrom(cs, k + 1, size, scale, existing)
  }

  /**
   * The search finds nothing exactly when no candidate from `k` on exists and
   * matches; otherwise it finds the first one that does.
   */
  lemma {:induction false} FirstExactIsFirst(cs: seq<Candidate>, k: nat, size: nat, scale: nat, existing: set<string>)
    requires k <= |cs|
    ensures var r := FirstExactFrom(cs, k, size, scale, existing);
      r.None? ==> forall j :: k <= j < |cs| ==> !(Usable(cs[j], existing) && IsExact(cs[j], size, scale))
    ensures var r := FirstExactFrom(cs, k, size, scale, existing);
      r.Some? ==>
        && Usable(cs[r.value], existing) && IsExact(cs[r.value], size, scale)
        && forall j :: k <= j < r.value ==> !(Usable(cs[j], existing) && IsExact(cs[j], size, scale))
    decreases |cs| - k
  {
    if k < |cs| {
      FirstExactIsFirst(cs, k + 1, size, scale, existing);
    }
  }

  /** A candidate that is missing or not an exact match is passed over. */
  lemma FirstExactSkip(cs: seq<Candidate>, k: nat, size: nat, scale: nat, existing: set<string>)
    requires k < |cs| && !(Usable(cs[k], existing) && IsExact(cs[k], size, scale))
    ensures FirstExactFrom(cs, k, size, scale, existing) == FirstExactFrom(cs, k + 1, size, scale, existing)
  {
  }

  /** The closest file found so far by the second pass, with its distance (`closest_filename`, `minimal_size`). */
  datatype Pick = Pick(file: string, distance: int)

  /**
   * The second pass over the first `n` candidates: a usable candidate
   * replaces the current pick only when its distance is STRICTLY smaller.
   */
  function ClosestScan(cs: seq<Candidate>, n: nat, size: nat, scale: nat, existing: set<string>): Option<Pick>
    requires n <= |cs|
  {
    if n == 0 then None
    else
      var prev := ClosestScan(cs, n - 1, size, scale, existing);
      var c := cs[n - 1];
      if Usable(c, existing) && (prev.None? || CandidateDistance(c, size, scale) < prev.value.distance)
      then Some(Pick(c.file, CandidateDistance(c, size, scale)))
      else prev
  }

  /** One step of the scan, as the loop takes it. */
  lemma ClosestScanStep(cs: seq<Candidate>, n: nat, size: nat, scale: nat, existing: set<string>)
    requires n < |cs|
    ensures var prev, c := ClosestScan(cs, n, size, scale, existing), cs[n];
      ClosestScan(cs, n + 1, size, scale, existing)
        == if Usable(c, existing) && (prev.None? || CandidateDistance(c, size, scale) < prev.value.distance)
           then Some(Pick(c.file, CandidateDistance(c, size, scale))) else prev
  {
  }

  /**
   * The scan picks nothing exactly when no candidate is usable; otherwise it
   * picks a usable candidate at minimal distance, the earliest such one.
   */
  lemma {:induction false} ClosestScanIsArgMin(cs: seq<Candidate>, n: nat, size: nat, scale: nat, existing: set<string>)
    requires n <= |cs|
    ensures var r := ClosestScan(cs, n, size, scale, existing);
      r.None? <==> forall j :: 0 <= j < n ==> !Usable(cs[j], existing)
    ensures var r := ClosestScan(cs, n, size, scale, existing);
      r.Some? ==> exists k ::
                    && 0 <= k < n && Usable(cs[k], existing)
                    && r.value == Pick(cs[k].file, CandidateDistance(cs[k], size, scale))
                    && (forall j :: 0 <= j < n && Usable(cs[j], existing) ==>
                          r.value.distance <= CandidateDistance(cs[j], size, scale))
                    && (forall j :: 0 <= j < k && Usable(cs[j], existing) ==>
                          r.value.distance < CandidateDistance(cs[j], size, scale))
  {
    if n > 0 {
      ClosestScanIsArgMin(cs, n - 1, size, scale, existing);
      var prev := ClosestScan(cs, n - 1, size, scale, existing);
      var c := cs[n - 1];
      var d := CandidateDistance(c, size, scale);
      if Usable(c, existing) && (prev.None? || d < prev.value.distance) {
        assert forall j :: 0 <= j < n - 1 && Usable(cs[j], existing) ==> d < CandidateDistance(cs[j], size, scale);
      } else if prev.Some? {
        var k :| && 0 <= k < n - 1 && Usable(cs[k], existing)
                 && prev.value == Pick(cs[k].file, CandidateDistance(cs[k], size, scale))
                 && (forall j :: 0 <= j < n - 1 && Usable(cs[j], existing) ==>
                       prev.value.distance <= CandidateDistance(cs[j], size, scale))
                 && (forall j :: 0 <= j < k && Usable(cs[j], existing) ==>
                       prev.value.distance < CandidateDistance(cs[j], size, scale));
        assert 0 <= k < n;
      }
    }
  }

  /** The first pass of `lookup_icon`: the first existing file of an exactly matching subdirectory. */
  function ExactMatch(t: Theme, icon: string, size: nat, scale: nat, existing: set<string>): Option<string> {
    var cs := Candidates(t, icon);
    match FirstExactFrom(cs, 0, size, scale, existing)
    case Some(k) => Some(cs[k].file)
    case None => None
  }

  /** The second pass of `lookup_icon`: the existing file whose subdirectory is closest to the requested size. */
  function ClosestMatch(t: Theme, icon: string, size: nat, scale: nat, existing: set<string>): Option<string> {
    var cs := Candidates(t, icon);
    match ClosestScan(cs, |cs|, size, scale, existing)
    case Some(p) => Some(p.file)
    case None => None
  }

  /** `lookup_icon`: an exact match if there is one, otherwise the closest match. */
  function IconLookup(t: Theme, icon: string, size: nat, scale: nat, existing: set<string>): Option<string> {
    var exact := ExactMatch(t, icon, size, scale, existing);
    if exact.Some? then exact else ClosestMatch(t, icon, size, scale, existing)
  }

  /**
   * What `lookup_icon` promises: it returns an existing file; an exact match
   * wins, the first in subdirectory-then-extension order; otherwise the
   * closest candidate, the earliest on a tie; and nothing only when no
   * candidate file exists in a subdirectory with a size rule.
   */
  lemma IconLookupSpec(t: Theme, icon: string, size: nat, scale: nat, existing: set<string>)
    ensures var r := IconLookup(t, icon, size, scale, existing);
      r.Some? ==> r.value in existing
    ensures var r, cs := IconLookup(t, icon, size, scale, existing), Candidates(t, icon);
      r.None? <==> forall j :: 0 <= j < |cs| ==> !Usable(cs[j], existing)
    ensures var r, cs := IconLookup(t, icon, size, scale, existing), Candidates(t, icon);
      (exists j :: 0 <= j < |cs| && Usable(cs[j], existing) && IsExact(cs[j], size, scale)) ==>
        exists k ::
          && 0 <= k < |cs| && r == Some(cs[k].file) && Usable(cs[k], existing) && IsExact(cs[k], size, scale)
          && (forall j :: 0 <= j < k ==> !(Usable(cs[j], existing) && IsExact(cs[j], size, scale)))
    ensures var r, cs := IconLookup(t, icon, size, scale, existing), Candidates(t, icon);
      (forall j :: 0 <= j < |cs| ==> !(Usable(cs[j], existing) && IsExact(cs[j], size, scale))) && r.Some? ==>
        exists k ::
          && 0 <= k < |cs| && r == Some(cs[k].file) && Usable(cs[k], existing)
          && (forall j :: 0 <= j < |cs| && Usable(cs[j], existing) ==>
                CandidateDistance(cs[k], size, scale) <= CandidateDistance(cs[j], size, scale))
          && (forall j :: 0 <= j < k && Usable(cs[j], existing) ==>
                CandidateDistance(cs[k], size, scale) < CandidateDistance(cs[j], size, scale))
  {
    var cs := Candidates(t, icon);
    FirstExactIsFirst(cs, 0, size, scale, existing);
    ClosestScanIsArgMin(cs, |cs|, size, scale, existing);
  }

  /** `lookup_icon`: the exact pass, and the closest pass only when the exact pass finds nothing. */
  method LookupIcon(t: Theme, icon: string, size: nat, scale: nat, existing: set<string>) returns (r: Option<string>)
    ensures r == IconLookup(t, icon, size, scale, existing)
  {
    r := ExactPass(t, icon, size, scale, existing);
    if r.None? {
      r := ClosestPass(t, icon, size, scale, existing);
    }
  }

  /** The loops of lines 131-136, returning at the first existing file of a matching subdirectory. */
  method ExactPass(t: Theme, icon: string, size: nat, scale: nat, existing: set<string>) returns (r: Option<string>)
    ensures r == ExactMatch(t, icon, size, scale, existing)
  {
    ghost var cs := Candidates(t, icon);
    var i := 0;
    while i < |t.directories|
      invariant 0 <= i <= |t.directories|
      invariant FirstExactFrom(cs, 0, size, scale, existing) == FirstExactFrom(cs, 3 * i, size, scale, existing)
    {
      var subdir := t.directories[i];
      var e := 0;
      while e < |Extensions|
        invariant 0 <= e <= 3
        invariant FirstExactFrom(cs, 0, size, scale, existing) == FirstExactFrom(cs, 3 * i + e, size, scale, existing)
      {
        CandidateAt(t, icon, i, e);
        var rule := Rule(subdir);
        var filename := IconFile(FullPath(t, subdir), icon, Extensions[e]);
        ghost var cand := CandidateOf(t, icon, i, e);
        if rule.Some? && Matches(rule.value, size, scale) {
          if filename in existing {
            assert Usable(cand, existing) && IsExact(cand, size, scale);
            return Some(filename);
          }
        }
        assert !(Usable(cand, existing) && IsExact(cand, size, scale));
        FirstExactSkip(cs, 3 * i + e, size, scale, existing);
        e := e + 1;
      }
      i := i + 1;
    }
    return None;
  }

  /**
   * The loops of lines 138-150, keeping the closest existing file so far.
   * `minimalSize` stands for `minimal_size`: `None` is its initial `MAXINT`
   * (which the code never defines), larger than every distance.
   */
  method ClosestPass(t: Theme, icon: string, size: nat, scale: nat, existing: set<string>) returns (r: Option<string>)
    ensures r == ClosestMatch(t, icon, size, scale, existing)
  {
    ghost var cs := Candidates(t, icon);
    var minimalSize: Option<int> := None;
    var closestFilename: Option<string> := None;
    var i := 0;
    while i < |t.directories|
      invariant 0 <= i <= |t.directories|
      invariant closestFilename.None? ==> minimalSize.None? && ClosestScan(cs, 3 * i, size, scale, existing).None?
      invariant closestFilename.Some? ==>
                  && minimalSize.Some?
                  && ClosestScan(cs, 3 * i, size, scale, existing) == Some(Pick(closestFilename.value, minimalSize.value))
    {
      var subdir := t.directories[i];
      var e := 0;
      while e < |Extensions|
        invariant 0 <= e <= 3
        invariant closestFilename.None? ==> minimalSize.None? && ClosestScan(cs, 3 * i + e, size, scale, existing).None?
        invariant closestFilename.Some? ==>
                    && minimalSize.Some?
                    && ClosestScan(cs, 3 * i + e, size, scale, existing) == Some(Pick(closestFilename.value, minimalSize.value))
      {
        CandidateAt(t, icon, i, e);
        ClosestScanStep(cs, 3 * i + e, size, scale, existing);
        var filename := IconFile(FullPath(t, subdir), icon, Extensions[e]);
        var rule := Rule(subdir);
        if filename in existing && rule.Some? {
          var distance := Distance(rule.value, size, scale);
          if minimalSize.None? || distance < minimalSize.value {
            closestFilename := Some(filename);
            minimalSize := Some(distance);
          }
        }
        e := e + 1;
      }
      assert 3 * i + e == 3 * (i + 1);
      i := i + 1;
    }
    return closestFilename;
  }

  // ---------------------------------------------------------------------
  // The fallback directories (generate_icon.py:153-160)
  // ---------------------------------------------------------------------

  /** The fallback files of directories `i` onwards, directory by directory, extension by extension. */
  function FallbackFilesFrom(dirs: seq<string>, icon: string, i: nat): (fs: seq<string>)
    requires i <= |dirs|
    ensures |fs| == 3 * (|dirs| - i)
    decreases |dirs| - i
  {
    if i == |dirs| then []
    else
      var here := [IconFile(dirs[i], icon, Extensions[0]), IconFile(dirs[i], icon, Extensions[1]), IconFile(dirs[i], icon, Extensions[2])];
      here + FallbackFilesFrom(dirs, icon, i + 1)
  }

  /** The fallback files in the order they are tried. */
  function FallbackFiles(dirs: seq<string>, icon: string): (fs: seq<string>)
    ensures |fs| == 3 * |dirs|
  {
    FallbackFilesFrom(dirs, icon, 0)
  }

  lemma {:induction false} FallbackFilesFromAt(dirs: seq<string>, icon: string, from: nat, i: nat, e: nat)
    requires from <= i < |dirs| && e < 3
    ensures 3 * (i - from) + e < |FallbackFilesFrom(dirs, icon, from)|
    ensures FallbackFilesFrom(dirs, icon, from)[3 * (i - from) + e] == IconFile(dirs[i], icon, Extensions[e])
    decreases i - from
  {
    if from < i {
      FallbackFilesFromAt(dirs, icon, from + 1, i, e);
    }
  }

  /** File `3 * i + e` is the icon in fallback directory `i` with extension `e`. */
  lemma FallbackFileAt(dirs: seq<string>, icon: string, i: nat, e: nat)
    requires i < |dirs| && e < 3
    ensures 3 * i + e < |FallbackFiles(dirs, icon)|
    ensures FallbackFiles(dirs, icon)[3 * i + e] == IconFile(dirs[i], icon, Extensions[e])
  {
    FallbackFilesFromAt(dirs, icon, 0, i, e);
  }

  /** The first file at or after `k` that exists. */
  function FirstExistingFrom(fs: seq<string>, k: nat, existing: set<string>): (r: Option<nat>)
    requires k <= |fs|
    ensures r.None? ==> forall j :: k <= j < |fs| ==> fs[j] !in existing
    ensures r.Some? ==> k <= r.value < |fs| && fs[r.value] in existing
    ensures r.Some? ==> forall j :: k <= j < r.value ==> fs[j] !in existing
    decreases |fs| - k
  {
    if k == |fs| then None
    else if fs[k] in existing then Some(k)
    else FirstExistingFrom(fs, k + 1, existing)
  }

  /** A file that does not exist is passed over. */
  lemma FirstExistingSkip(fs: seq<string>, k: nat, existing: set<string>)
    requires k < |fs| && fs[k] !in existing
    ensures FirstExistingFrom(fs, k, existing) == FirstExistingFrom(fs, k + 1, existing)
  {
  }

  /**
   * `lookup_fallback_icon`: the first existing fallback file; `None` exactly
   * when none of them exists.
   */
  function FallbackLookup(dirs: seq<string>, icon: string, existing: set<string>): (r: Option<string>)
    ensures var fs := FallbackFiles(dirs, icon);
      r.None? <==> forall j :: 0 <= j < |fs| ==> fs[j] !in existing
    ensures var fs := FallbackFiles(dirs, icon);
      r.Some? ==> r.value in existing && exists k ::
                    && 0 <= k < |fs| && fs[k] == r.value
                    && (forall j :: 0 <= j < k ==> fs[j] !in existing)
  {
    var fs := FallbackFiles(dirs, icon);
    match FirstExistingFrom(fs, 0, existing)
    case None => None
    case Some(k) => Some(fs[k])
  }

  /**
   * The loops of `lookup_fallback_icon`, over the fallback directories
   * (the code's `basename list`, which is not valid Python, is taken to be
   * that list).
   */
  method LookupFallbackIcon(dirs: seq<string>, icon: string, existing: set<string>) returns (r: Option<string>)
    ensures r == FallbackLookup(dirs, icon, existing)
  {
    ghost var fs := FallbackFiles(dirs, icon);
    var i := 0;
    while i < |dirs|
      invariant 0 <= i <= |dirs|
      invariant FirstExistingFrom(fs, 0, existing) == FirstExistingFrom(fs, 3 * i, existing)
    {
      var directory := dirs[i];
      var e := 0;
      while e < |Extensions|
        invariant 0 <= e <= 3
        invariant FirstExistingFrom(fs, 0, existing) == FirstExistingFrom(fs, 3 * i + e, existing)
      {
        FallbackFileAt(dirs, icon, i, e);
        var filename := IconFile(directory, icon, Extensions[e]);
        if filename in existing {
          return Some(filename);
        }
        FirstExistingSkip(fs, 3 * i + e, existing);
        e := e + 1;
      }
      i := i + 1;
    }
    return None;
  }
}

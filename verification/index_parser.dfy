/**
 * The reader of a theme's `index.theme` (generate_icon.py, `Theme.__init__`
 * and `ThemeSubdirectory.__init__`). The file is given as its sequence of
 * lines. Each reader is a single pass over the lines with a little state;
 * the passes are the methods `ParseThemeHeader` and `ParseSubdirectory`, and
 * each is proved equal to a declarative definition (`HeaderOf`,
 * `SubdirectoryOf`) whose properties are proved as lemmas.
 */
module IndexParser {
  import opened Wrappers
  import opened Text

  const IconThemeHeader: string := "[Icon Theme]"

  /** The key names a subdirectory section may set; any other key is ignored. */
  const SubdirKeys: seq<string> := ["Type", "Size", "MinSize", "MaxSize", "Scale"]

  /**
   * The `k, v = line.split("=")` of the source: defined only when the line
   * splits into exactly two pieces; every other line is ignored by both readers.
   */
  function KeyValue(line: string): Option<(string, string)> {
    var parts := Split(line, '=');
    if |parts| == 2 then Some((parts[0], parts[1])) else None
  }

  /**
   * A line is a `key=value` line exactly when it holds one `=`, and then it
   * is the key, the `=` and the value, in that order.
   */
  lemma KeyValueMeaning(line: string)
    ensures KeyValue(line).Some? <==> Count(line, '=') == 1
    ensures KeyValue(line).Some? ==>
      var (k, v) := KeyValue(line).value;
      line == k + "=" + v && '=' !in k && '=' !in v
  {
    SplitCount(line, '=');
    var parts := Split(line, '=');
    if |parts| == 2 {
      JoinSplit(line, '=');
      SplitPieces(line, '=');
      assert Join(parts, '=') == parts[0] + "=" + Join(parts[1..], '=');
    }
  }

  /** Whether `line`, once stripped, is a `key=value` line for `key`. */
  predicate IsKeyLine(line: string, key: string) {
    var kv := KeyValue(Strip(line));
    kv.Some? && kv.value.0 == key
  }

  /** The value written on a key line. */
  function ValueOf(line: string): string
    requires KeyValue(Strip(line)).Some?
  {
    KeyValue(Strip(line)).value.1
  }

  // ---------------------------------------------------------------------
  // The `[Icon Theme]` header (generate_icon.py:43-57)
  // ---------------------------------------------------------------------

  /**
   * What the header pass records: the split `Inherits` and `Directories`
   * values, or `None` when the key was never seen (the source leaves the
   * attribute at `None`).
   */
  datatype Header = Header(inherits: Option<seq<string>>, directories: Option<seq<string>>)

  /** A line that stops the header pass: a `[...]` line other than `[Icon Theme]`. */
  predicate EndsHeader(line: string) {
    var l := Strip(line);
    StartsWithBracket(l) && l != IconThemeHeader
  }

  /** The effect of one header line: a later `Inherits` or `Directories` line replaces an earlier one. */
  function HeaderStep(h: Header, line: string): Header {
    match KeyValue(Strip(line))
    case None => h
    case Some((k, v)) =>
      if k == "Inherits" then h.(inherits := Some(Split(v, ',')))
      else if k == "Directories" then h.(directories := Some(Split(v, ',')))
      else h
  }

  /** The header state after the first `n` lines, if none of them stopped the pass. */
  function HeaderFields(lines: seq<string>, n: nat): Header
    requires n <= |lines|
  {
    if n == 0 then Header(None, None) else HeaderStep(HeaderFields(lines, n - 1), lines[n - 1])
  }

  /** The index of the first line at or after `from` that stops the header pass, or `|lines|`. */
  function HeaderEnd(lines: seq<string>, from: nat): (e: nat)
    requires from <= |lines|
    ensures from <= e <= |lines|
    ensures forall j :: from <= j < e ==> !EndsHeader(lines[j])
    ensures e < |lines| ==> EndsHeader(lines[e])
    decreases |lines| - from
  {
    if from == |lines| || EndsHeader(lines[from]) then from else HeaderEnd(lines, from + 1)
  }

  /** The header of an index file: every line before the first section other than `[Icon Theme]`. */
  function HeaderOf(lines: seq<string>): Header {
    HeaderFields(lines, HeaderEnd(lines, 0))
  }

  /** The header pass of `Theme.__init__`: a loop over the lines that stops at the first foreign section. */
  method ParseThemeHeader(lines: seq<string>) returns (h: Header)
    ensures h == HeaderOf(lines)
  {
    var parents: Option<seq<string>> := None;
    var directories: Option<seq<string>> := None;
    var i := 0;
    while i < |lines|
      invariant i <= HeaderEnd(lines, 0)
      invariant Header(parents, directories) == HeaderFields(lines, i)
    {
      var line := Strip(lines[i]);
      if StartsWithBracket(line) && line != IconThemeHeader {
        break;
      }
      var splitLine := Split(line, '=');
      if |splitLine| == 2 {
        var k, v := splitLine[0], splitLine[1];
        var vs := Split(v, ',');
        if k == "Inherits" {
          parents := Some(vs);
        }
        if k == "Directories" {
          directories := Some(vs);
        }
      }
      i := i + 1;
    }
    h := Header(parents, directories);
  }

  /** The header field that a key sets. */
  function HeaderField(h: Header, key: string): Option<seq<string>> {
    if key == "Inherits" then h.inherits else h.directories
  }

  /** The last line among `lines[from..stop]` that is a `key=value` line for `key`. */
  function LastKeyLine(lines: seq<string>, from: nat, stop: nat, key: string): (r: Option<nat>)
    requires from <= stop <= |lines|
    ensures r.None? ==> forall j :: from <= j < stop ==> !IsKeyLine(lines[j], key)
    ensures r.Some? ==> from <= r.value < stop && IsKeyLine(lines[r.value], key)
    ensures r.Some? ==> forall j :: r.value < j < stop ==> !IsKeyLine(lines[j], key)
    decreases stop
  {
    if stop == from then None
    else if IsKeyLine(lines[stop - 1], key) then Some(stop - 1)
    else LastKeyLine(lines, from, stop - 1, key)
  }

  /**
   * Each header list comes from the LAST line for its key before the first
   * foreign section, and is that line's value split on `,` in written order;
   * with no such line the list is absent.
   */
  lemma {:induction false} HeaderFieldSource(lines: seq<string>, n: nat, key: string)
    requires n <= |lines|
    requires key == "Inherits" || key == "Directories"
    ensures var f, last := HeaderField(HeaderFields(lines, n), key), LastKeyLine(lines, 0, n, key);
      && (f.None? <==> last.None?)
      && (f.Some? ==> f.value == Split(ValueOf(lines[last.value]), ','))
  {
    if n > 0 {
      HeaderFieldSource(lines, n - 1, key);
    }
  }

  /**
   * The header lists in the terms of the file: absent when no line before
   * the first foreign section sets the key, and otherwise the split value
   * of the last line that does.
   */
  lemma HeaderOfSource(lines: seq<string>, key: string)
    requires key == "Inherits" || key == "Directories"
    ensures var f, e := HeaderField(HeaderOf(lines), key), HeaderEnd(lines, 0);
      f.None? ==> forall j :: 0 <= j < e ==> !IsKeyLine(lines[j], key)
    ensures var f, e := HeaderField(HeaderOf(lines), key), HeaderEnd(lines, 0);
      f.Some? ==> exists j ::
                    && 0 <= j < e && IsKeyLine(lines[j], key) && f.value == Split(ValueOf(lines[j]), ',')
                    && (forall j' :: j < j' < e ==> !IsKeyLine(lines[j'], key))
  {
    var e := HeaderEnd(lines, 0);
    HeaderFieldSource(lines, e, key);
    var last := LastKeyLine(lines, 0, e, key);
    if last.Some? {
      var j := last.value;
      assert 0 <= j < e && IsKeyLine(lines[j], key);
    }
  }

  /** The header state after `n` lines depends on those lines only. */
  lemma {:induction false} HeaderFieldsPrefix(lines: seq<string>, other: seq<string>, n: nat)
    requires n <= |lines| && n <= |other|
    requires forall j :: 0 <= j < n ==> lines[j] == other[j]
    ensures HeaderFields(lines, n) == HeaderFields(other, n)
  {
    if n > 0 {
      HeaderFieldsPrefix(lines, other, n - 1);
    }
  }

  /** Where the header ends depends only on the lines up to and including that point. */
  lemma {:induction false} HeaderEndAgrees(lines: seq<string>, other: seq<string>, from: nat)
    requires from <= HeaderEnd(lines, 0) < |lines| && HeaderEnd(lines, 0) < |other|
    requires forall j :: from <= j <= HeaderEnd(lines, 0) ==> lines[j] == other[j]
    ensures HeaderEnd(other, from) == HeaderEnd(lines, from)
    decreases HeaderEnd(lines, 0) - from
  {
    var e := HeaderEnd(lines, 0);
    assert lines[from] == other[from];
    if from < e {
      assert !EndsHeader(lines[from]);
      HeaderEndAgrees(lines, other, from + 1);
    }
  }

  /**
   * The header pass stops at the first `[...]` line other than
   * `[Icon Theme]`: two files that agree up to and including that line have
   * the same header, whatever follows it.
   */
  lemma HeaderOfAgrees(lines: seq<string>, other: seq<string>)
    requires HeaderEnd(lines, 0) < |lines| && HeaderEnd(lines, 0) < |other|
    requires forall j :: 0 <= j <= HeaderEnd(lines, 0) ==> lines[j] == other[j]
    ensures HeaderOf(other) == HeaderOf(lines)
  {
    var e := HeaderEnd(lines, 0);
    HeaderEndAgrees(lines, other, 0);
    HeaderFieldsPrefix(lines, other, e);
  }

  // ---------------------------------------------------------------------
  // One `[relpath]` section (generate_icon.py:71-98)
  // ---------------------------------------------------------------------

  /**
   * A subdirectory as the section reader leaves it: its relative path and
   * the raw value of each key it recognises, `None` for a key never seen.
   */
  datatype SubdirEntry = SubdirEntry(
    relpath: string,
    typ: Option<string>,
    size: Option<string>,
    minSize: Option<string>,
    maxSize: Option<string>,
    scale: Option<string>)

  /** The line that opens the section of `relpath`: `f"[{relpath}]"`. */
  function SectionHeader(relpath: string): string {
    "[" + relpath + "]"
  }

  /** A subdirectory before any of its keys is read. */
  function Blank(relpath: string): SubdirEntry {
    SubdirEntry(relpath, None, None, None, None, None)
  }

  /** The effect of one line inside the section: a later line for a key replaces an earlier one. */
  function SubdirStep(e: SubdirEntry, line: string): SubdirEntry {
    match KeyValue(Strip(line))
    case None => e
    case Some((k, v)) =>
      if k == "Type" then e.(typ := Some(v))
      else if k == "Size" then e.(size := Some(v))
      else if k == "MinSize" then e.(minSize := Some(v))
      else if k == "MaxSize" then e.(maxSize := Some(v))
      else if k == "Scale" then e.(scale := Some(v))
      else e
  }

  /** The entry after reading the lines `from .. to - 1` into `e`. */
  function SubdirFields(e: SubdirEntry, lines: seq<string>, from: nat, stop: nat): SubdirEntry
    requires from <= stop <= |lines|
    decreases stop
  {
    if stop == from then e else SubdirStep(SubdirFields(e, lines, from, stop - 1), lines[stop - 1])
  }

  /** The index of the first line at or after `from` that is exactly the section header of `relpath`. */
  function SectionStart(lines: seq<string>, relpath: string, from: nat): (r: Option<nat>)
    requires from <= |lines|
    ensures r.None? ==> forall j :: from <= j < |lines| ==> Strip(lines[j]) != SectionHeader(relpath)
    ensures r.Some? ==> from <= r.value < |lines| && Strip(lines[r.value]) == SectionHeader(relpath)
    ensures r.Some? ==> forall j :: from <= j < r.value ==> Strip(lines[j]) != SectionHeader(relpath)
    decreases |lines| - from
  {
    if from == |lines| then None
    else if Strip(lines[from]) == SectionHeader(relpath) then Some(from)
    else SectionStart(lines, relpath, from + 1)
  }

  /** The index of the first `[...]` line at or after `from`, or `|lines|`. */
  function SectionEnd(lines: seq<string>, from: nat): (e: nat)
    requires from <= |lines|
    ensures from <= e <= |lines|
    ensures forall j :: from <= j < e ==> !StartsWithBracket(Strip(lines[j]))
    ensures e < |lines| ==> StartsWithBracket(Strip(lines[e]))
    decreases |lines| - from
  {
    if from == |lines| || StartsWithBracket(Strip(lines[from])) then from else SectionEnd(lines, from + 1)
  }

  /**
   * The subdirectory `relpath` as described by the index file: the keys on
   * the lines after the first exact `[relpath]` line and before the next
   * `[...]` line; no keys at all if the header never occurs.
   */
  function SubdirectoryOf(lines: seq<string>, relpath: string): (e: SubdirEntry)
    ensures e.relpath == relpath
  {
    match SectionStart(lines, relpath, 0)
    case None => Blank(relpath)
    case Some(h) =>
      SubdirFieldsRelpath(lines, relpath, h + 1, SectionEnd(lines, h + 1));
      SubdirFields(Blank(relpath), lines, h + 1, SectionEnd(lines, h + 1))
  }

  /**
   * The section pass of `ThemeSubdirectory.__init__`: a loop over the lines
   * with a `read` flag that the exact header line raises and the next `[`
   * line ends. (The source never initialises `read`; it is meant to start
   * false, as here.)
   */
  method ParseSubdirectory(lines: seq<string>, relpath: string) returns (e: SubdirEntry)
    ensures e == SubdirectoryOf(lines, relpath)
  {
    e := Blank(relpath);
    var read := false;
    var i := 0;
    while i < |lines|
      invariant 0 <= i <= |lines|
      invariant !read ==> e == Blank(relpath) && SectionStart(lines, relpath, 0) == SectionStart(lines, relpath, i)
      invariant read ==> SectionStart(lines, relpath, 0).Some?
      invariant read ==> var h := SectionStart(lines, relpath, 0).value;
        h < i <= SectionEnd(lines, h + 1) && e == SubdirFields(Blank(relpath), lines, h + 1, i)
    {
      var line := Strip(lines[i]);
      if read {
        if StartsWithBracket(line) {
          break;
        }
        ghost var before := e;
        var splitLine := Split(line, '=');
        if |splitLine| == 2 {
          var k, v := splitLine[0], splitLine[1];
          if k == "Type" {
            e := e.(typ := Some(v));
          } else if k == "Size" {
            e := e.(size := Some(v));
          } else if k == "MinSize" {
            e := e.(minSize := Some(v));
          } else if k == "MaxSize" {
            e := e.(maxSize := Some(v));
          } else if k == "Scale" {
            e := e.(scale := Some(v));
          }
        }
        assert e == SubdirStep(before, lines[i]);
      }
      if line == SectionHeader(relpath) {
        read := true;
      }
      i := i + 1;
    }
  }

  /** Whether line `j` lies strictly inside the section of `relpath` (after its header, before the next `[` line). */
  predicate InSection(lines: seq<string>, relpath: string, j: int) {
    var s := SectionStart(lines, relpath, 0);
    s.Some? && s.value < j < SectionEnd(lines, s.value + 1)
  }

  /** The raw value an entry holds for a section key. */
  function EntryField(e: SubdirEntry, key: string): Option<string> {
    if key == "Type" then e.typ
    else if key == "Size" then e.size
    else if key == "MinSize" then e.minSize
    else if key == "MaxSize" then e.maxSize
    else e.scale
  }

  /** One line sets a key's field exactly when it is a line for that key. */
  lemma EntryFieldStep(e: SubdirEntry, line: string, key: string)
    requires key in SubdirKeys
    ensures SubdirStep(e, line).relpath == e.relpath
    ensures EntryField(SubdirStep(e, line), key)
      == if IsKeyLine(line, key) then Some(ValueOf(line)) else EntryField(e, key)
  {
  }

  /** Reading lines `from .. stop - 1` leaves the relative path alone. */
  lemma {:induction false} SubdirFieldsRelpath(lines: seq<string>, relpath: string, from: nat, stop: nat)
    requires from <= stop <= |lines|
    ensures SubdirFields(Blank(relpath), lines, from, stop).relpath == relpath
    decreases stop
  {
    if stop > from {
      SubdirFieldsRelpath(lines, relpath, from, stop - 1);
      EntryFieldStep(SubdirFields(Blank(relpath), lines, from, stop - 1), lines[stop - 1], "Type");
    }
  }

  /** After reading lines `from .. stop - 1`, a key holds the value of the last of them that is a line for it, if any. */
  lemma {:induction false} SubdirFieldsLast(lines: seq<string>, relpath: string, from: nat, stop: nat, key: string)
    requires from <= stop <= |lines|
    requires key in SubdirKeys
    ensures var f, last := EntryField(SubdirFields(Blank(relpath), lines, from, stop), key), LastKeyLine(lines, from, stop, key);
      && (f.None? <==> last.None?)
      && (f.Some? ==> f.value == ValueOf(lines[last.value]))
    decreases stop
  {
    if stop > from {
      SubdirFieldsLast(lines, relpath, from, stop - 1, key);
      EntryFieldStep(SubdirFields(Blank(relpath), lines, from, stop - 1), lines[stop - 1], key);
    }
  }

  /**
   * A subdirectory's `Type`, `Size`, `MinSize`, `MaxSize` and `Scale` come
   * only from `key=value` lines inside its own section, the last one for a
   * key winning; a key with no line there stays unset.
   */
  lemma SubdirectoryFieldSource(lines: seq<string>, relpath: string, key: string)
    requires key in SubdirKeys
    ensures var f := EntryField(SubdirectoryOf(lines, relpath), key);
      f.None? ==> forall j :: 0 <= j < |lines| && InSection(lines, relpath, j) ==> !IsKeyLine(lines[j], key)
    ensures var f := EntryField(SubdirectoryOf(lines, relpath), key);
      f.Some? ==> exists j ::
                    && 0 <= j < |lines| && InSection(lines, relpath, j) && IsKeyLine(lines[j], key)
                    && f.value == ValueOf(lines[j])
                    && (forall j' :: j < j' < |lines| && InSection(lines, relpath, j') ==> !IsKeyLine(lines[j'], key))
  {
    match SectionStart(lines, relpath, 0)
    case None =>
    case Some(h) =>
      var stop := SectionEnd(lines, h + 1);
      SubdirFieldsLast(lines, relpath, h + 1, stop, key);
      var last := LastKeyLine(lines, h + 1, stop, key);
      if last.Some? {
        var j := last.value;
        assert InSection(lines, relpath, j) && IsKeyLine(lines[j], key);
      }
  }
}

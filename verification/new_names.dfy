/** The names `RearrangeAudioFiles.py` gives an album's new directory, its
    FLAC files and its cuesheet and extraction log, with the pieces of
    Windows' `os.path` it builds them with, and the scan that reads a disc
    number back out of a cuesheet or log file name. */
module NewNames {
  import opened Wrappers
  import opened Text
  import opened Hierarchy

  /** The command-line options the planner consults: the destination root
      (empty when none is given, as `args.dest` is then None), the maximum
      path length (`-l`, default 259), `-s`, `-t` (whether a truncation is
      warned about) and the `-o tag value` overrides in command-line order. */
  datatype Options = Options(
    dest: string,
    maxLen: int,
    sortedArtist: bool,
    truncateWarn: bool,
    overrides: seq<(string, string)>)

  const DefaultMaxPath: int := 259

  /** The separator Windows' `os.path.join` inserts, and the two it accepts. */
  const Sep: char := '\\'

  predicate IsSep(c: char) { c == '\\' || c == '/' }

  predicate NoSep(s: string) { forall i :: 0 <= i < |s| ==> !IsSep(s[i]) }

  predicate NoReserved(s: string) { forall i :: 0 <= i < |s| ==> !IsReserved(s[i]) }

  /** `os.path.join(path, name)` for a `name` that neither starts with a
      separator nor with a drive: a separator goes between the two unless
      `path` is empty or already ends in one. */
  function JoinPath(path: string, name: string): (r: string)
    ensures |r| == |path| + |name| + (if path == "" || IsSep(path[|path| - 1]) then 0 else 1)
  {
    if path != "" && !IsSep(path[|path| - 1]) then path + [Sep] + name else path + name
  }

  /** `os.path.join(path, *names)`. */
  function JoinAll(path: string, names: seq<string>): string
    decreases |names|
  {
    if names == [] then path else JoinAll(JoinPath(path, names[0]), names[1..])
  }

  /** Joining one component after another puts exactly one separator before
      each, as long as the root and every component are non-empty and no
      component ends in a separator. */
  lemma {:induction false} JoinAllIsJoin(path: string, names: seq<string>)
    requires path != "" && !IsSep(path[|path| - 1])
    requires |names| > 0 && forall i :: 0 <= i < |names| ==> names[i] != "" && NoSep(names[i])
    ensures JoinAll(path, names) == path + [Sep] + Join(names, [Sep])
    decreases |names|
  {
    var first := path + [Sep] + names[0];
    assert JoinPath(path, names[0]) == first;
    JoinCons(names, [Sep]);
    if |names| > 1 {
      assert !IsSep(first[|first| - 1]) by {
        assert first[|first| - 1] == names[0][|names[0]| - 1];
      }
      JoinAllIsJoin(first, names[1..]);
      assert path + [Sep] + (names[0] + [Sep] + Join(names[1..], [Sep]))
          == first + [Sep] + Join(names[1..], [Sep]);
    }
  }

  /** The index of the last '.' in `s`, or -1. */
  function LastDot(s: string): (i: int)
    ensures -1 <= i < |s|
    ensures i >= 0 ==> s[i] == '.'
    ensures forall j :: i < j < |s| ==> s[j] != '.'
  {
    if s == [] then -1 else if s[|s| - 1] == '.' then |s| - 1 else LastDot(s[..|s| - 1])
  }

  /** The index of the last separator in `s`, or -1. */
  function LastSep(s: string): (i: int)
    ensures -1 <= i < |s|
    ensures i >= 0 ==> IsSep(s[i])
    ensures forall j :: i < j < |s| ==> !IsSep(s[j])
  {
    if s == [] then -1 else if IsSep(s[|s| - 1]) then |s| - 1 else LastSep(s[..|s| - 1])
  }

  /** True when `s[from..to]` holds a character other than '.'. */
  predicate NotAllDots(s: string, from: int, to: int)
    requires 0 <= from <= to <= |s|
  {
    exists j :: from <= j < to && s[j] != '.'
  }

  /** `os.path.splitext(p)`: the extension runs from the last dot of the last
      path component to the end, unless only dots precede that dot in the
      component (".cue" alone is a base name, not an extension). */
  function SplitExt(p: string): (r: (string, string))
    ensures r.0 + r.1 == p
    ensures r.1 == "" || (r.1[0] == '.' && '.' !in r.1[1..] && NoSep(r.1))
  {
    var dot := LastDot(p);
    var sep := LastSep(p);
    if dot > sep && NotAllDots(p, sep + 1, dot) then
      ExtensionShape(p, dot, sep);
      (p[..dot], p[dot..])
    else (p, "")
  }

  lemma ExtensionShape(p: string, dot: int, sep: int)
    requires -1 <= sep < dot < |p| && p[dot] == '.'
    requires forall j :: dot < j < |p| ==> p[j] != '.'
    requires forall j :: sep < j < |p| ==> !IsSep(p[j])
    ensures var e := p[dot..]; e[0] == '.' && '.' !in e[1..] && NoSep(e)
  {
    var e := p[dot..];
    assert forall j :: 0 <= j < |e| ==> e[j] == p[dot + j];
    assert forall j :: 0 <= j < |e[1..]| ==> e[1..][j] == p[dot + 1 + j];
  }

  /** A name without separators whose first character is not a dot, followed
      by a dot and a word without dots, splits at that dot. */
  lemma SplitExtOf(base: string, word: string)
    requires base != "" && base[0] != '.' && NoSep(base)
    requires '.' !in word && NoSep(word)
    ensures SplitExt(base + "." + word) == (base, "." + word)
  {
    var p := base + "." + word;
    assert forall j :: |base| < j < |p| ==> p[j] == word[j - |base| - 1];
    assert p[|base|] == '.';
    assert LastDot(p) == |base|;
    assert LastSep(p) == -1 by {
      assert forall j :: 0 <= j < |p| ==> !IsSep(p[j]);
    }
    assert p[0] != '.';
    assert NotAllDots(p, 0, |base|);
    assert p[..|base|] == base && p[|base|..] == "." + word;
  }

  /** The tag holds at least one value. */
  predicate HasValue(t: Track, tag: string)
  {
    tag in t.tags && |t.tags[tag]| > 0
  }

  /** `t[tag][0]`. */
  function First(t: Track, tag: string): string
    requires HasValue(t, tag)
  {
    t.tags[tag][0]
  }

  /** The tags `get_new_path` reads from the album's identical tags. */
  predicate PathReady(id: Track, classical: bool, compilation: bool, sortedArtist: bool)
  {
    && HasValue(id, "album") && HasValue(id, "date")
    && if classical then HasValue(id, "albumartistterse") && (compilation || HasValue(id, "composersort"))
       else if sortedArtist then HasValue(id, "album artist sort")
       else HasValue(id, "albumartist")
  }

  /** The directory levels `get_new_path` builds under the destination root,
      before reserved characters are replaced. */
  function PathDirs(id: Track, classical: bool, compilation: bool, sortedArtist: bool): seq<string>
    requires PathReady(id, classical, compilation, sortedArtist)
  {
    var top :=
      if classical then ["Classical", if compilation then "Compilations" else First(id, "composersort")]
      else if sortedArtist then [First(id, "album artist sort")]
      else [First(id, "albumartist")];
    var name := First(id, "album") + (if classical then " - " + First(id, "albumartistterse") else "")
      + " (" + First(id, "date") + ")";
    top + [name]
  }

  /** Each name with its reserved characters replaced. */
  function Cleaned(names: seq<string>): (r: seq<string>)
    ensures |r| == |names| && forall i :: 0 <= i < |names| ==> r[i] == ReplaceReservedChars(names[i])
  {
    seq(|names|, i requires 0 <= i < |names| => ReplaceReservedChars(names[i]))
  }

  /** `get_new_path(album)`: the album's directory under the destination. */
  function NewPath(dest: string, id: Track, classical: bool, compilation: bool, sortedArtist: bool): string
    requires dest != "" && PathReady(id, classical, compilation, sortedArtist)
  {
    JoinAll(dest, Cleaned(PathDirs(id, classical, compilation, sortedArtist)))
  }

  lemma CleanedNoSep(s: string)
    ensures NoSep(ReplaceReservedChars(s))
  {
    var r := ReplaceReservedChars(s);
    forall i | 0 <= i < |r| ensures !IsSep(r[i]) {
      assert !IsReserved(r[i]);
    }
  }

  /** The new path is the destination followed by one directory level per
      component, in order: "Classical" then "Compilations" or the composer
      sort name for classical albums, the album artist (or its sort form
      with `-s`) otherwise, and last "album[ - albumartistterse] (date)";
      each level is a single name because the separators it might contain
      have been replaced. The tag values naming the upper levels must be
      non-empty: an empty one would leave its level out. */
  lemma NewPathLevels(dest: string, id: Track, classical: bool, compilation: bool, sortedArtist: bool)
    requires dest != "" && !IsSep(dest[|dest| - 1])
    requires PathReady(id, classical, compilation, sortedArtist)
    requires classical && !compilation ==> First(id, "composersort") != ""
    requires !classical && sortedArtist ==> First(id, "album artist sort") != ""
    requires !classical && !sortedArtist ==> First(id, "albumartist") != ""
    ensures var p := NewPath(dest, id, classical, compilation, sortedArtist);
      && StartsWith(p, dest + [Sep])
      && SplitOn(p[|dest| + 1..], Sep) == Cleaned(PathDirs(id, classical, compilation, sortedArtist))
    ensures var levels := Cleaned(PathDirs(id, classical, compilation, sortedArtist));
      && |levels| == (if classical then 3 else 2)
      && (classical ==> levels[0] == "Classical")
      && (classical && compilation ==> levels[1] == "Compilations")
      && (classical && !compilation ==> levels[1] == ReplaceReservedChars(First(id, "composersort")))
      && (!classical ==> levels[0] == ReplaceReservedChars(First(id, if sortedArtist then "album artist sort" else "albumartist")))
      && levels[|levels| - 1] == ReplaceReservedChars(PathDirs(id, classical, compilation, sortedArtist)[|levels| - 1])
  {
    var dirs := PathDirs(id, classical, compilation, sortedArtist);
    var levels := Cleaned(dirs);
    forall i | 0 <= i < |levels| ensures levels[i] != "" && NoSep(levels[i]) && Sep !in levels[i] {
      CleanedNoSep(dirs[i]);
      assert |dirs[i]| > 0;
      assert forall k :: 0 <= k < |levels[i]| ==> levels[i][k] != Sep;
    }
    ReplaceReservedCharsClean("Classical");
    ReplaceReservedCharsClean("Compilations");
    JoinAllIsJoin(dest, levels);
    var p := NewPath(dest, id, classical, compilation, sortedArtist);
    assert p[|dest| + 1..] == Join(levels, [Sep]);
    SplitOnJoin(levels, Sep);
  }

  /** The tags `get_new_audio_file_name` reads from a track. */
  predicate HasAudioTags(t: Track, classical: bool)
  {
    && HasValue(t, "title") && HasValue(t, "disctotal")
    && if classical then HasValue(t, "composerterse") && HasValue(t, "artistterse") else HasValue(t, "artist")
  }

  /** `"Disc %d - " % discnum` on a set of more than one disc, else nothing. */
  function DiscPrefix(disctotal: string, discnum: int): string
  {
    if disctotal != "1" then "Disc " + IntToString(discnum) + " - " else ""
  }

  /** What follows the title: the composer and performer in short form for
      classical albums, the artist otherwise. */
  function Credit(t: Track, classical: bool): string
    requires HasAudioTags(t, classical)
  {
    if classical then " (" + First(t, "composerterse") + " - " + First(t, "artistterse") + ")"
    else " (" + First(t, "artist") + ")"
  }

  /** `get_new_audio_file_name(album, discnum, tracknum, track)`. */
  function AudioName(classical: bool, discnum: int, tracknum: int, t: Track): string
    requires HasAudioTags(t, classical)
  {
    var name := TwoDigits(tracknum) + " " + First(t, "title");
    var name := DiscPrefix(First(t, "disctotal"), discnum) + name;
    ReplaceReservedChars(name + Credit(t, classical) + ".flac")
  }

  lemma ReservedFreePrefix(pre: string, s: string)
    requires NoReserved(pre)
    ensures ReplaceReservedChars(pre + s) == pre + ReplaceReservedChars(s)
  {
    ReplaceReservedCharsAppend(pre, s);
    ReplaceReservedCharsClean(pre);
  }

  lemma ReservedFreeSuffix(s: string, post: string)
    requires NoReserved(post)
    ensures ReplaceReservedChars(s + post) == ReplaceReservedChars(s) + post
  {
    ReplaceReservedCharsAppend(s, post);
    ReplaceReservedCharsClean(post);
  }

  lemma NumberReservedFree(n: int)
    ensures NoReserved(IntToString(n))
    ensures 0 <= n < 100 ==> NoReserved(TwoDigits(n))
  {
    var d := NatToString(if n < 0 then -n else n);
    assert forall i :: 0 <= i < |d| ==> IsDigit(d[i]);
    if n < 0 {
      assert forall i :: 0 < i < |IntToString(n)| ==> IntToString(n)[i] == d[i - 1];
    }
  }

  lemma DiscPrefixShape(disctotal: string, discnum: int)
    ensures NoReserved(DiscPrefix(disctotal, discnum))
    ensures disctotal != "1" ==> StartsWith(DiscPrefix(disctotal, discnum), "Disc ")
  {
    var n := IntToString(discnum);
    NumberReservedFree(discnum);
    if disctotal != "1" {
      var p := "Disc " + n + " - ";
      assert forall i :: 0 <= i < 5 ==> !IsReserved(p[i]);
      assert forall i :: 5 <= i < 5 + |n| ==> p[i] == n[i - 5];
      assert forall i :: 5 + |n| <= i < |p| ==> p[i] in " - ";
    }
  }

  /** `int()` of the two-digit form gives the number back. */
  lemma TwoDigitsValue(n: int)
    requires 0 <= n < 100
    ensures AllDigits(TwoDigits(n)) && DigitsValue(TwoDigits(n)) == n
  {
    var s := TwoDigits(n);
    if n < 10 {
      assert s == "0" + [DigitChar(n)];
      assert s[..1] == "0" && s[..1][..0] == "";
      assert DigitsValue(s[..1]) == 0;
    } else {
      DigitsValueOfNatToString(n);
    }
  }

  lemma LeadClean(disctotal: string, discnum: int, tracknum: int)
    requires 0 <= tracknum < 100
    ensures NoReserved(DiscPrefix(disctotal, discnum) + TwoDigits(tracknum) + " ")
  {
    var pre := DiscPrefix(disctotal, discnum);
    var td := TwoDigits(tracknum);
    var lead := pre + td + " ";
    DiscPrefixShape(disctotal, discnum);
    NumberReservedFree(tracknum);
    assert forall i :: 0 <= i < |pre| ==> lead[i] == pre[i];
    assert forall i :: |pre| <= i < |pre| + 2 ==> lead[i] == td[i - |pre|];
  }

  lemma FlacClean()
    ensures NoReserved(".flac")
  {
    assert forall i :: 0 <= i < 5 ==> ".flac"[i] in ".flac";
  }

  /** Only the tag values of an audio file name go through the replacement
      of reserved characters: the disc prefix, the track number and the
      extension come through as they are. */
  lemma AudioNameParts(classical: bool, discnum: int, tracknum: int, t: Track)
    requires HasAudioTags(t, classical) && 0 <= tracknum < 100
    ensures AudioName(classical, discnum, tracknum, t)
      == DiscPrefix(First(t, "disctotal"), discnum) + TwoDigits(tracknum) + " "
        + ReplaceReservedChars(First(t, "title") + Credit(t, classical)) + ".flac"
  {
    var pre := DiscPrefix(First(t, "disctotal"), discnum);
    var td := TwoDigits(tracknum);
    var title := First(t, "title");
    var credit := Credit(t, classical);
    var tail := title + credit;
    var lead := pre + td + " ";
    LeadClean(First(t, "disctotal"), discnum, tracknum);
    FlacClean();
    assert pre + (td + " " + title) + credit + ".flac" == lead + (tail + ".flac");
    ReservedFreePrefix(lead, tail + ".flac");
    ReservedFreeSuffix(tail, ".flac");
  }

  /** The new audio file name is: "Disc N - " when the set has more than one
      disc, the track number zero-padded to two digits (which reads back as
      the track number, `TwoDigitsValue`), a space, the title, the credit and
      ".flac". So the name starts with "Disc " exactly when disctotal is not
      "1". */
  lemma AudioNameLayout(classical: bool, discnum: int, tracknum: int, t: Track)
    requires HasAudioTags(t, classical) && 0 <= tracknum < 100
    ensures var r := AudioName(classical, discnum, tracknum, t);
      var pre := DiscPrefix(First(t, "disctotal"), discnum);
      && r[|pre|..|pre| + 2] == TwoDigits(tracknum)
      && (StartsWith(r, "Disc ") <==> First(t, "disctotal") != "1")
      && EndsWith(r, ".flac")
  {
    var pre := DiscPrefix(First(t, "disctotal"), discnum);
    var td := TwoDigits(tracknum);
    var rest := ReplaceReservedChars(First(t, "title") + Credit(t, classical));
    AudioNameParts(classical, discnum, tracknum, t);
    var r := pre + td + " " + rest + ".flac";
    assert r[|pre|..|pre| + 2] == td;
    assert r[|r| - 5..] == ".flac";
    DiscPrefixShape(First(t, "disctotal"), discnum);
    if First(t, "disctotal") == "1" {
      assert pre == "" && r[0] == td[0] && IsDigit(td[0]);
    } else {
      assert r[..5] == pre[..5];
    }
  }

  /** A renamed audio file's extension is ".flac", so truncating it keeps
      that extension. */
  lemma AudioNameExtension(classical: bool, discnum: int, tracknum: int, t: Track)
    requires HasAudioTags(t, classical) && 0 <= tracknum < 100
    ensures var r := AudioName(classical, discnum, tracknum, t);
      SplitExt(r) == (r[..|r| - 5], ".flac")
  {
    var r := AudioName(classical, discnum, tracknum, t);
    AudioNameLayout(classical, discnum, tracknum, t);
    var base := r[..|r| - 5];
    assert r == base + "." + "flac";
    var pre := DiscPrefix(First(t, "disctotal"), discnum);
    assert base[0] != '.' by {
      if pre == "" {
        assert base[0] == r[0] == TwoDigits(tracknum)[0];
        assert r[0..2] == TwoDigits(tracknum);
      } else {
        DiscPrefixShape(First(t, "disctotal"), discnum);
        assert base[0] == r[0] == 'D';
      }
    }
    assert NoSep(base) by {
      forall i | 0 <= i < |base| ensures !IsSep(base[i]) {
        assert !IsReserved(r[i]);
      }
    }
    SplitExtOf(base, "flac");
  }

  /** The tags `get_new_auxiliary_file_basename` reads from a disc's
      identical tags. */
  predicate HasAuxTags(id: Track)
  {
    HasValue(id, "albumartist") && HasValue(id, "album") && HasValue(id, "disctotal")
  }

  /** `" (Disc %d)" % discnum`. */
  function DiscSuffixText(discnum: int): string
  {
    " (Disc " + IntToString(discnum) + ")"
  }

  /** `get_new_auxiliary_file_basename(discnum, disc)`. */
  function AuxBase(discnum: int, id: Track): string
    requires HasAuxTags(id)
  {
    var name := First(id, "albumartist") + " - " + First(id, "album");
    var name := if First(id, "disctotal") != "1" then name + DiscSuffixText(discnum) else name;
    ReplaceReservedChars(name)
  }

  /** The auxiliary base name is "albumartist - album", with " (Disc N)"
      appended when the set has more than one disc; the suffix survives the
      replacement of reserved characters unchanged. */
  lemma AuxBaseLayout(discnum: int, id: Track)
    requires HasAuxTags(id)
    ensures AuxBase(discnum, id) == ReplaceReservedChars(First(id, "albumartist") + " - " + First(id, "album"))
      + (if First(id, "disctotal") != "1" then DiscSuffixText(discnum) else "")
  {
    if First(id, "disctotal") != "1" {
      DiscSuffixClean(discnum);
      ReservedFreeSuffix(First(id, "albumartist") + " - " + First(id, "album"), DiscSuffixText(discnum));
    }
  }

  lemma DiscSuffixClean(discnum: int)
    ensures NoReserved(DiscSuffixText(discnum))
  {
    var n := IntToString(discnum);
    var d := DiscSuffixText(discnum);
    NumberReservedFree(discnum);
    assert forall i :: 0 <= i < 7 ==> d[i] in " (Disc ";
    assert forall i :: 7 <= i < 7 + |n| ==> d[i] == n[i - 7];
    assert d[|d| - 1] == ')';
  }

  /** `ext`, used as a regular expression, matches `e`: its '.' stands for
      any character but a newline, every other character for itself. */
  predicate ExtMatches(e: string, ext: string)
  {
    |e| == |ext| && forall i :: 0 <= i < |e| ==> if ext[i] == '.' then e[i] != '\n' else e[i] == ext[i]
  }

  /** The length of the longest run of digits that ends `s`. */
  function TrailingDigits(s: string): (k: nat)
    ensures k <= |s| && forall i :: |s| - k <= i < |s| ==> IsDigit(s[i])
    ensures k < |s| ==> !IsDigit(s[|s| - k - 1])
  {
    if s == [] || !IsDigit(s[|s| - 1]) then 0 else TrailingDigits(s[..|s| - 1]) + 1
  }

  lemma TrailingDigitsAll(s: string, from: int)
    requires |s| - TrailingDigits(s) <= from <= |s|
    ensures AllDigits(s[from..])
  {
    assert forall i :: 0 <= i < |s[from..]| ==> s[from..][i] == s[from + i];
  }

  /** The disc number `check_aux_file` reads from a file name: the number in
      a trailing "(Disc N)" followed by `ext` (the pattern
      `\(Disc (\d+)\)<ext>$`), or 1 when the name does not end that way. */
  function DiscInName(s: string, ext: string): int
  {
    if |s| < |ext| + 1 then 1
    else
      var p := |s| - |ext| - 1;
      if s[p] != ')' || !ExtMatches(s[p + 1..], ext) then 1
      else
        var k := TrailingDigits(s[..p]);
        TrailingDigitsAll(s[..p], p - k);
        assert s[..p][p - k..] == s[p - k..p];
        if k > 0 && EndsWith(s[..p - k], "(Disc ") then DigitsValue(s[p - k..p]) else 1
  }

  /** `s` ends with "(Disc <digits>)" followed by text `ext` matches. */
  predicate EndsWithDisc(s: string, ext: string, digits: string)
  {
    var tail := "(Disc " + digits + ")";
    && |digits| > 0 && AllDigits(digits)
    && |s| >= |tail| + |ext|
    && s[|s| - |ext| - |tail|..|s| - |ext|] == tail
    && ExtMatches(s[|s| - |ext|..], ext)
  }

  lemma {:induction false} TrailingDigitsAfter(x: string, digits: string)
    requires |x| > 0 && !IsDigit(x[|x| - 1]) && AllDigits(digits)
    ensures TrailingDigits(x + digits) == |digits|
    decreases |digits|
  {
    var s := x + digits;
    if digits == [] {
      assert s == x;
    } else {
      assert s[..|s| - 1] == x + digits[..|digits| - 1];
      TrailingDigitsAfter(x, digits[..|digits| - 1]);
      assert IsDigit(s[|s| - 1]);
    }
  }

  lemma SliceOfSlice(s: string, a: nat, b: nat, i: nat, j: nat)
    requires a <= b <= |s| && i <= j <= b - a
    ensures s[a..b][i..j] == s[a + i..a + j]
  {
    assert forall k :: 0 <= k < j - i ==> s[a..b][i..j][k] == s[a + i + k];
  }

  /** A name ending in "(Disc <digits>)<ext>" yields the number `digits`
      spells. */
  lemma DiscInNameOfSuffix(s: string, ext: string, digits: string)
    requires EndsWithDisc(s, ext, digits)
    ensures DiscInName(s, ext) == DigitsValue(digits)
  {
    var p := |s| - |ext| - 1;
    var q := p - |digits|;
    DiscSuffixPieces(s, ext, digits);
    assert s[..p] == s[..q] + digits;
    TrailingDigitsAfter(s[..q], digits);
    assert s[..p][..q] == s[..q];
    assert s[p + 1..] == s[|s| - |ext|..];
    assert s[p - |digits|..p] == digits;
  }

  /** Where the pieces of a trailing "(Disc <digits>)<ext>" sit. */
  lemma DiscSuffixPieces(s: string, ext: string, digits: string)
    requires EndsWithDisc(s, ext, digits)
    ensures var p := |s| - |ext| - 1; var q := p - |digits|;
      && q >= 6 && s[p] == ')' && s[q..p] == digits && s[q - 1] == ' '
      && EndsWith(s[..q], "(Disc ")
  {
    var p := |s| - |ext| - 1;
    var q := p - |digits|;
    var tail := "(Disc " + digits + ")";
    var w := s[q - 6..p + 1];
    assert w == tail;
    assert tail[6..6 + |digits|] == digits && tail[..6] == "(Disc ";
    SliceOfSlice(s, q - 6, p + 1, 6, 6 + |digits|);
    assert s[p] == w[|w| - 1] == ')';
    assert s[q - 1] == w[5] == ' ';
    SliceOfSlice(s, q - 6, p + 1, 0, 6);
    assert s[..q][q - 6..] == s[q - 6..q];
  }

  /** A name whose disc number is not 1 does end in "(Disc <digits>)<ext>". */
  lemma DiscInNameFound(s: string, ext: string)
    requires DiscInName(s, ext) != 1
    ensures EndsWithDisc(s, ext, s[|s| - |ext| - 1 - TrailingDigits(s[..|s| - |ext| - 1])..|s| - |ext| - 1])
  {
    var p := |s| - |ext| - 1;
    var k := TrailingDigits(s[..p]);
    var digits := s[p - k..p];
    var tail := "(Disc " + digits + ")";
    assert s[..p][p - k..] == digits;
    assert s[..p - k][p - k - 6..] == "(Disc ";
    assert s[|s| - |ext| - |tail|..|s| - |ext|] == s[..p - k][p - k - 6..] + digits + [s[p]];
  }

  /** The disc number read from a name is the one in its trailing
      "(Disc N)<ext>", and 1 when it has none. */
  lemma DiscInNameMeaning(s: string, ext: string)
    ensures forall digits :: EndsWithDisc(s, ext, digits) ==> DiscInName(s, ext) == DigitsValue(digits)
    ensures (forall digits :: !EndsWithDisc(s, ext, digits)) ==> DiscInName(s, ext) == 1
  {
    forall digits | EndsWithDisc(s, ext, digits)
      ensures DiscInName(s, ext) == DigitsValue(digits)
    {
      DiscInNameOfSuffix(s, ext, digits);
    }
    if DiscInName(s, ext) != 1 {
      DiscInNameFound(s, ext);
    }
  }

  /** Reading the disc number back from a renamed cuesheet or log of a set of
      more than one disc gives the disc it was named for. */
  lemma AuxNameDisc(discnum: nat, id: Track, ext: string)
    requires HasAuxTags(id) && First(id, "disctotal") != "1"
    requires '\n' !in ext
    ensures DiscInName(AuxBase(discnum, id) + ext, ext) == discnum
  {
    AuxBaseLayout(discnum, id);
    var head := ReplaceReservedChars(First(id, "albumartist") + " - " + First(id, "album"));
    SuffixEndsWithDisc(head, discnum, ext);
    DiscInNameOfSuffix(head + DiscSuffixText(discnum) + ext, ext, NatToString(discnum));
    DigitsValueOfNatToString(discnum);
  }

  /** Any text followed by " (Disc N)" and `ext` itself ends that way. */
  lemma SuffixEndsWithDisc(head: string, discnum: nat, ext: string)
    requires '\n' !in ext
    ensures EndsWithDisc(head + DiscSuffixText(discnum) + ext, ext, NatToString(discnum))
  {
    var digits := NatToString(discnum);
    var tail := "(Disc " + digits + ")";
    var s := head + DiscSuffixText(discnum) + ext;
    assert s == (head + " ") + tail + ext;
    assert s[|s| - |ext|..] == ext;
    assert s[|s| - |ext| - |tail|..|s| - |ext|] == tail;
    assert forall i :: 0 <= i < |ext| ==> ext[i] != '\n';
  }
}

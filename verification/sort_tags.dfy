/** `check_sort_tags`: each tag that has a sort variant (`artist` and
    `artist sort`, ...) must carry, on every track, as many values as its
    sort variant, each either equal to the paired sort value or made of the
    same words once commas, bracketed comments and a leading or trailing
    "The" or "Los" are dropped. */
module SortTags {
  import opened Wrappers
  import opened Text
  import opened MessageSink
  import opened Hierarchy
  import opened Sorting
  import opened TagCatalog
  import opened DiscScan
  import opened Grouping
  import opened TrackRanges

  // ------------------------------------------------------------ canon_val

  /** `re.sub(r'\[[^]]*\]', '', s)`: every `[` that a later `]` closes is
      removed together with everything up to that first `]`. */
  function StripComments(s: string): (r: string)
    ensures |r| <= |s|
    ensures '[' !in s ==> r == s
    ensures ']' !in s ==> r == s
    decreases |s|
  {
    if s == [] then []
    else if s[0] == '[' && ']' in s then StripComments(s[IndexOf(s, ']') + 1..])
    else [s[0]] + StripComments(s[1..])
  }

  /** The words `canon_val` ignores at either end. */
  const Ignored: set<string> := {"The", "Los"}

  /** The surname prefixes `canon_val` lower-cases. */
  const ForceLower: set<string> := {"de", "van"}

  /** Drops a trailing ignored word, then a leading one, each only while
      more than one word is left. */
  function DropIgnoredEnds(words: seq<string>): (r: seq<string>)
    ensures |words| > 0 ==> |r| > 0
  {
    var w := if |words| > 1 && words[|words| - 1] in Ignored then words[..|words| - 1] else words;
    if |w| > 1 && w[0] in Ignored then w[1..] else w
  }

  /** A word whose lower-case form is a surname prefix, in lower case. */
  function LowerPrefix(word: string): string
  {
    if Lower(word) in ForceLower then Lower(word) else word
  }

  /** The words of a value before sorting: comments and commas removed,
      split on whitespace, ignored ends dropped. */
  function Words(val: string): seq<string>
  {
    DropIgnoredEnds(SplitWords(RemoveChar(StripComments(val), ',')))
  }

  /** Each word with its surname prefix lower-cased. */
  function LowerPrefixes(ws: seq<string>): (r: seq<string>)
    ensures |r| == |ws| && forall i :: 0 <= i < |ws| ==> r[i] == LowerPrefix(ws[i])
  {
    seq(|ws|, i requires 0 <= i < |ws| => LowerPrefix(ws[i]))
  }

  /** `canon_val(val)`: the words, surname prefixes in lower case, sorted. */
  function Canon(val: string): seq<string>
  {
    Sort(LowerPrefixes(Words(val)), StrLess)
  }

  /** The canonical form lists exactly the value's words, prefixes lowered,
      in order. */
  lemma CanonSortsWords(val: string)
    ensures Sorted(Canon(val), StrLess)
    ensures multiset(Canon(val)) == multiset(LowerPrefixes(Words(val)))
  {
    StrLessIsTotal();
    SortSorted(LowerPrefixes(Words(val)), StrLess);
  }

  /** `canon_val`, with its loop that lower-cases the surname prefixes in
      place. */
  method CanonVal(val: string) returns (words: seq<string>)
    ensures words == Canon(val)
  {
    words := Words(val);
    ghost var before := words;
    var index := 0;
    while index < |words|
      invariant 0 <= index <= |words| == |before|
      invariant forall i :: 0 <= i < index ==> words[i] == LowerPrefix(before[i])
      invariant forall i :: index <= i < |words| ==> words[i] == before[i]
    {
      var wordLower := Lower(words[index]);
      if wordLower in ForceLower {
        words := words[index := wordLower];
      }
      index := index + 1;
    }
    assert words == LowerPrefixes(before);
    words := Sort(words, StrLess);
  }

  /** A word: non-empty, and free of whitespace, commas and brackets. */
  predicate PlainWord(w: string)
  {
    |w| > 0 && NoSpace(w) && ',' !in w && '[' !in w && ']' !in w
  }

  lemma {:induction false} WordPrefixOfPlain(w: string, rest: string)
    requires NoSpace(w)
    requires rest == [] || IsSpace(rest[0])
    ensures WordPrefix(w + rest) == w
    decreases |w|
  {
    if w != [] {
      assert (w + rest)[1..] == w[1..] + rest;
      WordPrefixOfPlain(w[1..], rest);
      assert w == [w[0]] + w[1..];
    } else {
      assert w + rest == rest;
    }
  }

  /** Splitting a plain word followed by whitespace (or nothing) yields the
      word, then the words of the rest. */
  lemma SplitPlainCons(w: string, rest: string)
    requires PlainWord(w) && (rest == [] || IsSpace(rest[0]))
    ensures SplitWords(w + rest) == [w] + SplitWords(rest)
  {
    var s := w + rest;
    assert s[0] == w[0];
    assert TrimLeft(s) == s;
    WordPrefixOfPlain(w, rest);
    assert s[|w|..] == rest;
  }

  /** Leading whitespace does not change the words. */
  lemma SplitSpaceCons(rest: string)
    requires rest != [] && IsSpace(rest[0])
    ensures SplitWords(rest) == SplitWords(rest[1..])
  {
  }

  /** A single plain word, alone or after one space, splits to itself. */
  lemma SplitOneWord(b: string)
    requires PlainWord(b)
    ensures SplitWords(b) == [b] && SplitWords(" " + b) == [b]
  {
    SplitPlainCons(b, "");
    assert b + "" == b;
    SplitSpaceCons(" " + b);
    assert (" " + b)[1..] == b;
  }

  /** `"a b".split() == ["a", "b"]` for two plain words. */
  lemma SplitTwoWords(a: string, b: string)
    requires PlainWord(a) && PlainWord(b)
    ensures SplitWords(a + " " + b) == [a, b]
  {
    assert a + " " + b == a + (" " + b);
    SplitPlainCons(a, " " + b);
    SplitOneWord(b);
  }

  /** Dropping the comma of `", " + a` leaves `" " + a`. */
  lemma RemoveCommaLead(a: string)
    requires ',' !in a
    ensures RemoveChar(", " + a, ',') == " " + a
  {
    var tail := ", " + a;
    var rest := " " + a;
    assert tail[0] == ',' && tail[1..] == rest;
    assert rest[0] == ' ' && rest[1..] == a;
    NoCommaKept(a);
  }

  /** Removing commas from plain words joined by `", "` leaves them joined
      by a space. */
  lemma RemoveCommaJoin(a: string, b: string)
    requires ',' !in a && ',' !in b
    ensures RemoveChar(b + ", " + a, ',') == b + " " + a
  {
    AppendAssoc(b, ", ", a);
    RemoveCharAppend(b, ", " + a, ',');
    NoCommaKept(b);
    RemoveCommaLead(a);
    AppendAssoc(b, " ", a);
  }

  lemma {:induction false} NoCommaKept(w: string)
    requires ',' !in w
    ensures RemoveChar(w, ',') == w
  {
    if w != [] {
      assert w[0] in w;
      NoCommaKept(w[1..]);
    }
  }

  lemma {:induction false} RemoveCharAppend(a: string, b: string, c: char)
    ensures RemoveChar(a + b, c) == RemoveChar(a, c) + RemoveChar(b, c)
  {
    if a != [] {
      assert (a + b)[1..] == a[1..] + b;
      RemoveCharAppend(a[1..], b, c);
    } else {
      assert a + b == b;
    }
  }

  /** A character in none of three strings is not in their join. */
  lemma NotInJoin(c: char, a: string, sep: string, b: string)
    requires c !in a && c !in sep && c !in b
    ensures c !in a + sep + b
  {
    assert forall i :: 0 <= i < |a + sep + b| ==> (a + sep + b)[i] in a || (a + sep + b)[i] in sep || (a + sep + b)[i] in b;
  }

  /** Two words neither of which is ignored are both kept. */
  lemma KeepTwo(u: string, v: string)
    requires u !in Ignored && v !in Ignored
    ensures DropIgnoredEnds([u, v]) == [u, v]
  {
  }

  /** An ignored word beside a kept one is dropped, at either end. */
  lemma DropArticle(article: string, name: string)
    requires article in Ignored && name !in Ignored
    ensures DropIgnoredEnds([article, name]) == [name] && DropIgnoredEnds([name, article]) == [name]
  {
    assert [article, name][1..] == [name];
    assert [name, article][..1] == [name];
  }

  /** The words of `"A B"`, before the ignored ends are dropped. */
  lemma SplitOfJoin(a: string, b: string)
    requires PlainWord(a) && PlainWord(b)
    ensures SplitWords(RemoveChar(StripComments(a + " " + b), ',')) == [a, b]
  {
    var x := a + " " + b;
    NotInJoin('[', a, " ", b);
    NotInJoin(',', a, " ", b);
    NoCommaKept(x);
    assert StripComments(x) == x;
    SplitTwoWords(a, b);
  }

  /** The words of `"B, A"`, before the ignored ends are dropped. */
  lemma SplitOfCommaJoin(a: string, b: string)
    requires PlainWord(a) && PlainWord(b)
    ensures SplitWords(RemoveChar(StripComments(b + ", " + a), ',')) == [b, a]
  {
    var y := b + ", " + a;
    NotInJoin('[', b, ", ", a);
    assert StripComments(y) == y;
    RemoveCommaJoin(a, b);
    SplitTwoWords(b, a);
  }

  /** The words of `"Given Surname"`. */
  lemma WordsOfName(given: string, surname: string)
    requires PlainWord(given) && PlainWord(surname)
    requires given !in Ignored && surname !in Ignored
    ensures Words(given + " " + surname) == [given, surname]
  {
    SplitOfJoin(given, surname);
    KeepTwo(given, surname);
  }

  /** The words of `"Surname, Given"`. */
  lemma WordsOfSortForm(given: string, surname: string)
    requires PlainWord(given) && PlainWord(surname)
    requires given !in Ignored && surname !in Ignored
    ensures Words(surname + ", " + given) == [surname, given]
  {
    SplitOfCommaJoin(given, surname);
    KeepTwo(surname, given);
  }

  /** The promise of the check's own comment: a name and its "Surname,
      Given" form canonicalise alike ("John Smith" and "Smith, John"). */
  lemma NameAndSortForm(given: string, surname: string)
    requires PlainWord(given) && PlainWord(surname)
    requires given !in Ignored && surname !in Ignored
    ensures Canon(given + " " + surname) == Canon(surname + ", " + given)
  {
    WordsOfName(given, surname);
    WordsOfSortForm(given, surname);
    SwappedPairSorts(given, surname);
  }

  /** Two words in either order sort alike. */
  lemma SwappedPairSorts(a: string, b: string)
    ensures Sort(LowerPrefixes([a, b]), StrLess) == Sort(LowerPrefixes([b, a]), StrLess)
  {
    var lx := LowerPrefixes([a, b]);
    var ly := LowerPrefixes([b, a]);
    assert multiset(lx) == multiset(ly) by {
      assert lx == [LowerPrefix(a)] + [LowerPrefix(b)];
      assert ly == [LowerPrefix(b)] + [LowerPrefix(a)];
    }
    StrLessIsTotal();
    SortEqualIff(lx, ly, StrLess);
  }

  /** A name after an ignored article ("The Beatles") and its sort form
      with the article moved behind a comma ("Beatles, The") both come down
      to the name alone. */
  lemma ArticleAndSortForm(article: string, name: string)
    requires article in Ignored && PlainWord(article)
    requires PlainWord(name) && name !in Ignored
    ensures Words(article + " " + name) == [name] && Words(name + ", " + article) == [name]
    ensures Canon(article + " " + name) == Canon(name + ", " + article)
  {
    SplitOfJoin(article, name);
    SplitOfCommaJoin(article, name);
    DropArticle(article, name);
  }

  // ------------------------------------------------------ matching values

  /** A value agrees with the sort value paired with it: equal, or made of
      the same words once canonicalised. */
  predicate ValueAgrees(val: string, sortVal: string)
  {
    val == sortVal || Canon(val) == Canon(sortVal)
  }

  /** The values of a tag and of its sort tag match: as many of each, and
      each value agrees with the sort value in its position. */
  predicate ValuesMatch(vals: seq<string>, sortVals: seq<string>)
  {
    |vals| == |sortVals| && forall i :: 0 <= i < |vals| ==> ValueAgrees(vals[i], sortVals[i])
  }

  /** One turn of the `zip` loop: equal values agree, and otherwise their
      canonical forms are compared. */
  method Agree(val: string, sortVal: string) returns (agree: bool)
    ensures agree <==> ValueAgrees(val, sortVal)
  {
    if val == sortVal {
      return true;
    }
    var canon1 := CanonVal(val);
    var canon2 := CanonVal(sortVal);
    agree := canon1 == canon2;
  }

  /** The `zip` loop of `check_sort_tags`, which breaks at the first pair of
      values that do not agree. */
  method PairsMatch(vals: seq<string>, sortVals: seq<string>) returns (ok: bool)
    requires |vals| == |sortVals|
    ensures ok <==> ValuesMatch(vals, sortVals)
  {
    var i := 0;
    while i < |vals|
      invariant 0 <= i <= |vals|
      invariant forall j :: 0 <= j < i ==> ValueAgrees(vals[j], sortVals[j])
    {
      var agree := Agree(vals[i], sortVals[i]);
      if !agree {
        MatchNeedsEach(vals, sortVals, i);
        return false;
      }
      PairwiseSnoc(ValueAgrees, vals, sortVals, i);
      i := i + 1;
    }
    return true;
  }

  /** A relation holding pairwise on the first `i` elements and at `i`
      holds pairwise on the first `i + 1`. */
  lemma PairwiseSnoc<T>(p: (T, T) -> bool, a: seq<T>, b: seq<T>, i: int)
    requires |a| == |b| && 0 <= i < |a|
    requires forall j :: 0 <= j < i ==> p(a[j], b[j])
    requires p(a[i], b[i])
    ensures forall j :: 0 <= j < i + 1 ==> p(a[j], b[j])
  {
  }

  /** Values that disagree anywhere do not match. */
  lemma MatchNeedsEach(vals: seq<string>, sortVals: seq<string>, i: int)
    requires |vals| == |sortVals| && 0 <= i < |vals| && !ValueAgrees(vals[i], sortVals[i])
    ensures !ValuesMatch(vals, sortVals)
  {
  }

  /** Any values match themselves, and matching does not depend on which
      side is the sort tag. */
  lemma MatchReflexiveSymmetric(vals: seq<string>, sortVals: seq<string>)
    ensures ValuesMatch(vals, vals)
    ensures ValuesMatch(vals, sortVals) <==> ValuesMatch(sortVals, vals)
  {
  }

  /** A name matches its "Surname, Given" sort form. */
  lemma NameMatchesSortForm(given: string, surname: string)
    requires PlainWord(given) && PlainWord(surname)
    requires given !in Ignored && surname !in Ignored
    ensures ValuesMatch([given + " " + surname], [surname + ", " + given])
  {
    NameAndSortForm(given, surname);
  }

  // ------------------------------------------------------------ one track

  /** What the loop of `check_sort_tags` makes of one track, for one pair of
      tags: the track is skipped when it has neither tag, `track[tag]`
      raises when only the sort tag is there, the track is missing its sort
      tag, or its values match or are a mismatch filed under both values
      flattened. */
  datatype Verdict = Skip | Fails(error: PyError) | MissingSort | Matches | Mismatch(key: (Scalar, Scalar))

  function Judge(t: Track, tag: string, sortTag: string): Verdict
  {
    if tag !in t.tagset && sortTag !in t.tagset then Skip
    else if tag !in t.tags then Fails(KeyError(tag))
    else if sortTag !in t.tagset then MissingSort
    else if sortTag !in t.tags then Fails(KeyError(sortTag))
    else if ValuesMatch(t.tags[tag], t.tags[sortTag]) then Matches
    else Mismatch((FlattenTag(Values(t.tags[tag])), FlattenTag(Values(t.tags[sortTag]))))
  }

  /** On a well-formed track the verdict is decided by which of the two tags
      it holds: neither is skipped, only the sort tag raises `KeyError` on the
      tag, only the tag is a missing sort tag, and with both the values decide. */
  lemma JudgeMeaning(t: Track, tag: string, sortTag: string)
    requires t.Valid()
    ensures Judge(t, tag, sortTag) == Skip <==> tag !in t.tags && sortTag !in t.tags
    ensures Judge(t, tag, sortTag) == Fails(KeyError(tag)) <==> tag !in t.tags && sortTag in t.tags
    ensures Judge(t, tag, sortTag) == MissingSort <==> tag in t.tags && sortTag !in t.tags
    ensures Judge(t, tag, sortTag) == Matches <==>
      tag in t.tags && sortTag in t.tags && ValuesMatch(t.tags[tag], t.tags[sortTag])
    ensures Judge(t, tag, sortTag).Mismatch? <==>
      tag in t.tags && sortTag in t.tags && !ValuesMatch(t.tags[tag], t.tags[sortTag])
  {
  }

  /** The tracks `missing` collects, in disc order: those whose verdict is
      a missing sort tag. */
  function MissingTracks(tracks: map<int, Track>, order: seq<int>, tag: string, sortTag: string): seq<int>
    requires Listed(tracks, order)
  {
    if order == [] then []
    else
      var last := order[|order| - 1];
      assert last in order;
      assert forall m :: m in order[..|order| - 1] ==> m in order;
      MissingTracks(tracks, order[..|order| - 1], tag, sortTag)
        + (if Judge(tracks[last], tag, sortTag) == MissingSort then [last] else [])
  }

  /** A track is collected exactly when it is listed and misses the sort
      tag. */
  lemma {:induction false} MissingTracksIff(tracks: map<int, Track>, order: seq<int>, tag: string, sortTag: string, n: int)
    requires Listed(tracks, order)
    ensures n in MissingTracks(tracks, order, tag, sortTag) <==> n in order && Judge(tracks[n], tag, sortTag) == MissingSort
  {
    if order != [] {
      var init := order[..|order| - 1];
      assert forall m :: m in init ==> m in order;
      MissingTracksIff(tracks, init, tag, sortTag, n);
      assert order == init + [order[|order| - 1]];
    }
  }

  /** The `(values, track number)` pairs `mismatch` is filled with, in disc
      order. */
  function MismatchPairs(tracks: map<int, Track>, order: seq<int>, tag: string, sortTag: string): seq<((Scalar, Scalar), int)>
    requires Listed(tracks, order)
  {
    if order == [] then []
    else
      var last := order[|order| - 1];
      assert last in order;
      assert forall m :: m in order[..|order| - 1] ==> m in order;
      var v := Judge(tracks[last], tag, sortTag);
      MismatchPairs(tracks, order[..|order| - 1], tag, sortTag) + (if v.Mismatch? then [(v.key, last)] else [])
  }

  /** A pair is appended exactly for a listed track mismatched on those
      values. */
  lemma {:induction false} MismatchPairsIff(tracks: map<int, Track>, order: seq<int>, tag: string, sortTag: string, key: (Scalar, Scalar), n: int)
    requires Listed(tracks, order)
    ensures (key, n) in MismatchPairs(tracks, order, tag, sortTag) <==> n in order && Judge(tracks[n], tag, sortTag) == Mismatch(key)
  {
    if order != [] {
      var init := order[..|order| - 1];
      assert forall m :: m in init ==> m in order;
      MismatchPairsIff(tracks, init, tag, sortTag, key, n);
      assert order == init + [order[|order| - 1]];
    }
  }

  /** The `mismatch` dictionary: tracks grouped by their mismatched values. */
  function Mismatches(tracks: map<int, Track>, order: seq<int>, tag: string, sortTag: string): Groups<(Scalar, Scalar)>
    requires Listed(tracks, order)
  {
    GroupAll(MismatchPairs(tracks, order, tag, sortTag))
  }

  /** The values `key` have a list exactly when some listed track is
      mismatched on them, and the list holds exactly those tracks. */
  lemma MismatchesMeaning(tracks: map<int, Track>, order: seq<int>, tag: string, sortTag: string, key: (Scalar, Scalar), n: int)
    requires Listed(tracks, order)
    ensures var g := Mismatches(tracks, order, tag, sortTag);
      key in g.lists ==> (n in g.lists[key] <==> n in order && Judge(tracks[n], tag, sortTag) == Mismatch(key))
    ensures var g := Mismatches(tracks, order, tag, sortTag);
      n in order && Judge(tracks[n], tag, sortTag) == Mismatch(key) ==> key in g.lists && n in g.lists[key]
  {
    var ps := MismatchPairs(tracks, order, tag, sortTag);
    GroupAllMembers(ps, key);
    MembersIff(ps, key, n);
    MismatchPairsIff(tracks, order, tag, sortTag, key, n);
  }

  // ----------------------------------------------------------- one pair

  /** The exception the scan of one pair of tags raises: that of the first
      track, in disc order, whose verdict fails. */
  function FirstFailure(tracks: map<int, Track>, order: seq<int>, tag: string, sortTag: string): Option<PyError>
    requires Listed(tracks, order)
  {
    if order == [] then None
    else
      var n := order[0];
      assert n in order;
      assert forall m :: m in order[1..] ==> m in order;
      if Judge(tracks[n], tag, sortTag).Fails? then Some(Judge(tracks[n], tag, sortTag).error)
      else FirstFailure(tracks, order[1..], tag, sortTag)
  }

  /** The `i`-th listed track fails. */
  predicate FailsAt(tracks: map<int, Track>, order: seq<int>, tag: string, sortTag: string, i: int)
    requires 0 <= i < |order|
  {
    order[i] in tracks && Judge(tracks[order[i]], tag, sortTag).Fails?
  }

  /** The scan raises exactly when some listed track fails, and then raises
      the exception of the first failing track. */
  lemma {:induction false} FirstFailureMeaning(tracks: map<int, Track>, order: seq<int>, tag: string, sortTag: string)
    requires Listed(tracks, order)
    ensures FirstFailure(tracks, order, tag, sortTag).None? <==> forall i :: 0 <= i < |order| ==> !FailsAt(tracks, order, tag, sortTag, i)
    ensures FirstFailure(tracks, order, tag, sortTag).Some? ==>
      exists i :: 0 <= i < |order| && FailsAt(tracks, order, tag, sortTag, i)
        && Judge(tracks[order[i]], tag, sortTag).error == FirstFailure(tracks, order, tag, sortTag).value
        && forall j :: 0 <= j < i ==> !FailsAt(tracks, order, tag, sortTag, j)
  {
    if order != [] {
      var rest := order[1..];
      assert forall m :: m in rest ==> m in order;
      assert order[0] in order;
      FirstFailureMeaning(tracks, rest, tag, sortTag);
      assert forall i :: 1 <= i < |order| ==> (FailsAt(tracks, order, tag, sortTag, i) <==> FailsAt(tracks, rest, tag, sortTag, i - 1));
      if !FailsAt(tracks, order, tag, sortTag, 0) && FirstFailure(tracks, rest, tag, sortTag).Some? {
        var i :| 0 <= i < |rest| && FailsAt(tracks, rest, tag, sortTag, i)
          && Judge(tracks[rest[i]], tag, sortTag).error == FirstFailure(tracks, rest, tag, sortTag).value
          && forall j :: 0 <= j < i ==> !FailsAt(tracks, rest, tag, sortTag, j);
        assert rest[i] == order[i + 1];
        assert FirstFailure(tracks, order, tag, sortTag) == FirstFailure(tracks, rest, tag, sortTag);
        assert FailsAt(tracks, order, tag, sortTag, i + 1);
        assert forall j :: 0 <= j < i + 1 ==> !FailsAt(tracks, order, tag, sortTag, j);
      }
    }
  }

  /** The lines reported for one pair of tags: none when no track is missing
      its sort tag or mismatched; otherwise the heading, the tracks missing
      the sort tag, and one line per mismatched pair of values, each with its
      tracks sorted. */
  function PairLines(tag: string, sortTag: string, missing: seq<int>, mismatch: Groups<(Scalar, Scalar)>, count: int): (ds: seq<Diag>)
    requires mismatch.Valid()
  {
    if missing == [] && mismatch.keys == [] then []
    else
      [IncompatibleSortTags(tag, sortTag)]
      + (if missing != [] then [SortTagLine(TrackListText(Sort(missing, IntLess), count), SortTagNotFound(sortTag))] else [])
      + MismatchLines(mismatch, count)
  }

  /** One line per mismatched pair of values, in the order they were met. */
  function MismatchLines(mismatch: Groups<(Scalar, Scalar)>, count: int): (ds: seq<Diag>)
    requires mismatch.Valid()
  {
    seq(|mismatch.keys|, i requires 0 <= i < |mismatch.keys| =>
      var k := mismatch.keys[i];
      SortTagLine(TrackListText(Sort(mismatch.lists[k], IntLess), count), Versus(k.0, k.1)))
  }

  /** Line `i` reports the `i`-th mismatched pair of values and its tracks,
      sorted. */
  lemma MismatchLineAt(mismatch: Groups<(Scalar, Scalar)>, count: int, i: int)
    requires mismatch.Valid() && 0 <= i < |mismatch.keys|
    ensures |MismatchLines(mismatch, count)| == |mismatch.keys|
    ensures mismatch.keys[i] in mismatch.lists
    ensures MismatchLines(mismatch, count)[i] ==
      SortTagLine(TrackListText(Sort(mismatch.lists[mismatch.keys[i]], IntLess), count),
                  Versus(mismatch.keys[i].0, mismatch.keys[i].1))
  {
  }

  /** How the check of one pair of tags ends, and what it reports: the first
      failing track's exception, with nothing reported for the pair, or the
      lines of the tracks missing the sort tag and the mismatched tracks. */
  function PairReport(tracks: map<int, Track>, order: seq<int>, count: int, tag: string, sortTag: string): (r: (Outcome, seq<Diag>))
    requires Listed(tracks, order)
  {
    match FirstFailure(tracks, order, tag, sortTag)
    case Some(e) => (Raised(e), [])
    case None =>
      (Done, PairLines(tag, sortTag, MissingTracks(tracks, order, tag, sortTag),
                       Mismatches(tracks, order, tag, sortTag), count))
  }

  /** The scan of one more track: the failure of the rest is that of the
      track if it fails, the tracks missing the sort tag gain the track when
      it is one, and the mismatches gain it under its key. */
  lemma PairStep(tracks: map<int, Track>, order: seq<int>, tag: string, sortTag: string, i: int)
    requires Listed(tracks, order) && 0 <= i < |order|
    ensures order[i] in tracks
    ensures var v := Judge(tracks[order[i]], tag, sortTag);
      FirstFailure(tracks, order[i..], tag, sortTag) ==
      if v.Fails? then Some(v.error) else FirstFailure(tracks, order[i + 1..], tag, sortTag)
    ensures var v := Judge(tracks[order[i]], tag, sortTag);
      MissingTracks(tracks, order[..i + 1], tag, sortTag) ==
      MissingTracks(tracks, order[..i], tag, sortTag) + (if v == MissingSort then [order[i]] else [])
    ensures var v := Judge(tracks[order[i]], tag, sortTag);
      var before := Mismatches(tracks, order[..i], tag, sortTag);
      Mismatches(tracks, order[..i + 1], tag, sortTag) ==
      if v.Mismatch? then Add(before, v.key, order[i]) else before
  {
    ListedAt(tracks, order, i);
    assert order[i..][0] == order[i] && order[i..][1..] == order[i + 1..];
    assert forall m :: m in order[i..] ==> m in order;
    assert forall m :: m in order[..i + 1] ==> m in order;
    var v := Judge(tracks[order[i]], tag, sortTag);
    var ps := MismatchPairs(tracks, order[..i], tag, sortTag);
    if v.Mismatch? {
      GroupAllSnoc(ps, (v.key, order[i]));
    } else {
      assert ps + [] == ps;
    }
  }

  /** The body of the loop of `check_sort_tags` for one track. */
  method JudgeTrack(track: Track, tag: string, sortTag: string) returns (v: Verdict)
    ensures v == Judge(track, tag, sortTag)
  {
    if tag !in track.tagset && sortTag !in track.tagset {
      return Skip;
    }
    if tag !in track.tags {
      return Fails(KeyError(tag));
    }
    if sortTag !in track.tagset {
      return MissingSort;
    }
    if sortTag !in track.tags {
      return Fails(KeyError(sortTag));
    }
    var vals := track.tags[tag];
    var sortVals := track.tags[sortTag];
    var ok := false;
    if |vals| == |sortVals| {
      ok := PairsMatch(vals, sortVals);
    }
    if ok {
      return Matches;
    }
    return Mismatch((FlattenTag(Values(vals)), FlattenTag(Values(sortVals))));
  }

  /** The loop of `check_sort_tags` over the tracks, for one pair of tags. */
  method PairCheck(disc: Disc, tag: string, sortTag: string) returns (outcome: Outcome, ds: seq<Diag>)
    requires Listed(disc.tracks, disc.order)
    ensures (outcome, ds) == PairReport(disc.tracks, disc.order, |disc.tracks|, tag, sortTag)
  {
    var tracks, order := disc.tracks, disc.order;
    var missing: seq<int> := [];
    var mismatch: Groups<(Scalar, Scalar)> := NoGroups();
    var i := 0;
    assert order[0..] == order && order[..0] == [];
    while i < |order|
      invariant 0 <= i <= |order|
      invariant FirstFailure(tracks, order, tag, sortTag) == FirstFailure(tracks, order[i..], tag, sortTag)
      invariant missing == MissingTracks(tracks, order[..i], tag, sortTag)
      invariant mismatch == Mismatches(tracks, order[..i], tag, sortTag)
    {
      var n := order[i];
      PairStep(tracks, order, tag, sortTag, i);
      var verdict := JudgeTrack(tracks[n], tag, sortTag);
      match verdict {
        case Fails(e) => return Raised(e), [];
        case MissingSort => missing := missing + [n];
        case Mismatch(key) => mismatch := Add(mismatch, key, n);
        case _ =>
      }
      i := i + 1;
    }
    assert order[..i] == order && order[i..] == [];
    outcome := Done;
    ds := PairLines(tag, sortTag, missing, mismatch, |tracks|);
  }

  // ------------------------------------------------- what one pair reports

  /** The `i`-th listed track raises nothing and reports nothing: it has
      neither tag, or both with matching values. */
  predicate QuietAt(tracks: map<int, Track>, order: seq<int>, tag: string, sortTag: string, i: int)
    requires 0 <= i < |order|
  {
    order[i] in tracks && (Judge(tracks[order[i]], tag, sortTag) == Skip || Judge(tracks[order[i]], tag, sortTag) == Matches)
  }

  /** A grouping is empty exactly when nothing was appended. */
  lemma GroupAllEmpty<K>(ps: seq<(K, int)>)
    ensures GroupAll(ps).keys == [] <==> ps == []
  {
    if ps != [] {
      var g := GroupAll(ps);
      assert ps[|ps| - 1].0 in g.lists;
    }
  }

  /** No pair is appended exactly when no listed track is mismatched. */
  lemma {:induction false} NoMismatchPairs(tracks: map<int, Track>, order: seq<int>, tag: string, sortTag: string)
    requires Listed(tracks, order)
    ensures MismatchPairs(tracks, order, tag, sortTag) == [] <==>
      forall i :: 0 <= i < |order| ==> order[i] in tracks && !Judge(tracks[order[i]], tag, sortTag).Mismatch?
  {
    if order != [] {
      var init := order[..|order| - 1];
      assert forall m :: m in init ==> m in order;
      assert order[|order| - 1] in order;
      NoMismatchPairs(tracks, init, tag, sortTag);
      assert forall i :: 0 <= i < |init| ==> order[i] == init[i];
    }
  }

  /** No track is collected as missing exactly when no listed track misses
      its sort tag. */
  lemma {:induction false} NoMissingTracks(tracks: map<int, Track>, order: seq<int>, tag: string, sortTag: string)
    requires Listed(tracks, order)
    ensures MissingTracks(tracks, order, tag, sortTag) == [] <==>
      forall i :: 0 <= i < |order| ==> order[i] in tracks && Judge(tracks[order[i]], tag, sortTag) != MissingSort
  {
    if order != [] {
      var init := order[..|order| - 1];
      assert forall m :: m in init ==> m in order;
      assert order[|order| - 1] in order;
      NoMissingTracks(tracks, init, tag, sortTag);
      assert forall i :: 0 <= i < |init| ==> order[i] == init[i];
    }
  }

  /** A pair reports nothing exactly when no track is missing its sort tag
      and no track is mismatched; otherwise the heading comes first, then the
      line of the missing sort tags, if any. */
  lemma PairLinesShape(tag: string, sortTag: string, missing: seq<int>, mismatch: Groups<(Scalar, Scalar)>, count: int)
    requires mismatch.Valid()
    ensures PairLines(tag, sortTag, missing, mismatch, count) == [] <==> missing == [] && mismatch.keys == []
    ensures missing != [] ==>
      var ds := PairLines(tag, sortTag, missing, mismatch, count);
      |ds| > 1 && ds[0] == IncompatibleSortTags(tag, sortTag)
      && ds[1] == SortTagLine(TrackListText(Sort(missing, IntLess), count), SortTagNotFound(sortTag))
    ensures mismatch.keys != [] ==>
      var ds := PairLines(tag, sortTag, missing, mismatch, count);
      var ml := MismatchLines(mismatch, count);
      |ds| >= |ml| && ds[|ds| - |ml|..] == ml
  {
  }

  /** The scan of a pair is clean: nothing raised, no track missing its
      sort tag, none mismatched. */
  predicate Clean(tracks: map<int, Track>, order: seq<int>, tag: string, sortTag: string)
    requires Listed(tracks, order)
  {
    FirstFailure(tracks, order, tag, sortTag).None? && MissingTracks(tracks, order, tag, sortTag) == []
    && MismatchPairs(tracks, order, tag, sortTag) == []
  }

  /** A track is quiet exactly when it neither fails, nor misses its sort
      tag, nor is mismatched. */
  lemma QuietAtIff(tracks: map<int, Track>, order: seq<int>, tag: string, sortTag: string, i: int)
    requires Listed(tracks, order) && 0 <= i < |order|
    ensures order[i] in tracks
    ensures QuietAt(tracks, order, tag, sortTag, i) <==>
      !FailsAt(tracks, order, tag, sortTag, i)
      && Judge(tracks[order[i]], tag, sortTag) != MissingSort && !Judge(tracks[order[i]], tag, sortTag).Mismatch?
  {
    ListedAt(tracks, order, i);
  }

  /** The scan is clean exactly when every track is quiet. */
  lemma CleanIff(tracks: map<int, Track>, order: seq<int>, tag: string, sortTag: string)
    requires Listed(tracks, order)
    ensures Clean(tracks, order, tag, sortTag) <==> forall i :: 0 <= i < |order| ==> QuietAt(tracks, order, tag, sortTag, i)
  {
    FirstFailureMeaning(tracks, order, tag, sortTag);
    NoMismatchPairs(tracks, order, tag, sortTag);
    NoMissingTracks(tracks, order, tag, sortTag);
    forall i | 0 <= i < |order|
      ensures order[i] in tracks
      ensures QuietAt(tracks, order, tag, sortTag, i) <==>
        !FailsAt(tracks, order, tag, sortTag, i)
        && Judge(tracks[order[i]], tag, sortTag) != MissingSort && !Judge(tracks[order[i]], tag, sortTag).Mismatch?
    {
      QuietAtIff(tracks, order, tag, sortTag, i);
    }
  }

  /** A pair reports nothing and raises nothing exactly when its scan is
      clean. */
  lemma SilentIffClean(tracks: map<int, Track>, order: seq<int>, count: int, tag: string, sortTag: string)
    requires Listed(tracks, order)
    ensures PairReport(tracks, order, count, tag, sortTag) == (Done, []) <==> Clean(tracks, order, tag, sortTag)
  {
    var ps := MismatchPairs(tracks, order, tag, sortTag);
    GroupAllEmpty(ps);
    PairLinesShape(tag, sortTag, MissingTracks(tracks, order, tag, sortTag), GroupAll(ps), count);
  }

  /** One pair of tags ends without an exception and reports nothing
      exactly when every listed track has neither tag, or both with
      matching values. */
  lemma PairSilentIff(tracks: map<int, Track>, order: seq<int>, count: int, tag: string, sortTag: string)
    requires Listed(tracks, order)
    ensures PairReport(tracks, order, count, tag, sortTag) == (Done, []) <==>
      forall i :: 0 <= i < |order| ==> QuietAt(tracks, order, tag, sortTag, i)
  {
    SilentIffClean(tracks, order, count, tag, sortTag);
    CleanIff(tracks, order, tag, sortTag);
  }

  /** When the pair raises nothing, a track missing its sort tag is named on
      the line that reports the missing sort tag, right after the heading. */
  lemma MissingReported(tracks: map<int, Track>, order: seq<int>, count: int, tag: string, sortTag: string, n: int)
    requires Listed(tracks, order)
    requires FirstFailure(tracks, order, tag, sortTag).None?
    requires n in order && Judge(tracks[n], tag, sortTag) == MissingSort
    ensures var ds := PairReport(tracks, order, count, tag, sortTag).1;
      var missing := Sort(MissingTracks(tracks, order, tag, sortTag), IntLess);
      |ds| > 1 && ds[0] == IncompatibleSortTags(tag, sortTag)
      && ds[1] == SortTagLine(TrackListText(missing, count), SortTagNotFound(sortTag))
      && n in missing
  {
    MissingTracksIff(tracks, order, tag, sortTag, n);
    var ms := MissingTracks(tracks, order, tag, sortTag);
    assert n in multiset(Sort(ms, IntLess));
    PairLinesShape(tag, sortTag, ms, Mismatches(tracks, order, tag, sortTag), count);
  }

  /** When the pair raises nothing, every mismatch line is reported. */
  lemma MismatchLineReported(tracks: map<int, Track>, order: seq<int>, count: int, tag: string, sortTag: string, i: int)
    requires Listed(tracks, order)
    requires FirstFailure(tracks, order, tag, sortTag).None?
    requires 0 <= i < |Mismatches(tracks, order, tag, sortTag).keys|
    ensures |MismatchLines(Mismatches(tracks, order, tag, sortTag), count)| == |Mismatches(tracks, order, tag, sortTag).keys|
    ensures MismatchLines(Mismatches(tracks, order, tag, sortTag), count)[i] in PairReport(tracks, order, count, tag, sortTag).1
  {
    var g := Mismatches(tracks, order, tag, sortTag);
    var ml := MismatchLines(g, count);
    var ms := MissingTracks(tracks, order, tag, sortTag);
    PairLinesShape(tag, sortTag, ms, g, count);
    var ds := PairReport(tracks, order, count, tag, sortTag).1;
    assert ds == PairLines(tag, sortTag, ms, g, count);
    InSuffix(ds, ml, i);
  }

  /** An element of a suffix is an element of the whole. */
  lemma InSuffix<T>(ds: seq<T>, ml: seq<T>, i: int)
    requires |ds| >= |ml| && ds[|ds| - |ml|..] == ml && 0 <= i < |ml|
    ensures ml[i] in ds
  {
    assert ds[|ds| - |ml| + i] == ml[i];
  }

  /** When the pair raises nothing, a mismatched track is named on the line
      that reports its two values. */
  lemma MismatchReported(tracks: map<int, Track>, order: seq<int>, count: int, tag: string, sortTag: string, n: int)
    requires Listed(tracks, order)
    requires FirstFailure(tracks, order, tag, sortTag).None?
    requires n in order && Judge(tracks[n], tag, sortTag).Mismatch?
    ensures var key := Judge(tracks[n], tag, sortTag).key;
      var g := Mismatches(tracks, order, tag, sortTag);
      key in g.lists && n in Sort(g.lists[key], IntLess) &&
      SortTagLine(TrackListText(Sort(g.lists[key], IntLess), count), Versus(key.0, key.1))
        in PairReport(tracks, order, count, tag, sortTag).1
  {
    var key := Judge(tracks[n], tag, sortTag).key;
    MismatchesMeaning(tracks, order, tag, sortTag, key, n);
    var g := Mismatches(tracks, order, tag, sortTag);
    assert n in multiset(Sort(g.lists[key], IntLess));
    var i :| 0 <= i < |g.keys| && g.keys[i] == key;
    MismatchLineAt(g, count, i);
    MismatchLineReported(tracks, order, count, tag, sortTag, i);
  }

  // ---------------------------------------------------------- every pair

  /** `check_sort_tags` over the pairs `pairs`: for each pair in turn, the
      whole check returns when the disc has no track with the sort tag (unless
      the disc is classical or missing sort tags are reported everywhere);
      otherwise the pair's lines are reported, and an exception ends the check
      after the lines of the earlier pairs. */
  function SortTagsFrom(tracks: map<int, Track>, order: seq<int>, tagset: set<string>, classical: bool, noSortTag: bool,
                        pairs: seq<(string, string)>): (r: (Outcome, seq<Diag>))
    requires Listed(tracks, order)
  {
    if pairs == [] then (Done, [])
    else if pairs[0].1 !in tagset && !noSortTag && !classical then (Done, [])
    else
      var p := PairReport(tracks, order, |tracks|, pairs[0].0, pairs[0].1);
      if p.0.Raised? then p
      else
        var rest := SortTagsFrom(tracks, order, tagset, classical, noSortTag, pairs[1..]);
        (rest.0, p.1 + rest.1)
  }

  /** `check_sort_tags(disc)`: nothing unless the option asks for it. */
  function SortTagsReport(opts: CheckOptions, tracks: map<int, Track>, order: seq<int>, tagset: set<string>, classical: bool): (Outcome, seq<Diag>)
    requires Listed(tracks, order)
  {
    if !opts.sortTagMismatch then (Done, [])
    else SortTagsFrom(tracks, order, tagset, classical, opts.noSortTag, SortedTags)
  }

  /** A sort tag absent from the whole disc ends the check there: the pairs
      after it are never looked at, so the report is that of the pairs
      before it. */
  lemma {:induction false} StopsAtAbsentSortTag(tracks: map<int, Track>, order: seq<int>, tagset: set<string>, classical: bool, noSortTag: bool,
                                                pairs: seq<(string, string)>, k: int)
    requires Listed(tracks, order)
    requires 0 <= k < |pairs| && pairs[k].1 !in tagset && !noSortTag && !classical
    ensures SortTagsFrom(tracks, order, tagset, classical, noSortTag, pairs) == SortTagsFrom(tracks, order, tagset, classical, noSortTag, pairs[..k])
  {
    if k > 0 {
      StopsAtAbsentSortTag(tracks, order, tagset, classical, noSortTag, pairs[1..], k - 1);
      assert pairs[1..][..k - 1] == pairs[..k][1..];
      assert pairs[..k][0] == pairs[0];
    }
  }

  /** When every listed track is quiet for every pair, the check ends
      normally and reports nothing. */
  lemma {:induction false} AllQuietSilent(tracks: map<int, Track>, order: seq<int>, tagset: set<string>, classical: bool, noSortTag: bool,
                                          pairs: seq<(string, string)>)
    requires Listed(tracks, order)
    requires forall m, i :: 0 <= m < |pairs| && 0 <= i < |order| ==> QuietAt(tracks, order, pairs[m].0, pairs[m].1, i)
    ensures SortTagsFrom(tracks, order, tagset, classical, noSortTag, pairs) == (Done, [])
  {
    if pairs != [] {
      PairSilentIff(tracks, order, |tracks|, pairs[0].0, pairs[0].1);
      assert forall i :: 0 <= i < |order| ==> QuietAt(tracks, order, pairs[0].0, pairs[0].1, i);
      assert forall m, i :: 0 <= m < |pairs[1..]| && 0 <= i < |order| ==> QuietAt(tracks, order, pairs[1..][m].0, pairs[1..][m].1, i) by {
        forall m, i | 0 <= m < |pairs[1..]| && 0 <= i < |order|
          ensures QuietAt(tracks, order, pairs[1..][m].0, pairs[1..][m].1, i)
        {
          assert pairs[1..][m] == pairs[m + 1];
        }
      }
      AllQuietSilent(tracks, order, tagset, classical, noSortTag, pairs[1..]);
      var p := PairReport(tracks, order, |tracks|, pairs[0].0, pairs[0].1);
      assert p == (Done, []);
      assert p.1 + [] == [];
    }
  }

  lemma AppendAssoc<T>(a: seq<T>, b: seq<T>, c: seq<T>)
    ensures a + (b + c) == (a + b) + c
  {
  }

  /** The loop of `check_sort_tags` over the pairs of tags. */
  method SortTagsOver(disc: Disc, noSortTag: bool, pairs: seq<(string, string)>) returns (outcome: Outcome, ds: seq<Diag>)
    requires Listed(disc.tracks, disc.order)
    ensures (outcome, ds) == SortTagsFrom(disc.tracks, disc.order, disc.tagset, disc.classical, noSortTag, pairs)
  {
    var tracks, order, tagset, classical := disc.tracks, disc.order, disc.tagset, disc.classical;
    ghost var all := SortTagsFrom(tracks, order, tagset, classical, noSortTag, pairs);
    ds := [];
    var i := 0;
    assert pairs[0..] == pairs && [] + all.1 == all.1;
    while i < |pairs|
      invariant 0 <= i <= |pairs|
      invariant all.0 == SortTagsFrom(tracks, order, tagset, classical, noSortTag, pairs[i..]).0
      invariant all.1 == ds + SortTagsFrom(tracks, order, tagset, classical, noSortTag, pairs[i..]).1
    {
      assert pairs[i..][0] == pairs[i] && pairs[i..][1..] == pairs[i + 1..];
      var tag, sortTag := pairs[i].0, pairs[i].1;
      if sortTag !in tagset && !noSortTag && !classical {
        assert ds + [] == ds;
        return Done, ds;
      }
      var pairOutcome, pairLines := PairCheck(disc, tag, sortTag);
      if pairOutcome.Raised? {
        return pairOutcome, ds + pairLines;
      }
      AppendAssoc(ds, pairLines, SortTagsFrom(tracks, order, tagset, classical, noSortTag, pairs[i + 1..]).1);
      ds := ds + pairLines;
      i := i + 1;
    }
    assert pairs[i..] == [];
    assert ds + [] == ds;
    outcome := Done;
  }

  /** `check_sort_tags(disc)`: the decisions, then the lines reported. */
  method CheckSortTags(disc: Disc, opts: CheckOptions, msgs: Messages) returns (outcome: Outcome)
    requires Listed(disc.tracks, disc.order)
    modifies msgs
    ensures outcome == SortTagsReport(opts, disc.tracks, disc.order, disc.tagset, disc.classical).0
    ensures msgs.Snapshot() == old(msgs.Snapshot()).Then(Errors(SortTagsReport(opts, disc.tracks, disc.order, disc.tagset, disc.classical).1))
  {
    var ds: seq<Diag> := [];
    outcome := Done;
    if opts.sortTagMismatch {
      outcome, ds := SortTagsOver(disc, opts.noSortTag, SortedTags);
    }
    msgs.Record(Errors(ds));
  }
}

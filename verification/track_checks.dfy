/** The per-disc checks about track numbers and about tags whose values must
    agree or must differ between the tracks of a disc: `check_track_numbers`,
    `check_identical_tags` and `check_different_tags`. */
module TrackChecks {
  import opened Wrappers
  import opened Text
  import opened MessageSink
  import opened Hierarchy
  import opened Grouping
  import opened TagCatalog
  import opened Aggregation
  import opened AlbumAggregates
  import opened DiscScan

  // --------------------------------------------------------- track numbers

  /** Python's `max` over the track numbers, which are the disc's keys. */
  function MaxOf(order: seq<int>): (m: int)
    requires |order| > 0
    ensures m in order && forall x :: x in order ==> x <= m
  {
    if |order| == 1 then order[0]
    else
      var rest := MaxOf(order[1..]);
      assert forall x :: x in order ==> x == order[0] || x in order[1..];
      if order[0] < rest then rest else order[0]
  }

  /** The track count `check_track_numbers` reads from the disc's identical
      `tracktotal`, and the error it reports when it cannot: the tag differs
      between tracks (so `identical` lacks it), or it is not an integer. */
  function TrackCount(identical: Track): (r: (Option<int>, seq<Diag>))
    ensures r.0.Some? <==> r.1 == []
    ensures "tracktotal" !in identical.tags ==> r.1 == [TracktotalNotSame]
    ensures "tracktotal" in identical.tags ==>
      r.0 == ParseInt(Flat(identical, "tracktotal")) &&
      (r.0.None? ==> r.1 == [TracktotalNotInt(Flat(identical, "tracktotal"))])
  {
    var tracktotal := FlattenTag(identical.Get("tracktotal"));
    if !tracktotal.PyStr? then (None, [TracktotalNotSame])
    else
      match ParseInt(tracktotal.s)
      case Some(count) => (Some(count), [])
      case None => (None, [TracktotalNotInt(tracktotal.s)])
  }

  /** The set of the disc's track numbers, `set(disc)`. */
  function Numbers(order: seq<int>): (s: set<int>)
    ensures forall n :: n in s <==> n in order
  {
    set n | n in order
  }

  /** The last track number expected: the track count, or else the highest
      track number present. */
  function LastTrack(identical: Track, order: seq<int>): int
    requires |order| > 0
  {
    match TrackCount(identical).0
    case Some(count) => count
    case None => MaxOf(order)
  }

  /** `set(range(1, last + 1))`. */
  function ExpectedTracks(last: int): (s: set<int>)
    ensures forall n :: n in s <==> 1 <= n <= last
    decreases last
  {
    if last < 1 then {} else ExpectedTracks(last - 1) + {last}
  }

  /** The track numbers from 1 to the last expected that no track has. */
  function MissingNumbers(identical: Track, order: seq<int>): (s: set<int>)
    requires |order| > 0
  {
    ExpectedTracks(LastTrack(identical, order)) - Numbers(order)
  }

  /** The track numbers present outside the range from 1 to the last
      expected. */
  function ExtraNumbers(identical: Track, order: seq<int>): (s: set<int>)
    requires |order| > 0
  {
    Numbers(order) - ExpectedTracks(LastTrack(identical, order))
  }

  /** A number is missing exactly when it lies from 1 to the last expected
      and no track has it; it is unexpected exactly when a track has it and
      it lies outside that range. */
  lemma NumbersMeaning(identical: Track, order: seq<int>, n: int)
    requires |order| > 0
    ensures n in MissingNumbers(identical, order) <==> 1 <= n <= LastTrack(identical, order) && n !in Numbers(order)
    ensures n in ExtraNumbers(identical, order) <==> n in Numbers(order) && (n < 1 || LastTrack(identical, order) < n)
  {
  }

  /** The lines `check_track_numbers` reports for a disc whose track
      numbers are those in `order`. */
  function TrackNumberLines(identical: Track, order: seq<int>): (ds: seq<Diag>)
    requires |order| > 0
  {
    var missing := MissingNumbers(identical, order);
    var extra := ExtraNumbers(identical, order);
    TrackCount(identical).1
      + (if missing != {} then [MissingTracks(missing)] else [])
      + (if extra != {} then [UnexpectedTracks(extra)] else [])
  }

  /** A missing-tracks line is reported exactly when some number from 1 to
      the last expected has no track, and it names exactly those numbers. */
  lemma MissingTracksIff(identical: Track, order: seq<int>, s: set<int>)
    requires |order| > 0
    ensures MissingTracks(s) in TrackNumberLines(identical, order) <==>
      s != {} && s == MissingNumbers(identical, order)
  {
    var ds := TrackNumberLines(identical, order);
    var head := TrackCount(identical).1;
    assert MissingTracks(s) !in head;
  }

  /** An unexpected-tracks line is reported exactly when some track number
      lies outside the range from 1 to the last expected, and it names
      exactly those numbers. */
  lemma UnexpectedTracksIff(identical: Track, order: seq<int>, s: set<int>)
    requires |order| > 0
    ensures UnexpectedTracks(s) in TrackNumberLines(identical, order) <==>
      s != {} && s == ExtraNumbers(identical, order)
  {
    var ds := TrackNumberLines(identical, order);
    var head := TrackCount(identical).1;
    assert UnexpectedTracks(s) !in head;
  }

  /** Without a usable track count, the highest track number is the last
      expected, so only numbers below 1 can be unexpected. */
  lemma NoCountOnlyNonPositiveExtra(identical: Track, order: seq<int>, n: int)
    requires |order| > 0 && TrackCount(identical).0.None?
    ensures n in ExtraNumbers(identical, order) <==> n in Numbers(order) && n < 1
  {
    NumbersMeaning(identical, order, n);
  }

  /** When every track of a disc carries the same `tracktotal`, written as
      the integer `count`, that is the track count, and no error about it is
      reported. */
  lemma TrackCountFromTracks(disc: Disc, count: int)
    requires IdenticalSet(disc)
    requires EveryTrackHas(disc.tracks, disc.order, "tracktotal", [IntToString(count)])
    ensures TrackCount(disc.identical) == (Some(count), [])
  {
    DiscIdenticalFromTracks(disc, "tracktotal", [IntToString(count)]);
    assert Flat(disc.identical, "tracktotal") == IntToString(count);
    ParseIntOfIntToString(count);
  }

  /** "tracktotal not same in all tracks" is reported exactly when the tracks
      do not all carry the first track's `tracktotal`. */
  lemma TracktotalNotSameIff(disc: Disc)
    requires IdenticalSet(disc)
    ensures TrackCount(disc.identical).1 == [TracktotalNotSame] <==>
      !("tracktotal" in FirstTrack(disc).tags &&
        EveryTrackHas(disc.tracks, disc.order, "tracktotal", FirstTrack(disc).tags["tracktotal"]))
  {
    DiscIdenticalHas(disc, "tracktotal");
  }

  /** The first part of `check_track_numbers`: reading `tracktotal` from
      the disc's identical tags, with the error it reports when it cannot. */
  method ReadTrackCount(identical: Track) returns (lines: seq<Diag>, trackCount: Option<int>)
    ensures (trackCount, lines) == TrackCount(identical)
  {
    lines := [];
    trackCount := None;
    var tracktotal := FlattenTag(identical.Get("tracktotal"));
    if tracktotal.PyStr? {
      trackCount := ParseInt(tracktotal.s);
      if trackCount.None? {
        lines := [TracktotalNotInt(tracktotal.s)];
      }
    } else {
      lines := [TracktotalNotSame];
    }
  }

  /** The lines of `check_track_numbers`, computed as it does for a disc
      whose identical tags are `identical` and whose track numbers are those
      in `order`. */
  method TrackNumberReport(identical: Track, order: seq<int>) returns (lines: seq<Diag>)
    requires |order| > 0
    ensures lines == TrackNumberLines(identical, order)
  {
    var trackCount;
    lines, trackCount := ReadTrackCount(identical);
    var trackSet := Numbers(order);
    var last := if trackCount.Some? then trackCount.value else MaxOf(order);
    var expected := ExpectedTracks(last);
    assert last == LastTrack(identical, order);
    var missingTracks := expected - trackSet;
    var extraTracks := trackSet - expected;
    if missingTracks != {} {
      lines := lines + [MissingTracks(missingTracks)];
    }
    if extraTracks != {} {
      lines := lines + [UnexpectedTracks(extraTracks)];
    }
  }

  /** `check_track_numbers(disc)`. */
  method CheckTrackNumbers(disc: Disc, msgs: Messages)
    requires |disc.order| > 0
    modifies msgs
    ensures msgs.Snapshot() == old(msgs.Snapshot()).Then(Errors(TrackNumberLines(disc.identical, disc.order)))
  {
    var lines := TrackNumberReport(disc.identical, disc.order);
    msgs.Record(Errors(lines));
  }

  // -------------------------------------------------------- identical tags

  /** The tags that should be identical within the disc, are present on some
      track, but are not identical on all of them. */
  function NotSame(tagset: set<string>, identical: Track): set<string>
  {
    (IdenticalTagsWithinDisc * tagset) - identical.tagset
  }

  /** The lines `check_identical_tags` reports. */
  function IdenticalLines(tagset: set<string>, identical: Track): (ds: seq<Diag>)
  {
    var mismatch := NotSame(tagset, identical);
    if mismatch != {} then [TagsNotSame(mismatch)] else []
  }

  /** A tag is reported exactly when it must be identical within a disc,
      some track holds it, and the tracks do not all hold it with the first
      track's values. */
  lemma NotSameIff(disc: Disc, k: string)
    requires IdenticalSet(disc) && disc.tagset == UnionTagsets(disc.tracks)
    ensures k in NotSame(disc.tagset, disc.identical) <==>
      && k in IdenticalTagsWithinDisc
      && (exists n :: n in disc.tracks && k in disc.tracks[n].tagset)
      && !(k in FirstTrack(disc).tags && EveryTrackHas(disc.tracks, disc.order, k, FirstTrack(disc).tags[k]))
  {
    DiscIdenticalHas(disc, k);
    IdenticalsKeyed([disc]);
    assert Keyed(disc.identical);
  }

  /** `check_identical_tags(disc)`. */
  method CheckIdenticalTags(disc: Disc, msgs: Messages)
    modifies msgs
    ensures msgs.Snapshot() == old(msgs.Snapshot()).Then(Errors(IdenticalLines(disc.tagset, disc.identical)))
  {
    var mismatchTags := (IdenticalTagsWithinDisc * disc.tagset) - disc.identical.tagset;
    if mismatchTags != {} {
      msgs.Record(Errors([TagsNotSame(mismatchTags)]));
    } else {
      ThenNothing(msgs.Snapshot());
    }
  }

  // -------------------------------------------------------- different tags

  /** The key a track is filed under for `tag`: its flattened value, when it
      holds the tag. */
  function ValueKey(tag: string): Track -> Option<string>
  {
    (t: Track) => if tag in t.tags then Some(Flat(t, tag)) else None
  }

  /** One line per value in `keys` held by more than one track. */
  function DupValueLines(g: Groups<string>, keys: seq<string>): (ds: seq<Diag>)
    requires forall v :: v in keys ==> v in g.lists
  {
    if keys == [] then []
    else
      var last := keys[|keys| - 1];
      assert last in keys;
      DupValueLines(g, keys[..|keys| - 1])
        + (if |g.lists[last]| > 1 then [DuplicatedValue(last, g.lists[last])] else [])
  }

  lemma {:induction false} DupValueLinesIn(g: Groups<string>, keys: seq<string>, v: string, l: seq<int>)
    requires forall v :: v in keys ==> v in g.lists
    ensures DuplicatedValue(v, l) in DupValueLines(g, keys) <==> v in keys && l == g.lists[v] && |l| > 1
  {
    if keys != [] {
      var init := keys[..|keys| - 1];
      DupValueLinesIn(g, init, v, l);
      assert keys == init + [keys[|keys| - 1]];
    }
  }

  /** The lines for one tag once its values are grouped: a header and the
      shared values, when some value was seen twice. */
  function WarnLines(g: Groups<string>, tag: string): (ds: seq<Diag>)
    requires g.Valid()
    ensures ds != [] <==> SharedKey(g)
  {
    if SharedKey(g) then [TagDuplicated(tag)] + DupValueLines(g, g.keys) else []
  }

  /** The values of `tag` on the tracks, grouped in disc order. */
  function ValueGroups(tracks: map<int, Track>, order: seq<int>, tag: string): (g: Groups<string>)
    requires Listed(tracks, order)
    ensures g.Valid()
  {
    GroupAll(KeyedTracks(tracks, order, ValueKey(tag)))
  }

  /** The lines for one tag of `different_tags`. */
  function DifferentFor(tracks: map<int, Track>, order: seq<int>, tagset: set<string>, tag: string): (ds: seq<Diag>)
    requires Listed(tracks, order)
  {
    if tag !in tagset then [] else WarnLines(ValueGroups(tracks, order, tag), tag)
  }

  /** The lines `check_different_tags` reports for the tags `tags`, in turn. */
  function DifferentLines(tracks: map<int, Track>, order: seq<int>, tagset: set<string>, tags: seq<string>): (ds: seq<Diag>)
    requires Listed(tracks, order)
  {
    if tags == [] then []
    else DifferentLines(tracks, order, tagset, tags[..|tags| - 1]) + DifferentFor(tracks, order, tagset, tags[|tags| - 1])
  }

  /** With the track numbers listed once each, a value's list never names a
      track twice. */
  lemma {:induction false} KeyedMembersDistinct<K>(tracks: map<int, Track>, order: seq<int>, key: Track -> Option<K>, v: K)
    requires Listed(tracks, order) && Distinct(order)
    ensures Distinct(Members(KeyedTracks(tracks, order, key), v))
  {
    if order != [] {
      var init := order[..|order| - 1];
      var last := order[|order| - 1];
      assert Distinct(init);
      KeyedMembersDistinct(tracks, init, key, v);
      var ps := KeyedTracks(tracks, init, key);
      assert last in order && last !in init;
      MembersIff(ps, v, last);
      KeyedTracksIff(tracks, init, key, v, last);
      var ms := Members(ps, v);
      match key(tracks[last]) {
        case Some(k) =>
          assert KeyedTracks(tracks, order, key) == ps + [(k, last)];
          assert (ps + [(k, last)])[..|ps|] == ps;
          assert Members(ps + [(k, last)], v) == ms + (if k == v then [last] else []);
        case None =>
          assert KeyedTracks(tracks, order, key) == ps + [] == ps;
      }
    }
  }

  /** The tracks that hold `tag` with the value `v`. */
  predicate HoldsValue(t: Track, tag: string, v: string)
  {
    tag in t.tags && Flat(t, tag) == v
  }

  /** A value's list holds exactly the tracks with that value. */
  lemma ValueGroupMembers(tracks: map<int, Track>, order: seq<int>, tag: string, v: string, n: int)
    requires Listed(tracks, order)
    ensures v in ValueGroups(tracks, order, tag).lists ==>
      (n in ValueGroups(tracks, order, tag).lists[v] <==> n in order && HoldsValue(tracks[n], tag, v))
    ensures n in order && HoldsValue(tracks[n], tag, v) ==> v in ValueGroups(tracks, order, tag).lists
  {
    GroupedTracks(tracks, order, ValueKey(tag), v, n);
  }

  /** A value listed for more than one track is held by two different
      tracks. */
  lemma SharedValueSound(tracks: map<int, Track>, order: seq<int>, tag: string, v: string)
    requires Listed(tracks, order) && Distinct(order)
    requires v in ValueGroups(tracks, order, tag).lists && |ValueGroups(tracks, order, tag).lists[v]| > 1
    ensures exists m, n :: m in order && n in order && m != n && HoldsValue(tracks[m], tag, v) && HoldsValue(tracks[n], tag, v)
  {
    var ps := KeyedTracks(tracks, order, ValueKey(tag));
    var l := ValueGroups(tracks, order, tag).lists[v];
    GroupAllMembers(ps, v);
    KeyedMembersDistinct(tracks, order, ValueKey(tag), v);
    assert l[0] != l[1];
    ValueGroupMembers(tracks, order, tag, v, l[0]);
    ValueGroupMembers(tracks, order, tag, v, l[1]);
    assert l[0] in l && l[1] in l;
  }

  /** Two different tracks holding the same value put more than one track on
      that value's list. */
  lemma SharedValueComplete(tracks: map<int, Track>, order: seq<int>, tag: string, v: string, m: int, n: int)
    requires Listed(tracks, order)
    requires m in order && n in order && m != n && HoldsValue(tracks[m], tag, v) && HoldsValue(tracks[n], tag, v)
    ensures v in ValueGroups(tracks, order, tag).lists && |ValueGroups(tracks, order, tag).lists[v]| > 1
  {
    ValueGroupMembers(tracks, order, tag, v, m);
    ValueGroupMembers(tracks, order, tag, v, n);
    var l := ValueGroups(tracks, order, tag).lists[v];
    var i :| 0 <= i < |l| && l[i] == m;
    var j :| 0 <= j < |l| && l[j] == n;
    assert i != j;
  }

  /** The warning for a tag is reported exactly when two different tracks of
      the disc hold it with the same value. */
  lemma DifferentWarnIff(tracks: map<int, Track>, order: seq<int>, tagset: set<string>, tag: string)
    requires Listed(tracks, order) && Distinct(order)
    requires forall n :: n in order ==> tracks[n].tags.Keys <= tagset
    ensures DifferentFor(tracks, order, tagset, tag) != [] <==>
      exists m, n, v :: m in order && n in order && m != n && HoldsValue(tracks[m], tag, v) && HoldsValue(tracks[n], tag, v)
  {
    var g := ValueGroups(tracks, order, tag);
    if DifferentFor(tracks, order, tagset, tag) != [] {
      var v :| v in g.lists && |g.lists[v]| > 1;
      SharedValueSound(tracks, order, tag, v);
    }
    if exists m, n, v :: m in order && n in order && m != n && HoldsValue(tracks[m], tag, v) && HoldsValue(tracks[n], tag, v) {
      var m, n, v :| m in order && n in order && m != n && HoldsValue(tracks[m], tag, v) && HoldsValue(tracks[n], tag, v);
      SharedValueComplete(tracks, order, tag, v, m, n);
      assert tag in tracks[m].tags.Keys;
    }
  }

  /** A value line names a value shared by more than one track, with exactly
      the tracks that hold it. */
  lemma DuplicatedValueMeaning(tracks: map<int, Track>, order: seq<int>, tagset: set<string>, tag: string, v: string, l: seq<int>)
    requires Listed(tracks, order)
    ensures DuplicatedValue(v, l) in DifferentFor(tracks, order, tagset, tag) ==>
      |l| > 1 && forall n :: n in l <==> n in order && HoldsValue(tracks[n], tag, v)
  {
    var g := ValueGroups(tracks, order, tag);
    if DuplicatedValue(v, l) in DifferentFor(tracks, order, tagset, tag) {
      DupValueLinesIn(g, g.keys, v, l);
      forall n ensures n in l <==> n in order && HoldsValue(tracks[n], tag, v) {
        ValueGroupMembers(tracks, order, tag, v, n);
      }
    }
  }

  /** The inner loop of `check_different_tags`: groups the tracks holding
      `tag` by value, and notes whether a value was seen twice. */
  method GroupValues(disc: Disc, tag: string) returns (tagValues: Groups<string>, needWarning: bool)
    requires Listed(disc.tracks, disc.order)
    ensures tagValues == ValueGroups(disc.tracks, disc.order, tag)
    ensures needWarning <==> SharedKey(tagValues)
  {
    tagValues, needWarning := GroupTracksNoting(disc, ValueKey(tag));
  }

  /** The lines of the values seen on more than one track, in the order the
      values were first seen. */
  method SharedValueLines(tagValues: Groups<string>) returns (ds: seq<Diag>)
    requires tagValues.Valid()
    ensures ds == DupValueLines(tagValues, tagValues.keys)
  {
    ds := [];
    var j := 0;
    while j < |tagValues.keys|
      invariant 0 <= j <= |tagValues.keys|
      invariant ds == DupValueLines(tagValues, tagValues.keys[..j])
    {
      var v := tagValues.keys[j];
      assert tagValues.keys[..j + 1][..j] == tagValues.keys[..j];
      if |tagValues.lists[v]| > 1 {
        ds := ds + [DuplicatedValue(v, tagValues.lists[v])];
      }
      j := j + 1;
    }
    assert tagValues.keys[..j] == tagValues.keys;
  }

  /** The lines for one tag, gathered as `check_different_tags` does. */
  method DifferentTagLines(disc: Disc, tag: string) returns (ds: seq<Diag>)
    requires Listed(disc.tracks, disc.order)
    ensures ds == DifferentFor(disc.tracks, disc.order, disc.tagset, tag)
  {
    if tag !in disc.tagset {
      return [];
    }
    var tagValues, needWarning := GroupValues(disc, tag);
    if !needWarning {
      return [];
    }
    var shared := SharedValueLines(tagValues);
    ds := [TagDuplicated(tag)] + shared;
  }

  /** The loop of `check_different_tags` over the tags `tags`: the lines it
      reports, tag by tag. */
  method DifferentTagsOver(disc: Disc, tags: seq<string>) returns (lines: seq<Diag>)
    requires Listed(disc.tracks, disc.order)
    ensures lines == DifferentLines(disc.tracks, disc.order, disc.tagset, tags)
  {
    var tracks, order, tagset := disc.tracks, disc.order, disc.tagset;
    lines := [];
    var i := 0;
    while i < |tags|
      invariant 0 <= i <= |tags|
      invariant lines == DifferentLines(tracks, order, tagset, tags[..i])
    {
      var ds := DifferentTagLines(disc, tags[i]);
      DifferentLinesSnoc(tracks, order, tagset, tags, i);
      lines := lines + ds;
      i := i + 1;
    }
    assert tags[..i] == tags;
  }

  /** The lines for the first `i + 1` tags are those for the first `i`, then
      those of tag `i`. */
  lemma DifferentLinesSnoc(tracks: map<int, Track>, order: seq<int>, tagset: set<string>, tags: seq<string>, i: int)
    requires Listed(tracks, order) && 0 <= i < |tags|
    ensures DifferentLines(tracks, order, tagset, tags[..i + 1])
      == DifferentLines(tracks, order, tagset, tags[..i]) + DifferentFor(tracks, order, tagset, tags[i])
  {
    assert tags[..i + 1][..i] == tags[..i];
  }

  /** `check_different_tags(disc)`: the tags that must differ between
      tracks, in catalog order. */
  method CheckDifferentTags(disc: Disc, msgs: Messages)
    requires Listed(disc.tracks, disc.order)
    modifies msgs
    ensures msgs.Snapshot() == old(msgs.Snapshot()).Then(Errors(DifferentLines(disc.tracks, disc.order, disc.tagset, DifferentTagsOrder)))
  {
    var lines := DifferentTagsOver(disc, DifferentTagsOrder);
    msgs.Record(Errors(lines));
  }
}

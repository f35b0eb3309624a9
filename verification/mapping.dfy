/** `handle_mapped_tags`: each obsolete tag found on a disc is copied to its
    current name on the tracks that lack the current one, tracks holding both
    with different values are listed, and (unless `--mapping` turned the
    reports off) the copies and the mismatches are reported. */
module TagMapping {
  import opened Wrappers
  import opened MessageSink
  import opened Hierarchy
  import opened TagCatalog

  /** What the loop over a disc's tracks has done for one (obsolete, current)
      pair: the tracks after it, the track numbers copied to and those found
      with different values, in visiting order, and whether it stopped on a
      `KeyError`. */
  datatype TrackPass = TrackPass(tracks: map<int, Track>, added: seq<int>, mismatch: seq<int>, outcome: Outcome)

  /** `track[new_tag] = track[old_tag]` and `track.tagset |= {new_tag}`. */
  function CopyTag(t: Track, oldTag: string, newTag: string): (r: Track)
    requires oldTag in t.tags
    ensures r.tags == t.tags[newTag := t.tags[oldTag]] && r.tagset == t.tagset + {newTag} && r.file == t.file
  {
    Track(t.tags[newTag := t.tags[oldTag]], t.tagset + {newTag}, t.file)
  }

  /** The loop over the tracks listed in `order`, for one pair. A track
      lacking the current tag is recorded as added and then given a copy of
      the obsolete tag, which raises `KeyError` when it lacks that too; a
      track holding the current tag is a mismatch unless it also holds the
      obsolete one with equal values (the comparison's `KeyError` is caught
      and counts as a mismatch). */
  function MapTracks(tracks: map<int, Track>, order: seq<int>, oldTag: string, newTag: string): (m: TrackPass)
    requires forall n :: n in order ==> n in tracks
    ensures m.tracks.Keys == tracks.Keys
  {
    if order == [] then TrackPass(tracks, [], [], Done)
    else
      var m := MapTracks(tracks, order[..|order| - 1], oldTag, newTag);
      var n := order[|order| - 1];
      assert n in order;
      if m.outcome.Raised? then m
      else
        var t := m.tracks[n];
        if newTag !in t.tags then
          if oldTag !in t.tags then TrackPass(m.tracks, m.added + [n], m.mismatch, Raised(KeyError(oldTag)))
          else TrackPass(m.tracks[n := CopyTag(t, oldTag, newTag)], m.added + [n], m.mismatch, Done)
        else if oldTag in t.tags && t.tags[oldTag] == t.tags[newTag] then m
        else TrackPass(m.tracks, m.added, m.mismatch + [n], Done)
  }

  /** A track after the loop: unchanged when it held the current tag, else
      given the obsolete tag's values under the current name. */
  function MappedTrack(t: Track, oldTag: string, newTag: string): Track
    requires newTag in t.tags || oldTag in t.tags
  {
    if newTag in t.tags then t else CopyTag(t, oldTag, newTag)
  }

  /** The loop stops with `KeyError` exactly when a listed track holds
      neither tag. */
  lemma {:induction false} MapTracksRaises(tracks: map<int, Track>, order: seq<int>, oldTag: string, newTag: string)
    requires forall n :: n in order ==> n in tracks
    ensures var m := MapTracks(tracks, order, oldTag, newTag);
      (m.outcome.Done? <==> forall n :: n in order ==> newTag in tracks[n].tags || oldTag in tracks[n].tags)
      && (m.outcome.Raised? ==> m.outcome == Raised(KeyError(oldTag)))
    ensures var m := MapTracks(tracks, order, oldTag, newTag);
      m.outcome.Done? ==> forall n :: n in tracks ==> m.tracks[n] == (if n in order then MappedTrack(tracks[n], oldTag, newTag) else tracks[n])
  {
    if order != [] {
      var init := order[..|order| - 1];
      var n := order[|order| - 1];
      assert order == init + [n];
      assert forall k :: k in order <==> k in init || k == n;
      MapTracksRaises(tracks, init, oldTag, newTag);
    }
  }

  /** When the loop does not raise, the added tracks are exactly those that
      lacked the current tag. */
  lemma {:induction false} MapTracksAdded(tracks: map<int, Track>, order: seq<int>, oldTag: string, newTag: string, k: int)
    requires forall n :: n in order ==> n in tracks
    requires MapTracks(tracks, order, oldTag, newTag).outcome.Done?
    ensures k in MapTracks(tracks, order, oldTag, newTag).added <==> k in order && newTag !in tracks[k].tags
  {
    if order != [] {
      var init := order[..|order| - 1];
      var n := order[|order| - 1];
      assert order == init + [n];
      assert k in order <==> k in init || k == n;
      MapTracksAdded(tracks, init, oldTag, newTag, k);
      MapTracksAdded(tracks, init, oldTag, newTag, n);
      MapTracksRaises(tracks, init, oldTag, newTag);
    }
  }

  /** When the loop does not raise, the mismatches are exactly the tracks
      that held the current tag with values differing from (or without) the
      obsolete tag's. */
  lemma {:induction false} MapTracksMismatch(tracks: map<int, Track>, order: seq<int>, oldTag: string, newTag: string, k: int)
    requires forall n :: n in order ==> n in tracks
    requires MapTracks(tracks, order, oldTag, newTag).outcome.Done?
    ensures k in MapTracks(tracks, order, oldTag, newTag).mismatch <==>
      k in order && newTag in tracks[k].tags &&
      (oldTag !in tracks[k].tags || tracks[k].tags[oldTag] != tracks[k].tags[newTag])
  {
    if order != [] {
      var init := order[..|order| - 1];
      var n := order[|order| - 1];
      assert order == init + [n];
      assert k in order <==> k in init || k == n;
      MapTracksMismatch(tracks, init, oldTag, newTag, k);
      MapTracksMismatch(tracks, init, oldTag, newTag, n);
      MapTracksRaises(tracks, init, oldTag, newTag);
    }
  }

  /** After a loop that did not raise, every listed track holds the current
      tag; a track that lacked it holds exactly the obsolete tag's values,
      and a track that had it keeps its own values. */
  lemma NewTagEverywhere(tracks: map<int, Track>, order: seq<int>, oldTag: string, newTag: string, n: int)
    requires forall n :: n in order ==> n in tracks
    requires MapTracks(tracks, order, oldTag, newTag).outcome.Done? && n in order
    ensures var t' := MapTracks(tracks, order, oldTag, newTag).tracks[n];
      && newTag in t'.tags
      && (newTag !in tracks[n].tags ==> newTag in t'.tagset)
      && (newTag !in tracks[n].tags ==> oldTag in tracks[n].tags && t'.tags == tracks[n].tags[newTag := tracks[n].tags[oldTag]])
      && (newTag in tracks[n].tags ==> t' == tracks[n])
  {
    MapTracksRaises(tracks, order, oldTag, newTag);
    assert MapTracks(tracks, order, oldTag, newTag).tracks[n] == MappedTrack(tracks[n], oldTag, newTag);
  }

  /** Once the loop has raised, visiting more tracks changes nothing. */
  lemma {:induction false} RaisedStays(tracks: map<int, Track>, order: seq<int>, i: nat, oldTag: string, newTag: string)
    requires forall n :: n in order ==> n in tracks
    requires i <= |order| && MapTracks(tracks, order[..i], oldTag, newTag).outcome.Raised?
    ensures MapTracks(tracks, order, oldTag, newTag) == MapTracks(tracks, order[..i], oldTag, newTag)
    decreases |order| - i
  {
    if i < |order| {
      assert order[..i + 1][..i] == order[..i];
      RaisedStays(tracks, order, i + 1, oldTag, newTag);
    } else {
      assert order[..i] == order;
    }
  }

  /** `msg_helper(kind, tracks)`: "all tracks" when every track of the disc
      is listed, else the listed track numbers. */
  function Detail(oldTag: string, kind: MapKind, newTag: string, ns: seq<int>, trackCount: nat): (d: Diag)
    ensures d.MappingDetail? && d.obsolete == oldTag && d.kind == kind && d.current == newTag
    ensures d.within == AllTracks <==> |ns| == trackCount
    ensures d.within.SomeTracks? ==> d.within.tracks == set n | n in ns
  {
    MappingDetail(oldTag, kind, newTag, if |ns| == trackCount then AllTracks else SomeTracks(set n | n in ns))
  }

  /** The state of `handle_mapped_tags` after some of the pairs: the disc's
      tracks and tagset, the `added` and `mismatch` report lines, and whether
      a `KeyError` ended it. */
  datatype MapState = MapState(
    tracks: map<int, Track>,
    tagset: set<string>,
    added: seq<Diag>,
    mismatch: seq<Diag>,
    outcome: Outcome)

  /** One pair of `mapped_tags`: skipped when the obsolete tag is not on the
      disc; otherwise the current tag joins the disc's tagset, the tracks
      are mapped, and with `mapping` on each non-empty list of tracks adds a
      line (the disc has `trackCount` tracks). */
  function MapPair(s: MapState, order: seq<int>, oldTag: string, newTag: string, mapping: bool, trackCount: nat): (r: MapState)
    requires s.outcome.Done? && forall n :: n in order ==> n in s.tracks
    ensures r.tracks.Keys == s.tracks.Keys
  {
    if oldTag !in s.tagset then s
    else
      var m := MapTracks(s.tracks, order, oldTag, newTag);
      var tagset := s.tagset + {newTag};
      if m.outcome.Raised? then MapState(m.tracks, tagset, s.added, s.mismatch, m.outcome)
      else
        var added := if mapping && m.added != [] then [Detail(oldTag, Copied, newTag, m.added, trackCount)] else [];
        var mismatch := if mapping && m.mismatch != [] then [Detail(oldTag, Differs, newTag, m.mismatch, trackCount)] else [];
        MapState(m.tracks, tagset, s.added + added, s.mismatch + mismatch, Done)
  }

  /** The loop over the first pairs of `pairs`, stopping at a `KeyError`. */
  function MapAll(tracks: map<int, Track>, order: seq<int>, tagset: set<string>, pairs: seq<(string, string)>, mapping: bool): (r: MapState)
    requires forall n :: n in order ==> n in tracks
    ensures r.tracks.Keys == tracks.Keys
  {
    if pairs == [] then MapState(tracks, tagset, [], [], Done)
    else
      var s := MapAll(tracks, order, tagset, pairs[..|pairs| - 1], mapping);
      var p := pairs[|pairs| - 1];
      if s.outcome.Raised? then s else MapPair(s, order, p.0, p.1, mapping, |tracks|)
  }

  /** One pair does the same to the tracks and the tagset whatever
      `mapping` says, and adds no line when it is off. */
  lemma MapPairMapping(s: MapState, s': MapState, order: seq<int>, oldTag: string, newTag: string, trackCount: nat)
    requires s.outcome.Done? && forall n :: n in order ==> n in s.tracks
    requires s'.outcome.Done? && s'.tracks == s.tracks && s'.tagset == s.tagset
    ensures var on, off := MapPair(s, order, oldTag, newTag, true, trackCount), MapPair(s', order, oldTag, newTag, false, trackCount);
      on.tracks == off.tracks && on.tagset == off.tagset && on.outcome == off.outcome
      && off.added == s'.added && off.mismatch == s'.mismatch
  {
  }

  /** Only the report lines depend on `--mapping`: the tracks, the tagset
      and the outcome are the same either way, and with it off there are no
      lines. */
  lemma {:induction false} MappingOnlyReports(tracks: map<int, Track>, order: seq<int>, tagset: set<string>, pairs: seq<(string, string)>)
    requires forall n :: n in order ==> n in tracks
    ensures var on, off := MapAll(tracks, order, tagset, pairs, true), MapAll(tracks, order, tagset, pairs, false);
      on.tracks == off.tracks && on.tagset == off.tagset && on.outcome == off.outcome
    ensures MapAll(tracks, order, tagset, pairs, false).added == []
    ensures MapAll(tracks, order, tagset, pairs, false).mismatch == []
  {
    if pairs != [] {
      var init := pairs[..|pairs| - 1];
      MappingOnlyReports(tracks, order, tagset, init);
      var on, off := MapAll(tracks, order, tagset, init, true), MapAll(tracks, order, tagset, init, false);
      if on.outcome.Done? {
        var p := pairs[|pairs| - 1];
        MapPairMapping(on, off, order, p.0, p.1, |tracks|);
      }
    }
  }

  /** One pair's loop changes no value a track already had. */
  lemma {:induction false} MapTracksKeepsValues(tracks: map<int, Track>, order: seq<int>, oldTag: string, newTag: string)
    requires forall n :: n in order ==> n in tracks
    ensures var m := MapTracks(tracks, order, oldTag, newTag);
      forall n, k :: n in tracks && k in tracks[n].tags ==> k in m.tracks[n].tags && m.tracks[n].tags[k] == tracks[n].tags[k]
  {
    if order != [] {
      MapTracksKeepsValues(tracks, order[..|order| - 1], oldTag, newTag);
    }
  }

  /** One pair changes no value a track already had, and only grows the
      tagset. */
  lemma MapPairKeepsValues(s: MapState, order: seq<int>, oldTag: string, newTag: string, mapping: bool, trackCount: nat)
    requires s.outcome.Done? && forall n :: n in order ==> n in s.tracks
    ensures var r := MapPair(s, order, oldTag, newTag, mapping, trackCount);
      && s.tagset <= r.tagset
      && forall n, k :: n in s.tracks && k in s.tracks[n].tags ==> k in r.tracks[n].tags && r.tracks[n].tags[k] == s.tracks[n].tags[k]
  {
    if oldTag in s.tagset {
      MapTracksKeepsValues(s.tracks, order, oldTag, newTag);
    }
  }

  /** No tag value a track already had is ever changed or removed, and the
      disc's tagset only grows. */
  lemma {:induction false} MapAllKeepsValues(tracks: map<int, Track>, order: seq<int>, tagset: set<string>, pairs: seq<(string, string)>, mapping: bool)
    requires forall n :: n in order ==> n in tracks
    ensures var r := MapAll(tracks, order, tagset, pairs, mapping);
      && tagset <= r.tagset
      && forall n, k :: n in tracks && k in tracks[n].tags ==> k in r.tracks[n].tags && r.tracks[n].tags[k] == tracks[n].tags[k]
  {
    if pairs != [] {
      var s := MapAll(tracks, order, tagset, pairs[..|pairs| - 1], mapping);
      MapAllKeepsValues(tracks, order, tagset, pairs[..|pairs| - 1], mapping);
      var p := pairs[|pairs| - 1];
      if s.outcome.Done? {
        MapPairKeepsValues(s, order, p.0, p.1, mapping, |tracks|);
      }
    }
  }

  /** The corrected reports: each non-empty group is an error line followed
      by its detail lines, which are added to the messages without being
      counted. */
  function Reports(added: seq<Diag>, mismatch: seq<Diag>): seq<Msg>
  {
    Group(ObsoleteTagsNeedUpdating, added) + Group(ObsoleteTagsDiffer, mismatch)
  }

  /** One group of the reports: nothing for no lines, else the header as an
      error and the lines as notes. */
  function Group(header: Diag, ds: seq<Diag>): seq<Msg>
  {
    if ds != [] then [Msg(Error, header)] + Notes(ds) else []
  }

  /** The lines `ds`, added as uncounted messages. */
  function Notes(ds: seq<Diag>): (ms: seq<Msg>)
    ensures |ms| == |ds| && forall i :: 0 <= i < |ds| ==> ms[i] == Msg(Note, ds[i])
  {
    seq(|ds|, i requires 0 <= i < |ds| => Msg(Note, ds[i]))
  }

  /** Notes are not counted, and hold exactly their lines. */
  lemma {:induction false} NotesFacts(ds: seq<Diag>)
    ensures Count(Notes(ds), Error) == 0 && Count(Notes(ds), Warning) == 0
    ensures Texts(Notes(ds)) == ds
    decreases |ds|
  {
    if ds != [] {
      var init := ds[..|ds| - 1];
      NotesFacts(init);
      assert Notes(ds)[..|ds| - 1] == Notes(init);
    }
    assert forall i :: 0 <= i < |ds| ==> Texts(Notes(ds))[i] == ds[i];
  }

  /** One group of the corrected reports: one error, then its lines. */
  lemma GroupFacts(header: Diag, ds: seq<Diag>)
    ensures Count(Group(header, ds), Error) == (if ds != [] then 1 else 0)
    ensures Count(Group(header, ds), Warning) == 0
    ensures Texts(Group(header, ds)) == (if ds != [] then [header] + ds else [])
  {
    if ds != [] {
      var h := [Msg(Error, header)];
      assert Group(header, ds) == h + Notes(ds);
      NotesFacts(ds);
      CountOne(h[0], Error);
      CountOne(h[0], Warning);
      CountAppend(h, Notes(ds), Error);
      CountAppend(h, Notes(ds), Warning);
      TextsAppend(h, Notes(ds));
    }
  }

  /** The corrected reports count one error per non-empty group and no
      warning. */
  lemma ReportsCounts(added: seq<Diag>, mismatch: seq<Diag>)
    ensures Count(Reports(added, mismatch), Error) == (if added != [] then 1 else 0) + (if mismatch != [] then 1 else 0)
    ensures Count(Reports(added, mismatch), Warning) == 0
  {
    var a := Group(ObsoleteTagsNeedUpdating, added);
    var b := Group(ObsoleteTagsDiffer, mismatch);
    GroupFacts(ObsoleteTagsNeedUpdating, added);
    GroupFacts(ObsoleteTagsDiffer, mismatch);
    CountAppend(a, b, Error);
    CountAppend(a, b, Warning);
  }

  /** The corrected reports list every detail line after its header. */
  lemma ReportsTexts(added: seq<Diag>, mismatch: seq<Diag>)
    ensures Texts(Reports(added, mismatch)) ==
      (if added != [] then [ObsoleteTagsNeedUpdating] + added else []) +
      (if mismatch != [] then [ObsoleteTagsDiffer] + mismatch else [])
  {
    var a := Group(ObsoleteTagsNeedUpdating, added);
    var b := Group(ObsoleteTagsDiffer, mismatch);
    GroupFacts(ObsoleteTagsNeedUpdating, added);
    GroupFacts(ObsoleteTagsDiffer, mismatch);
    TextsAppend(a, b);
  }

  /** The reports as written: the first non-empty group's header is
      recorded, then `msgs.extend` raises `AttributeError`, since `Messages`
      has no such method. */
  function ReportsAsWritten(added: seq<Diag>, mismatch: seq<Diag>): (r: (seq<Msg>, Outcome))
    ensures r.1.Done? <==> added == [] && mismatch == []
    ensures r.1.Done? ==> r.0 == []
    ensures r.1.Raised? ==> r.1 == Raised(AttributeError("extend")) && |r.0| == 1 && r.0[0].severity == Error
  {
    if added != [] then ([Msg(Error, ObsoleteTagsNeedUpdating)], Raised(AttributeError("extend")))
    else if mismatch != [] then ([Msg(Error, ObsoleteTagsDiffer)], Raised(AttributeError("extend")))
    else ([], Done)
  }

  /** A one-track disc with an "organization" tag and no "label" tag. */
  const ExampleTracks: map<int, Track> := map[1 := NewTrack(map["organization" := ["EMI"]], "01.flac")]

  /** What the mapping loop leaves for `ExampleTracks` with `--mapping` on:
      the track copied, "label" added to the tagset, one detail line. */
  const ExampleState: MapState := MapState(
    map[1 := CopyTag(ExampleTracks[1], "organization", "label")],
    {"organization", "label"},
    [MappingDetail("organization", Copied, "label", AllTracks)], [], Done)

  /** The track loop for the first pair copies the one track's
      "organization" to "label". */
  lemma ExampleTrackPass()
    ensures MapTracks(ExampleTracks, [1], "organization", "label") == TrackPass(ExampleState.tracks, [1], [], Done)
  {
    var tracks := ExampleTracks;
    assert [1][..0] == [];
    assert MapTracks(tracks, [], "organization", "label") == TrackPass(tracks, [], [], Done);
    assert "organization" in tracks[1].tags && "label" !in tracks[1].tags;
  }

  lemma ExampleFirstPair()
    ensures MapAll(ExampleTracks, [1], {"organization"}, MappedTags[..1], true) == ExampleState
  {
    assert |ExampleTracks| == 1 by { assert ExampleTracks.Keys == {1}; }
    assert MappedTags[..0] == [] && MappedTags[0] == ("organization", "label");
    MapAllSnoc(ExampleTracks, [1], {"organization"}, MappedTags, 0, true);
    ExampleTrackPass();
  }

  /** A pair whose obsolete tag the example disc lacks changes nothing. */
  lemma ExampleSkips(pair: (string, string))
    requires pair.0 != "organization" && pair.0 != "label"
    ensures MapPair(ExampleState, [1], pair.0, pair.1, true, 1) == ExampleState
  {
    assert pair.0 !in ExampleState.tagset;
  }

  /** The later two pairs find their obsolete tags absent and skip. */
  lemma ExampleTwoPairs()
    ensures MapAll(ExampleTracks, [1], {"organization"}, MappedTags[..2], true) == ExampleState
  {
    ExampleFirstPair();
    assert |ExampleTracks| == 1 by { assert ExampleTracks.Keys == {1}; }
    assert MappedTags[1] == ("totaldiscs", "disctotal");
    ExampleSkips(MappedTags[1]);
    MapAllSnoc(ExampleTracks, [1], {"organization"}, MappedTags, 1, true);
  }

  lemma ExampleAllPairs()
    ensures MapAll(ExampleTracks, [1], {"organization"}, MappedTags, true) == ExampleState
  {
    ExampleTwoPairs();
    assert |ExampleTracks| == 1 by { assert ExampleTracks.Keys == {1}; }
    assert MappedTags[..3] == MappedTags && MappedTags[2] == ("totaltracks", "tracktotal");
    ExampleSkips(MappedTags[2]);
    MapAllSnoc(ExampleTracks, [1], {"organization"}, MappedTags, 2, true);
  }

  /** With `--mapping` on (its default) the code as written stops with
      `AttributeError` on this disc and none of the detail lines is
      recorded, while the corrected reports record the header and the
      detail line. */
  lemma ExtendCrashExample()
    ensures var s := MapAll(ExampleTracks, [1], {"organization"}, MappedTags, true);
      && s.outcome == Done
      && ReportsAsWritten(s.added, s.mismatch) == ([Msg(Error, ObsoleteTagsNeedUpdating)], Raised(AttributeError("extend")))
      && Texts(Reports(s.added, s.mismatch)) ==
           [ObsoleteTagsNeedUpdating, MappingDetail("organization", Copied, "label", AllTracks)]
  {
    ExampleAllPairs();
    OneAddedReports(MappingDetail("organization", Copied, "label", AllTracks));
  }

  /** With a single added line and no mismatch, the source records the
      first header and raises; the corrected reports list the header and
      the line. */
  lemma OneAddedReports(d: Diag)
    ensures ReportsAsWritten([d], []) == ([Msg(Error, ObsoleteTagsNeedUpdating)], Raised(AttributeError("extend")))
    ensures Texts(Reports([d], [])) == [ObsoleteTagsNeedUpdating, d]
  {
    ReportsTexts([d], []);
    assert [ObsoleteTagsNeedUpdating] + [d] + [] == [ObsoleteTagsNeedUpdating, d];
  }

  /** The `for tracknum, track in disc.items()` loop for one pair. */
  method MapOneTag(disc: Disc, oldTag: string, newTag: string) returns (added: seq<int>, mismatch: seq<int>, outcome: Outcome)
    requires forall n :: n in disc.order ==> n in disc.tracks
    modifies disc`tracks
    ensures TrackPass(disc.tracks, added, mismatch, outcome) == MapTracks(old(disc.tracks), disc.order, oldTag, newTag)
  {
    ghost var tracks0 := disc.tracks;
    added, mismatch, outcome := [], [], Done;
    var i := 0;
    while i < |disc.order|
      invariant 0 <= i <= |disc.order|
      invariant disc.tracks.Keys == tracks0.Keys
      invariant MapTracks(tracks0, disc.order[..i], oldTag, newTag) == TrackPass(disc.tracks, added, mismatch, Done)
    {
      assert disc.order[..i + 1][..i] == disc.order[..i];
      var n := disc.order[i];
      assert n in disc.order;
      var track := disc.tracks[n];
      if newTag !in track.tags {
        added := added + [n];
        if oldTag !in track.tags {
          outcome := Raised(KeyError(oldTag));
          RaisedStays(tracks0, disc.order, i + 1, oldTag, newTag);
          return;
        }
        disc.tracks := disc.tracks[n := CopyTag(track, oldTag, newTag)];
      } else if oldTag in track.tags && track.tags[oldTag] == track.tags[newTag] {
      } else {
        mismatch := mismatch + [n];
      }
      i := i + 1;
    }
    assert disc.order[..i] == disc.order;
  }

  /** One turn of the loop over `mapped_tags`. */
  method MapPairStep(disc: Disc, oldTag: string, newTag: string, mapping: bool, trackCount: nat,
                     added: seq<Diag>, mismatch: seq<Diag>)
    returns (added': seq<Diag>, mismatch': seq<Diag>, outcome: Outcome)
    requires forall n :: n in disc.order ==> n in disc.tracks
    modifies disc`tracks, disc`tagset
    ensures MapState(disc.tracks, disc.tagset, added', mismatch', outcome) ==
      MapPair(MapState(old(disc.tracks), old(disc.tagset), added, mismatch, Done), disc.order, oldTag, newTag, mapping, trackCount)
  {
    added', mismatch', outcome := added, mismatch, Done;
    if oldTag in disc.tagset {
      disc.tagset := disc.tagset + {newTag};
      var addedTracks, mismatchTracks, o := MapOneTag(disc, oldTag, newTag);
      outcome := o;
      if o.Raised? {
        return;
      }
      if mapping && addedTracks != [] {
        added' := added' + [Detail(oldTag, Copied, newTag, addedTracks, trackCount)];
      }
      if mapping && mismatchTracks != [] {
        mismatch' := mismatch' + [Detail(oldTag, Differs, newTag, mismatchTracks, trackCount)];
      }
    }
  }

  /** The loop over `mapped_tags`, which collects the report lines. */
  method MapAllTags(disc: Disc, pairs: seq<(string, string)>, mapping: bool) returns (added: seq<Diag>, mismatch: seq<Diag>, outcome: Outcome)
    requires forall n :: n in disc.order ==> n in disc.tracks
    modifies disc`tracks, disc`tagset
    ensures MapState(disc.tracks, disc.tagset, added, mismatch, outcome) ==
      MapAll(old(disc.tracks), disc.order, old(disc.tagset), pairs, mapping)
  {
    ghost var tracks0, tagset0 := disc.tracks, disc.tagset;
    var trackCount := |disc.tracks|;
    added, mismatch, outcome := [], [], Done;
    var j := 0;
    while j < |pairs|
      invariant 0 <= j <= |pairs|
      invariant disc.tracks.Keys == tracks0.Keys && trackCount == |tracks0| && outcome == Done
      invariant MapAll(tracks0, disc.order, tagset0, pairs[..j], mapping) ==
        MapState(disc.tracks, disc.tagset, added, mismatch, Done)
    {
      MapAllSnoc(tracks0, disc.order, tagset0, pairs, j, mapping);
      var (oldTag, newTag) := pairs[j];
      added, mismatch, outcome := MapPairStep(disc, oldTag, newTag, mapping, trackCount, added, mismatch);
      if outcome.Raised? {
        RaisedAllStays(tracks0, disc.order, tagset0, pairs, j + 1, mapping);
        return;
      }
      j := j + 1;
    }
    assert pairs[..j] == pairs;
  }

  /** The loop over the first `j + 1` pairs is one more pair after the loop
      over the first `j`, when that did not raise. */
  lemma MapAllSnoc(tracks: map<int, Track>, order: seq<int>, tagset: set<string>,
                   pairs: seq<(string, string)>, j: int, mapping: bool)
    requires forall n :: n in order ==> n in tracks
    requires 0 <= j < |pairs| && MapAll(tracks, order, tagset, pairs[..j], mapping).outcome.Done?
    ensures MapAll(tracks, order, tagset, pairs[..j + 1], mapping) ==
      MapPair(MapAll(tracks, order, tagset, pairs[..j], mapping), order, pairs[j].0, pairs[j].1, mapping, |tracks|)
  {
    assert pairs[..j + 1][..j] == pairs[..j];
  }

  /** Once a pair has raised, the later pairs change nothing. */
  lemma {:induction false} RaisedAllStays(tracks: map<int, Track>, order: seq<int>, tagset: set<string>,
                                         pairs: seq<(string, string)>, i: nat, mapping: bool)
    requires forall n :: n in order ==> n in tracks
    requires i <= |pairs| && MapAll(tracks, order, tagset, pairs[..i], mapping).outcome.Raised?
    ensures MapAll(tracks, order, tagset, pairs, mapping) == MapAll(tracks, order, tagset, pairs[..i], mapping)
    decreases |pairs| - i
  {
    if i < |pairs| {
      assert pairs[..i + 1][..i] == pairs[..i];
      RaisedAllStays(tracks, order, tagset, pairs, i + 1, mapping);
    } else {
      assert pairs[..i] == pairs;
    }
  }

  /** `handle_mapped_tags(disc)` with the reports corrected to add their
      detail lines to the messages. */
  method HandleMappedTags(disc: Disc, opts: CheckOptions, msgs: Messages) returns (outcome: Outcome)
    requires forall n :: n in disc.order ==> n in disc.tracks
    modifies disc`tracks, disc`tagset, msgs
    ensures var s := MapAll(old(disc.tracks), disc.order, old(disc.tagset), MappedTags, opts.mapping);
      && disc.tracks == s.tracks && disc.tagset == s.tagset && outcome == s.outcome
      && msgs.Snapshot() == old(msgs.Snapshot()).Then(if s.outcome.Done? then Reports(s.added, s.mismatch) else [])
  {
    var added, mismatch, o := MapAllTags(disc, MappedTags, opts.mapping);
    outcome := o;
    if outcome.Raised? {
      ThenNothing(msgs.Snapshot());
      return;
    }
    msgs.Record(Reports(added, mismatch));
  }

  /** `handle_mapped_tags(disc)` as written. */
  method HandleMappedTagsAsWritten(disc: Disc, opts: CheckOptions, msgs: Messages) returns (outcome: Outcome)
    requires forall n :: n in disc.order ==> n in disc.tracks
    modifies disc`tracks, disc`tagset, msgs
    ensures var s := MapAll(old(disc.tracks), disc.order, old(disc.tagset), MappedTags, opts.mapping);
      && disc.tracks == s.tracks && disc.tagset == s.tagset
      && (s.outcome.Raised? ==> outcome == s.outcome && msgs.Snapshot() == old(msgs.Snapshot()))
      && (s.outcome.Done? ==>
            var r := ReportsAsWritten(s.added, s.mismatch);
            outcome == r.1 && msgs.Snapshot() == old(msgs.Snapshot()).Then(r.0))
  {
    var added, mismatch, o := MapAllTags(disc, MappedTags, opts.mapping);
    outcome := o;
    if outcome.Raised? {
      return;
    }
    if added != [] {
      msgs.Error(ObsoleteTagsNeedUpdating);
      outcome := Raised(AttributeError("extend"));
    } else if mismatch != [] {
      msgs.Error(ObsoleteTagsDiffer);
      outcome := Raised(AttributeError("extend"));
    } else {
      ThenNothing(msgs.Snapshot());
    }
  }
}

/** The per-disc checks about who made the album: `check_compilation`,
    `check_multiple_artists` and `check_orchestra`, and the report of
    `find_selected_tags`. */
module ArtistChecks {
  import opened Wrappers
  import opened Text
  import opened Sorting
  import opened MessageSink
  import opened Hierarchy
  import opened Grouping
  import opened TagCatalog
  import opened TrackRanges
  import opened Aggregation
  import opened AlbumAggregates
  import opened DiscScan
  import opened PresenceChecks
  import opened TrackChecks

  // ----------------------------------------------------------- compilation

  /** The album artists a compilation of this (lower-cased) genre may have. */
  predicate CompilationArtistFits(genreLow: string, albumArtistLow: string)
  {
    if genreLow == "soundtrack" then albumArtistLow == "soundtrack"
    else albumArtistLow in ["various artists", "tv theme"]
  }

  /** The lines `check_compilation` reports. */
  function CompilationLines(tagset: set<string>, identical: Track, classical: bool): (ds: seq<Diag>)
    ensures |ds| <= 1
  {
    if "compilation" !in tagset then []
    else if classical then
      (if "composer" in identical.tags then [ClassicalCompilationComposer(Flat(identical, "composer"))] else [])
    else if "albumartist" !in identical.tags || "genre" !in identical.tags then []
    else
      var albumArtist := Flat(identical, "albumartist");
      var genre := Lower(Flat(identical, "genre"));
      if genre == "soundtrack" then
        (if Lower(albumArtist) != "soundtrack" then [SoundtrackCompilation(albumArtist)] else [])
      else if Lower(albumArtist) !in ["various artists", "tv theme"] then [CompilationAlbumArtist(albumArtist)]
      else []
  }

  /** Only a disc with a `compilation` tag on some track is checked. On a
      classical disc the one complaint is a composer shared by every track
      (with the first track's values); on any other disc, the complaint
      comes exactly when album artist and genre are each the same on every
      track and the album artist does not suit the genre. */
  lemma CompilationMeaning(disc: Disc)
    requires IdenticalSet(disc)
    ensures "compilation" !in disc.tagset ==> CompilationLines(disc.tagset, disc.identical, disc.classical) == []
    ensures "compilation" in disc.tagset && disc.classical ==>
      (CompilationLines(disc.tagset, disc.identical, disc.classical) != [] <==>
       "composer" in FirstTrack(disc).tags && EveryTrackHas(disc.tracks, disc.order, "composer", FirstTrack(disc).tags["composer"]))
    ensures "compilation" in disc.tagset && !disc.classical ==>
      (CompilationLines(disc.tagset, disc.identical, disc.classical) != [] <==>
       && "albumartist" in FirstTrack(disc).tags
       && EveryTrackHas(disc.tracks, disc.order, "albumartist", FirstTrack(disc).tags["albumartist"])
       && "genre" in FirstTrack(disc).tags
       && EveryTrackHas(disc.tracks, disc.order, "genre", FirstTrack(disc).tags["genre"])
       && !CompilationArtistFits(Lower(Flat(FirstTrack(disc), "genre")), Lower(Flat(FirstTrack(disc), "albumartist"))))
  {
    DiscIdenticalHas(disc, "composer");
    DiscIdenticalHas(disc, "albumartist");
    DiscIdenticalHas(disc, "genre");
  }

  /** The decisions of `check_compilation(disc)`, giving the lines it
      reports. */
  method CompilationCheck(disc: Disc) returns (ds: seq<Diag>)
    ensures ds == CompilationLines(disc.tagset, disc.identical, disc.classical)
  {
    ds := [];
    if "compilation" !in disc.tagset {
      return;
    }
    if disc.classical {
      if "composer" in disc.identical.tags {
        ds := [ClassicalCompilationComposer(Flat(disc.identical, "composer"))];
      }
      return;
    }
    if "albumartist" !in disc.identical.tags || "genre" !in disc.identical.tags {
      return;
    }
    var albumArtist := Flat(disc.identical, "albumartist");
    var albumArtistLow := Lower(albumArtist);
    var genre := Lower(Flat(disc.identical, "genre"));
    if genre == "soundtrack" {
      if albumArtistLow != "soundtrack" {
        ds := [SoundtrackCompilation(albumArtist)];
      }
    } else if albumArtistLow !in ["various artists", "tv theme"] {
      ds := [CompilationAlbumArtist(albumArtist)];
    }
  }

  /** `check_compilation(disc)`. */
  method CheckCompilation(disc: Disc, msgs: Messages)
    modifies msgs
    ensures msgs.Snapshot() == old(msgs.Snapshot()).Then(Errors(CompilationLines(disc.tagset, disc.identical, disc.classical)))
  {
    var ds := CompilationCheck(disc);
    msgs.Record(Errors(ds));
  }

  // ------------------------------------------------------ multiple artists

  /** How the scan of `check_multiple_artists` ends: every track names the
      album artist, a track does not (the loop breaks there), or a track has
      no `artist` tag at all (`track['artist']` raises KeyError). */
  datatype ArtistScan = AllNamed | Unnamed(track: int) | NoArtist(track: int)

  /** The scan over the tracks in disc order, stopping at the first track
      whose lower-cased artist does not contain `albumArtistLow`. */
  function ScanArtists(tracks: map<int, Track>, order: seq<int>, albumArtistLow: string): (r: ArtistScan)
    requires Listed(tracks, order)
    ensures r.Unnamed? ==> r.track in order && "artist" in tracks[r.track].tags
    ensures r.NoArtist? ==> r.track in order && "artist" !in tracks[r.track].tags
  {
    if order == [] then AllNamed
    else
      var n := order[0];
      assert n in order;
      var t := tracks[n];
      if "artist" !in t.tags then NoArtist(n)
      else if !Contains(Lower(Flat(t, "artist")), albumArtistLow) then Unnamed(n)
      else
        assert forall m :: m in order[1..] ==> m in order;
        ScanArtists(tracks, order[1..], albumArtistLow)
  }

  /** Track `n` names the album artist: it has an `artist` tag whose
      lower-cased flattened value contains the lower-cased album artist. */
  predicate Names(tracks: map<int, Track>, n: int, albumArtistLow: string)
  {
    n in tracks && "artist" in tracks[n].tags && Contains(Lower(Flat(tracks[n], "artist")), albumArtistLow)
  }

  /** The scan ends with `AllNamed` exactly when every track names the album
      artist, and otherwise stops at the first track that does not, telling
      whether that track lacks the tag or names someone else. */
  lemma {:induction false} ScanArtistsMeaning(tracks: map<int, Track>, order: seq<int>, albumArtistLow: string)
    requires Listed(tracks, order)
    ensures ScanArtists(tracks, order, albumArtistLow).AllNamed? <==>
      forall i :: 0 <= i < |order| ==> Names(tracks, order[i], albumArtistLow)
    ensures !ScanArtists(tracks, order, albumArtistLow).AllNamed? ==>
      exists i :: 0 <= i < |order| && order[i] == ScanArtists(tracks, order, albumArtistLow).track
        && !Names(tracks, order[i], albumArtistLow)
        && forall j :: 0 <= j < i ==> Names(tracks, order[j], albumArtistLow)
  {
    if order != [] {
      var rest := order[1..];
      assert forall m :: m in rest ==> m in order;
      assert order[0] in order;
      if Names(tracks, order[0], albumArtistLow) {
        ScanArtistsMeaning(tracks, rest, albumArtistLow);
        var r := ScanArtists(tracks, rest, albumArtistLow);
        assert ScanArtists(tracks, order, albumArtistLow) == r;
        assert forall i :: 1 <= i < |order| ==> order[i] == rest[i - 1];
        if r.AllNamed? {
          forall i | 0 <= i < |order|
            ensures Names(tracks, order[i], albumArtistLow)
          {
            if i > 0 {
              assert order[i] == rest[i - 1];
            }
          }
        } else {
          var k :| 0 <= k < |rest| && rest[k] == r.track && !Names(tracks, rest[k], albumArtistLow)
            && forall j :: 0 <= j < k ==> Names(tracks, rest[j], albumArtistLow);
          assert order[k + 1] == rest[k];
          forall j | 0 <= j < k + 1
            ensures Names(tracks, order[j], albumArtistLow)
          {
            if j > 0 {
              assert order[j] == rest[j - 1];
            }
          }
        }
      } else {
        assert !ScanArtists(tracks, order, albumArtistLow).AllNamed?;
      }
    }
  }

  /** The album artists `check_multiple_artists` accepts for the genre. */
  function ExpectedArtists(genreLow: string): (r: seq<string>)
    ensures |r| > 0
  {
    if genreLow == "soundtrack" then ["Soundtrack"] else ["Various Artists", "TV Theme"]
  }

  /** `album_artist_low in [x.lower() for x in expected]`. */
  predicate AmongLowered(s: string, expected: seq<string>)
  {
    exists i :: 0 <= i < |expected| && Lower(expected[i]) == s
  }

  /** What `check_multiple_artists` does: nothing, one error line, or the
      KeyError raised by a track without `artist`. */
  function MultipleArtists(tracks: map<int, Track>, order: seq<int>, identical: Track, classical: bool): (r: (Outcome, seq<Diag>))
    requires Listed(tracks, order)
    ensures |r.1| <= 1
    ensures r.0.Raised? ==> r.0.error == KeyError("artist") && r.1 == []
  {
    if classical || "artist" in identical.tags || "albumartist" !in identical.tags || "genre" !in identical.tags then (Done, [])
    else
      var albumArtist := Flat(identical, "albumartist");
      var albumArtistLow := Lower(albumArtist);
      var genre := Lower(Flat(identical, "genre"));
      match ScanArtists(tracks, order, albumArtistLow)
      case AllNamed => (Done, [])
      case NoArtist(_) => (Raised(KeyError("artist")), [])
      case Unnamed(_) =>
        var expected := ExpectedArtists(genre);
        if !AmongLowered(albumArtistLow, expected) then (Done, [AlbumArtistShouldBe(expected, albumArtist)])
        else (Done, [])
  }

  /** The complaint comes exactly when the artist is not the same on every
      track but album artist and genre are, the album artist is not among
      the names expected for the genre, and scanning in disc order meets a
      track naming someone else before any track without `artist`. */
  lemma MultipleArtistsMeaning(disc: Disc)
    requires IdenticalSet(disc)
    ensures var r := MultipleArtists(disc.tracks, disc.order, disc.identical, disc.classical);
      r.1 != [] <==>
        && !disc.classical
        && !("artist" in FirstTrack(disc).tags && EveryTrackHas(disc.tracks, disc.order, "artist", FirstTrack(disc).tags["artist"]))
        && "albumartist" in disc.identical.tags && "genre" in disc.identical.tags
        && ScanArtists(disc.tracks, disc.order, Lower(Flat(disc.identical, "albumartist"))).Unnamed?
        && !AmongLowered(Lower(Flat(disc.identical, "albumartist")), ExpectedArtists(Lower(Flat(disc.identical, "genre"))))
  {
    DiscIdenticalHas(disc, "artist");
  }

  /** On a disc whose every track names the album artist, nothing is
      reported. */
  lemma AllNamedSilent(tracks: map<int, Track>, order: seq<int>, identical: Track, classical: bool)
    requires Listed(tracks, order)
    requires "albumartist" in identical.tags
    requires forall i :: 0 <= i < |order| ==> Names(tracks, order[i], Lower(Flat(identical, "albumartist")))
    ensures MultipleArtists(tracks, order, identical, classical) == (Done, [])
  {
    ScanArtistsMeaning(tracks, order, Lower(Flat(identical, "albumartist")));
  }

  /** The loop of `check_multiple_artists`, up to its `break`. */
  method ScanTracks(disc: Disc, albumArtistLow: string) returns (r: ArtistScan)
    requires Listed(disc.tracks, disc.order)
    ensures r == ScanArtists(disc.tracks, disc.order, albumArtistLow)
  {
    var i := 0;
    while i < |disc.order|
      invariant 0 <= i <= |disc.order|
      invariant forall m :: m in disc.order[i..] ==> m in disc.tracks
      invariant ScanArtists(disc.tracks, disc.order, albumArtistLow) == ScanArtists(disc.tracks, disc.order[i..], albumArtistLow)
    {
      var n := disc.order[i];
      var track := disc.tracks[n];
      assert disc.order[i..][0] == n && disc.order[i..][1..] == disc.order[i + 1..];
      if "artist" !in track.tags {
        return NoArtist(n);
      }
      var artists := Flat(track, "artist");
      if !Contains(Lower(artists), albumArtistLow) {
        return Unnamed(n);
      }
      i := i + 1;
    }
    assert disc.order[i..] == [];
    r := AllNamed;
  }

  /** The decisions of `check_multiple_artists(disc)`: how it ends and the
      lines it reports. */
  method MultipleArtistsCheck(disc: Disc) returns (outcome: Outcome, ds: seq<Diag>)
    requires Listed(disc.tracks, disc.order)
    ensures (outcome, ds) == MultipleArtists(disc.tracks, disc.order, disc.identical, disc.classical)
  {
    outcome, ds := Done, [];
    if disc.classical || "artist" in disc.identical.tags || "albumartist" !in disc.identical.tags || "genre" !in disc.identical.tags {
      return;
    }
    var albumArtist := Flat(disc.identical, "albumartist");
    var albumArtistLow := Lower(albumArtist);
    var genre := Lower(Flat(disc.identical, "genre"));
    var scan := ScanTracks(disc, albumArtistLow);
    match scan {
      case AllNamed =>
      case NoArtist(_) =>
        outcome := Raised(KeyError("artist"));
      case Unnamed(_) =>
        var expected := ExpectedArtists(genre);
        if !AmongLowered(albumArtistLow, expected) {
          ds := [AlbumArtistShouldBe(expected, albumArtist)];
        }
    }
  }

  /** `check_multiple_artists(disc)`. */
  method CheckMultipleArtists(disc: Disc, msgs: Messages) returns (outcome: Outcome)
    requires Listed(disc.tracks, disc.order)
    modifies msgs
    ensures outcome == MultipleArtists(disc.tracks, disc.order, disc.identical, disc.classical).0
    ensures msgs.Snapshot() == old(msgs.Snapshot()).Then(Errors(MultipleArtists(disc.tracks, disc.order, disc.identical, disc.classical).1))
  {
    var ds;
    outcome, ds := MultipleArtistsCheck(disc);
    msgs.Record(Errors(ds));
  }

  // -------------------------------------------------------------- orchestra

  /** The words of an artist name that mark an orchestra. */
  const OrchestraWords: seq<string> := ["orchestra", "symphon", "philharmon", "sinfoni"]

  /** `flatten_tag(track.get('artist', ''))`. */
  function ArtistText(t: Track): string
  {
    if "artist" in t.tags then Flat(t, "artist") else ""
  }

  /** The lower-cased name contains one of the orchestra words. */
  predicate SoundsLikeOrchestra(artist: string)
  {
    exists i :: 0 <= i < |OrchestraWords| && Contains(Lower(artist), OrchestraWords[i])
  }

  /** A track with a conductor but no orchestra. */
  predicate ConductorAlone(t: Track)
  {
    "conductor" in t.tags && "orchestra" !in t.tags
  }

  /** The key a track is filed under for the second part of
      `check_orchestra`: its artist, when that names an orchestra and the
      track has no `orchestra` tag. */
  function OrchestraKey(t: Track): Option<string>
  {
    var artist := ArtistText(t);
    if SoundsLikeOrchestra(artist) && "orchestra" !in t.tagset then Some(artist) else None
  }

  /** A line about a tag value. */
  function TextSubject(v: string): Subject
  {
    Value(v)
  }

  /** The first complaint of `check_orchestra`: the tracks with a conductor
      and no orchestra, when the disc has a `conductor` tag at all. */
  function ConductorLines(tracks: map<int, Track>, order: seq<int>, tagset: set<string>): (ds: seq<Diag>)
    requires Listed(tracks, order)
    ensures |ds| <= 1
  {
    var noOrchestra := TracksWhere(tracks, order, ConductorAlone);
    if "conductor" in tagset && noOrchestra != [] then [ConductorWithoutOrchestra(TrackListText(noOrchestra, |tracks|))]
    else []
  }

  /** The tracks filed by artist for the second complaint of
      `check_orchestra`. */
  function OrchestraGroups(tracks: map<int, Track>, order: seq<int>): (g: Groups<string>)
    requires Listed(tracks, order)
    ensures g.Valid()
  {
    GroupAll(KeyedTracks(tracks, order, OrchestraKey))
  }

  /** The second complaint of `check_orchestra`: a heading, then one line
      per artist that names an orchestra on tracks without `orchestra`. */
  function OrchestraArtistLines(tracks: map<int, Track>, order: seq<int>): (ms: seq<Msg>)
    requires Listed(tracks, order)
  {
    var g := OrchestraGroups(tracks, order);
    if g.keys != [] then Errors([ArtistImpliesOrchestra]) + BadTrackLines(g, |tracks|, Error, TextSubject) else []
  }

  /** The lines `check_orchestra` reports. */
  function OrchestraLines(tracks: map<int, Track>, order: seq<int>, tagset: set<string>, classical: bool): (ms: seq<Msg>)
    requires Listed(tracks, order)
    ensures !classical ==> ms == []
  {
    if !classical then []
    else Errors(ConductorLines(tracks, order, tagset)) + OrchestraArtistLines(tracks, order)
  }

  /** The conductor line is there exactly when the disc has a `conductor`
      tag and some track has a conductor but no orchestra, and it lists
      exactly those tracks. */
  lemma ConductorLineMeaning(tracks: map<int, Track>, order: seq<int>, tagset: set<string>, n: int)
    requires Listed(tracks, order)
    ensures ConductorLines(tracks, order, tagset) != [] <==>
      "conductor" in tagset && exists m :: m in order && ConductorAlone(tracks[m])
    ensures n in TracksWhere(tracks, order, ConductorAlone) <==>
      n in order && "conductor" in tracks[n].tags && "orchestra" !in tracks[n].tags
  {
    var noOrchestra := TracksWhere(tracks, order, ConductorAlone);
    if exists m :: m in order && ConductorAlone(tracks[m]) {
      var m :| m in order && ConductorAlone(tracks[m]);
      assert m in noOrchestra;
    }
    if noOrchestra != [] {
      assert noOrchestra[0] in noOrchestra;
    }
  }

  /** The artist lines are there exactly when some track's artist names an
      orchestra while the track has no `orchestra` tag; each line lists
      exactly the tracks with that artist. */
  lemma OrchestraArtistMeaning(tracks: map<int, Track>, order: seq<int>, artist: string, n: int)
    requires Listed(tracks, order)
    ensures OrchestraArtistLines(tracks, order) != [] <==>
      exists m :: m in order && OrchestraKey(tracks[m]).Some?
    ensures var g := OrchestraGroups(tracks, order);
      artist in g.lists ==>
        (n in g.lists[artist] <==>
         n in order && ArtistText(tracks[n]) == artist && SoundsLikeOrchestra(artist) && "orchestra" !in tracks[n].tagset)
  {
    var g := OrchestraGroups(tracks, order);
    GroupedTracks(tracks, order, OrchestraKey, artist, n);
    if exists m :: m in order && OrchestraKey(tracks[m]).Some? {
      var m :| m in order && OrchestraKey(tracks[m]).Some?;
      GroupedTracks(tracks, order, OrchestraKey, OrchestraKey(tracks[m]).value, m);
      assert g.keys != [];
    }
    if g.keys != [] {
      var k := g.keys[0];
      assert k in g.lists;
      var m := g.lists[k][0];
      GroupedTracks(tracks, order, OrchestraKey, k, m);
    }
  }

  /** The first part of `check_orchestra`. */
  method ConductorCheck(disc: Disc) returns (ds: seq<Diag>)
    requires Listed(disc.tracks, disc.order)
    ensures ds == ConductorLines(disc.tracks, disc.order, disc.tagset)
  {
    ds := [];
    if "conductor" in disc.tagset {
      var noOrchestra := SelectTracks(disc, ConductorAlone);
      if noOrchestra != [] {
        var scope := TrackList(noOrchestra, |disc.tracks|);
        ds := [ConductorWithoutOrchestra(scope)];
      }
    }
  }

  /** The second part of `check_orchestra`. */
  method OrchestraArtistCheck(disc: Disc, msgs: Messages)
    requires Listed(disc.tracks, disc.order)
    modifies msgs
    ensures msgs.Snapshot() == old(msgs.Snapshot()).Then(OrchestraArtistLines(disc.tracks, disc.order))
  {
    var badTracks := GroupTracks(disc, OrchestraKey);
    assert badTracks == OrchestraGroups(disc.tracks, disc.order);
    if badTracks.keys != [] {
      assert Errors([ArtistImpliesOrchestra]) == [Msg(Error, ArtistImpliesOrchestra)];
      msgs.Error(ArtistImpliesOrchestra);
      OutputDictOfBadTracks(badTracks, |disc.tracks|, Error, TextSubject, msgs);
      ThenThen(old(msgs.Snapshot()), Errors([ArtistImpliesOrchestra]), BadTrackLines(badTracks, |disc.tracks|, Error, TextSubject));
    } else {
      ThenNothing(msgs.Snapshot());
    }
  }

  /** `check_orchestra(disc)`. */
  method CheckOrchestra(disc: Disc, msgs: Messages)
    requires Listed(disc.tracks, disc.order)
    modifies msgs
    ensures msgs.Snapshot() == old(msgs.Snapshot()).Then(OrchestraLines(disc.tracks, disc.order, disc.tagset, disc.classical))
  {
    if !disc.classical {
      ThenNothing(msgs.Snapshot());
      return;
    }
    var first := ConductorCheck(disc);
    msgs.Record(Errors(first));
    OrchestraArtistCheck(disc, msgs);
    ThenThen(old(msgs.Snapshot()), Errors(first), OrchestraArtistLines(disc.tracks, disc.order));
  }

  // ---------------------------------------------------------- selected tags

  /** The lines for one selected tag: a note naming it, then one note per
      value with the tracks holding it. */
  function SelectedFor(tracks: map<int, Track>, order: seq<int>, tag: string): (ms: seq<Msg>)
    requires Listed(tracks, order)
  {
    [Msg(Note, TagFound(tag))] + BadTrackLines(ValueGroups(tracks, order, tag), |tracks|, Note, TextSubject)
  }

  /** The lines for the selected tags `tags`, in turn. */
  function SelectedLines(tracks: map<int, Track>, order: seq<int>, tags: seq<string>): (ms: seq<Msg>)
    requires Listed(tracks, order)
  {
    if tags == [] then []
    else SelectedLines(tracks, order, tags[..|tags| - 1]) + SelectedFor(tracks, order, tags[|tags| - 1])
  }

  /** The lines `find_selected_tags` reports: the selected tags present on
      the disc, in sorted order. */
  ghost function SelectedReport(opts: CheckOptions, tracks: map<int, Track>, order: seq<int>, tagset: set<string>): (ms: seq<Msg>)
    requires Listed(tracks, order)
  {
    SelectedLines(tracks, order, SetToSorted(opts.selected * tagset, StrLess))
  }

  /** Every line is a note: the report never counts as an error or a
      warning. */
  lemma {:induction false} SelectedAllNotes(tracks: map<int, Track>, order: seq<int>, tags: seq<string>)
    requires Listed(tracks, order)
    ensures forall i :: 0 <= i < |SelectedLines(tracks, order, tags)| ==> SelectedLines(tracks, order, tags)[i].severity == Note
  {
    if tags != [] {
      SelectedAllNotes(tracks, order, tags[..|tags| - 1]);
    }
  }

  /** A tag is announced exactly when it is selected and on the disc; each
      value line of a tag names exactly the tracks holding that value. */
  lemma SelectedMeaning(opts: CheckOptions, tracks: map<int, Track>, order: seq<int>, tagset: set<string>, tag: string, v: string, n: int)
    requires Listed(tracks, order)
    ensures Msg(Note, TagFound(tag)) in SelectedReport(opts, tracks, order, tagset) <==> tag in opts.selected && tag in tagset
    ensures v in ValueGroups(tracks, order, tag).lists ==>
      (n in ValueGroups(tracks, order, tag).lists[v] <==> n in order && HoldsValue(tracks[n], tag, v))
  {
    var tags := SetToSorted(opts.selected * tagset, StrLess);
    assert tag in tags <==> tag in multiset(tags);
    SelectedAnnounces(tracks, order, tags, tag);
    ValueGroupMembers(tracks, order, tag, v, n);
  }

  lemma {:induction false} SelectedAnnounces(tracks: map<int, Track>, order: seq<int>, tags: seq<string>, tag: string)
    requires Listed(tracks, order)
    ensures Msg(Note, TagFound(tag)) in SelectedLines(tracks, order, tags) <==> tag in tags
  {
    if tags != [] {
      var init := tags[..|tags| - 1];
      SelectedAnnounces(tracks, order, init, tag);
      assert tags == init + [tags[|tags| - 1]];
      var last := SelectedFor(tracks, order, tags[|tags| - 1]);
      assert forall i :: 1 <= i < |last| ==> !last[i].diag.TagFound?;
    }
  }

  /** The body of the loop of `find_selected_tags`, for one tag. */
  method SelectedTag(disc: Disc, tag: string, msgs: Messages)
    requires Listed(disc.tracks, disc.order)
    modifies msgs
    ensures msgs.Snapshot() == old(msgs.Snapshot()).Then(SelectedFor(disc.tracks, disc.order, tag))
  {
    msgs.Note(TagFound(tag));
    var tagVals := GroupTracks(disc, ValueKey(tag));
    OutputDictOfBadTracks(tagVals, |disc.tracks|, Note, TextSubject, msgs);
    ThenThen(old(msgs.Snapshot()), [Msg(Note, TagFound(tag))], BadTrackLines(tagVals, |disc.tracks|, Note, TextSubject));
  }

  /** The loop of `find_selected_tags` over the tags `tags`. */
  method SelectedOver(disc: Disc, tags: seq<string>, msgs: Messages)
    requires Listed(disc.tracks, disc.order)
    modifies msgs
    ensures msgs.Snapshot() == old(msgs.Snapshot()).Then(SelectedLines(disc.tracks, disc.order, tags))
  {
    var i := 0;
    assert tags[..0] == [];
    ThenNothing(msgs.Snapshot());
    while i < |tags|
      invariant 0 <= i <= |tags|
      invariant msgs.Snapshot() == old(msgs.Snapshot()).Then(SelectedLines(disc.tracks, disc.order, tags[..i]))
    {
      assert tags[..i + 1][..i] == tags[..i];
      SelectedTag(disc, tags[i], msgs);
      ThenThen(old(msgs.Snapshot()), SelectedLines(disc.tracks, disc.order, tags[..i]), SelectedFor(disc.tracks, disc.order, tags[i]));
      i := i + 1;
    }
    assert tags[..i] == tags;
  }

  /** `find_selected_tags(disc)`. */
  method FindSelectedTags(disc: Disc, opts: CheckOptions, msgs: Messages)
    requires Listed(disc.tracks, disc.order)
    modifies msgs
    ensures msgs.Snapshot() == old(msgs.Snapshot()).Then(SelectedReport(opts, disc.tracks, disc.order, disc.tagset))
  {
    var tags := SortedNames(opts.selected * disc.tagset);
    SelectedOver(disc, tags, msgs);
  }
}

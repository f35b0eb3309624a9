/** The per-disc checks about which tags are present and how many values
    they hold: `check_profile`, `check_inaccurate_rips`,
    `check_missing_tags`, `check_unknown_tags`, `check_multivalued_tags` and
    `check_dups_in_tags`. Each is a specification function giving the lines
    the check reports, and a method that does what the script does and is
    proved to report exactly those lines. */
module PresenceChecks {
  import opened Wrappers
  import opened Text
  import opened Sorting
  import opened MessageSink
  import opened Hierarchy
  import opened Grouping
  import opened TagCatalog
  import opened TrackRanges
  import opened Aggregation
  import opened AlbumAggregates
  import opened DiscScan

  // ---------------------------------------------------------------- profile

  /** The flattened value of `tag` on `t`, lower-cased, is "classical". */
  predicate SaysClassical(t: Track, tag: string)
    requires tag in t.tags
  {
    Lower(Flat(t, tag)) == "classical"
  }

  /** What `check_profile` sets `disc.classical` to, and the lines it
      reports: nothing to compare unless genre and profile are both
      identical on the disc; otherwise the profile decides, and one error is
      reported exactly when genre and profile disagree about being
      classical. */
  function Profile(identical: Track): (r: (bool, seq<Diag>))
    ensures |r.1| <= 1
    ensures r.0 <==> "genre" in identical.tags && "profile" in identical.tags && SaysClassical(identical, "profile")
    ensures r.1 != [] <==>
      "genre" in identical.tags && "profile" in identical.tags &&
      SaysClassical(identical, "genre") != SaysClassical(identical, "profile")
  {
    if "genre" !in identical.tags || "profile" !in identical.tags then (false, [])
    else
      var classicalProfile := SaysClassical(identical, "profile");
      var lines := if SaysClassical(identical, "genre") != classicalProfile
        then [UnexpectedProfile(Flat(identical, "profile"), Flat(identical, "genre"))] else [];
      (classicalProfile, lines)
  }

  /** On a disc whose `identical` is what `find_identical_disc_tags`
      computes, `classical` is set only when every track carries the same
      profile, and that profile reads "classical". */
  lemma ClassicalMeansEveryTrack(disc: Disc)
    requires IdenticalSet(disc)
    ensures Profile(disc.identical).0 ==>
      && "profile" in FirstTrack(disc).tags
      && EveryTrackHas(disc.tracks, disc.order, "profile", FirstTrack(disc).tags["profile"])
      && Lower(Join(FirstTrack(disc).tags["profile"], "; ")) == "classical"
  {
    DiscIdenticalHas(disc, "profile");
  }

  /** `check_profile(disc)`. */
  method CheckProfile(disc: Disc, msgs: Messages)
    modifies disc`classical, msgs
    ensures disc.classical == Profile(disc.identical).0
    ensures msgs.Snapshot() == old(msgs.Snapshot()).Then(Errors(Profile(disc.identical).1))
  {
    if "genre" !in disc.identical.tags || "profile" !in disc.identical.tags {
      disc.classical := false;
      ThenNothing(msgs.Snapshot());
      return;
    }
    var genre := Flat(disc.identical, "genre");
    var profile := Flat(disc.identical, "profile");
    var classicalGenre := Lower(genre) == "classical";
    var classicalProfile := Lower(profile) == "classical";
    disc.classical := classicalProfile;
    if classicalGenre != classicalProfile {
      msgs.Error(UnexpectedProfile(profile, genre));
    } else {
      ThenNothing(msgs.Snapshot());
    }
  }

  // ------------------------------------------------------ inaccurate rips

  /** `flatten_tag(track.get('accurateripresult', ''))`. */
  function RipResult(t: Track): string
  {
    if "accurateripresult" in t.tags then Flat(t, "accurateripresult") else ""
  }

  /** The rip result of a track that failed verification. */
  function FailedRip(t: Track): Option<string>
  {
    var r := RipResult(t);
    if Contains(Lower(r), "inaccurate") then Some(r) else None
  }

  /** The lines `check_inaccurate_rips` reports: a header and one line per
      failed track, in disc order, or nothing. */
  function RipLines(tracks: map<int, Track>, order: seq<int>): (ds: seq<Diag>)
    requires Listed(tracks, order)
  {
    var ps := KeyedTracks(tracks, order, FailedRip);
    if ps == [] then [] else [AccurateRipFailed] + FailedLines(ps)
  }

  /** One line per failed track, in the order they were collected. */
  function FailedLines(ps: seq<(string, int)>): (ds: seq<Diag>)
    ensures |ds| == |ps| && forall i :: 0 <= i < |ps| ==> ds[i] == AccurateRipTrack(ps[i].1, ps[i].0)
  {
    if ps == [] then [] else FailedLines(ps[..|ps| - 1]) + [AccurateRipTrack(ps[|ps| - 1].1, ps[|ps| - 1].0)]
  }

  /** A failure line is produced exactly for a collected pair. */
  lemma FailedLinesIn(ps: seq<(string, int)>, n: int, r: string)
    ensures AccurateRipTrack(n, r) in FailedLines(ps) <==> (r, n) in ps
  {
    var lines := FailedLines(ps);
    if AccurateRipTrack(n, r) in lines {
      var i :| 0 <= i < |lines| && lines[i] == AccurateRipTrack(n, r);
      assert ps[i] == (r, n);
    }
    if (r, n) in ps {
      var i :| 0 <= i < |ps| && ps[i] == (r, n);
      assert lines[i] == AccurateRipTrack(n, r);
    }
  }

  /** A track is reported, with its result, exactly when its lower-cased
      AccurateRip result contains "inaccurate". */
  lemma RipLinesIff(tracks: map<int, Track>, order: seq<int>, n: int, r: string)
    requires Listed(tracks, order)
    ensures AccurateRipTrack(n, r) in RipLines(tracks, order) <==>
      n in order && r == RipResult(tracks[n]) && Contains(Lower(r), "inaccurate")
  {
    var ps := KeyedTracks(tracks, order, FailedRip);
    KeyedTracksIff(tracks, order, FailedRip, r, n);
    FailedLinesIn(ps, n, r);
  }

  /** Nothing at all is reported exactly when no track failed. */
  lemma RipLinesEmptyIff(tracks: map<int, Track>, order: seq<int>)
    requires Listed(tracks, order)
    ensures RipLines(tracks, order) == [] <==>
      forall m :: m in order ==> !Contains(Lower(RipResult(tracks[m])), "inaccurate")
  {
    var ps := KeyedTracks(tracks, order, FailedRip);
    if ps != [] {
      KeyedTracksIff(tracks, order, FailedRip, ps[0].0, ps[0].1);
      assert ps[0] in ps;
    }
    forall m | m in order && Contains(Lower(RipResult(tracks[m])), "inaccurate")
      ensures ps != []
    {
      KeyedTracksIff(tracks, order, FailedRip, RipResult(tracks[m]), m);
    }
  }

  /** `check_inaccurate_rips(disc)`. */
  method CheckInaccurateRips(disc: Disc, msgs: Messages)
    requires Listed(disc.tracks, disc.order)
    modifies msgs
    ensures msgs.Snapshot() == old(msgs.Snapshot()).Then(Errors(RipLines(disc.tracks, disc.order)))
  {
    var ds := RipReport(disc);
    msgs.Record(Errors(ds));
  }

  /** The lines of `check_inaccurate_rips(disc)`: none when every rip was
      accurate, else the heading and one line per failed track. */
  method RipReport(disc: Disc) returns (ds: seq<Diag>)
    requires Listed(disc.tracks, disc.order)
    ensures ds == RipLines(disc.tracks, disc.order)
  {
    var inaccurate := CollectKeyed(disc, FailedRip);
    if inaccurate == [] {
      return [];
    }
    var lines := [];
    assert inaccurate[..0] == [];
    var i := 0;
    while i < |inaccurate|
      invariant 0 <= i <= |inaccurate|
      invariant lines == FailedLines(inaccurate[..i])
    {
      assert inaccurate[..i + 1][..i] == inaccurate[..i];
      lines := lines + [AccurateRipTrack(inaccurate[i].1, inaccurate[i].0)];
      i := i + 1;
    }
    assert inaccurate[..i] == inaccurate;
    ds := [AccurateRipFailed] + lines;
  }

  // ---------------------------------------------------------- missing tags

  /** The tags a disc should carry: the classical set on a classical disc. */
  function Desired(classical: bool): (r: set<string>)
    ensures r <= RequiredClassicalTags
    ensures classical ==> r == RequiredClassicalTags
    ensures !classical ==> r == RequiredTags
  {
    DerivedSetsNest();
    if classical then RequiredClassicalTags else RequiredTags
  }

  /** The key a track is filed under by `check_missing_tags`: the wanted
      tags it lacks, when there are any. */
  function MissingKey(wanted: set<string>): Track -> Option<set<string>>
  {
    (t: Track) => var m := wanted - t.tagset; if m != {} then Some(m) else None
  }

  /** A line about a set of tag names. */
  function NamesSubject(names: set<string>): Subject
  {
    TagNames(names)
  }

  /** The groups of tracks by the desired tags each lacks, leaving out the
      tags no track has. */
  function MissingGroups(tracks: map<int, Track>, order: seq<int>, tagset: set<string>, classical: bool): Groups<set<string>>
    requires Listed(tracks, order)
  {
    var desired := Desired(classical);
    var wanted := desired - (desired - tagset);
    GroupAll(KeyedTracks(tracks, order, MissingKey(wanted)))
  }

  /** The lines `check_missing_tags` reports when `--missing` is on. */
  function MissingLines(opts: CheckOptions, tracks: map<int, Track>, order: seq<int>, tagset: set<string>, classical: bool): (ms: seq<Msg>)
    requires Listed(tracks, order)
    ensures !opts.missing ==> ms == []
  {
    if !opts.missing then []
    else
      var desired := Desired(classical);
      var discMissing := desired - tagset;
      var g := MissingGroups(tracks, order, tagset, classical);
      if discMissing == {} && g.keys == [] then []
      else
        Errors([MissingTags] + (if discMissing != {} then [BadTracks("All tracks", TagNames(discMissing))] else []))
        + BadTrackLines(g, |tracks|, Error, NamesSubject)
  }

  /** The tags missing on the whole disc are the desired tags no track
      holds. */
  lemma DiscMissingIff(tracks: map<int, Track>, order: seq<int>, tagset: set<string>, classical: bool, k: string)
    requires Listed(tracks, order) && forall m :: m in tracks ==> m in order
    requires tagset == UnionTagsets(tracks)
    ensures k in Desired(classical) - tagset <==>
      k in Desired(classical) && forall m :: m in order ==> k !in tracks[m].tagset
  {
  }

  /** Every per-track group is a non-empty set of desired tags, none of them
      missing on the whole disc. */
  lemma MissingGroupShape(tracks: map<int, Track>, order: seq<int>, tagset: set<string>, classical: bool, s: set<string>)
    requires Listed(tracks, order)
    ensures s in MissingGroups(tracks, order, tagset, classical).lists ==>
      s != {} && s <= Desired(classical) && s !! (Desired(classical) - tagset)
  {
    var desired := Desired(classical);
    var wanted := desired - (desired - tagset);
    var g := MissingGroups(tracks, order, tagset, classical);
    if s in g.lists {
      var n0 := g.lists[s][0];
      GroupedTracks(tracks, order, MissingKey(wanted), s, n0);
    }
  }

  /** A group holds exactly the tracks that lack precisely its desired
      tags among those some track holds. */
  lemma MissingGroupMembers(tracks: map<int, Track>, order: seq<int>, tagset: set<string>, classical: bool, s: set<string>, n: int)
    requires Listed(tracks, order)
    ensures s in MissingGroups(tracks, order, tagset, classical).lists ==>
      (n in MissingGroups(tracks, order, tagset, classical).lists[s] <==>
       n in order && s == (Desired(classical) * tagset) - tracks[n].tagset)
  {
    var desired := Desired(classical);
    var wanted := desired - (desired - tagset);
    assert wanted == desired * tagset;
    GroupedTracks(tracks, order, MissingKey(wanted), s, n);
    MissingGroupShape(tracks, order, tagset, classical, s);
    if n in order {
      assert MissingKey(wanted)(tracks[n]) == Some(s) <==> s != {} && s == wanted - tracks[n].tagset;
    }
  }

  /** `check_missing_tags(disc)`. */
  method CheckMissingTags(disc: Disc, opts: CheckOptions, msgs: Messages)
    requires Listed(disc.tracks, disc.order)
    modifies msgs
    ensures msgs.Snapshot() == old(msgs.Snapshot()).Then(
      MissingLines(opts, disc.tracks, disc.order, disc.tagset, disc.classical))
  {
    if !opts.missing {
      ThenNothing(msgs.Snapshot());
      return;
    }
    var desired := if disc.classical then RequiredClassicalTags else RequiredTags;
    var discMissing := desired - disc.tagset;
    var wanted := desired - discMissing;
    var g := GroupTracks(disc, MissingKey(wanted));
    assert g == MissingGroups(disc.tracks, disc.order, disc.tagset, disc.classical);
    if discMissing == {} && g.keys == [] {
      ThenNothing(msgs.Snapshot());
      return;
    }
    ReportMissing(discMissing, g, |disc.tracks|, msgs);
  }

  /** The report of `check_missing_tags` once something is missing: the
      heading, the tags no track has, then the tracks grouped by what they
      lack. */
  method ReportMissing(discMissing: set<string>, g: Groups<set<string>>, count: int, msgs: Messages)
    requires g.Valid()
    modifies msgs
    ensures msgs.Snapshot() == old(msgs.Snapshot()).Then(
      Errors([MissingTags] + (if discMissing != {} then [BadTracks("All tracks", TagNames(discMissing))] else []))
      + BadTrackLines(g, count, Error, NamesSubject))
  {
    var head := [MissingTags] + (if discMissing != {} then [BadTracks("All tracks", TagNames(discMissing))] else []);
    msgs.Record(Errors(head));
    OutputDictOfBadTracks(g, count, Error, NamesSubject, msgs);
    ThenThen(old(msgs.Snapshot()), Errors(head), BadTrackLines(g, count, Error, NamesSubject));
  }

  // ---------------------------------------------------------- unknown tags

  /** `common_track_tags`: `s` narrowed by the tagset of each listed track. */
  function CommonWith(s: set<string>, tracks: map<int, Track>, order: seq<int>): set<string>
    requires Listed(tracks, order)
  {
    if order == [] then s
    else
      var last := order[|order| - 1];
      assert last in order;
      CommonWith(s, tracks, order[..|order| - 1]) * tracks[last].tagset
  }

  lemma {:induction false} CommonWithIff(s: set<string>, tracks: map<int, Track>, order: seq<int>, k: string)
    requires Listed(tracks, order)
    ensures k in CommonWith(s, tracks, order) <==> k in s && forall n :: n in order ==> k in tracks[n].tagset
  {
    if order != [] {
      var init := order[..|order| - 1];
      CommonWithIff(s, tracks, init, k);
      assert order == init + [order[|order| - 1]];
    }
  }

  /** The unknown tags every track holds. */
  function Everywhere(tracks: map<int, Track>, order: seq<int>, tagset: set<string>): set<string>
    requires Listed(tracks, order)
  {
    (tagset - KnownTagsSet) * CommonWith(tagset, tracks, order)
  }

  /** The unknown tags some track lacks. */
  function Scattered(tracks: map<int, Track>, order: seq<int>, tagset: set<string>): set<string>
    requires Listed(tracks, order)
  {
    (tagset - KnownTagsSet) - Everywhere(tracks, order, tagset)
  }

  /** The line for one track: the scattered unknown tags it holds. */
  function UnknownOn(rest: set<string>, n: int, t: Track): seq<Diag>
  {
    var u := rest * t.tagset;
    if u != {} then [UnknownOnTrack(n, u)] else []
  }

  /** The line-maker for every track, given the scattered unknown tags. */
  function UnknownOnEach(rest: set<string>): (int, Track) -> seq<Diag>
  {
    (n, t) => UnknownOn(rest, n, t)
  }

  /** The lines `check_unknown_tags` reports. */
  function UnknownLines(tracks: map<int, Track>, order: seq<int>, tagset: set<string>): (ds: seq<Diag>)
    requires Listed(tracks, order)
  {
    UnknownReport(tracks, order, tagset - KnownTagsSet, CommonWith(tagset, tracks, order))
  }

  /** The lines for the unknown tags `unknown`, of which those in `common`
      are held by every track. */
  function UnknownReport(tracks: map<int, Track>, order: seq<int>, unknown: set<string>, common: set<string>): (ds: seq<Diag>)
    requires Listed(tracks, order)
  {
    if unknown == {} then []
    else
      var everywhere := unknown * common;
      var rest := unknown - everywhere;
      [UnknownTags]
      + (if everywhere != {} then [BadTracks("All tracks", TagNames(everywhere))] else [])
      + (if rest == {} then [] else EachTrack(tracks, order, UnknownOnEach(rest)))
  }

  /** An unknown tag a track holds is reported exactly once for it: on the
      "All tracks" line when every track holds it, otherwise on that track's
      own line, which lists exactly the scattered unknown tags the track
      holds. */
  lemma UnknownReportedOnce(tracks: map<int, Track>, order: seq<int>, tagset: set<string>, n: int, k: string)
    requires Listed(tracks, order) && n in order
    requires k in tracks[n].tagset && k in tagset && k !in KnownTagsSet
    ensures k in Everywhere(tracks, order, tagset) <==> forall m :: m in order ==> k in tracks[m].tagset
    ensures k in Everywhere(tracks, order, tagset) ==>
      BadTracks("All tracks", TagNames(Everywhere(tracks, order, tagset))) in UnknownLines(tracks, order, tagset)
    ensures k !in Everywhere(tracks, order, tagset) ==>
      var u := Scattered(tracks, order, tagset) * tracks[n].tagset;
      k in u && UnknownOnTrack(n, u) in UnknownLines(tracks, order, tagset)
  {
    CommonWithIff(tagset, tracks, order, k);
    var rest := Scattered(tracks, order, tagset);
    var lines := UnknownOnEach(rest);
    if k !in Everywhere(tracks, order, tagset) {
      var u := rest * tracks[n].tagset;
      assert k in u;
      assert lines(n, tracks[n]) == [UnknownOnTrack(n, u)];
      EachTrackIn(tracks, order, lines, UnknownOnTrack(n, u));
    }
  }

  /** Each per-track line names a listed track and exactly the scattered
      unknown tags it holds. */
  lemma UnknownOnTrackIff(tracks: map<int, Track>, order: seq<int>, tagset: set<string>, n: int, u: set<string>)
    requires Listed(tracks, order)
    ensures UnknownOnTrack(n, u) in UnknownLines(tracks, order, tagset) <==>
      n in order && u != {} && u == Scattered(tracks, order, tagset) * tracks[n].tagset
  {
    var rest := Scattered(tracks, order, tagset);
    var lines := UnknownOnEach(rest);
    EachTrackIn(tracks, order, lines, UnknownOnTrack(n, u));
  }

  /** `common_track_tags` of `check_unknown_tags`: the disc's tagset
      narrowed by each track's. */
  method CommonTrackTags(disc: Disc) returns (common: set<string>)
    requires Listed(disc.tracks, disc.order)
    ensures common == CommonWith(disc.tagset, disc.tracks, disc.order)
  {
    common := disc.tagset;
    var i := 0;
    while i < |disc.order|
      invariant 0 <= i <= |disc.order|
      invariant common == CommonWith(disc.tagset, disc.tracks, disc.order[..i])
    {
      ListedAt(disc.tracks, disc.order, i);
      common := common * disc.tracks[disc.order[i]].tagset;
      i := i + 1;
    }
    assert disc.order[..i] == disc.order;
  }

  /** `check_unknown_tags(disc)`. */
  method CheckUnknownTags(disc: Disc, msgs: Messages)
    requires Listed(disc.tracks, disc.order)
    modifies msgs
    ensures msgs.Snapshot() == old(msgs.Snapshot()).Then(Errors(UnknownLines(disc.tracks, disc.order, disc.tagset)))
  {
    var unknown := disc.tagset - KnownTagsSet;
    var common := CommonTrackTags(disc);
    UnknownTagsSteps(disc, unknown, common, msgs);
  }

  /** The body of `check_unknown_tags` once `unknown_tags` and
      `common_track_tags` are known. */
  method UnknownTagsSteps(disc: Disc, unknown: set<string>, common: set<string>, msgs: Messages)
    requires Listed(disc.tracks, disc.order)
    modifies msgs
    ensures msgs.Snapshot() == old(msgs.Snapshot()).Then(Errors(UnknownReport(disc.tracks, disc.order, unknown, common)))
  {
    if unknown == {} {
      ThenNothing(msgs.Snapshot());
      return;
    }
    var everywhere := unknown * common;
    var rest := unknown - everywhere;
    var head := [UnknownTags] + (if everywhere != {} then [BadTracks("All tracks", TagNames(everywhere))] else []);
    ghost var tail := if rest == {} then [] else EachTrack(disc.tracks, disc.order, UnknownOnEach(rest));
    assert UnknownReport(disc.tracks, disc.order, unknown, common) == head + tail;
    msgs.Record(Errors(head));
    if rest == {} {
      assert head + tail == head;
      return;
    }
    ReportEachTrack(disc, UnknownOnEach(rest), msgs);
    ThenErrorsAppend(old(msgs.Snapshot()), head, tail);
  }

  // ---------------------------------------------------- multivalued tags

  /** The tags of a track that hold more than one value. */
  function MultiValued(t: Track): set<string>
  {
    set tag | tag in t.tags && |t.tags[tag]| > 1
  }

  /** The line for one track: its multivalued tags that may not be. */
  function MultivaluedOn(n: int, t: Track): seq<Diag>
  {
    var u := MultiValued(t) - AllowedMultivaluedTags;
    if u != {} then [UnexpectedMultivalued(n, u)] else []
  }

  /** A track is reported exactly when it holds more than one value for a
      tag not allowed to hold several, and the line names exactly those
      tags. */
  lemma MultivaluedIff(tracks: map<int, Track>, order: seq<int>, n: int, u: set<string>)
    requires Listed(tracks, order)
    ensures UnexpectedMultivalued(n, u) in EachTrack(tracks, order, MultivaluedOn) <==>
      n in order && u != {} &&
      forall tag :: tag in u <==> tag in tracks[n].tags && |tracks[n].tags[tag]| > 1 && tag !in AllowedMultivaluedTags
  {
    EachTrackIn(tracks, order, MultivaluedOn, UnexpectedMultivalued(n, u));
    if n in order && u != {} &&
      forall tag :: tag in u <==> tag in tracks[n].tags && |tracks[n].tags[tag]| > 1 && tag !in AllowedMultivaluedTags
    {
      assert u == MultiValued(tracks[n]) - AllowedMultivaluedTags;
      assert UnexpectedMultivalued(n, u) in MultivaluedOn(n, tracks[n]);
    }
  }

  /** `check_multivalued_tags(disc)`. */
  method CheckMultivaluedTags(disc: Disc, msgs: Messages)
    requires Listed(disc.tracks, disc.order)
    modifies msgs
    ensures msgs.Snapshot() == old(msgs.Snapshot()).Then(Errors(EachTrack(disc.tracks, disc.order, MultivaluedOn)))
  {
    ReportEachTrack(disc, MultivaluedOn, msgs);
  }

  // ---------------------------------------------------- duplicated values

  /** `len(v) > 1 and len(v) != len(set(v))`. */
  predicate Repeats(v: seq<string>)
  {
    |v| > 1 && |v| != |set x | x in v|
  }

  /** The test finds exactly the lists that hold some value twice. */
  lemma {:induction false} RepeatsIff(v: seq<string>)
    ensures Repeats(v) <==> !Distinct(v)
  {
    CardOfElements(v);
  }

  /** A list has no more distinct elements than entries, and as many
      exactly when its entries are pairwise different. */
  lemma {:induction false} CardOfElements(v: seq<string>)
    ensures |set x | x in v| <= |v|
    ensures |set x | x in v| == |v| <==> Distinct(v)
  {
    if v != [] {
      var init := v[..|v| - 1];
      var last := v[|v| - 1];
      CardOfElements(init);
      assert v == init + [last];
      assert (set x | x in v) == (set x | x in init) + {last};
      if last in init {
        var i :| 0 <= i < |init| && init[i] == last;
        assert v[i] == v[|v| - 1];
        assert (set x | x in v) == (set x | x in init);
      } else {
        assert Distinct(v) <==> Distinct(init);
      }
    }
  }

  /** The lines for one track's tags, visited in the order `keys`. */
  function DupScan(n: int, t: Track, keys: seq<string>): seq<Diag>
    requires forall k :: k in keys ==> k in t.tags
  {
    if keys == [] then []
    else
      var last := keys[|keys| - 1];
      assert last in keys;
      DupScan(n, t, keys[..|keys| - 1]) + (if Repeats(t.tags[last]) then [DuplicateValueInTag(n, last, t.tags[last])] else [])
  }

  lemma {:induction false} DupScanIn(n: int, t: Track, keys: seq<string>, d: Diag)
    requires forall k :: k in keys ==> k in t.tags
    ensures d in DupScan(n, t, keys) <==>
      exists k :: k in keys && Repeats(t.tags[k]) && d == DuplicateValueInTag(n, k, t.tags[k])
  {
    if keys != [] {
      var init := keys[..|keys| - 1];
      DupScanIn(n, t, init, d);
      assert keys == init + [keys[|keys| - 1]];
    }
  }

  /** The lines for one track, its tags visited by name. */
  ghost function DupsOn(n: int, t: Track): seq<Diag>
  {
    var keys := SetToSorted(t.tags.Keys, StrLess);
    assert forall k :: k in keys ==> k in multiset(keys);
    DupScan(n, t, keys)
  }

  /** A line is reported exactly for each track and tag whose list of values
      holds some value twice, and it shows that list. */
  lemma DupsIff(tracks: map<int, Track>, order: seq<int>, n: int, tag: string, v: seq<string>)
    requires Listed(tracks, order)
    ensures DuplicateValueInTag(n, tag, v) in EachTrack(tracks, order, DupsOn) <==>
      n in order && tag in tracks[n].tags && v == tracks[n].tags[tag] && !Distinct(v)
  {
    var d := DuplicateValueInTag(n, tag, v);
    EachTrackIn(tracks, order, DupsOn, d);
    if n in order {
      DupsOnIff(n, tracks[n], n, tag, v);
    }
    if d in EachTrack(tracks, order, DupsOn) {
      var m :| m in order && d in DupsOn(m, tracks[m]);
      DupsOnIff(m, tracks[m], n, tag, v);
    }
  }

  /** The lines of track `m`: one, naming `m`, for each tag whose list
      holds a value twice. */
  lemma DupsOnIff(m: int, t: Track, n: int, tag: string, v: seq<string>)
    ensures DuplicateValueInTag(n, tag, v) in DupsOn(m, t) <==>
      n == m && tag in t.tags && v == t.tags[tag] && !Distinct(v)
  {
    RepeatsIff(v);
    var keys := SetToSorted(t.tags.Keys, StrLess);
    assert forall k :: k in keys <==> k in multiset(keys);
    DupScanIn(m, t, keys, DuplicateValueInTag(n, tag, v));
  }

  /** `sorted(names)` for a set of tag names. */
  method SortedNames(names: set<string>) returns (r: seq<string>)
    ensures r == SetToSorted(names, StrLess)
  {
    StrLessIsTotal();
    r := SortedElements(names, StrLess);
  }

  /** The lines for the first `j + 1` tags are those for the first `j`,
      and the line of tag `keys[j]` when its list holds a value twice. */
  lemma DupScanStep(n: int, t: Track, keys: seq<string>, j: int)
    requires forall k :: k in keys ==> k in t.tags
    requires 0 <= j < |keys|
    ensures keys[j] in t.tags
    ensures DupScan(n, t, keys[..j + 1]) == DupScan(n, t, keys[..j]) +
      (if Repeats(t.tags[keys[j]]) then [DuplicateValueInTag(n, keys[j], t.tags[keys[j]])] else [])
  {
    var k := keys[j];
    assert k in keys;
    var s := keys[..j + 1];
    assert s[..|s| - 1] == keys[..j] && s[|s| - 1] == k;
    assert forall x :: x in s ==> x in keys;
  }

  /** The inner loop of `check_dups_in_tags` for one track: its lines,
      reported once gathered. */
  method ReportDups(n: int, t: Track, msgs: Messages)
    modifies msgs
    ensures msgs.Snapshot() == old(msgs.Snapshot()).Then(Errors(DupsOn(n, t)))
  {
    var lines := DupLines(n, t);
    msgs.Record(Errors(lines));
  }

  /** The lines of one track, gathered tag by tag in name order. */
  method DupLines(n: int, t: Track) returns (lines: seq<Diag>)
    ensures lines == DupsOn(n, t)
  {
    var keys := SortedNames(t.tags.Keys);
    forall k | k in keys ensures k in t.tags {
      assert k in multiset(keys);
    }
    lines := [];
    assert keys[..0] == [];
    var j := 0;
    while j < |keys|
      invariant 0 <= j <= |keys|
      invariant lines == DupScan(n, t, keys[..j])
    {
      DupScanStep(n, t, keys, j);
      var tag := keys[j];
      if Repeats(t.tags[tag]) {
        lines := lines + [DuplicateValueInTag(n, tag, t.tags[tag])];
      }
      j := j + 1;
    }
    assert keys[..j] == keys;
    assert DupsOn(n, t) == DupScan(n, t, keys);
  }

  /** `check_dups_in_tags(disc)`, visiting each track's tags by name. */
  method CheckDupsInTags(disc: Disc, msgs: Messages)
    requires Listed(disc.tracks, disc.order)
    modifies msgs
    ensures msgs.Snapshot() == old(msgs.Snapshot()).Then(Errors(EachTrack(disc.tracks, disc.order, DupsOn)))
  {
    var i := 0;
    while i < |disc.order|
      invariant 0 <= i <= |disc.order|
      invariant msgs.Snapshot() == old(msgs.Snapshot()).Then(Errors(EachTrack(disc.tracks, disc.order[..i], DupsOn)))
    {
      var n := disc.order[i];
      assert disc.order[..i + 1][..i] == disc.order[..i];
      assert n in disc.order;
      ghost var before := EachTrack(disc.tracks, disc.order[..i], DupsOn);
      assert EachTrack(disc.tracks, disc.order[..i + 1], DupsOn) == before + DupsOn(n, disc.tracks[n]);
      ReportDups(n, disc.tracks[n], msgs);
      ThenErrorsAppend(old(msgs.Snapshot()), before, DupsOn(n, disc.tracks[n]));
      i := i + 1;
    }
    assert disc.order[..i] == disc.order;
  }
}

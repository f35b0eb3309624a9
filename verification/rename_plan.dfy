/** The checks and bookkeeping by which `RearrangeAudioFiles.py` decides
    where an album's files go: the `-o` tag overrides, the tag-validity gate,
    the recording of each old file name with its new one (truncated to the
    maximum path length, with name collisions reported), and the handling of
    a cuesheet or extraction log. */
module RenamePlan {
  import opened Wrappers
  import opened Text
  import opened Hierarchy
  import opened MessageSink
  import opened NewNames

  // ---------------------------------------------------------------------
  // process_tag_overrides

  /** The album's identical tags after the overrides `ovs`, applied in
      order: each sets its tag to its value split at ';'. The tagset is left
      as it was, as item assignment on a `Track` does not touch it. */
  function Overridden(id: Track, ovs: seq<(string, string)>): Track
    decreases |ovs|
  {
    if ovs == [] then id
    else
      var t := Overridden(id, ovs[..|ovs| - 1]);
      var o := ovs[|ovs| - 1];
      t.(tags := t.tags[o.0 := SplitOn(o.1, ';')])
  }

  /** Some override names `tag`. */
  predicate Overrides(ovs: seq<(string, string)>, tag: string)
  {
    exists i :: 0 <= i < |ovs| && ovs[i].0 == tag
  }

  /** The override at `i` is the last one naming `tag`. */
  predicate LastOverride(ovs: seq<(string, string)>, i: int, tag: string)
  {
    0 <= i < |ovs| && ovs[i].0 == tag && forall j :: i < j < |ovs| ==> ovs[j].0 != tag
  }

  /** After the overrides, an overridden tag holds the value of its last
      override split at ';', every other tag is as it was, and the tagset is
      unchanged. */
  lemma {:induction false} OverriddenMeaning(id: Track, ovs: seq<(string, string)>, tag: string)
    ensures var r := Overridden(id, ovs);
      && r.tagset == id.tagset && r.file == id.file
      && (tag in r.tags <==> tag in id.tags || Overrides(ovs, tag))
      && (forall i :: LastOverride(ovs, i, tag) ==> r.tags[tag] == SplitOn(ovs[i].1, ';'))
      && (!Overrides(ovs, tag) && tag in id.tags ==> r.tags[tag] == id.tags[tag])
    decreases |ovs|
  {
    if ovs != [] {
      var init := ovs[..|ovs| - 1];
      var o := ovs[|ovs| - 1];
      OverriddenMeaning(id, init, tag);
      assert Overrides(ovs, tag) <==> Overrides(init, tag) || o.0 == tag by {
        if Overrides(ovs, tag) && o.0 != tag {
          var i :| 0 <= i < |ovs| && ovs[i].0 == tag;
          assert init[i] == ovs[i];
        }
        if Overrides(init, tag) {
          var i :| 0 <= i < |init| && init[i].0 == tag;
          assert ovs[i] == init[i];
        }
      }
      forall i | LastOverride(ovs, i, tag)
        ensures Overridden(id, ovs).tags[tag] == SplitOn(ovs[i].1, ';')
      {
        if i < |ovs| - 1 {
          assert LastOverride(init, i, tag);
        }
      }
    }
  }

  /** Every tag holds at least one value. */
  predicate NonEmptyValues(t: Track)
  {
    forall k :: k in t.tags ==> |t.tags[k]| > 0
  }

  /** An override always holds at least one value (`''.split(';')` is
      `['']`). */
  lemma {:induction false} OverriddenNonEmpty(id: Track, ovs: seq<(string, string)>)
    requires NonEmptyValues(id)
    ensures NonEmptyValues(Overridden(id, ovs))
    decreases |ovs|
  {
    if ovs != [] {
      OverriddenNonEmpty(id, ovs[..|ovs| - 1]);
    }
  }

  /** `process_tag_overrides(album)`. Without overrides nothing happens;
      with some, an album without discs (no identical tags) raises a
      TypeError at the first item assignment. */
  method ProcessTagOverrides(album: Album, opts: Options) returns (outcome: Outcome)
    modifies album`identical
    ensures opts.overrides == [] ==> outcome == Done && album.identical == old(album.identical)
    ensures opts.overrides != [] && old(album.identical).None? ==>
      outcome == Raised(TypeError) && album.identical == None
    ensures old(album.identical).Some? ==>
      outcome == Done && album.identical == Some(Overridden(old(album.identical.value), opts.overrides))
  {
    var ovs := opts.overrides;
    if ovs == [] {
      return Done;
    }
    if album.identical.None? {
      return Raised(TypeError);
    }
    var i := 0;
    while i < |ovs|
      invariant 0 <= i <= |ovs|
      invariant album.identical == Some(Overridden(old(album.identical.value), ovs[..i]))
    {
      var o := ovs[i];
      var id := album.identical.value;
      album.identical := Some(id.(tags := id.tags[o.0 := SplitOn(o.1, ';')]));
      assert ovs[..i + 1][..i] == ovs[..i];
      i := i + 1;
    }
    assert ovs[..i] == ovs;
    return Done;
  }

  // ---------------------------------------------------------------------
  // check_tag_validity

  /** The three nested tests of `check_tag_validity`: `test_identical`,
      `test_identical_or_missing` and `test_common`. */
  datatype TagTest = Identical | IdenticalOrMissing | Common

  /** What a test reports about one tag. */
  function TagLine(test: TagTest, tag: string, common: set<string>, tagset: set<string>, id: Track): seq<Diag>
  {
    match test
    case Identical =>
      if tag !in common then [NotInAllTracks(tag)] else if tag !in id.tags then [NotIdentical(tag)] else []
    case IdenticalOrMissing =>
      if tag in tagset && tag !in id.tags then [NotIdentical(tag)] else []
    case Common =>
      if tag !in common then [NotInAllTracks(tag)] else []
  }

  /** What a test reports about `tags`, in order. */
  function TestLines(test: TagTest, tags: seq<string>, common: set<string>, tagset: set<string>, id: Track): seq<Diag>
    decreases |tags|
  {
    if tags == [] then []
    else TestLines(test, tags[..|tags| - 1], common, tagset, id) + TagLine(test, tags[|tags| - 1], common, tagset, id)
  }

  /** The test reports `tag` as not present in all tracks. */
  predicate ReportsMissing(test: TagTest, tag: string, common: set<string>)
  {
    test != IdenticalOrMissing && tag !in common
  }

  /** The test reports `tag` as not identical across all tracks. */
  predicate ReportsDiffering(test: TagTest, tag: string, common: set<string>, tagset: set<string>, id: Track)
  {
    tag !in id.tags &&
    match test
    case Identical => tag in common
    case IdenticalOrMissing => tag in tagset
    case Common => false
  }

  /** A test reports at most one line per tag, each about a tag it was
      given: "not present in all tracks" exactly for a tag outside the
      album's common tags (never for `test_identical_or_missing`), and "not
      identical" exactly for a tag outside the identical tags that is common
      (`test_identical`) or used at all (`test_identical_or_missing`). */
  lemma {:induction false} TestLinesMeaning(test: TagTest, tags: seq<string>, common: set<string>, tagset: set<string>, id: Track, tag: string)
    ensures var r := TestLines(test, tags, common, tagset, id);
      && |r| <= |tags|
      && (NotInAllTracks(tag) in r <==> tag in tags && ReportsMissing(test, tag, common))
      && (NotIdentical(tag) in r <==> tag in tags && ReportsDiffering(test, tag, common, tagset, id))
      && (forall i :: 0 <= i < |r| ==> (r[i].NotInAllTracks? || r[i].NotIdentical?) && r[i].tag in tags)
    decreases |tags|
  {
    if tags != [] {
      var init := tags[..|tags| - 1];
      var last := tags[|tags| - 1];
      TestLinesMeaning(test, init, common, tagset, id, tag);
      assert forall t :: t in tags <==> t in init || t == last;
    }
  }

  /** A test reports nothing exactly when it finds nothing to report about
      any of its tags. */
  lemma TestLinesEmpty(test: TagTest, tags: seq<string>, common: set<string>, tagset: set<string>, id: Track)
    ensures TestLines(test, tags, common, tagset, id) == []
      <==> forall tag :: tag in tags ==> !ReportsMissing(test, tag, common) && !ReportsDiffering(test, tag, common, tagset, id)
  {
    var r := TestLines(test, tags, common, tagset, id);
    if r == [] {
      forall tag | tag in tags
        ensures !ReportsMissing(test, tag, common) && !ReportsDiffering(test, tag, common, tagset, id)
      {
        TestLinesMeaning(test, tags, common, tagset, id, tag);
      }
    } else {
      TestLinesMeaning(test, tags, common, tagset, id, "");
      var tag := r[0].tag;
      TestLinesMeaning(test, tags, common, tagset, id, tag);
      assert r[0] in r;
    }
  }

  /** The lines one test produces, tag by tag. */
  method TestTagLines(test: TagTest, tags: seq<string>, common: set<string>, tagset: set<string>, id: Track) returns (lines: seq<Diag>)
    ensures lines == TestLines(test, tags, common, tagset, id)
  {
    lines := [];
    var i := 0;
    while i < |tags|
      invariant 0 <= i <= |tags|
      invariant lines == TestLines(test, tags[..i], common, tagset, id)
    {
      assert tags[..i + 1][..i] == tags[..i];
      lines := lines + TagLine(test, tags[i], common, tagset, id);
      i := i + 1;
    }
    assert tags[..i] == tags;
  }

  /** Runs one test: one `error` call per line, in order. */
  method TestTags(test: TagTest, tags: seq<string>, common: set<string>, tagset: set<string>, id: Track, msgs: Messages)
    modifies msgs
    ensures msgs.Snapshot() == old(msgs.Snapshot()).Then(Errors(TestLines(test, tags, common, tagset, id)))
  {
    var lines := TestTagLines(test, tags, common, tagset, id);
    msgs.Record(Errors(lines));
  }

  const KnownProfiles: seq<string> := ["Classical", "Pop/Rock"]

  /** The tags every album needs identical across the album, the tags every
      track needs, and the further ones classical albums need. */
  const AlbumTags: seq<string> := ["disctotal", "album", "albumartist"]
  const TrackTags: seq<string> := ["tracknumber", "title", "discnumber"]
  const ClassicalTrackTags: seq<string> := ["composerterse", "artistterse"]
  const ClassicalPathTags: seq<string> := ["albumartistterse", "date"]

  /** The tests a classical album gets when it is moved to a destination. */
  function ClassicalPathTests(id: Track, common: set<string>, tagset: set<string>): seq<Diag>
  {
    TestLines(Identical, ClassicalPathTags, common, tagset, id)
    + TestLines(IdenticalOrMissing, ["compilation"], common, tagset, id)
    + (if "compilation" !in tagset then TestLines(Identical, ["composersort"], common, tagset, id) else [])
  }

  /** The tests a classical album gets. */
  function ClassicalTests(id: Track, common: set<string>, tagset: set<string>, opts: Options): seq<Diag>
  {
    TestLines(Common, ClassicalTrackTags, common, tagset, id)
    + (if opts.dest != "" then ClassicalPathTests(id, common, tagset) else [])
  }

  /** The tests any other album gets. */
  function PopTests(id: Track, common: set<string>, tagset: set<string>, opts: Options): seq<Diag>
  {
    TestLines(Common, ["artist"], common, tagset, id)
    + (if opts.dest != "" then TestLines(Identical, ["date"], common, tagset, id) else [])
    + (if opts.sortedArtist then TestLines(Identical, ["album artist sort"], common, tagset, id) else [])
  }

  /** The lines of the tests that follow a known profile. */
  function ProfileTests(id: Track, common: set<string>, tagset: set<string>, opts: Options, classical: bool): seq<Diag>
  {
    TestLines(Identical, AlbumTags, common, tagset, id)
    + TestLines(Common, TrackTags, common, tagset, id)
    + (if classical then ClassicalTests(id, common, tagset, opts) else PopTests(id, common, tagset, opts))
  }

  /** What `check_tag_validity` decides: its error lines, and the values it
      gives `album.classical` and `album.compilation` (None where it leaves
      the attribute alone). */
  datatype Gate = Gate(lines: seq<Diag>, classical: Option<bool>, compilation: Option<bool>)

  /** `check_tag_validity(album)` on the album's identical tags, common tags
      and tagset. */
  function TagValidity(id: Track, common: set<string>, tagset: set<string>, opts: Options): Gate
  {
    if "profile" !in id.tags then Gate([ProfileNotIdentical], None, None)
    else
      var profile := Join(id.tags["profile"], "; ");
      if profile !in KnownProfiles then Gate([ProfileUnknown(profile)], None, None)
      else
        var classical := profile == "Classical";
        Gate(ProfileTests(id, common, tagset, opts, classical), Some(classical),
             if classical then Some("compilation" in tagset) else None)
  }

  /** The gate aborts after exactly one error when the profile is not
      identical across the album or is not a known one; otherwise it marks
      the album classical exactly when the profile is "Classical", and a
      classical album a compilation exactly when some track has a
      compilation tag. */
  lemma GateDecides(id: Track, common: set<string>, tagset: set<string>, opts: Options)
    ensures var g := TagValidity(id, common, tagset, opts);
      && (g.classical.None? <==> "profile" !in id.tags || Join(id.tags["profile"], "; ") !in KnownProfiles)
      && (g.classical.None? ==> |g.lines| == 1 && g.compilation.None?)
      && (g.classical.Some? ==> (g.classical.value <==> Join(id.tags["profile"], "; ") == "Classical"))
      && (g.compilation.Some? <==> g.classical == Some(true))
      && (g.compilation.Some? ==> (g.compilation.value <==> "compilation" in tagset))
  {
  }

  lemma NoLinesParts(a: seq<Diag>, b: seq<Diag>)
    ensures a + b == [] <==> a == [] && b == []
  {
    assert |a + b| == |a| + |b|;
  }

  /** The path tests of a classical album are silent exactly when the path
      tags are present in every track and identical, a compilation tag
      (where some track has one) is identical, and without one
      `composersort` is present in every track and identical. */
  lemma ClassicalPathTestsPass(id: Track, common: set<string>, tagset: set<string>)
    ensures ClassicalPathTests(id, common, tagset) == [] <==>
      && (forall t :: t in ClassicalPathTags ==> t in common && t in id.tags)
      && ("compilation" in tagset ==> "compilation" in id.tags)
      && ("compilation" !in tagset ==> "composersort" in common && "composersort" in id.tags)
  {
    var b := TestLines(Identical, ClassicalPathTags, common, tagset, id);
    var c := TestLines(IdenticalOrMissing, ["compilation"], common, tagset, id);
    var d := if "compilation" !in tagset then TestLines(Identical, ["composersort"], common, tagset, id) else [];
    NoLinesParts(b + c, d);
    NoLinesParts(b, c);
    TestLinesEmpty(Identical, ClassicalPathTags, common, tagset, id);
    TestLinesEmpty(IdenticalOrMissing, ["compilation"], common, tagset, id);
    TestLinesEmpty(Identical, ["composersort"], common, tagset, id);
    assert "compilation" in ["compilation"] && "composersort" in ["composersort"];
  }

  /** The classical tests are silent exactly when the two per-track tags
      are in every track and, with a destination, the path tests are
      silent. */
  lemma ClassicalTestsPass(id: Track, common: set<string>, tagset: set<string>, opts: Options)
    ensures ClassicalTests(id, common, tagset, opts) == [] <==>
      && (forall t :: t in ClassicalTrackTags ==> t in common)
      && (opts.dest != "" ==>
            && (forall t :: t in ClassicalPathTags ==> t in common && t in id.tags)
            && ("compilation" in tagset ==> "compilation" in id.tags)
            && ("compilation" !in tagset ==> "composersort" in common && "composersort" in id.tags))
  {
    NoLinesParts(TestLines(Common, ClassicalTrackTags, common, tagset, id),
                 if opts.dest != "" then ClassicalPathTests(id, common, tagset) else []);
    TestLinesEmpty(Common, ClassicalTrackTags, common, tagset, id);
    ClassicalPathTestsPass(id, common, tagset);
  }

  /** The tests of any other album are silent exactly when `artist` is in
      every track, `date` is present in every track and identical when
      there is a destination, and `album artist sort` is so too when the
      sorted-artist option is given. */
  lemma PopTestsPass(id: Track, common: set<string>, tagset: set<string>, opts: Options)
    ensures PopTests(id, common, tagset, opts) == [] <==>
      && "artist" in common
      && (opts.dest != "" ==> "date" in common && "date" in id.tags)
      && (opts.sortedArtist ==> "album artist sort" in common && "album artist sort" in id.tags)
  {
    var a := TestLines(Common, ["artist"], common, tagset, id);
    var b := if opts.dest != "" then TestLines(Identical, ["date"], common, tagset, id) else [];
    var c := if opts.sortedArtist then TestLines(Identical, ["album artist sort"], common, tagset, id) else [];
    NoLinesParts(a + b, c);
    NoLinesParts(a, b);
    TestLinesEmpty(Common, ["artist"], common, tagset, id);
    TestLinesEmpty(Identical, ["date"], common, tagset, id);
    TestLinesEmpty(Identical, ["album artist sort"], common, tagset, id);
    assert "artist" in ["artist"] && "date" in ["date"] && "album artist sort" in ["album artist sort"];
  }

  /** The profile tests report nothing only when the tags the new names are
      built from are present in every track and, where the new path needs
      them, identical across the album. */
  lemma ProfileTestsPass(id: Track, common: set<string>, tagset: set<string>, opts: Options, classical: bool)
    requires ProfileTests(id, common, tagset, opts, classical) == []
    ensures forall t :: t in AlbumTags ==> t in common && t in id.tags
    ensures forall t :: t in TrackTags ==> t in common
    ensures classical ==> ClassicalTests(id, common, tagset, opts) == []
    ensures !classical ==> PopTests(id, common, tagset, opts) == []
  {
    var a := TestLines(Identical, AlbumTags, common, tagset, id);
    var b := TestLines(Common, TrackTags, common, tagset, id);
    NoLinesParts(a + b, if classical then ClassicalTests(id, common, tagset, opts) else PopTests(id, common, tagset, opts));
    NoLinesParts(a, b);
    TestLinesEmpty(Identical, AlbumTags, common, tagset, id);
    TestLinesEmpty(Common, TrackTags, common, tagset, id);
  }

  /** A gate that reports nothing has decided the profile, and everything
      the new names are built from is there: the album-wide tags are
      identical, the per-track tags are in every track, and with a
      destination the new path of the album can be built. */
  lemma GateOpensPath(id: Track, common: set<string>, tagset: set<string>, opts: Options)
    requires NonEmptyValues(id)
    requires TagValidity(id, common, tagset, opts).lines == []
    ensures var g := TagValidity(id, common, tagset, opts);
      && g.classical.Some?
      && (forall t :: t in AlbumTags ==> t in common && HasValue(id, t))
      && (forall t :: t in TrackTags ==> t in common)
      && (g.classical.value ==> forall t :: t in ClassicalTrackTags ==> t in common)
      && (!g.classical.value ==> "artist" in common)
      && (opts.dest != "" ==>
            PathReady(id, g.classical.value, g.compilation == Some(true), opts.sortedArtist))
  {
    var g := TagValidity(id, common, tagset, opts);
    assert "profile" in id.tags;
    var classical := g.classical.value;
    ProfileTestsPass(id, common, tagset, opts, classical);
    if classical {
      ClassicalTestsPass(id, common, tagset, opts);
    } else {
      PopTestsPass(id, common, tagset, opts);
    }
    if opts.dest != "" {
      TestsMakePathReady(id, common, tagset, opts, classical);
    }
  }

  /** Silent profile tests with a destination leave every tag the new path
      reads present with a value. */
  lemma TestsMakePathReady(id: Track, common: set<string>, tagset: set<string>, opts: Options, classical: bool)
    requires NonEmptyValues(id) && opts.dest != ""
    requires ProfileTests(id, common, tagset, opts, classical) == []
    ensures PathReady(id, classical, classical && "compilation" in tagset, opts.sortedArtist)
  {
    ProfileTestsPass(id, common, tagset, opts, classical);
    assert "album" in AlbumTags && "albumartist" in AlbumTags;
    if classical {
      ClassicalTestsPass(id, common, tagset, opts);
      assert "albumartistterse" in ClassicalPathTags && "date" in ClassicalPathTags;
    } else {
      PopTestsPass(id, common, tagset, opts);
    }
  }

  /** An override settles `test_identical` for its tag as long as every
      track has the tag; a tag some track lacks is still reported. */
  lemma OverrideSettlesIdentical(id: Track, ovs: seq<(string, string)>, tag: string, common: set<string>, tagset: set<string>)
    requires Overrides(ovs, tag)
    ensures TagLine(Identical, tag, common, tagset, Overridden(id, ovs))
      == (if tag in common then [] else [NotInAllTracks(tag)])
  {
    OverriddenMeaning(id, ovs, tag);
  }

  /** The lines of the tests of a classical album moved to a destination;
      `compilation` is the album's compilation flag. */
  method ClassicalPathLines(id: Track, common: set<string>, tagset: set<string>, compilation: bool) returns (lines: seq<Diag>)
    requires compilation == ("compilation" in tagset)
    ensures lines == ClassicalPathTests(id, common, tagset)
  {
    var a := TestTagLines(Identical, ClassicalPathTags, common, tagset, id);
    var b := TestTagLines(IdenticalOrMissing, ["compilation"], common, tagset, id);
    var c := [];
    if !compilation {
      c := TestTagLines(Identical, ["composersort"], common, tagset, id);
    }
    lines := a + b + c;
  }

  /** The lines of the tests of a classical album. */
  method ClassicalLines(id: Track, common: set<string>, tagset: set<string>, opts: Options, compilation: bool) returns (lines: seq<Diag>)
    requires compilation == ("compilation" in tagset)
    ensures lines == ClassicalTests(id, common, tagset, opts)
  {
    var a := TestTagLines(Common, ClassicalTrackTags, common, tagset, id);
    var b := [];
    if opts.dest != "" {
      b := ClassicalPathLines(id, common, tagset, compilation);
    }
    lines := a + b;
  }

  /** The lines of the tests of an album with another profile. */
  method PopLines(id: Track, common: set<string>, tagset: set<string>, opts: Options) returns (lines: seq<Diag>)
    ensures lines == PopTests(id, common, tagset, opts)
  {
    var a := TestTagLines(Common, ["artist"], common, tagset, id);
    var b := [];
    if opts.dest != "" {
      b := TestTagLines(Identical, ["date"], common, tagset, id);
    }
    var c := [];
    if opts.sortedArtist {
      c := TestTagLines(Identical, ["album artist sort"], common, tagset, id);
    }
    lines := a + b + c;
  }

  /** The lines of the tests that follow a known profile, in the order they
      run. */
  method ProfileLines(id: Track, common: set<string>, tagset: set<string>, opts: Options, classical: bool) returns (lines: seq<Diag>)
    ensures lines == ProfileTests(id, common, tagset, opts, classical)
  {
    var a := TestTagLines(Identical, AlbumTags, common, tagset, id);
    var b := TestTagLines(Common, TrackTags, common, tagset, id);
    var c;
    if classical {
      c := ClassicalLines(id, common, tagset, opts, "compilation" in tagset);
    } else {
      c := PopLines(id, common, tagset, opts);
    }
    lines := a + b + c;
  }

  /** `check_tag_validity(album)`. An album without discs has neither
      identical nor common tags, and the first membership test on them
      raises a TypeError: the profile test when the identical tags are
      missing, the first `test_identical` when only the common ones are.
      The compilation flag is set once the tests have run rather than
      between them; the one test that reads it is given the value it is
      about to receive. */
  method CheckTagValidity(album: Album, opts: Options, msgs: Messages) returns (outcome: Outcome)
    modifies album`classical, album`compilation, msgs
    ensures album.identical.None? ==>
      && outcome == Raised(TypeError) && msgs.Snapshot() == old(msgs.Snapshot())
      && album.classical == old(album.classical) && album.compilation == old(album.compilation)
    ensures album.identical.Some? && album.common.Some? ==>
      var g := TagValidity(album.identical.value, album.common.value, album.tagset, opts);
      && outcome == Done
      && msgs.Snapshot() == old(msgs.Snapshot()).Then(Errors(g.lines))
      && album.classical == (if g.classical.Some? then g.classical.value else old(album.classical))
      && album.compilation == (if g.compilation.Some? then g.compilation.value else old(album.compilation))
    ensures album.identical.Some? && album.common.None? ==>
      var g := TagValidity(album.identical.value, {}, album.tagset, opts);
      && album.compilation == old(album.compilation)
      && (g.classical.None? ==>
            outcome == Done && msgs.Snapshot() == old(msgs.Snapshot()).Then(Errors(g.lines))
            && album.classical == old(album.classical))
      && (g.classical.Some? ==>
            outcome == Raised(TypeError) && msgs.Snapshot() == old(msgs.Snapshot())
            && album.classical == g.classical.value)
  {
    if album.identical.None? {
      return Raised(TypeError);
    }
    var id := album.identical.value;
    if "profile" !in id.tags {
      msgs.Error(ProfileNotIdentical);
      assert Errors([ProfileNotIdentical]) == [Msg(Error, ProfileNotIdentical)];
      return Done;
    }
    var profile := Join(id.tags["profile"], "; ");
    if profile !in KnownProfiles {
      msgs.Error(ProfileUnknown(profile));
      assert Errors([ProfileUnknown(profile)]) == [Msg(Error, ProfileUnknown(profile))];
      return Done;
    }
    var classical := profile == "Classical";
    album.classical := classical;
    if album.common.None? {
      return Raised(TypeError);
    }
    var lines := ProfileLines(id, album.common.value, album.tagset, opts, classical);
    msgs.Record(Errors(lines));
    if classical {
      album.compilation := "compilation" in album.tagset;
    }
    return Done;
  }

  // ---------------------------------------------------------------------
  // record_file_to_process

  /** How a new name fits the maximum path length: as it is, not at all
      (fewer than 10 characters of its base would be left), or truncated to
      the given name. */
  datatype Fit = Fits | TooShort | Truncated(name: string)

  /** The truncation step of `record_file_to_process`: when the joined path
      is too long, cut `shrink` characters from the end of the base name and
      put ".." before the extension. */
  function FitName(path: string, name: string, maxLen: int): Fit
  {
    var full := JoinPath(path, name);
    if |full| <= maxLen then Fits
    else
      var (base, ext) := SplitExt(name);
      var shrink := |full| - maxLen + 2;
      if |base| - shrink < 10 then TooShort else Truncated(base[..|base| - shrink] + ".." + ext)
  }

  /** A name is left alone exactly when its joined path fits; it cannot be
      truncated exactly when fewer than 10 characters of its base would
      remain; and a truncated name keeps at least 10 leading characters of
      the base, is shorter than the original, ends with ".." and the original
      extension, and makes the joined path exactly the maximum length. */
  lemma FitNameMeaning(path: string, name: string, maxLen: int)
    ensures var f := FitName(path, name, maxLen);
      var full := JoinPath(path, name);
      var base := SplitExt(name).0;
      var ext := SplitExt(name).1;
      && (f.Fits? <==> |full| <= maxLen)
      && (f.TooShort? <==> |full| > maxLen && |base| - (|full| - maxLen + 2) < 10)
      && (f.Truncated? ==>
            var k := |f.name| - |ext| - 2;
            && 10 <= k < |base|
            && f.name == base[..k] + ".." + ext
            && |f.name| < |name|
            && |JoinPath(path, f.name)| == maxLen)
  {
    var full := JoinPath(path, name);
    var base := SplitExt(name).0;
    var ext := SplitExt(name).1;
    assert |name| == |base| + |ext|;
    if |full| > maxLen {
      var shrink := |full| - maxLen + 2;
      if |base| - shrink >= 10 {
        var t := base[..|base| - shrink] + ".." + ext;
        assert FitName(path, name, maxLen) == Truncated(t);
        assert |t| == |base| - shrink + 2 + |ext|;
        assert |t| - |ext| - 2 == |base| - shrink;
        assert t[..|t| - |ext| - 2] == base[..|base| - shrink];
      }
    }
  }

  /** What `record_file_to_process` decides: the name it records and the
      messages it emits. */
  datatype Recording = Recording(name: string, lines: seq<Msg>)

  /** The messages about a name that needed truncating. */
  function FitLines(fit: Fit, full: string, newName: string, warn: bool): seq<Msg>
  {
    match fit
    case Fits => []
    case TooShort => Errors([NameTooShortToTruncate, FullPath(full)])
    case Truncated(t) =>
      if warn then [Msg(Warning, NameTruncated), Msg(Warning, TruncatedFrom(newName)), Msg(Warning, TruncatedTo(t))]
      else []
  }

  /** The messages about a new name some earlier file already takes. */
  function ClashLines(name: string, oldName: string, newFiles: map<string, string>): seq<Msg>
  {
    if name in newFiles then
      Errors([CollidingNewName, CollisionSource(newFiles[name]), CollisionSource(oldName), CollisionTarget(name)])
    else []
  }

  /** `record_file_to_process(album, old_name, new_name)` with `path` the
      album's new path (with a destination) or its current one. */
  function Record(path: string, opts: Options, oldName: string, newName: string, newFiles: map<string, string>): Recording
  {
    var fit := FitName(path, newName, opts.maxLen);
    var name := if fit.Truncated? then fit.name else newName;
    Recording(name, FitLines(fit, JoinPath(path, newName), newName, opts.truncateWarn)
                    + ClashLines(name, oldName, newFiles))
  }

  /** No message is an error. */
  predicate ErrorFree(ms: seq<Msg>)
  {
    forall i :: 0 <= i < |ms| ==> ms[i].severity != Error
  }

  /** A recording reports a collision exactly when the name it records is
      already taken, and is free of errors exactly when the name could be
      made to fit and is not taken. */
  lemma RecordReports(path: string, opts: Options, oldName: string, newName: string, newFiles: map<string, string>)
    ensures var r := Record(path, opts, oldName, newName, newFiles);
      var fit := FitName(path, newName, opts.maxLen);
      && r.name == (if fit.Truncated? then fit.name else newName)
      && (Msg(Error, CollidingNewName) in r.lines <==> r.name in newFiles)
      && (ErrorFree(r.lines) <==> !fit.TooShort? && r.name !in newFiles)
  {
    var r := Record(path, opts, oldName, newName, newFiles);
    var fit := FitName(path, newName, opts.maxLen);
    var a := FitLines(fit, JoinPath(path, newName), newName, opts.truncateWarn);
    var b := ClashLines(r.name, oldName, newFiles);
    assert r.lines == a + b;
    assert Msg(Error, CollidingNewName) !in a;
    if r.name in newFiles {
      assert r.lines[|a|] == b[0];
    }
    if fit.TooShort? {
      assert r.lines[0] == a[0];
    }
  }

  /** The two maps are inverse to each other. */
  predicate Mutual(oldFiles: map<string, string>, newFiles: map<string, string>)
  {
    && (forall o :: o in oldFiles ==> oldFiles[o] in newFiles && newFiles[oldFiles[o]] == o)
    && (forall n :: n in newFiles ==> newFiles[n] in oldFiles && oldFiles[newFiles[n]] == n)
  }

  /** An error-free recording of a file not recorded before keeps the two
      maps inverse to each other, so a plan recorded without errors moves
      every file to its own name. */
  lemma RecordKeepsMutual(path: string, opts: Options, oldName: string, newName: string,
                          oldFiles: map<string, string>, newFiles: map<string, string>)
    requires Mutual(oldFiles, newFiles) && oldName !in oldFiles
    requires ErrorFree(Record(path, opts, oldName, newName, newFiles).lines)
    ensures var r := Record(path, opts, oldName, newName, newFiles);
      Mutual(oldFiles[oldName := r.name], newFiles[r.name := oldName])
  {
    RecordReports(path, opts, oldName, newName, newFiles);
  }

  /** The truncation step of `record_file_to_process`: the name to go on
      with and the messages about it. */
  method FitNewName(path: string, newName: string, maxLen: int, warn: bool) returns (name: string, lines: seq<Msg>)
    ensures var fit := FitName(path, newName, maxLen);
      && name == (if fit.Truncated? then fit.name else newName)
      && lines == FitLines(fit, JoinPath(path, newName), newName, warn)
  {
    name := newName;
    lines := [];
    var full := JoinPath(path, name);
    if |full| > maxLen {
      var (base, ext) := SplitExt(name);
      var shrink := |full| - maxLen + 2;
      if |base| - shrink < 10 {
        lines := Errors([NameTooShortToTruncate, FullPath(full)]);
      } else {
        var truncated := base[..|base| - shrink] + ".." + ext;
        if warn {
          lines := [Msg(Warning, NameTruncated), Msg(Warning, TruncatedFrom(name)), Msg(Warning, TruncatedTo(truncated))];
        }
        name := truncated;
      }
    }
  }

  /** What recording `newName` for `oldName` decides on `album`: the
      directory is the album's new path with a destination, and its
      current one without. */
  function AlbumRecord(album: Album, opts: Options, oldName: string, newName: string): Recording
    reads album
  {
    Record(if opts.dest != "" then album.newPath else album.path, opts, oldName, newName, album.newFiles)
  }

  /** `record_file_to_process(album, old_name, new_name)`, without the probe
      for an existing file in the new directory. */
  method RecordFileToProcess(album: Album, opts: Options, oldName: string, newName: string, msgs: Messages)
    modifies album`oldFiles, album`newFiles, msgs
    ensures var r := old(AlbumRecord(album, opts, oldName, newName));
      && album.oldFiles == old(album.oldFiles)[oldName := r.name]
      && album.newFiles == old(album.newFiles)[r.name := oldName]
      && msgs.Snapshot() == old(msgs.Snapshot()).Then(r.lines)
  {
    var path := if opts.dest != "" then album.newPath else album.path;
    var r := DecideRecord(path, opts, oldName, newName, album.newFiles);
    var oldFiles := album.oldFiles[oldName := r.name];
    var newFiles := album.newFiles[r.name := oldName];
    msgs.Record(r.lines);
    album.oldFiles := oldFiles;
    album.newFiles := newFiles;
  }

  /** The decisions of `record_file_to_process`: fit the name to the
      maximum path length, then look for an earlier file with the same new
      name. */
  method DecideRecord(path: string, opts: Options, oldName: string, newName: string, newFiles: map<string, string>)
    returns (r: Recording)
    ensures r == Record(path, opts, oldName, newName, newFiles)
  {
    var name, fitLines := FitNewName(path, newName, opts.maxLen, opts.truncateWarn);
    var clash: seq<Msg> := [];
    if name in newFiles {
      var prev := newFiles[name];
      clash := Errors([CollidingNewName, CollisionSource(prev), CollisionSource(oldName), CollisionTarget(name)]);
    }
    r := Recording(name, fitLines + clash);
  }

  // ---------------------------------------------------------------------
  // check_aux_file

  /** The first tag `get_new_auxiliary_file_basename` reads that the disc's
      identical tags lack. */
  function MissingAuxTag(id: Track): (r: Option<string>)
    ensures r.None? <==> "albumartist" in id.tags && "album" in id.tags && "disctotal" in id.tags
    ensures r.Some? ==> r.value !in id.tags
    ensures r.None? && NonEmptyValues(id) ==> HasAuxTags(id)
  {
    if "albumartist" !in id.tags then Some("albumartist")
    else if "album" !in id.tags then Some("album")
    else if "disctotal" !in id.tags then Some("disctotal")
    else None
  }

  /** `check_aux_file(album, fname, attrib, ext)`: the cuesheet or log is
      renamed after the disc its name gives (disc 1 by default); a disc the
      album does not have is reported and nothing is recorded. */
  method CheckAuxFile(album: Album, opts: Options, fname: string, attrib: string, ext: string, msgs: Messages)
    returns (outcome: Outcome)
    requires forall n :: n in album.discs ==> NonEmptyValues(album.discs[n].identical)
    modifies album`oldFiles, album`newFiles, msgs
    ensures var n := DiscInName(fname, ext);
      && (n !in old(album.discs) ==>
            && outcome == Done
            && album.oldFiles == old(album.oldFiles) && album.newFiles == old(album.newFiles)
            && msgs.Snapshot() == old(msgs.Snapshot()).Then(Errors([DiscNotFound(n, attrib, fname)])))
      && (n in old(album.discs) ==>
            var id := old(album.discs[n].identical);
            && (MissingAuxTag(id).Some? ==>
                  && outcome == Raised(KeyError(MissingAuxTag(id).value))
                  && album.oldFiles == old(album.oldFiles) && album.newFiles == old(album.newFiles)
                  && msgs.Snapshot() == old(msgs.Snapshot()))
            && (MissingAuxTag(id).None? ==>
                  var r := old(AlbumRecord(album, opts, fname, AuxBase(n, id) + ext));
                  && outcome == Done
                  && album.oldFiles == old(album.oldFiles)[fname := r.name]
                  && album.newFiles == old(album.newFiles)[r.name := fname]
                  && msgs.Snapshot() == old(msgs.Snapshot()).Then(r.lines)))
  {
    var discnum := DiscInName(fname, ext);
    if discnum !in album.discs {
      msgs.Error(DiscNotFound(discnum, attrib, fname));
      return Done;
    }
    var id := album.discs[discnum].identical;
    var missing := MissingAuxTag(id);
    if missing.Some? {
      return Raised(KeyError(missing.value));
    }
    var newName := AuxBase(discnum, id) + ext;
    RecordFileToProcess(album, opts, fname, newName, msgs);
    outcome := Done;
  }
}

/** `check_leading_the(disc)`: values of the artist, album artist and
    composer tags that start with "The " (in any case), gathered by value with
    the tags and tracks that carry them, and reported once per value. */
module LeadingArticle {
  import opened Text
  import opened MessageSink
  import opened Hierarchy
  import opened Sorting
  import opened TagCatalog
  import opened DiscScan
  import opened TrackRanges

  /** The `error_items` dictionary: its keys in insertion order, and for each
      bad value the set of tags and the set of track numbers it was seen in. */
  datatype Items = Items(keys: seq<string>, entries: map<string, (set<string>, set<int>)>)
  {
    ghost predicate Valid()
    {
      Distinct(keys) && forall v :: v in entries <==> v in keys
    }
  }

  function NoItems(): (it: Items)
    ensures it.Valid() && it.entries == map[]
  {
    Items([], map[])
  }

  /** The tags recorded for `v`, none when it is not a key. */
  function TagsOf(it: Items, v: string): set<string>
  {
    if v in it.entries then it.entries[v].0 else {}
  }

  /** The tracks recorded for `v`, none when it is not a key. */
  function TracksOf(it: Items, v: string): set<int>
  {
    if v in it.entries then it.entries[v].1 else {}
  }

  /** The test on a value: its first four characters, lower-cased, are
      "the ". */
  predicate StartsThe(v: string)
  {
    Lower(Take(v, 4)) == "the "
  }

  /** `record_error_item(tag, v, ns)`: `v` gains `tag` and the tracks `ns`,
      becoming a new key at the end when it was not one. */
  function Record(it: Items, tag: string, v: string, ns: set<int>): (r: Items)
    requires it.Valid()
    ensures r.Valid()
    ensures forall w :: w in r.entries <==> w in it.entries || w == v
    ensures forall w :: TagsOf(r, w) == TagsOf(it, w) + (if w == v then {tag} else {})
    ensures forall w :: TracksOf(r, w) == TracksOf(it, w) + (if w == v then ns else {})
  {
    if v in it.entries then Items(it.keys, it.entries[v := (it.entries[v].0 + {tag}, it.entries[v].1 + ns)])
    else Items(it.keys + [v], it.entries[v := ({tag}, ns)])
  }

  /** The values a track's tag holds; none when it lacks the tag (the loop
      runs over `track.get(tag, '')`). */
  function Vals(t: Track, tag: string): seq<string>
  {
    if tag in t.tags then t.tags[tag] else []
  }

  /** The loop over the values `vals` of `tag`: each starting with "The " is
      recorded with the tracks `ns`. */
  function RecordAll(it: Items, tag: string, vals: seq<string>, ns: set<int>): (r: Items)
    requires it.Valid()
    ensures r.Valid()
  {
    if vals == [] then it
    else
      var prev := RecordAll(it, tag, vals[..|vals| - 1], ns);
      var v := vals[|vals| - 1];
      if StartsThe(v) then Record(prev, tag, v, ns) else prev
  }

  /** The loop over the disc's tracks for a tag the tracks do not share. */
  function PerTrack(it: Items, tag: string, tracks: map<int, Track>, order: seq<int>): (r: Items)
    requires it.Valid() && Listed(tracks, order)
    ensures r.Valid()
  {
    if order == [] then it
    else
      var last := order[|order| - 1];
      assert last in order;
      RecordAll(PerTrack(it, tag, tracks, order[..|order| - 1]), tag, Vals(tracks[last], tag), {last})
  }

  /** One turn of the loop over the tags: the identical values, recorded
      with every track, when the disc's tracks share the tag; else each
      track's own values. */
  function ForTag(it: Items, tag: string, identical: Track, tracks: map<int, Track>, order: seq<int>): (r: Items)
    requires it.Valid() && Listed(tracks, order)
    ensures r.Valid()
  {
    if tag in identical.tags then RecordAll(it, tag, identical.tags[tag], tracks.Keys)
    else PerTrack(it, tag, tracks, order)
  }

  /** The loop over the tags `tags`, in order. */
  function ForTags(identical: Track, tracks: map<int, Track>, order: seq<int>, tags: seq<string>): (r: Items)
    requires Listed(tracks, order)
    ensures r.Valid()
  {
    if tags == [] then NoItems()
    else ForTag(ForTags(identical, tracks, order, tags[..|tags| - 1]), tags[|tags| - 1], identical, tracks, order)
  }

  /** The dictionary `check_leading_the` builds. */
  function LeadingItems(identical: Track, tracks: map<int, Track>, order: seq<int>): (r: Items)
    requires Listed(tracks, order)
    ensures r.Valid()
  {
    ForTags(identical, tracks, order, LeadingTheTags)
  }

  // ------------------------------------------------------------ meaning

  /** `v` is a bad value of `tag` on the disc: it starts with "The " and is
      among the shared values of the tag, or among some listed track's
      values when the tag is not shared. */
  predicate Flagged(identical: Track, tracks: map<int, Track>, order: seq<int>, tag: string, v: string)
    requires Listed(tracks, order)
  {
    && StartsThe(v)
    && if tag in identical.tags then v in identical.tags[tag]
       else exists n :: n in order && v in Vals(tracks[n], tag)
  }

  /** Track `n` is blamed for the bad value `v` of `tag`: every track of the
      disc is, when the value is shared; else only a track holding it. */
  predicate FlaggedOn(identical: Track, tracks: map<int, Track>, order: seq<int>, tag: string, v: string, n: int)
    requires Listed(tracks, order)
  {
    && StartsThe(v)
    && if tag in identical.tags then v in identical.tags[tag] && n in tracks
       else n in order && v in Vals(tracks[n], tag)
  }

  lemma {:induction false} RecordAllMeaning(it: Items, tag: string, vals: seq<string>, ns: set<int>, v: string, t: string, n: int)
    requires it.Valid()
    ensures v in RecordAll(it, tag, vals, ns).entries <==> v in it.entries || (v in vals && StartsThe(v))
    ensures t in TagsOf(RecordAll(it, tag, vals, ns), v) <==> t in TagsOf(it, v) || (t == tag && v in vals && StartsThe(v))
    ensures n in TracksOf(RecordAll(it, tag, vals, ns), v) <==> n in TracksOf(it, v) || (n in ns && v in vals && StartsThe(v))
  {
    if vals != [] {
      var init := vals[..|vals| - 1];
      RecordAllMeaning(it, tag, init, ns, v, t, n);
      assert vals == init + [vals[|vals| - 1]];
    }
  }

  lemma {:induction false} PerTrackMeaning(it: Items, tag: string, tracks: map<int, Track>, order: seq<int>, v: string, t: string, n: int)
    requires it.Valid() && Listed(tracks, order)
    ensures v in PerTrack(it, tag, tracks, order).entries <==>
      v in it.entries || (StartsThe(v) && exists m :: m in order && v in Vals(tracks[m], tag))
    ensures t in TagsOf(PerTrack(it, tag, tracks, order), v) <==>
      t in TagsOf(it, v) || (t == tag && StartsThe(v) && exists m :: m in order && v in Vals(tracks[m], tag))
    ensures n in TracksOf(PerTrack(it, tag, tracks, order), v) <==>
      n in TracksOf(it, v) || (StartsThe(v) && n in order && v in Vals(tracks[n], tag))
  {
    if order != [] {
      var init := order[..|order| - 1];
      var last := order[|order| - 1];
      assert order == init + [last];
      assert last in order;
      var prev := PerTrack(it, tag, tracks, init);
      PerTrackMeaning(it, tag, tracks, init, v, t, n);
      RecordAllMeaning(prev, tag, Vals(tracks[last], tag), {last}, v, t, n);
      if exists m :: m in order && v in Vals(tracks[m], tag) {
        var m :| m in order && v in Vals(tracks[m], tag);
        assert m in init || m == last;
      }
    }
  }

  lemma ForTagMeaning(it: Items, tag: string, identical: Track, tracks: map<int, Track>, order: seq<int>, v: string, t: string, n: int)
    requires it.Valid() && Listed(tracks, order)
    ensures v in ForTag(it, tag, identical, tracks, order).entries <==>
      v in it.entries || Flagged(identical, tracks, order, tag, v)
    ensures t in TagsOf(ForTag(it, tag, identical, tracks, order), v) <==>
      t in TagsOf(it, v) || (t == tag && Flagged(identical, tracks, order, tag, v))
    ensures n in TracksOf(ForTag(it, tag, identical, tracks, order), v) <==>
      n in TracksOf(it, v) || FlaggedOn(identical, tracks, order, tag, v, n)
  {
    if tag in identical.tags {
      RecordAllMeaning(it, tag, identical.tags[tag], tracks.Keys, v, t, n);
    } else {
      PerTrackMeaning(it, tag, tracks, order, v, t, n);
    }
  }

  /** After the loop over `tags`: a value is a key exactly when some tag
      flags it, its tags are exactly the tags that flag it, and its tracks
      exactly the tracks some tag blames for it. */
  lemma ForTagsMeaning(identical: Track, tracks: map<int, Track>, order: seq<int>, tags: seq<string>, v: string, t: string, n: int)
    requires Listed(tracks, order)
    ensures v in ForTags(identical, tracks, order, tags).entries <==>
      exists u :: u in tags && Flagged(identical, tracks, order, u, v)
    ensures t in TagsOf(ForTags(identical, tracks, order, tags), v) <==>
      t in tags && Flagged(identical, tracks, order, t, v)
    ensures n in TracksOf(ForTags(identical, tracks, order, tags), v) <==>
      exists u :: u in tags && FlaggedOn(identical, tracks, order, u, v, n)
  {
    ForTagsKeys(identical, tracks, order, tags, v);
    ForTagsTags(identical, tracks, order, tags, v, t);
    ForTagsTracks(identical, tracks, order, tags, v, n);
  }

  lemma {:induction false} ForTagsKeys(identical: Track, tracks: map<int, Track>, order: seq<int>, tags: seq<string>, v: string)
    requires Listed(tracks, order)
    ensures v in ForTags(identical, tracks, order, tags).entries <==>
      exists u :: u in tags && Flagged(identical, tracks, order, u, v)
  {
    if tags != [] {
      var init := tags[..|tags| - 1];
      var last := tags[|tags| - 1];
      assert tags == init + [last];
      ForTagsKeys(identical, tracks, order, init, v);
      ForTagMeaning(ForTags(identical, tracks, order, init), last, identical, tracks, order, v, "", 0);
      if exists u :: u in tags && Flagged(identical, tracks, order, u, v) {
        var u :| u in tags && Flagged(identical, tracks, order, u, v);
        assert u in init || u == last;
      }
    }
  }

  lemma {:induction false} ForTagsTags(identical: Track, tracks: map<int, Track>, order: seq<int>, tags: seq<string>, v: string, t: string)
    requires Listed(tracks, order)
    ensures t in TagsOf(ForTags(identical, tracks, order, tags), v) <==>
      t in tags && Flagged(identical, tracks, order, t, v)
  {
    if tags != [] {
      var init := tags[..|tags| - 1];
      var last := tags[|tags| - 1];
      assert tags == init + [last];
      ForTagsTags(identical, tracks, order, init, v, t);
      ForTagMeaning(ForTags(identical, tracks, order, init), last, identical, tracks, order, v, t, 0);
    }
  }

  lemma {:induction false} ForTagsTracks(identical: Track, tracks: map<int, Track>, order: seq<int>, tags: seq<string>, v: string, n: int)
    requires Listed(tracks, order)
    ensures n in TracksOf(ForTags(identical, tracks, order, tags), v) <==>
      exists u :: u in tags && FlaggedOn(identical, tracks, order, u, v, n)
  {
    if tags != [] {
      var init := tags[..|tags| - 1];
      var last := tags[|tags| - 1];
      assert tags == init + [last];
      ForTagsTracks(identical, tracks, order, init, v, n);
      ForTagMeaning(ForTags(identical, tracks, order, init), last, identical, tracks, order, v, "", n);
      if exists u :: u in tags && FlaggedOn(identical, tracks, order, u, v, n) {
        var u :| u in tags && FlaggedOn(identical, tracks, order, u, v, n);
        assert u in init || u == last;
      }
    }
  }

  // ------------------------------------------------------------ report

  /** The line for the bad value `v`: the value, the suggested
      "rest, The" form, the tags, and the lower-cased track list. */
  ghost function LeadingLine(it: Items, v: string, count: int): Diag
    requires v in it.entries
  {
    LeadingThe(v, Drop(v, 4) + ", " + Take(v, 3), it.entries[v].0,
      Lower(TrackListText(SetToSorted(it.entries[v].1, IntLess), count)))
  }

  /** One line per key of the dictionary, in insertion order. */
  ghost function LeadingLines(it: Items, count: int): (ds: seq<Diag>)
    requires it.Valid()
    ensures |ds| == |it.keys|
  {
    seq(|it.keys|, i requires 0 <= i < |it.keys| => LeadingLine(it, it.keys[i], count))
  }

  /** What `check_leading_the(disc)` reports. */
  ghost function LeadingTheLines(identical: Track, tracks: map<int, Track>, order: seq<int>): seq<Diag>
    requires Listed(tracks, order)
  {
    LeadingLines(LeadingItems(identical, tracks, order), |tracks|)
  }

  /** A value is reported exactly when one of the three tags flags it on
      the disc; its line lists exactly the tags that flag it and names
      exactly the tracks they blame; and every reported value starts with
      "The ". */
  lemma LeadingTheMeaning(identical: Track, tracks: map<int, Track>, order: seq<int>, i: int, t: string, n: int)
    requires Listed(tracks, order)
    requires 0 <= i < |LeadingItems(identical, tracks, order).keys|
    ensures var it := LeadingItems(identical, tracks, order);
      var v := it.keys[i];
      && v in it.entries
      && StartsThe(v)
      && (t in it.entries[v].0 <==> t in LeadingTheTags && Flagged(identical, tracks, order, t, v))
      && (n in it.entries[v].1 <==> exists u :: u in LeadingTheTags && FlaggedOn(identical, tracks, order, u, v, n))
      && LeadingTheLines(identical, tracks, order)[i] == LeadingLine(it, v, |tracks|)
  {
    var it := LeadingItems(identical, tracks, order);
    var v := it.keys[i];
    ForTagsMeaning(identical, tracks, order, LeadingTheTags, v, t, n);
    var u :| u in LeadingTheTags && Flagged(identical, tracks, order, u, v);
  }

  /** Every value some tag flags is reported. */
  lemma LeadingTheComplete(identical: Track, tracks: map<int, Track>, order: seq<int>, tag: string, v: string)
    requires Listed(tracks, order)
    requires tag in LeadingTheTags && Flagged(identical, tracks, order, tag, v)
    ensures v in LeadingItems(identical, tracks, order).keys
  {
    ForTagsMeaning(identical, tracks, order, LeadingTheTags, v, tag, 0);
  }

  /** The example of the check's own comment: "The Beatles" as the shared
      artist is reported with the suggestion "Beatles, The". */
  lemma BeatlesSuggestion()
    ensures Drop("The Beatles", 4) + ", " + Take("The Beatles", 3) == "Beatles, The"
    ensures StartsThe("The Beatles") && !StartsThe("Beatles, The")
  {
    assert Take("The Beatles", 4) == "The ";
    assert Lower("The ") == "the ";
    assert Take("Beatles, The", 4) == "Beat";
    assert Lower("Beat")[0] == 'b';
  }

  // ------------------------------------------------------------ methods

  /** The loop over the values `vals` of `tag`. */
  method RecordValues(it: Items, tag: string, vals: seq<string>, ns: set<int>) returns (r: Items)
    requires it.Valid()
    ensures r == RecordAll(it, tag, vals, ns)
  {
    r := it;
    var j := 0;
    while j < |vals|
      invariant 0 <= j <= |vals|
      invariant r == RecordAll(it, tag, vals[..j], ns)
    {
      assert vals[..j + 1][..j] == vals[..j];
      var v := vals[j];
      if Lower(Take(v, 4)) == "the " {
        r := Record(r, tag, v, ns);
      }
      j := j + 1;
    }
    assert vals[..j] == vals;
  }

  /** The loop over the disc's tracks for a tag they do not share. */
  method RecordTracks(it: Items, tag: string, disc: Disc) returns (r: Items)
    requires it.Valid() && Listed(disc.tracks, disc.order)
    ensures r == PerTrack(it, tag, disc.tracks, disc.order)
  {
    r := it;
    assert disc.order[..0] == [];
    var i := 0;
    while i < |disc.order|
      invariant 0 <= i <= |disc.order|
      invariant r == PerTrack(it, tag, disc.tracks, disc.order[..i])
    {
      ListedAt(disc.tracks, disc.order, i);
      var n := disc.order[i];
      assert disc.order[..i + 1][..i] == disc.order[..i];
      r := RecordValues(r, tag, Vals(disc.tracks[n], tag), {n});
      i := i + 1;
    }
    assert disc.order[..i] == disc.order;
  }

  /** The loop over the three tags, building `error_items`. */
  method CollectItems(disc: Disc) returns (it: Items)
    requires Listed(disc.tracks, disc.order)
    ensures it == LeadingItems(disc.identical, disc.tracks, disc.order)
  {
    var tags := LeadingTheTags;
    it := NoItems();
    var k := 0;
    while k < |tags|
      invariant 0 <= k <= |tags|
      invariant it == ForTags(disc.identical, disc.tracks, disc.order, tags[..k])
    {
      assert tags[..k + 1][..k] == tags[..k];
      var tag := tags[k];
      if tag in disc.identical.tags {
        it := RecordValues(it, tag, disc.identical.tags[tag], disc.tracks.Keys);
      } else {
        it := RecordTracks(it, tag, disc);
      }
      k := k + 1;
    }
    assert tags[..k] == tags;
  }

  /** The line for one key, with its tracks sorted. */
  method LineFor(it: Items, v: string, count: int) returns (d: Diag)
    requires v in it.entries
    ensures d == LeadingLine(it, v, count)
  {
    IntLessIsTotal();
    var tracks := SortedElements(it.entries[v].1, IntLess);
    var scope := TrackList(tracks, count);
    d := LeadingThe(v, Drop(v, 4) + ", " + Take(v, 3), it.entries[v].0, Lower(scope));
  }

  /** `check_leading_the(disc)`. */
  method CheckLeadingThe(disc: Disc, msgs: Messages)
    requires Listed(disc.tracks, disc.order)
    modifies msgs
    ensures msgs.Snapshot() == old(msgs.Snapshot()).Then(Errors(LeadingTheLines(disc.identical, disc.tracks, disc.order)))
  {
    var it := CollectItems(disc);
    var ds := ReportLines(it, |disc.tracks|);
    msgs.Record(Errors(ds));
  }

  /** The lines of the report, one per key in insertion order. */
  method ReportLines(it: Items, count: int) returns (ds: seq<Diag>)
    requires it.Valid()
    ensures ds == LeadingLines(it, count)
  {
    var keys := it.keys;
    ds := [];
    var i := 0;
    while i < |keys|
      invariant 0 <= i <= |keys| == |it.keys|
      invariant ds == LeadingLines(it, count)[..i]
    {
      LeadingLineAt(it, count, i);
      var d := LineFor(it, keys[i], count);
      PrefixSnoc(LeadingLines(it, count), i, ds, d);
      ds := ds + [d];
      i := i + 1;
    }
    assert LeadingLines(it, count)[..i] == LeadingLines(it, count);
  }

  /** Appending element `i` to the first `i` elements gives the first
      `i + 1`. */
  lemma PrefixSnoc<T>(all: seq<T>, i: int, ds: seq<T>, d: T)
    requires 0 <= i < |all| && ds == all[..i] && d == all[i]
    ensures ds + [d] == all[..i + 1]
  {
  }

  /** Line `i` is the line of the `i`-th key. */
  lemma LeadingLineAt(it: Items, count: int, i: int)
    requires it.Valid() && 0 <= i < |it.keys|
    ensures it.keys[i] in it.entries
    ensures LeadingLines(it, count)[i] == LeadingLine(it, it.keys[i], count)
  {
  }
}

/** What the album-level `common` and `identical` mean in terms of the
    tracks of every disc, and `find_identical_album_tags` as it is written,
    whose album-level turn forgets to delete the dictionary keys of the tags
    it drops from `tagset`. */
module AlbumAggregates {
  import opened Hierarchy
  import opened Aggregation

  /** Every track listed in `order` holds tag `k`. */
  predicate EveryTrackHolds(tracks: map<int, Track>, order: seq<int>, k: string)
  {
    forall n :: n in order ==> n in tracks && k in tracks[n].tagset
  }

  /** Every track listed in `order` holds tag `k` with values `v`. */
  predicate EveryTrackHas(tracks: map<int, Track>, order: seq<int>, k: string, v: seq<string>)
  {
    forall n :: n in order ==> n in tracks && k in tracks[n].tags && tracks[n].tags[k] == v
  }

  /** The first track of a disc, the one `find_identical_disc_tags` copies. */
  function FirstTrack(disc: Disc): (t: Track)
    requires Ready(disc)
    reads disc`order, disc`tracks
    ensures disc.order[0] in disc.tracks && t == disc.tracks[disc.order[0]]
  {
    assert forall n :: n in disc.order ==> n in disc.tracks;
    assert disc.order[0] in disc.order;
    disc.tracks[disc.order[0]]
  }

  /** A tag is common to the album exactly when every track of every disc
      holds it. */
  lemma CommonAcrossIff(ds: seq<Disc>, k: string)
    requires |ds| > 0 && forall j :: 0 <= j < |ds| ==> CommonSet(ds[j])
    ensures k in CommonOf(CommonsOf(ds)) <==>
      forall j :: 0 <= j < |ds| ==> EveryTrackHolds(ds[j].tracks, ds[j].order, k)
  {
    var commons := CommonsOf(ds);
    CommonOfIff(commons, k);
    forall j | 0 <= j < |ds|
      ensures k in commons[j] <==> EveryTrackHolds(ds[j].tracks, ds[j].order, k)
    {
      DiscCommonIff(ds[j].tracks, ds[j].order, k);
    }
  }

  /** The disc-level meaning in terms of `EveryTrackHas`. */
  lemma DiscIdenticalHas(disc: Disc, k: string)
    requires IdenticalSet(disc)
    ensures k in disc.identical.tags <==>
      k in FirstTrack(disc).tags && EveryTrackHas(disc.tracks, disc.order, k, FirstTrack(disc).tags[k])
    ensures k in disc.identical.tags ==> disc.identical.tags[k] == FirstTrack(disc).tags[k]
  {
    DiscIdenticalIff(disc.tracks, disc.order, k);
  }

  /** When every track of a disc holds `k` with values `v`, so does the
      disc's `identical`. */
  lemma DiscIdenticalFromTracks(disc: Disc, k: string, v: seq<string>)
    requires IdenticalSet(disc) && EveryTrackHas(disc.tracks, disc.order, k, v)
    ensures k in disc.identical.tags && disc.identical.tags[k] == v
  {
    var f := FirstTrack(disc);
    var n := disc.order[0];
    assert n in disc.order;
    assert n in disc.tracks && k in disc.tracks[n].tags && disc.tracks[n].tags[k] == v;
    assert f == disc.tracks[n];
    DiscIdenticalHas(disc, k);
  }

  /** When the disc's `identical` holds `k`, every track of it holds `k`
      with the same values. */
  lemma TracksFromDiscIdentical(disc: Disc, k: string)
    requires IdenticalSet(disc) && k in disc.identical.tags
    ensures EveryTrackHas(disc.tracks, disc.order, k, disc.identical.tags[k])
  {
    DiscIdenticalHas(disc, k);
  }

  /** The discs' `identical` tracks are keyed, and each is what its disc's
      loop computes. */
  lemma IdenticalsKeyed(ds: seq<Disc>)
    requires forall j :: 0 <= j < |ds| ==> IdenticalSet(ds[j])
    ensures forall j :: 0 <= j < |ds| ==> Keyed(IdenticalsOf(ds)[j]) && IdenticalsOf(ds)[j] == ds[j].identical
  {
  }

  /** A tag is identical across the album exactly when every track of every
      disc holds it with the values of the first disc's first track, and it
      then keeps those values. */
  lemma IdenticalAcrossIff(ds: seq<Disc>, k: string)
    requires |ds| > 0 && forall j :: 0 <= j < |ds| ==> IdenticalSet(ds[j])
    ensures (IdenticalsKeyed(ds); k in IdenticalOf(IdenticalsOf(ds)).tags <==>
      k in FirstTrack(ds[0]).tags &&
      forall j :: 0 <= j < |ds| ==> EveryTrackHas(ds[j].tracks, ds[j].order, k, FirstTrack(ds[0]).tags[k]))
    ensures (IdenticalsKeyed(ds); k in IdenticalOf(IdenticalsOf(ds)).tags ==>
      IdenticalOf(IdenticalsOf(ds)).tags[k] == FirstTrack(ds[0]).tags[k])
  {
    IdenticalsKeyed(ds);
    var ids := IdenticalsOf(ds);
    IdenticalOfIff(ids, k);
    var first := FirstTrack(ds[0]);
    DiscIdenticalHas(ds[0], k);
    if k in first.tags {
      var v := first.tags[k];
      if forall j :: 0 <= j < |ds| ==> EveryTrackHas(ds[j].tracks, ds[j].order, k, v) {
        forall j | 0 <= j < |ds|
          ensures k in ids[j].tags && ids[j].tags[k] == v
        {
          DiscIdenticalFromTracks(ds[j], k, v);
        }
      }
      if k in ids[0].tags && forall j :: 0 <= j < |ds| ==> k in ids[j].tags && ids[j].tags[k] == ids[0].tags[k] {
        forall j | 0 <= j < |ds|
          ensures EveryTrackHas(ds[j].tracks, ds[j].order, k, v)
        {
          TracksFromDiscIdentical(ds[j], k);
        }
      }
    }
  }

  lemma HasImpliesHolds(tracks: map<int, Track>, order: seq<int>, k: string, v: seq<string>)
    requires forall n :: n in tracks ==> Keyed(tracks[n])
    requires EveryTrackHas(tracks, order, k, v)
    ensures EveryTrackHolds(tracks, order, k)
  {
  }

  /** Every album-identical tag is an album-common tag. */
  lemma IdenticalWithinCommon(ds: seq<Disc>)
    requires |ds| > 0 && forall j :: 0 <= j < |ds| ==> CommonSet(ds[j]) && IdenticalSet(ds[j])
    ensures (IdenticalsKeyed(ds); IdenticalOf(IdenticalsOf(ds)).tagset <= CommonOf(CommonsOf(ds)))
  {
    IdenticalsKeyed(ds);
    forall k | k in IdenticalOf(IdenticalsOf(ds)).tagset
      ensures k in CommonOf(CommonsOf(ds))
    {
      IdenticalAcrossIff(ds, k);
      CommonAcrossIff(ds, k);
      var v := FirstTrack(ds[0]).tags[k];
      forall j | 0 <= j < |ds|
        ensures EveryTrackHolds(ds[j].tracks, ds[j].order, k)
      {
        HasImpliesHolds(ds[j].tracks, ds[j].order, k, v);
      }
    }
  }

  /** A later turn of `find_identical_album_tags` as written: `tagset` is
      narrowed to the disc's, then the tags whose values differ are deleted
      from both; the keys of the tags the disc lacks are left in place. */
  function AlbumStepAsWritten(id: Track, t: Track): (r: Track)
    requires id.tagset <= id.tags.Keys && Keyed(t)
    ensures r.tagset <= r.tags.Keys
    ensures r.tagset <= id.tagset && r.tagset <= t.tagset
  {
    var shared := id.tagset * t.tagset;
    var different := set k | k in shared && id.tags[k] != t.tags[k];
    Track(id.tags - different, shared - different, id.file)
  }

  /** The album-level fold as written, over the discs' `identical` tracks. */
  function IdenticalAsWritten(ids: seq<Track>): (r: Track)
    requires |ids| > 0 && forall i :: 0 <= i < |ids| ==> Keyed(ids[i])
    ensures r.tagset <= r.tags.Keys
  {
    if |ids| == 1 then Copy(ids[0])
    else AlbumStepAsWritten(IdenticalAsWritten(ids[..|ids| - 1]), ids[|ids| - 1])
  }

  /** The code as written and the corrected fold agree on `tagset` and on
      the values of the tags in it: the written version only carries extra
      stale keys, so its `tagset` is the authoritative part. */
  lemma {:induction false} AsWrittenAgrees(ids: seq<Track>)
    requires |ids| > 0 && forall i :: 0 <= i < |ids| ==> Keyed(ids[i])
    ensures IdenticalAsWritten(ids).tagset == IdenticalOf(ids).tagset
    ensures forall k :: k in IdenticalOf(ids).tags ==>
      k in IdenticalAsWritten(ids).tags && IdenticalAsWritten(ids).tags[k] == IdenticalOf(ids).tags[k]
  {
    if |ids| > 1 {
      var init := ids[..|ids| - 1];
      AsWrittenAgrees(init);
      var aw, id, t := IdenticalAsWritten(init), IdenticalOf(init), ids[|ids| - 1];
      var shared := id.tagset * t.tagset;
      assert (set k | k in shared && aw.tags[k] != t.tags[k]) == (set k | k in shared && id.tags[k] != t.tags[k]);
    }
  }

  /** Disc 1 has "albumartist" = X on both tracks; disc 2 has it on both
      tracks too, but with X and Y. The tag is common to the album, so the
      "not present in all tracks" test lets it through, and the written
      fold still holds it as a key, so the "not identical" test, which looks
      at keys, lets it through as well; the corrected fold drops it. */
  lemma StaleKeyExample()
    ensures var x, y := NewTrack(map["albumartist" := ["X"]], "1.flac"), NewTrack(map["albumartist" := ["Y"]], "2.flac");
      var disc1, disc2 := map[1 := x, 2 := x], map[1 := x, 2 := y];
      var ids := [DiscIdentical(disc1, [1, 2]), DiscIdentical(disc2, [1, 2])];
      && "albumartist" in CommonOf([DiscCommon(disc1, [1, 2]), DiscCommon(disc2, [1, 2])])
      && "albumartist" in IdenticalAsWritten(ids).tags
      && "albumartist" !in IdenticalAsWritten(ids).tagset
      && "albumartist" !in IdenticalOf(ids).tags
  {
    var x, y := NewTrack(map["albumartist" := ["X"]], "1.flac"), NewTrack(map["albumartist" := ["Y"]], "2.flac");
    var disc1, disc2 := map[1 := x, 2 := x], map[1 := x, 2 := y];
    DiscIdenticalIff(disc1, [1, 2], "albumartist");
    DiscIdenticalIff(disc2, [1, 2], "albumartist");
    var ids := [DiscIdentical(disc1, [1, 2]), DiscIdentical(disc2, [1, 2])];
    assert "albumartist" !in ids[1].tagset;
    IdenticalOfIff(ids, "albumartist");
    assert [1, 2][..1] == [1];
  }
}

/** `find_common_*_tags` and `find_identical_*_tags`: the tags present in
    every track of a disc or album, and the tags whose values are the same in
    every track, computed by folding over the tracks (or the discs) in
    iteration order, starting from the first one. */
module Aggregation {
  import opened Wrappers
  import opened Hierarchy

  /** The tagsets of `ts`, in order. */
  function Tagsets(ts: seq<Track>): (r: seq<set<string>>)
    ensures |r| == |ts| && forall i :: 0 <= i < |ts| ==> r[i] == ts[i].tagset
  {
    seq(|ts|, i requires 0 <= i < |ts| => ts[i].tagset)
  }

  /** `common = first.copy()`, then `common &= next` for each later set. */
  function CommonOf(sets: seq<set<string>>): set<string>
    requires |sets| > 0
  {
    if |sets| == 1 then sets[0] else CommonOf(sets[..|sets| - 1]) * sets[|sets| - 1]
  }

  /** A tag is common exactly when every set holds it. */
  lemma {:induction false} CommonOfIff(sets: seq<set<string>>, k: string)
    requires |sets| > 0
    ensures k in CommonOf(sets) <==> forall i :: 0 <= i < |sets| ==> k in sets[i]
  {
    if |sets| > 1 {
      var init := sets[..|sets| - 1];
      CommonOfIff(init, k);
      assert forall i :: 0 <= i < |init| ==> init[i] == sets[i];
    }
  }

  /** The common tags of the discs' common tags are the tags every track of
      every disc holds. */
  lemma CommonOfCommons(discs: seq<seq<set<string>>>, k: string)
    requires |discs| > 0 && forall i :: 0 <= i < |discs| ==> |discs[i]| > 0
    ensures k in CommonOf(seq(|discs|, i requires 0 <= i < |discs| => CommonOf(discs[i])))
      <==> forall i, j :: 0 <= i < |discs| && 0 <= j < |discs[i]| ==> k in discs[i][j]
  {
    var commons := seq(|discs|, i requires 0 <= i < |discs| => CommonOf(discs[i]));
    CommonOfIff(commons, k);
    forall i | 0 <= i < |discs| ensures k in commons[i] <==> forall j :: 0 <= j < |discs[i]| ==> k in discs[i][j] {
      CommonOfIff(discs[i], k);
    }
  }

  /** What `find_common_disc_tags` leaves in `common` for the tracks of a
      disc visited in `order`. */
  function DiscCommon(tracks: map<int, Track>, order: seq<int>): set<string>
    requires |order| > 0 && forall n :: n in order ==> n in tracks
  {
    var last := order[|order| - 1];
    assert last in order;
    if |order| == 1 then tracks[last].tagset
    else DiscCommon(tracks, order[..|order| - 1]) * tracks[last].tagset
  }

  /** A tag is common to a disc exactly when every track in `order` holds
      it. */
  lemma {:induction false} DiscCommonIff(tracks: map<int, Track>, order: seq<int>, k: string)
    requires |order| > 0 && forall n :: n in order ==> n in tracks
    ensures k in DiscCommon(tracks, order) <==> forall n :: n in order ==> k in tracks[n].tagset
  {
    if |order| > 1 {
      var init := order[..|order| - 1];
      DiscCommonIff(tracks, init, k);
      assert order == init + [order[|order| - 1]];
    }
  }

  /** `find_common_disc_tags(disc)`. */
  method FindCommonDiscTags(disc: Disc)
    requires |disc.order| > 0 && forall n :: n in disc.order ==> n in disc.tracks
    modifies disc`common
    ensures disc.common == DiscCommon(disc.tracks, disc.order)
  {
    var common: Option<set<string>> := None;
    var i := 0;
    while i < |disc.order|
      invariant 0 <= i <= |disc.order|
      invariant i == 0 <==> common.None?
      invariant i > 0 ==> common == Some(DiscCommon(disc.tracks, disc.order[..i]))
    {
      var n := disc.order[i];
      assert n in disc.order;
      var track := disc.tracks[n];
      assert disc.order[..i + 1][..i] == disc.order[..i];
      if common.None? {
        common := Some(track.tagset);
      } else {
        common := Some(common.value * track.tagset);
      }
      i := i + 1;
    }
    assert disc.order[..i] == disc.order;
    disc.common := common.value;
  }

  /** A track whose set of names is exactly its dictionary's keys, as every
      `Track(...)` is when built. */
  predicate Keyed(t: Track)
  {
    t.tagset == t.tags.Keys
  }

  /** One later turn of `find_identical_disc_tags`: the tags `t` lacks are
      deleted, then those whose values differ from `t`'s. */
  function DiscStep(id: Track, t: Track): (r: Track)
    requires Keyed(id) && Keyed(t)
    ensures Keyed(r)
  {
    var shared := id.tagset * t.tagset;
    var different := set k | k in shared && id.tags[k] != t.tags[k];
    Track(map k | k in shared && k !in different :: id.tags[k], shared - different, id.file)
  }

  /** A tag survives a later turn exactly when both tracks hold it with the
      same values, and it keeps its value. */
  lemma DiscStepKeeps(id: Track, t: Track, k: string)
    requires Keyed(id) && Keyed(t)
    ensures k in DiscStep(id, t).tags <==> k in id.tags && k in t.tags && id.tags[k] == t.tags[k]
    ensures k in DiscStep(id, t).tags ==> DiscStep(id, t).tags[k] == id.tags[k]
  {
  }

  /** `Track(track.copy())`: a fresh track with the same tags and no file. */
  function Copy(t: Track): (r: Track)
    ensures Keyed(r) && r.tags == t.tags
  {
    Track(t.tags, t.tags.Keys, "")
  }

  /** What `find_identical_disc_tags` leaves in `identical` for tracks `ts`,
      visited in order. */
  function IdenticalOf(ts: seq<Track>): (r: Track)
    requires |ts| > 0 && forall i :: 0 <= i < |ts| ==> Keyed(ts[i])
    ensures Keyed(r)
  {
    if |ts| == 1 then Copy(ts[0]) else DiscStep(IdenticalOf(ts[..|ts| - 1]), ts[|ts| - 1])
  }

  /** A tag is identical exactly when every track holds it with the first
      track's values (compared as lists, order included), and it then keeps
      those values. */
  lemma {:induction false} IdenticalOfIff(ts: seq<Track>, k: string)
    requires |ts| > 0 && forall i :: 0 <= i < |ts| ==> Keyed(ts[i])
    ensures k in IdenticalOf(ts).tags <==>
      k in ts[0].tags && forall i :: 0 <= i < |ts| ==> k in ts[i].tags && ts[i].tags[k] == ts[0].tags[k]
    ensures k in IdenticalOf(ts).tags ==> IdenticalOf(ts).tags[k] == ts[0].tags[k]
  {
    if |ts| > 1 {
      var init := ts[..|ts| - 1];
      IdenticalOfIff(init, k);
      DiscStepKeeps(IdenticalOf(init), ts[|ts| - 1], k);
      assert forall i :: 0 <= i < |init| ==> init[i] == ts[i];
    }
  }

  /** The identical tags are a part of every track's tags (never more), and
      hence among the common tags. */
  lemma IdenticalWithinEach(ts: seq<Track>)
    requires |ts| > 0 && forall i :: 0 <= i < |ts| ==> Keyed(ts[i])
    ensures forall i, k :: 0 <= i < |ts| && k in IdenticalOf(ts).tags ==>
      k in ts[i].tags && ts[i].tags[k] == IdenticalOf(ts).tags[k]
    ensures IdenticalOf(ts).tagset <= CommonOf(Tagsets(ts))
  {
    forall k | k in IdenticalOf(ts).tags
      ensures forall i :: 0 <= i < |ts| ==> k in ts[i].tags && ts[i].tags[k] == IdenticalOf(ts).tags[k]
      ensures k in CommonOf(Tagsets(ts))
    {
      IdenticalOfIff(ts, k);
      CommonOfIff(Tagsets(ts), k);
    }
  }

  /** The first loop of a later turn: `del identical[tag]` for each tag of
      `gone`. */
  method DeleteTags(tags: map<string, seq<string>>, gone: set<string>) returns (r: map<string, seq<string>>)
    requires gone <= tags.Keys
    ensures r == tags - gone
  {
    r := tags;
    var rest := gone;
    while rest != {}
      invariant rest <= gone
      invariant r == tags - (gone - rest)
      decreases |rest|
    {
      var tag :| tag in rest;
      r := r - {tag};
      rest := rest - {tag};
    }
  }

  /** The second loop of a later turn: every tag of `id.tagset` whose values
      differ from `t`'s is collected in `different` and deleted; then
      `identical.tagset -= different`. */
  method DropDifferent(id: Track, t: Track) returns (r: Track)
    requires id.tagset <= id.tags.Keys && id.tagset <= t.tags.Keys
    ensures r.tagset == id.tagset - (set k | k in id.tagset && id.tags[k] != t.tags[k])
    ensures r.tags == id.tags - (set k | k in id.tagset && id.tags[k] != t.tags[k])
    ensures r.file == id.file
  {
    var tags := id.tags;
    var different: set<string> := {};
    var rest := id.tagset;
    while rest != {}
      invariant rest <= id.tagset
      invariant different == set k | k in id.tagset - rest && id.tags[k] != t.tags[k]
      invariant tags == id.tags - different
      decreases |rest|
    {
      var tag :| tag in rest;
      if tags[tag] != t.tags[tag] {
        different := different + {tag};
        tags := tags - {tag};
      }
      rest := rest - {tag};
    }
    r := Track(tags, id.tagset - different, id.file);
  }

  /** A later turn of `find_identical_disc_tags`: the two loops over the
      tags and the update of `identical.tagset` between and after them. */
  method NarrowIdentical(prev: Track, track: Track) returns (id: Track)
    requires Keyed(prev) && Keyed(track)
    ensures id == DiscStep(prev, track)
  {
    var kept := DeleteTags(prev.tags, prev.tagset - track.tagset);
    id := Track(kept, prev.tagset * track.tagset, prev.file);
    id := DropDifferent(id, track);
    assert id.tags == DiscStep(prev, track).tags;
    assert id.tagset == DiscStep(prev, track).tagset;
  }

  /** What `find_identical_disc_tags` leaves in `identical` for the tracks
      of a disc visited in `order`. */
  function DiscIdentical(tracks: map<int, Track>, order: seq<int>): (r: Track)
    requires |order| > 0 && forall n :: n in order ==> n in tracks
    requires forall n :: n in tracks ==> Keyed(tracks[n])
    ensures Keyed(r)
  {
    var last := order[|order| - 1];
    assert last in order;
    if |order| == 1 then Copy(tracks[last])
    else DiscStep(DiscIdentical(tracks, order[..|order| - 1]), tracks[last])
  }

  /** A tag survives the disc-level loop exactly when every track of the
      disc has it with the first track's values, and it keeps those values. */
  lemma {:induction false} DiscIdenticalIff(tracks: map<int, Track>, order: seq<int>, k: string)
    requires |order| > 0 && forall n :: n in order ==> n in tracks
    requires forall n :: n in tracks ==> Keyed(tracks[n])
    requires order[0] in tracks
    ensures var first := tracks[order[0]];
      k in DiscIdentical(tracks, order).tags <==>
      k in first.tags && forall n :: n in order ==> k in tracks[n].tags && tracks[n].tags[k] == first.tags[k]
    ensures k in DiscIdentical(tracks, order).tags ==>
      DiscIdentical(tracks, order).tags[k] == tracks[order[0]].tags[k]
  {
    assert order[0] in order;
    if |order| > 1 {
      var init := order[..|order| - 1];
      assert init[0] == order[0];
      var last := order[|order| - 1];
      assert order == init + [last];
      assert last in order;
      DiscIdenticalIff(tracks, init, k);
      DiscStepKeeps(DiscIdentical(tracks, init), tracks[last], k);
    }
  }

  /** `find_identical_disc_tags(disc)`. */
  method FindIdenticalDiscTags(disc: Disc)
    requires |disc.order| > 0 && forall n :: n in disc.order ==> n in disc.tracks
    requires forall n :: n in disc.tracks ==> Keyed(disc.tracks[n])
    modifies disc`identical
    ensures disc.identical == DiscIdentical(disc.tracks, disc.order)
  {
    var identical: Option<Track> := None;
    var i := 0;
    while i < |disc.order|
      invariant 0 <= i <= |disc.order|
      invariant i == 0 <==> identical.None?
      invariant i > 0 ==> identical == Some(DiscIdentical(disc.tracks, disc.order[..i]))
    {
      var n := disc.order[i];
      assert n in disc.order;
      var track := disc.tracks[n];
      assert disc.order[..i + 1][..i] == disc.order[..i];
      if identical.None? {
        identical := Some(Copy(track));
      } else {
        var id := NarrowIdentical(identical.value, track);
        identical := Some(id);
      }
      i := i + 1;
    }
    assert disc.order[..i] == disc.order;
    disc.identical := identical.value;
  }

  /** What the disc-level functions need of a disc: at least one track, the
      listed track numbers all filed, and every track keyed. */
  predicate Ready(disc: Disc)
    reads disc`order, disc`tracks
  {
    && |disc.order| > 0
    && (forall n :: n in disc.order ==> n in disc.tracks)
    && (forall n :: n in disc.tracks ==> Keyed(disc.tracks[n]))
  }

  /** `disc.common` holds what `find_common_disc_tags` computes. */
  predicate CommonSet(disc: Disc)
    reads disc`order, disc`tracks, disc`common
  {
    Ready(disc) && disc.common == DiscCommon(disc.tracks, disc.order)
  }

  /** `disc.identical` holds what `find_identical_disc_tags` computes. */
  predicate IdenticalSet(disc: Disc)
    reads disc`order, disc`tracks, disc`identical
  {
    Ready(disc) && disc.identical == DiscIdentical(disc.tracks, disc.order)
  }

  /** Every disc the album lists is filed and ready. */
  predicate AlbumReady(album: Album)
    reads album`order, album`discs, album.discs.Values`order, album.discs.Values`tracks
  {
    && (forall k :: 0 <= k < |album.order| ==> album.order[k] in album.discs)
    && (forall k :: 0 <= k < |album.order| ==> Ready(album.discs[album.order[k]]))
  }

  /** The disc objects listed in `order`. */
  function DiscsInOrder(discs: map<int, Disc>, order: seq<int>): (ds: seq<Disc>)
    requires forall k :: 0 <= k < |order| ==> order[k] in discs
    ensures |ds| == |order| && forall k :: 0 <= k < |order| ==> ds[k] == discs[order[k]]
  {
    if order == [] then [] else DiscsInOrder(discs, order[..|order| - 1]) + [discs[order[|order| - 1]]]
  }

  /** The `common` sets of the discs `ds`, in order. */
  function CommonsOf(ds: seq<Disc>): (r: seq<set<string>>)
    reads (set d | d in ds)`common
    ensures |r| == |ds| && forall k :: 0 <= k < |ds| ==> r[k] == ds[k].common
  {
    if ds == [] then [] else CommonsOf(ds[..|ds| - 1]) + [ds[|ds| - 1].common]
  }

  /** The `identical` tracks of the discs `ds`, in order. */
  function IdenticalsOf(ds: seq<Disc>): (r: seq<Track>)
    reads (set d | d in ds)`identical
    ensures |r| == |ds| && forall k :: 0 <= k < |ds| ==> r[k] == ds[k].identical
  {
    if ds == [] then [] else IdenticalsOf(ds[..|ds| - 1]) + [ds[|ds| - 1].identical]
  }

  /** The album's discs' `common` sets, in iteration order. */
  function DiscCommons(album: Album): (r: seq<set<string>>)
    requires forall k :: 0 <= k < |album.order| ==> album.order[k] in album.discs
    reads album`order, album`discs, album.discs.Values`common
  {
    CommonsOf(DiscsInOrder(album.discs, album.order))
  }

  /** The album's discs' `identical` tracks, in iteration order. */
  function DiscIdenticals(album: Album): (r: seq<Track>)
    requires forall k :: 0 <= k < |album.order| ==> album.order[k] in album.discs
    reads album`order, album`discs, album.discs.Values`identical
  {
    IdenticalsOf(DiscsInOrder(album.discs, album.order))
  }

  /** `find_common_disc_tags` on one disc of `ds`: every disc of `ds` whose
      `common` was already set keeps it, even one that is `disc` itself. */
  method FindCommonDiscTagsAt(disc: Disc, ghost ds: seq<Disc>)
    requires Ready(disc)
    modifies disc`common
    ensures CommonSet(disc)
    ensures forall k :: 0 <= k < |ds| && old(CommonSet(ds[k])) ==> CommonSet(ds[k]) && ds[k].common == old(ds[k].common)
  {
    FindCommonDiscTags(disc);
  }

  /** `find_identical_disc_tags` on one disc of `ds`: every disc of `ds`
      whose `identical` was already set keeps it. */
  method FindIdenticalDiscTagsAt(disc: Disc, ghost ds: seq<Disc>)
    requires Ready(disc)
    modifies disc`identical
    ensures IdenticalSet(disc)
    ensures forall k :: 0 <= k < |ds| && old(IdenticalSet(ds[k])) ==> IdenticalSet(ds[k]) && ds[k].identical == old(ds[k].identical)
  {
    FindIdenticalDiscTags(disc);
  }

  /** The merge of one more disc's `common` into the album's: a copy of the
      first one, then each later one is intersected with it. */
  method MergeCommon(common: Option<set<string>>, ghost commons: seq<set<string>>, c: set<string>) returns (common': Option<set<string>>)
    requires |commons| == 0 <==> common.None?
    requires |commons| > 0 ==> common == Some(CommonOf(commons))
    ensures common' == Some(CommonOf(commons + [c]))
  {
    assert (commons + [c])[..|commons|] == commons;
    if common.None? {
      common' := Some(c);
    } else {
      common' := Some(common.value * c);
    }
  }

  /** The merge of one more disc's `identical` into the album's: a copy of
      the first one, then each later one narrows it. */
  method MergeIdentical(identical: Option<Track>, ghost ids: seq<Track>, t: Track) returns (identical': Option<Track>)
    requires forall k :: 0 <= k < |ids| ==> Keyed(ids[k])
    requires Keyed(t)
    requires |ids| == 0 <==> identical.None?
    requires |ids| > 0 ==> identical == Some(IdenticalOf(ids))
    ensures identical' == Some(IdenticalOf(ids + [t]))
  {
    assert (ids + [t])[..|ids|] == ids;
    if identical.None? {
      identical' := Some(Copy(t));
    } else {
      var id := NarrowIdentical(identical.value, t);
      identical' := Some(id);
    }
  }

  /** After `find_common_album_tags` has visited the first `j` discs of
      `ds`: each of them has its `common` set, `commons` lists those sets,
      and `common` is their intersection (None before the first disc). */
  predicate CommonVisited(ds: seq<Disc>, j: nat, common: Option<set<string>>, commons: seq<set<string>>)
    reads (set d | d in ds)`order, (set d | d in ds)`tracks, (set d | d in ds)`common
  {
    && j <= |ds| && |commons| == j
    && (forall k :: 0 <= k < j ==> CommonSet(ds[k]) && commons[k] == ds[k].common)
    && (j == 0 <==> common.None?)
    && (j > 0 ==> common == Some(CommonOf(commons)))
  }

  /** One turn of the loop of `find_common_album_tags`. */
  method CommonTurn(ds: seq<Disc>, j: nat, disc: Disc, common: Option<set<string>>, ghost commons: seq<set<string>>)
    returns (common': Option<set<string>>, ghost commons': seq<set<string>>)
    requires j < |ds| && disc == ds[j] && Ready(disc) && CommonVisited(ds, j, common, commons)
    modifies disc`common
    ensures CommonVisited(ds, j + 1, common', commons')
  {
    FindCommonDiscTagsAt(disc, ds);
    common' := MergeCommon(common, commons, disc.common);
    commons' := commons + [disc.common];
  }

  /** The loop of `find_common_album_tags` over the discs `ds`: each disc's
      `common` is set, and the intersection of them all is returned, or None
      when there is no disc. */
  method CommonAcross(ds: seq<Disc>) returns (common: Option<set<string>>)
    requires forall k :: 0 <= k < |ds| ==> Ready(ds[k])
    modifies (set d | d in ds)`common
    ensures forall k :: 0 <= k < |ds| ==> CommonSet(ds[k])
    ensures |ds| == 0 ==> common == None
    ensures |ds| > 0 ==> common == Some(CommonOf(CommonsOf(ds)))
  {
    common := None;
    ghost var commons: seq<set<string>> := [];
    var j := 0;
    while j < |ds|
      invariant j <= |ds| && CommonVisited(ds, j, common, commons)
      invariant forall k :: 0 <= k < |ds| ==> Ready(ds[k])
    {
      common, commons := CommonTurn(ds, j, ds[j], common, commons);
      j := j + 1;
    }
    assert commons == CommonsOf(ds);
  }

  /** After `find_identical_album_tags` has visited the first `j` discs of
      `ds`: each of them has its `identical` set, `ids` lists those tracks,
      and `identical` is their fold (None before the first disc). */
  predicate IdenticalVisited(ds: seq<Disc>, j: nat, identical: Option<Track>, ids: seq<Track>)
    reads (set d | d in ds)`order, (set d | d in ds)`tracks, (set d | d in ds)`identical
  {
    && j <= |ds| && |ids| == j
    && (forall k :: 0 <= k < j ==> IdenticalSet(ds[k]) && ids[k] == ds[k].identical && Keyed(ids[k]))
    && (j == 0 <==> identical.None?)
    && (j > 0 ==> identical == Some(IdenticalOf(ids)))
  }

  /** One turn of the loop of `find_identical_album_tags`. */
  method IdenticalTurn(ds: seq<Disc>, j: nat, disc: Disc, identical: Option<Track>, ghost ids: seq<Track>)
    returns (identical': Option<Track>, ghost ids': seq<Track>)
    requires j < |ds| && disc == ds[j] && Ready(disc) && IdenticalVisited(ds, j, identical, ids)
    modifies disc`identical
    ensures IdenticalVisited(ds, j + 1, identical', ids')
  {
    FindIdenticalDiscTagsAt(disc, ds);
    identical' := MergeIdentical(identical, ids, disc.identical);
    ids' := ids + [disc.identical];
    assert forall k :: 0 <= k < j ==> IdenticalSet(ds[k]) && ids'[k] == ds[k].identical && Keyed(ids'[k]);
  }

  /** The loop of `find_identical_album_tags` over the discs `ds`: each
      disc's `identical` is set, and the fold of them all is returned, or
      None when there is no disc. */
  method IdenticalAcross(ds: seq<Disc>) returns (identical: Option<Track>)
    requires forall k :: 0 <= k < |ds| ==> Ready(ds[k])
    modifies (set d | d in ds)`identical
    ensures forall k :: 0 <= k < |ds| ==> IdenticalSet(ds[k]) && Keyed(ds[k].identical)
    ensures |ds| == 0 ==> identical == None
    ensures |ds| > 0 ==> identical == Some(IdenticalOf(IdenticalsOf(ds)))
  {
    identical := None;
    ghost var ids: seq<Track> := [];
    var j := 0;
    while j < |ds|
      invariant j <= |ds| && IdenticalVisited(ds, j, identical, ids)
      invariant forall k :: 0 <= k < |ds| ==> Ready(ds[k])
    {
      identical, ids := IdenticalTurn(ds, j, ds[j], identical, ids);
      j := j + 1;
    }
    assert ids == IdenticalsOf(ds);
  }

  /** Every disc of the album has its `common` set. */
  predicate CommonsFound(album: Album)
    reads album`order, album`discs, album.discs.Values`order, album.discs.Values`tracks, album.discs.Values`common
  {
    && (forall k :: 0 <= k < |album.order| ==> album.order[k] in album.discs)
    && (forall k :: 0 <= k < |album.order| ==> CommonSet(album.discs[album.order[k]]))
  }

  /** Every disc of the album has its `identical` track set. */
  predicate IdenticalsFound(album: Album)
    reads album`order, album`discs, album.discs.Values`order, album.discs.Values`tracks, album.discs.Values`identical
  {
    && (forall k :: 0 <= k < |album.order| ==> album.order[k] in album.discs)
    && (forall k :: 0 <= k < |album.order| ==> IdenticalSet(album.discs[album.order[k]]))
    && (forall k :: 0 <= k < |album.order| ==> Keyed(album.discs[album.order[k]].identical))
  }

  /** Setting the album's own fields leaves what its discs hold alone. */
  twostate lemma CommonsKept(album: Album)
    requires unchanged(album`order, album`discs)
    requires forall d :: d in album.discs.Values ==> unchanged(d`order, d`tracks, d`common)
    requires old(forall k :: 0 <= k < |album.order| ==> album.order[k] in album.discs)
    ensures CommonsFound(album) == old(CommonsFound(album))
    ensures DiscCommons(album) == old(DiscCommons(album))
  {
  }

  /** Setting the album's own fields leaves what its discs hold alone. */
  twostate lemma IdenticalsKept(album: Album)
    requires unchanged(album`order, album`discs)
    requires forall d :: d in album.discs.Values ==> unchanged(d`order, d`tracks, d`identical)
    requires old(forall k :: 0 <= k < |album.order| ==> album.order[k] in album.discs)
    ensures IdenticalsFound(album) == old(IdenticalsFound(album))
    ensures DiscIdenticals(album) == old(DiscIdenticals(album))
  {
  }

  /** The discs' part of `find_common_album_tags(album)`: every disc's
      `common` is set, and the intersection of them is returned. */
  method CommonDiscs(album: Album) returns (common: Option<set<string>>)
    requires AlbumReady(album)
    modifies album.discs.Values`common
    ensures CommonsFound(album)
    ensures |album.order| == 0 ==> common == None
    ensures |album.order| > 0 ==> common == Some(CommonOf(DiscCommons(album)))
  {
    var ds := DiscsInOrder(album.discs, album.order);
    assert forall k :: 0 <= k < |ds| ==> ds[k] in album.discs.Values && Ready(ds[k]);
    common := CommonAcross(ds);
    assert CommonsFound(album);
  }

  /** `find_common_album_tags(album)`: every disc's `common` is set, and the
      album's is the intersection of theirs, or None for an album without
      discs. */
  method FindCommonAlbumTags(album: Album)
    requires AlbumReady(album)
    modifies album`common, album.discs.Values`common
    ensures CommonsFound(album)
    ensures |album.order| == 0 ==> album.common == None
    ensures |album.order| > 0 ==> album.common == Some(CommonOf(DiscCommons(album)))
  {
    var common := CommonDiscs(album);
    label found:
    album.common := common;
    CommonsKept@found(album);
  }

  /** The discs' part of `find_identical_album_tags(album)`: every disc's
      `identical` is set, and the fold of them is returned. */
  method IdenticalDiscs(album: Album) returns (identical: Option<Track>)
    requires AlbumReady(album)
    modifies album.discs.Values`identical
    ensures IdenticalsFound(album)
    ensures |album.order| == 0 ==> identical == None
    ensures |album.order| > 0 ==> identical == Some(IdenticalOf(DiscIdenticals(album)))
  {
    var ds := DiscsInOrder(album.discs, album.order);
    assert forall k :: 0 <= k < |ds| ==> ds[k] in album.discs.Values && Ready(ds[k]);
    identical := IdenticalAcross(ds);
    assert IdenticalsFound(album);
  }

  /** `find_identical_album_tags(album)` with each later disc narrowing
      `identical` as the disc-level function narrows it by a track: every
      disc's `identical` is set, and the album's is the fold of theirs, or
      None for an album without discs. */
  method FindIdenticalAlbumTags(album: Album)
    requires AlbumReady(album)
    modifies album`identical, album.discs.Values`identical
    ensures IdenticalsFound(album)
    ensures |album.order| == 0 ==> album.identical == None
    ensures |album.order| > 0 ==> album.identical == Some(IdenticalOf(DiscIdenticals(album)))
  {
    var identical := IdenticalDiscs(album);
    label found:
    album.identical := identical;
    IdenticalsKept@found(album);
  }
}

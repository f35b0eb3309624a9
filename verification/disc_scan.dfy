/** The loops the per-disc checks share: walking a disc's tracks in
    iteration order and, for each track, appending its number to a
    `defaultdict(list)` under a key, keeping it when it passes a test, or
    reporting the error lines it deserves. */
module DiscScan {
  import opened Wrappers
  import opened MessageSink
  import opened Hierarchy
  import opened Grouping

  /** Every track number listed in `order` is filed in `tracks`. */
  predicate Listed(tracks: map<int, Track>, order: seq<int>)
  {
    forall n :: n in order ==> n in tracks
  }

  /** The `i`-th listed track is filed, and the first `i + 1` listed
      tracks extend the first `i`. */
  lemma ListedAt(tracks: map<int, Track>, order: seq<int>, i: int)
    requires Listed(tracks, order) && 0 <= i < |order|
    ensures order[i] in tracks
    ensures order[..i + 1][..i] == order[..i] && order[..i + 1] == order[..i] + [order[i]]
  {
    var n := order[i];
    assert n in order;
    assert order[..i + 1] == order[..i] + [n];
  }

  /** The `(key, track number)` pairs a grouping loop appends, in disc
      order: a track is appended under `k` when `key` gives `Some(k)` for it
      and skipped when it gives `None`. */
  function KeyedTracks<K>(tracks: map<int, Track>, order: seq<int>, key: Track -> Option<K>): (ps: seq<(K, int)>)
    requires Listed(tracks, order)
    ensures |ps| <= |order|
  {
    if order == [] then []
    else
      var last := order[|order| - 1];
      assert last in order;
      KeyedTracks(tracks, order[..|order| - 1], key)
        + KeyedPair(key(tracks[last]), last)
  }

  /** A pair is appended exactly for a listed track whose key it carries. */
  lemma {:induction false} KeyedTracksIff<K>(tracks: map<int, Track>, order: seq<int>, key: Track -> Option<K>, k: K, n: int)
    requires Listed(tracks, order)
    ensures (k, n) in KeyedTracks(tracks, order, key) <==> n in order && key(tracks[n]) == Some(k)
  {
    if order != [] {
      var init := order[..|order| - 1];
      KeyedTracksIff(tracks, init, key, k, n);
      assert order == init + [order[|order| - 1]];
    }
  }

  /** The tracks a grouping loop files under `k`, and the keys it files
      anything under: `k` has a list exactly when some listed track has key
      `k`, and the list holds exactly those tracks. */
  lemma GroupedTracks<K>(tracks: map<int, Track>, order: seq<int>, key: Track -> Option<K>, k: K, n: int)
    requires Listed(tracks, order)
    ensures var g := GroupAll(KeyedTracks(tracks, order, key));
      k in g.lists ==> (n in g.lists[k] <==> n in order && key(tracks[n]) == Some(k))
    ensures var g := GroupAll(KeyedTracks(tracks, order, key));
      n in order && key(tracks[n]) == Some(k) ==> k in g.lists && n in g.lists[k]
  {
    var ps := KeyedTracks(tracks, order, key);
    GroupAllMembers(ps, k);
    MembersIff(ps, k, n);
    KeyedTracksIff(tracks, order, key, k, n);
  }

  /** The track numbers in `order` whose tracks pass `p`, in order. */
  function TracksWhere(tracks: map<int, Track>, order: seq<int>, p: Track -> bool): (ns: seq<int>)
    requires Listed(tracks, order)
    ensures forall n :: n in ns <==> n in order && p(tracks[n])
  {
    if order == [] then []
    else
      var last := order[|order| - 1];
      assert last in order;
      var init := order[..|order| - 1];
      assert order == init + [last];
      TracksWhere(tracks, init, p) + (if p(tracks[last]) then [last] else [])
  }

  /** The lines reported track by track: `lines(n, track)` for each listed
      track in order. */
  function EachTrack(tracks: map<int, Track>, order: seq<int>, lines: (int, Track) -> seq<Diag>): (ds: seq<Diag>)
    requires Listed(tracks, order)
  {
    if order == [] then []
    else
      var last := order[|order| - 1];
      assert last in order;
      EachTrack(tracks, order[..|order| - 1], lines) + lines(last, tracks[last])
  }

  /** A line is reported exactly when some listed track yields it. */
  lemma {:induction false} EachTrackIn(tracks: map<int, Track>, order: seq<int>, lines: (int, Track) -> seq<Diag>, d: Diag)
    requires Listed(tracks, order)
    ensures d in EachTrack(tracks, order, lines) <==> exists n :: n in order && d in lines(n, tracks[n])
  {
    if order != [] {
      var init := order[..|order| - 1];
      var last := order[|order| - 1];
      EachTrackIn(tracks, init, lines, d);
      assert order == init + [last];
      if exists n :: n in order && d in lines(n, tracks[n]) {
        var n :| n in order && d in lines(n, tracks[n]);
        assert n in init || n == last;
      }
    }
  }

  /** The pairs of the first `i + 1` tracks are those of the first `i`,
      and the pair of track `order[i]` when it has a key. */
  lemma KeyedStep<K>(tracks: map<int, Track>, order: seq<int>, key: Track -> Option<K>, i: int)
    requires Listed(tracks, order) && 0 <= i < |order|
    ensures order[i] in tracks
    ensures KeyedTracks(tracks, order[..i + 1], key) == KeyedTracks(tracks, order[..i], key) + KeyedPair(key(tracks[order[i]]), order[i])
  {
    assert order[i] in order;
    var s := order[..i + 1];
    assert s[..|s| - 1] == order[..i] && s[|s| - 1] == order[i];
    assert forall n :: n in s ==> n in order;
  }

  /** The pair a track adds: `(k, n)` when its key is `Some(k)`. */
  function KeyedPair<K>(o: Option<K>, n: int): seq<(K, int)>
  {
    match o
    case Some(k) => [(k, n)]
    case None => []
  }

  /** The dictionary after the first `i + 1` tracks is the one after the
      first `i`, with track `order[i]` appended under its key, if any. */
  lemma GroupStep<K>(tracks: map<int, Track>, order: seq<int>, key: Track -> Option<K>, i: int)
    requires Listed(tracks, order) && 0 <= i < |order|
    ensures order[i] in tracks
    ensures var before := GroupAll(KeyedTracks(tracks, order[..i], key));
      var after := GroupAll(KeyedTracks(tracks, order[..i + 1], key));
      match key(tracks[order[i]])
      case Some(k) => after == Add(before, k, order[i])
      case None => after == before
  {
    KeyedStep(tracks, order, key, i);
    var ps := KeyedTracks(tracks, order[..i], key);
    match key(tracks[order[i]]) {
      case Some(k) => GroupAllSnoc(ps, (k, order[i]));
      case None => assert ps + [] == ps;
    }
  }

  /** Groups the disc's tracks by `key`, appending each track number to its
      key's list in disc order. */
  method GroupTracks<K(==)>(disc: Disc, key: Track -> Option<K>) returns (g: Groups<K>)
    requires Listed(disc.tracks, disc.order)
    ensures g == GroupAll(KeyedTracks(disc.tracks, disc.order, key))
  {
    g := NoGroups();
    var i := 0;
    while i < |disc.order|
      invariant 0 <= i <= |disc.order|
      invariant g == GroupAll(KeyedTracks(disc.tracks, disc.order[..i], key))
    {
      var n := disc.order[i];
      GroupStep(disc.tracks, disc.order, key, i);
      match key(disc.tracks[n]) {
        case Some(k) => g := Add(g, k, n);
        case None =>
      }
      i := i + 1;
    }
    assert disc.order[..i] == disc.order;
  }

  /** Groups the disc's tracks by `key` as `GroupTracks` does, noting along
      the way whether a key was met a second time. */
  method GroupTracksNoting<K(==)>(disc: Disc, key: Track -> Option<K>) returns (g: Groups<K>, seenTwice: bool)
    requires Listed(disc.tracks, disc.order)
    ensures g == GroupAll(KeyedTracks(disc.tracks, disc.order, key))
    ensures seenTwice <==> SharedKey(g)
  {
    g := NoGroups();
    seenTwice := false;
    var i := 0;
    while i < |disc.order|
      invariant 0 <= i <= |disc.order|
      invariant g == GroupAll(KeyedTracks(disc.tracks, disc.order[..i], key))
      invariant seenTwice <==> SharedKey(g)
    {
      var n := disc.order[i];
      GroupStep(disc.tracks, disc.order, key, i);
      match key(disc.tracks[n]) {
        case Some(k) =>
          AddShares(g, k, n);
          if k in g.lists {
            seenTwice := true;
          }
          g := Add(g, k, n);
        case None =>
      }
      i := i + 1;
    }
    assert disc.order[..i] == disc.order;
  }

  /** The `(key, track number)` pairs of the disc's tracks, in disc order:
      the loop that fills a dictionary keyed by track number. */
  method CollectKeyed<K>(disc: Disc, key: Track -> Option<K>) returns (ps: seq<(K, int)>)
    requires Listed(disc.tracks, disc.order)
    ensures ps == KeyedTracks(disc.tracks, disc.order, key)
  {
    ps := [];
    var i := 0;
    while i < |disc.order|
      invariant 0 <= i <= |disc.order|
      invariant ps == KeyedTracks(disc.tracks, disc.order[..i], key)
    {
      var n := disc.order[i];
      KeyedStep(disc.tracks, disc.order, key, i);
      match key(disc.tracks[n]) {
        case Some(k) => ps := ps + [(k, n)];
        case None =>
      }
      i := i + 1;
    }
    assert disc.order[..i] == disc.order;
  }

  /** The track numbers of the disc whose tracks pass `p`, in disc order. */
  method SelectTracks(disc: Disc, p: Track -> bool) returns (ns: seq<int>)
    requires Listed(disc.tracks, disc.order)
    ensures ns == TracksWhere(disc.tracks, disc.order, p)
  {
    ns := [];
    var i := 0;
    while i < |disc.order|
      invariant 0 <= i <= |disc.order|
      invariant ns == TracksWhere(disc.tracks, disc.order[..i], p)
    {
      var n := disc.order[i];
      assert disc.order[..i + 1][..i] == disc.order[..i];
      assert n in disc.order;
      if p(disc.tracks[n]) {
        ns := ns + [n];
      }
      i := i + 1;
    }
    assert disc.order[..i] == disc.order;
  }

  /** Reports, as errors, the lines of each track in disc order. */
  method ReportEachTrack(disc: Disc, lines: (int, Track) -> seq<Diag>, msgs: Messages)
    requires Listed(disc.tracks, disc.order)
    modifies msgs
    ensures msgs.Snapshot() == old(msgs.Snapshot()).Then(Errors(EachTrack(disc.tracks, disc.order, lines)))
  {
    var i := 0;
    while i < |disc.order|
      invariant 0 <= i <= |disc.order|
      invariant msgs.Snapshot() == old(msgs.Snapshot()).Then(Errors(EachTrack(disc.tracks, disc.order[..i], lines)))
    {
      var n := disc.order[i];
      assert disc.order[..i + 1][..i] == disc.order[..i];
      assert n in disc.order;
      ghost var before := EachTrack(disc.tracks, disc.order[..i], lines);
      var ds := lines(n, disc.tracks[n]);
      assert EachTrack(disc.tracks, disc.order[..i + 1], lines) == before + ds;
      msgs.Record(Errors(ds));
      ThenThen(old(msgs.Snapshot()), Errors(before), Errors(ds));
      ErrorsAppend(before, ds);
      i := i + 1;
    }
    assert disc.order[..i] == disc.order;
  }
}

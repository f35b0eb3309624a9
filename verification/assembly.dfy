/** `check_critical_tag` and the assembly part of `get_album`: the tracks read
    from an album directory are filed by disc number and track number, a
    track whose numbers are missing, not numbers or out of range is dropped
    with one error, and so is a track whose (disc, track) slot is taken. */
module Assembly {
  import opened Wrappers
  import opened Text
  import opened MessageSink
  import opened Hierarchy

  /** A FLAC file as the tag reader delivers it: its name and its tags. */
  datatype TrackFile = TrackFile(file: string, tags: map<string, seq<string>>)

  /** What `check_critical_tag(track, tag, msgs)` returns, with the error it
      reports: the value when the tag is present and `int()` of its flattened
      text is in 1..99, and otherwise nothing and exactly one error saying
      why. */
  function CriticalTag(t: Track, tag: string): (r: (Option<int>, seq<Diag>))
    ensures r.0.Some? <==> r.1 == []
    ensures r.0.Some? ==> 1 <= r.0.value <= 99
    ensures r.0.None? ==> |r.1| == 1
    ensures tag !in t.tags <==> r.1 == [CriticalMissing(t.file, tag)]
    ensures tag in t.tags && ParseInt(Flat(t, tag)).None? ==> r.1 == [CriticalNotNumber(t.file, tag, t.tags[tag])]
    ensures tag in t.tags && ParseInt(Flat(t, tag)).Some? ==>
      var v := ParseInt(Flat(t, tag)).value;
      if 1 <= v <= 99 then r.0 == Some(v) else r.1 == [CriticalOutOfRange(t.file, tag, v)]
  {
    if tag !in t.tags then (None, [CriticalMissing(t.file, tag)])
    else
      match ParseInt(Flat(t, tag))
      case None => (None, [CriticalNotNumber(t.file, tag, t.tags[tag])])
      case Some(v) => if 1 <= v < 100 then (Some(v), []) else (None, [CriticalOutOfRange(t.file, tag, v)])
  }

  /** A tag holding the decimal text of a number in 1..99 is read back as that
      number. */
  lemma CriticalTagOfNumber(t: Track, tag: string, n: int)
    requires 1 <= n <= 99 && tag in t.tags && t.tags[tag] == [IntToString(n)]
    ensures CriticalTag(t, tag) == (Some(n), [])
  {
    ParseIntOfIntToString(n);
  }

  /** `check_critical_tag(track, tag, msgs)`. */
  method CheckCriticalTag(t: Track, tag: string, msgs: Messages) returns (val: Option<int>)
    modifies msgs
    ensures val == CriticalTag(t, tag).0
    ensures msgs.Snapshot() == old(msgs.Snapshot()).Then(Errors(CriticalTag(t, tag).1))
  {
    if tag !in t.tags {
      msgs.Error(CriticalMissing(t.file, tag));
      assert Errors(CriticalTag(t, tag).1) == [Msg(Error, CriticalMissing(t.file, tag))];
      return None;
    }
    var parsed := ParseInt(Flat(t, tag));
    if parsed.None? {
      msgs.Error(CriticalNotNumber(t.file, tag, t.tags[tag]));
      assert Errors(CriticalTag(t, tag).1) == [Msg(Error, CriticalNotNumber(t.file, tag, t.tags[tag]))];
      return None;
    }
    val := parsed;
    if !(1 <= parsed.value < 100) {
      msgs.Error(CriticalOutOfRange(t.file, tag, parsed.value));
      assert Errors(CriticalTag(t, tag).1) == [Msg(Error, CriticalOutOfRange(t.file, tag, parsed.value))];
      val := None;
    }
  }

  /** The (disc, track) slot a file is filed under, when both numbers pass
      `check_critical_tag`. */
  function SlotOf(f: TrackFile): Option<(int, int)>
  {
    var t := NewTrack(f.tags, f.file);
    var disc := CriticalTag(t, "discnumber").0;
    var num := CriticalTag(t, "tracknumber").0;
    if disc.Some? && num.Some? then Some((disc.value, num.value)) else None
  }

  /** The errors the two `check_critical_tag` calls report for a file: the
      second call is only made when the first succeeds. */
  function CriticalErrors(f: TrackFile): seq<Diag>
  {
    var t := NewTrack(f.tags, f.file);
    var (disc, ds1) := CriticalTag(t, "discnumber");
    if disc.None? then ds1 else CriticalTag(t, "tracknumber").1
  }

  /** The album as assembled so far: disc numbers in insertion order, each
      disc's track numbers in insertion order, the tracks by slot, and the
      errors reported. */
  datatype Assembled = Assembled(
    discOrder: seq<int>,
    trackOrders: map<int, seq<int>>,
    tracks: map<int, map<int, Track>>,
    diags: seq<Diag>)
  {
    ghost predicate Valid()
    {
      && Distinct(discOrder)
      && (forall d :: d in tracks <==> d in discOrder)
      && trackOrders.Keys == tracks.Keys
      && (forall d :: d in tracks ==> ValidDisc(trackOrders[d], tracks[d]))
    }

    /** The slot `(d, n)` holds a track. */
    predicate Has(d: int, n: int)
    {
      d in tracks && n in tracks[d]
    }
  }

  /** A disc's track numbers in insertion order list its tracks once each. */
  ghost predicate ValidDisc(order: seq<int>, tracks: map<int, Track>)
  {
    Distinct(order) && |order| > 0 && forall n :: n in tracks <==> n in order
  }

  /** Files track `t` under the free slot `(d, n)`: in a new disc when `d` is
      new, else at the end of disc `d`. */
  function FileSlot(a: Assembled, d: int, n: int, t: Track): (r: Assembled)
    requires a.Valid() && !a.Has(d, n)
    ensures r.Valid() && r.diags == a.diags
    ensures forall e, m :: r.Has(e, m) <==> a.Has(e, m) || (e, m) == (d, n)
    ensures r.Has(d, n) && r.tracks[d][n] == t
    ensures forall e, m :: a.Has(e, m) ==> r.Has(e, m) && r.tracks[e][m] == a.tracks[e][m]
  {
    if d !in a.tracks then
      Assembled(a.discOrder + [d], a.trackOrders[d := [n]], a.tracks[d := map[n := t]], a.diags)
    else
      Assembled(a.discOrder, a.trackOrders[d := a.trackOrders[d] + [n]], a.tracks[d := a.tracks[d][n := t]], a.diags)
  }

  /** One turn of `get_album`'s loop: check the two numbers, then file the
      track in a new disc, in its disc, or drop it as a duplicate. */
  function AssembleStep(a: Assembled, f: TrackFile): (r: Assembled)
    requires a.Valid()
    ensures r.Valid()
  {
    match SlotOf(f)
    case None => a.(diags := a.diags + CriticalErrors(f))
    case Some((d, n)) =>
      if a.Has(d, n) then a.(diags := a.diags + [DuplicateSlot(f.file)])
      else FileSlot(a, d, n, NewTrack(f.tags, f.file))
  }

  /** The album after all of `files`, in order. */
  function Assemble(files: seq<TrackFile>): (a: Assembled)
    ensures a.Valid()
  {
    if files == [] then Assembled([], map[], map[], [])
    else AssembleStep(Assemble(files[..|files| - 1]), files[|files| - 1])
  }

  /** A step keeps every filled slot as it was, and fills only the slot of
      the file it reads. */
  lemma StepKeepsSlots(a: Assembled, f: TrackFile)
    requires a.Valid()
    ensures forall d, n :: a.Has(d, n) ==> AssembleStep(a, f).Has(d, n) && AssembleStep(a, f).tracks[d][n] == a.tracks[d][n]
    ensures forall d, n :: AssembleStep(a, f).Has(d, n) ==> a.Has(d, n) || SlotOf(f) == Some((d, n))
    ensures SlotOf(f).Some? ==> AssembleStep(a, f).Has(SlotOf(f).value.0, SlotOf(f).value.1)
  {
    var slot := SlotOf(f);
    if slot.None? {
      assert AssembleStep(a, f) == a.(diags := a.diags + CriticalErrors(f));
    } else if a.Has(slot.value.0, slot.value.1) {
      assert AssembleStep(a, f) == a.(diags := a.diags + [DuplicateSlot(f.file)]);
    } else {
      assert AssembleStep(a, f) == FileSlot(a, slot.value.0, slot.value.1, NewTrack(f.tags, f.file));
    }
  }

  /** A file whose slot is free is filed there. */
  lemma StepFills(a: Assembled, f: TrackFile, d: int, n: int)
    requires a.Valid() && SlotOf(f) == Some((d, n)) && !a.Has(d, n)
    ensures AssembleStep(a, f).Has(d, n) && AssembleStep(a, f).tracks[d][n] == NewTrack(f.tags, f.file)
  {
  }

  /** A filled slot is never overwritten by the files that come later. */
  lemma {:induction false} SlotNeverOverwritten(files: seq<TrackFile>, more: seq<TrackFile>, d: int, n: int)
    requires Assemble(files).Has(d, n)
    ensures Assemble(files + more).Has(d, n)
    ensures Assemble(files + more).tracks[d][n] == Assemble(files).tracks[d][n]
    decreases |more|
  {
    if more == [] {
      assert files + more == files;
    } else {
      var init := more[..|more| - 1];
      SlotNeverOverwritten(files, init, d, n);
      InitOfJoin(files, more);
      StepKeepsSlots(Assemble(files + init), more[|more| - 1]);
    }
  }

  /** Dropping the last element of `a + b`, for a non-empty `b`, drops the
      last element of `b`. */
  lemma InitOfJoin<T>(a: seq<T>, b: seq<T>)
    requires b != []
    ensures (a + b)[..|a + b| - 1] == a + b[..|b| - 1]
    ensures (a + b)[|a + b| - 1] == b[|b| - 1]
  {
  }

  /** A slot is filled exactly when some file carries its numbers. */
  lemma {:induction false} SlotFilledIff(files: seq<TrackFile>, d: int, n: int)
    ensures Assemble(files).Has(d, n) <==> exists i :: 0 <= i < |files| && SlotOf(files[i]) == Some((d, n))
  {
    if files != [] {
      var init := files[..|files| - 1];
      SlotFilledIff(init, d, n);
      StepKeepsSlots(Assemble(init), files[|files| - 1]);
      if exists i :: 0 <= i < |files| && SlotOf(files[i]) == Some((d, n)) {
        var i :| 0 <= i < |files| && SlotOf(files[i]) == Some((d, n));
        if i < |files| - 1 {
          assert init[i] == files[i];
        }
      }
      if exists i :: 0 <= i < |init| && SlotOf(init[i]) == Some((d, n)) {
        var i :| 0 <= i < |init| && SlotOf(init[i]) == Some((d, n));
        assert files[i] == init[i];
      }
    }
  }

  /** The album after the first `k + 1` files is one step on from the album
      after the first `k`. */
  lemma AssemblePrefix(files: seq<TrackFile>, k: int)
    requires 0 <= k < |files|
    ensures Assemble(files[..k + 1]) == AssembleStep(Assemble(files[..k]), files[k])
  {
    assert files[..k + 1][..k] == files[..k];
  }

  /** The track in a slot is the first file that carries its numbers. */
  lemma FirstFileWins(files: seq<TrackFile>, i: int, d: int, n: int)
    requires 0 <= i < |files| && SlotOf(files[i]) == Some((d, n))
    requires forall j :: 0 <= j < i ==> SlotOf(files[j]) != Some((d, n))
    ensures Assemble(files).Has(d, n)
    ensures Assemble(files).tracks[d][n] == NewTrack(files[i].tags, files[i].file)
  {
    var before := files[..i];
    var upto := files[..i + 1];
    SplitAfter(files, i);
    forall j | 0 <= j < |before| ensures SlotOf(before[j]) != Some((d, n)) {
      assert before[j] == files[j];
    }
    SlotFilledIff(before, d, n);
    AssemblePrefix(files, i);
    StepFills(Assemble(before), files[i], d, n);
    SlotNeverOverwritten(upto, files[i + 1..], d, n);
  }

  lemma SplitAfter<T>(s: seq<T>, i: int)
    requires 0 <= i < |s|
    ensures s[..i + 1] + s[i + 1..] == s
  {
  }

  /** A file whose slot is already taken changes nothing but the errors,
      which gain exactly one line naming it. */
  lemma DuplicateDropped(a: Assembled, f: TrackFile)
    requires a.Valid() && SlotOf(f).Some? && a.Has(SlotOf(f).value.0, SlotOf(f).value.1)
    ensures AssembleStep(a, f) == a.(diags := a.diags + [DuplicateSlot(f.file)])
  {
  }

  /** A file whose numbers are both valid adds no error unless its slot is
      taken; any other file adds exactly one error. */
  lemma StepErrors(a: Assembled, f: TrackFile)
    requires a.Valid()
    ensures SlotOf(f).Some? && !a.Has(SlotOf(f).value.0, SlotOf(f).value.1) ==> AssembleStep(a, f).diags == a.diags
    ensures !(SlotOf(f).Some? && !a.Has(SlotOf(f).value.0, SlotOf(f).value.1)) ==>
      |AssembleStep(a, f).diags| == |a.diags| + 1
  {
  }

  /** The union of the tagsets of the discs listed in `order`. */
  function UnionDiscs(tracks: map<int, map<int, Track>>, order: seq<int>): set<string>
    requires forall d :: d in order ==> d in tracks
  {
    if order == [] then {}
    else
      var last := order[|order| - 1];
      assert last in order;
      UnionDiscs(tracks, order[..|order| - 1]) + UnionTagsets(tracks[last])
  }

  /** One more disc adds its tracks' tagsets to the union. */
  lemma UnionDiscsSnoc(tracks: map<int, map<int, Track>>, order: seq<int>, j: int)
    requires forall d :: d in order ==> d in tracks
    requires 0 <= j < |order|
    ensures order[j] in tracks
    ensures UnionDiscs(tracks, order[..j + 1]) == UnionDiscs(tracks, order[..j]) + UnionTagsets(tracks[order[j]])
  {
    assert order[j] in order;
    var s := order[..j + 1];
    assert s[|s| - 1] == order[j] && s[..|s| - 1] == order[..j];
  }

  lemma {:induction false} UnionDiscsIsUnion(tracks: map<int, map<int, Track>>, order: seq<int>)
    requires forall d :: d in order ==> d in tracks
    ensures UnionDiscs(tracks, order) == set d, k | d in order && k in UnionTagsets(tracks[d]) :: k
  {
    if order != [] {
      var p := order[..|order| - 1];
      UnionDiscsIsUnion(tracks, p);
      assert forall d :: d in order <==> d in p || d == order[|order| - 1];
    }
  }

  /** The disc objects of `album` hold what `a` describes, before their
      tagsets are collected. */
  ghost predicate Mirrors(album: Album, a: Assembled)
    reads album, album.discs.Values
  {
    && album.DistinctDiscs()
    && album.order == a.discOrder && album.discs.Keys == a.tracks.Keys
    && forall d :: d in album.discs ==>
      && d in a.trackOrders
      && album.discs[d].order == a.trackOrders[d]
      && album.discs[d].tracks == a.tracks[d]
      && album.discs[d].tagset == {}
  }

  /** `msgs` holds exactly the errors `ds`, and nothing else. */
  ghost predicate OnlyErrors(msgs: Messages, ds: seq<Diag>)
    reads msgs
  {
    msgs.messages == ds && msgs.errors == |msgs.messages| && msgs.warnings == 0
  }

  /** The two `check_critical_tag` calls of one turn of `get_album`'s loop. */
  method ReadSlot(f: TrackFile, msgs: Messages) returns (slot: Option<(int, int)>)
    modifies msgs
    ensures slot == SlotOf(f)
    ensures slot.None? ==> msgs.Snapshot() == old(msgs.Snapshot()).Then(Errors(CriticalErrors(f)))
    ensures slot.Some? ==> msgs.Snapshot() == old(msgs.Snapshot())
  {
    var t := NewTrack(f.tags, f.file);
    var discnumber := CheckCriticalTag(t, "discnumber", msgs);
    if discnumber.None? {
      return None;
    }
    var tracknumber := CheckCriticalTag(t, "tracknumber", msgs);
    if tracknumber.None? {
      return None;
    }
    ThenNothing(old(msgs.Snapshot()));
    return Some((discnumber.value, tracknumber.value));
  }

  /** Files `t` under `(d, n)` in the disc objects, or reports the slot as
      taken. */
  method PlaceTrack(album: Album, msgs: Messages, d: int, n: int, t: Track, ghost a: Assembled)
    requires a.Valid() && Mirrors(album, a)
    modifies album`discs, album`order, album.discs.Values, msgs
    ensures a.Has(d, n) ==> Mirrors(album, a) && msgs.Snapshot() == old(msgs.Snapshot()).Then(Errors([DuplicateSlot(t.file)]))
    ensures !a.Has(d, n) ==> Mirrors(album, FileSlot(a, d, n, t)) && msgs.Snapshot() == old(msgs.Snapshot())
    ensures forall o :: o in album.discs.Values ==> o in old(album.discs.Values) || fresh(o)
  {
    if d !in album.discs {
      OpenDisc(album, d, n, t, a);
    } else if n !in album.discs[d].tracks {
      AppendToDisc(album, album.discs[d], d, n, t, a);
    } else {
      msgs.Error(DuplicateSlot(t.file));
      assert Errors([DuplicateSlot(t.file)]) == [Msg(Error, DuplicateSlot(t.file))];
    }
  }

  /** `album.discs[d] = Disc(n, t)` for a new disc number `d`. */
  method OpenDisc(album: Album, d: int, n: int, t: Track, ghost a: Assembled)
    requires a.Valid() && Mirrors(album, a) && d !in album.discs
    modifies album`discs, album`order
    ensures Mirrors(album, FileSlot(a, d, n, t))
    ensures forall o :: o in album.discs.Values ==> o in old(album.discs.Values) || fresh(o)
  {
    var disc := new Disc(n, t);
    album.discs := album.discs[d := disc];
    album.order := album.order + [d];
  }

  /** `album.discs[d][n] = t` for a free track number `n` of disc `d`. */
  method AppendToDisc(album: Album, disc: Disc, d: int, n: int, t: Track, ghost a: Assembled)
    requires a.Valid() && Mirrors(album, a) && d in album.discs && disc == album.discs[d] && n !in disc.tracks
    modifies disc`order, disc`tracks
    ensures Mirrors(album, FileSlot(a, d, n, t))
  {
    disc.Insert(n, t);
  }

  /** One turn of the first loop of `get_album`. */
  method FileTrack(album: Album, msgs: Messages, f: TrackFile, ghost a: Assembled)
    requires a.Valid() && Mirrors(album, a)
    requires OnlyErrors(msgs, a.diags)
    modifies album`discs, album`order, album.discs.Values, msgs
    ensures Mirrors(album, AssembleStep(a, f))
    ensures forall o :: o in album.discs.Values ==> o in old(album.discs.Values) || fresh(o)
    ensures OnlyErrors(msgs, AssembleStep(a, f).diags)
  {
    ThenErrors(msgs.Snapshot(), CriticalErrors(f));
    var slot := ReadSlot(f, msgs);
    if slot.None? {
      MirrorsAnyDiags(album, a, a.diags + CriticalErrors(f));
      return;
    }
    var (d, n) := slot.value;
    var t := NewTrack(f.tags, f.file);
    ThenErrors(msgs.Snapshot(), [DuplicateSlot(f.file)]);
    MirrorsAnyDiags(album, a, a.diags + [DuplicateSlot(f.file)]);
    PlaceTrack(album, msgs, d, n, t, a);
  }

  /** Whether the disc objects mirror an assembly does not depend on its
      errors. */
  lemma MirrorsAnyDiags(album: Album, a: Assembled, ds: seq<Diag>)
    requires Mirrors(album, a)
    ensures Mirrors(album, a.(diags := ds))
  {
  }

  /** The first loop of `get_album`: reads the files in order, building the
      disc objects. */
  method FileTracks(path: string, files: seq<TrackFile>) returns (album: Album, msgs: Messages)
    ensures fresh(album) && fresh(msgs)
    ensures album.path == path && album.tagset == {}
    ensures forall o :: o in album.discs.Values ==> fresh(o)
    ensures Mirrors(album, Assemble(files))
    ensures OnlyErrors(msgs, Assemble(files).diags)
  {
    album := new Album(path);
    msgs := new Messages();
    assert files[..0] == [];
    assert Mirrors(album, Assemble([]));
    var i := 0;
    while i < |files|
      invariant 0 <= i <= |files|
      invariant fresh(album) && fresh(msgs)
      invariant album.path == path && album.tagset == {}
      invariant forall o :: o in album.discs.Values ==> fresh(o)
      invariant Mirrors(album, Assemble(files[..i]))
      invariant OnlyErrors(msgs, Assemble(files[..i]).diags)
    {
      AssemblePrefix(files, i);
      FileTrack(album, msgs, files[i], Assemble(files[..i]));
      i := i + 1;
    }
    assert files[..i] == files;
  }

  /** One turn of the second loop of `get_album`: collects the tagset of the
      disc at position `j`; the other discs keep theirs. */
  method CollectDiscTagset(album: Album, j: int, disc: Disc)
    requires album.DistinctDiscs() && Distinct(album.order) && 0 <= j < |album.order|
    requires forall k :: 0 <= k < |album.order| ==> album.order[k] in album.discs
    requires disc == album.discs[album.order[j]]
    requires forall n :: n in disc.order ==> n in disc.tracks
    requires forall n :: n in disc.tracks ==> n in disc.order
    modifies disc`tagset
    ensures disc.tagset == old(disc.tagset) + UnionTagsets(disc.tracks)
    ensures forall k :: 0 <= k < |album.order| && k != j ==>
      album.discs[album.order[k]].tagset == old(album.discs[album.order[k]].tagset)
  {
    disc.CollectTagsets();
    forall k | 0 <= k < |album.order| && k != j
      ensures album.discs[album.order[k]].tagset == old(album.discs[album.order[k]].tagset)
    {
      assert album.order[k] != album.order[j];
    }
  }

  /** The second loop of `get_album`: each disc's tagset becomes the union of
      its tracks' tagsets, and the album's the union of its discs'. */
  method CollectAlbumTagsets(album: Album)
    requires album.DistinctDiscs() && Distinct(album.order)
    requires forall k :: 0 <= k < |album.order| ==> album.order[k] in album.discs
    requires forall d :: d in album.discs ==>
      && (forall n :: n in album.discs[d].order ==> n in album.discs[d].tracks)
      && (forall n :: n in album.discs[d].tracks ==> n in album.discs[d].order)
      && album.discs[d].tagset == {}
    modifies album`tagset, album.discs.Values`tagset
    ensures album.tagset == old(album.tagset) + UnionDiscs(map d | d in album.discs :: album.discs[d].tracks, album.order)
    ensures forall k :: 0 <= k < |album.order| ==>
      album.discs[album.order[k]].tagset == UnionTagsets(album.discs[album.order[k]].tracks)
  {
    var order, discs := album.order, album.discs;
    ghost var trackMap := map d | d in discs :: discs[d].tracks;
    forall k | 0 <= k < |order| ensures discs[order[k]].tagset == {} {
      var d := order[k];
      assert d in album.discs;
    }
    var j := 0;
    while j < |order|
      invariant 0 <= j <= |order|
      invariant forall k :: j <= k < |order| ==> discs[order[k]].tagset == {}
      invariant forall k :: 0 <= k < j ==> discs[order[k]].tagset == UnionTagsets(discs[order[k]].tracks)
      invariant album.tagset == old(album.tagset) + UnionDiscs(trackMap, order[..j])
    {
      var d := order[j];
      CollectDiscTagset(album, j, discs[d]);
      album.tagset := album.tagset + discs[d].tagset;
      UnionDiscsSnoc(trackMap, order, j);
      j := j + 1;
    }
    assert order[..j] == order;
    assert trackMap == map d | d in album.discs :: album.discs[d].tracks;
  }

  /** The assembly part of `get_album(album_path)`, given the files the
      directory holds (each tag with at least one value, as a Vorbis comment
      always has): the discs and tracks are those `Assemble` files, every
      tagset is the union of the ones below it, and the messages are the
      errors `Assemble` reports. */
  method GetAlbum(path: string, files: seq<TrackFile>) returns (album: Album, msgs: Messages)
    requires forall i, k :: 0 <= i < |files| && k in files[i].tags ==> |files[i].tags[k]| > 0
    ensures fresh(album) && fresh(msgs)
    ensures album.Valid() && album.path == path && Holds(album, Assemble(files))
    ensures OnlyErrors(msgs, Assemble(files).diags)
  {
    album, msgs := FileTracks(path, files);
    AssembledTracksValid(files);
    MirroredShape(album, Assemble(files));
    FinishAlbum(album, Assemble(files));
  }

  /** The second loop of `get_album` on discs built from valid tracks: it
      leaves the album valid and its discs and tracks as they were. */
  method FinishAlbum(album: Album, ghost a: Assembled)
    requires Holds(album, a)
    requires album.DistinctDiscs() && Distinct(album.order) && album.tagset == {}
    requires forall k :: 0 <= k < |album.order| ==> album.order[k] in album.discs
    requires forall d :: d in album.discs ==> d in album.order
    requires forall d :: d in album.discs ==>
      && ValidDisc(album.discs[d].order, album.discs[d].tracks)
      && (forall n :: n in album.discs[d].tracks ==> album.discs[d].tracks[n].Valid())
      && album.discs[d].tagset == {}
    modifies album`tagset, album.discs.Values`tagset
    ensures album.Valid() && Holds(album, a)
  {
    CollectAlbumTagsets(album);
    forall d | d in album.discs
      ensures album.discs[d].order == a.trackOrders[d] && album.discs[d].tracks == a.tracks[d]
    {
    }
    assert {} + UnionDiscs(map d | d in album.discs :: album.discs[d].tracks, album.order)
      == UnionDiscs(map d | d in album.discs :: album.discs[d].tracks, album.order);
    CollectedAlbumValid(album);
  }

  /** The discs and tracks of `album` are those of `a`, in the same order. */
  ghost predicate Holds(album: Album, a: Assembled)
    reads album`order, album`discs, album.discs.Values`order, album.discs.Values`tracks
  {
    && album.order == a.discOrder && album.discs.Keys == a.tracks.Keys
    && forall d :: d in album.discs ==>
      && d in a.trackOrders
      && album.discs[d].order == a.trackOrders[d]
      && album.discs[d].tracks == a.tracks[d]
  }

  /** An album that mirrors a valid assembly has its discs listed once each,
      and valid tracks in every disc. */
  lemma MirroredShape(album: Album, a: Assembled)
    requires a.Valid() && Mirrors(album, a)
    requires forall d, n :: a.Has(d, n) ==> a.tracks[d][n].Valid()
    ensures Distinct(album.order) && Holds(album, a)
    ensures forall k :: 0 <= k < |album.order| ==> album.order[k] in album.discs
    ensures forall d :: d in album.discs ==> d in album.order
    ensures forall d :: d in album.discs ==>
      && ValidDisc(album.discs[d].order, album.discs[d].tracks)
      && (forall n :: n in album.discs[d].tracks ==> album.discs[d].tracks[n].Valid())
      && album.discs[d].tagset == {}
  {
    forall k | 0 <= k < |album.order| ensures album.order[k] in album.discs {
      var d := album.order[k];
      assert d in a.discOrder;
      assert d in a.tracks.Keys;
    }
    forall d | d in album.discs ensures d in album.order {
      assert d in a.tracks.Keys;
    }
  }

  /** Once every disc's tagset is collected, the album is valid. */
  lemma CollectedAlbumValid(album: Album)
    requires album.DistinctDiscs() && Distinct(album.order)
    requires forall k :: 0 <= k < |album.order| ==> album.order[k] in album.discs
    requires forall d :: d in album.discs ==> d in album.order
    requires forall d :: d in album.discs ==>
      && ValidDisc(album.discs[d].order, album.discs[d].tracks)
      && (forall n :: n in album.discs[d].tracks ==> album.discs[d].tracks[n].Valid())
    requires forall k :: 0 <= k < |album.order| ==>
      album.discs[album.order[k]].tagset == UnionTagsets(album.discs[album.order[k]].tracks)
    requires album.tagset == UnionDiscs(map d | d in album.discs :: album.discs[d].tracks, album.order)
    ensures album.Valid()
  {
    forall d | d in album.order ensures d in album.discs {
      var k :| 0 <= k < |album.order| && album.order[k] == d;
    }
    UnionDiscsIsUnion(map d | d in album.discs :: album.discs[d].tracks, album.order);
    forall d | d in album.discs ensures album.discs[d].Valid() {
      var k :| 0 <= k < |album.order| && album.order[k] == d;
    }
  }

  /** Every filed track is a track read from one of the files. */
  lemma {:induction false} AssembledTracksValid(files: seq<TrackFile>)
    requires forall i, k :: 0 <= i < |files| && k in files[i].tags ==> |files[i].tags[k]| > 0
    ensures forall d, n :: Assemble(files).Has(d, n) ==> Assemble(files).tracks[d][n].Valid()
  {
    if files != [] {
      var init := files[..|files| - 1];
      AssembledTracksValid(init);
      StepKeepsSlots(Assemble(init), files[|files| - 1]);
    }
  }
}

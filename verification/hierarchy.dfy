/** The in-memory metadata of an album: tracks (a dictionary of tag lists with
    the set of their names), discs (tracks keyed by track number) and the
    album (discs keyed by disc number), with the two pure helpers
    `flatten_tag` and `replace_reserved_chars`. */
module Hierarchy {
  import opened Wrappers
  import opened Text

  /** The argument `flatten_tag` is given: a tag's list of values, a plain
      string (the default of `track.get(tag, '')`), or None (the default of
      `track.get(tag)`). */
  datatype TagArg = Values(items: seq<string>) | Text(s: string) | Absent

  /** `flatten_tag(tag)`: a list becomes its items joined with "; ", anything
      else is returned unchanged. */
  function FlattenTag(a: TagArg): (r: Scalar)
    ensures a.Absent? <==> r.PyNone?
    ensures a.Text? ==> r == PyStr(a.s)
    ensures a.Values? ==> r.PyStr?
    ensures a.Values? && |a.items| == 1 ==> r == PyStr(a.items[0])
  {
    match a
    case Values(items) => PyStr(Join(items, "; "))
    case Text(s) => PyStr(s)
    case Absent => PyNone
  }

  /** Flattening loses nothing for non-empty lists whose values contain no
      ';': two such lists flatten to the same text only if they are equal. */
  lemma FlattenTagInjective(a: seq<string>, b: seq<string>)
    requires |a| > 0 && |b| > 0 && Avoids(a, ';') && Avoids(b, ';')
    requires FlattenTag(Values(a)) == FlattenTag(Values(b))
    ensures a == b
  {
    JoinInjective(a, b, "; ");
  }

  /** The characters dBpoweramp does not allow in file names. */
  predicate IsReserved(c: char)
  {
    c in {'"', '>', '<', '?', ':', '\\', '/', '*', '|'}
  }

  /** The translation table of `replace_reserved_chars`. */
  function ReplaceReservedChar(c: char): (r: char)
    ensures !IsReserved(r)
    ensures !IsReserved(c) ==> r == c
  {
    match c
    case '"' => '\''
    case '>' => '\U{BB}'
    case '<' => '\U{AB}'
    case '?' => '\U{BF}'
    case ':' => ';'
    case '\\' => '-'
    case '/' => '-'
    case '*' => '-'
    case '|' => '-'
    case _ => c
  }

  /** `replace_reserved_chars(filename)`: the same length, each reserved
      character replaced by its fixed substitute and nothing else changed, so
      the result holds no reserved character at all. */
  function ReplaceReservedChars(s: string): (r: string)
    ensures |r| == |s|
    ensures forall i :: 0 <= i < |s| ==> r[i] == ReplaceReservedChar(s[i])
    ensures forall i :: 0 <= i < |r| ==> !IsReserved(r[i])
    ensures forall i :: 0 <= i < |s| && !IsReserved(s[i]) ==> r[i] == s[i]
  {
    seq(|s|, i requires 0 <= i < |s| => ReplaceReservedChar(s[i]))
  }

  /** Replacing twice is replacing once. */
  lemma ReplaceReservedCharsIdempotent(s: string)
    ensures ReplaceReservedChars(ReplaceReservedChars(s)) == ReplaceReservedChars(s)
  {
  }

  /** Text without reserved characters passes through unchanged, and
      replacement works piecewise on a concatenation. */
  lemma ReplaceReservedCharsAppend(a: string, b: string)
    ensures ReplaceReservedChars(a + b) == ReplaceReservedChars(a) + ReplaceReservedChars(b)
  {
  }

  lemma ReplaceReservedCharsClean(s: string)
    requires forall i :: 0 <= i < |s| ==> !IsReserved(s[i])
    ensures ReplaceReservedChars(s) == s
  {
  }

  /** One FLAC file's tags: `tags` maps a tag name to its values, `tagset` is
      the set of names, `file` the file name. */
  datatype Track = Track(tags: map<string, seq<string>>, tagset: set<string>, file: string)
  {
    /** A track as `Track.__init__` builds it: its tagset is the set of its
        keys, and (as in every Vorbis comment) a tag has at least one value. */
    predicate Valid()
    {
      tagset == tags.Keys && forall k :: k in tags ==> |tags[k]| > 0
    }

    /** `track.get(tag)`. */
    function Get(tag: string): (r: TagArg)
      ensures r.Absent? <==> tag !in tags
    {
      if tag in tags then Values(tags[tag]) else Absent
    }

    /** `track.get(tag, '')`. */
    function GetOrEmpty(tag: string): (r: TagArg)
      ensures !r.Absent?
    {
      if tag in tags then Values(tags[tag]) else Text("")
    }
  }

  /** A track built from the tags read from `file`. */
  function NewTrack(tags: map<string, seq<string>>, file: string): (t: Track)
    ensures t.tags == tags && t.file == file && t.tagset == tags.Keys
  {
    Track(tags, tags.Keys, file)
  }

  /** `flatten_tag(track[tag])` for a tag the track holds. */
  function Flat(t: Track, tag: string): string
    requires tag in t.tags
  {
    Join(t.tags[tag], "; ")
  }

  /** The union of the tagsets of `tracks`. */
  function UnionTagsets(tracks: map<int, Track>): set<string>
  {
    set n, k | n in tracks && k in tracks[n].tagset :: k
  }

  /** The union of the tagsets of the tracks listed in `order`. */
  function UnionOver(tracks: map<int, Track>, order: seq<int>): set<string>
    requires forall n :: n in order ==> n in tracks
  {
    if order == [] then {}
    else
      var last := order[|order| - 1];
      assert last in order;
      UnionOver(tracks, order[..|order| - 1]) + tracks[last].tagset
  }

  lemma {:induction false} UnionOverIsUnion(tracks: map<int, Track>, order: seq<int>)
    requires forall n :: n in order ==> n in tracks
    ensures UnionOver(tracks, order) == set n, k | n in order && k in tracks[n].tagset :: k
  {
    if order != [] {
      var p := order[..|order| - 1];
      UnionOverIsUnion(tracks, p);
      assert forall n :: n in order <==> n in p || n == order[|order| - 1];
    }
  }

  lemma UnionOverAll(tracks: map<int, Track>, order: seq<int>)
    requires forall n :: n in order ==> n in tracks
    requires forall n :: n in tracks ==> n in order
    ensures UnionOver(tracks, order) == UnionTagsets(tracks)
  {
    UnionOverIsUnion(tracks, order);
  }

  /** The names in `order` are pairwise different. */
  predicate Distinct<T(==)>(order: seq<T>)
  {
    forall i, j :: 0 <= i < j < |order| ==> order[i] != order[j]
  }

  /** The state of one disc: its track numbers in insertion order, the
      tracks, the union of their tagsets, and the attributes the checks add. */
  datatype DiscView = DiscView(
    order: seq<int>,
    tracks: map<int, Track>,
    tagset: set<string>,
    common: set<string>,
    identical: Track,
    classical: bool)
  {
    /** The tracks are exactly those listed in `order`, there is at least one,
        each is a valid track, and `tagset` is the union of theirs. */
    predicate Valid()
    {
      && |order| > 0
      && Distinct(order)
      && (forall n :: n in tracks ==> n in order) && (forall n :: n in order ==> n in tracks)
      && (forall n :: n in tracks ==> tracks[n].Valid())
      && tagset == UnionTagsets(tracks)
    }
  }

  /** The disc's tracks in iteration order. */
  function TracksInOrder(v: DiscView): (r: seq<Track>)
    requires forall n :: n in v.order ==> n in v.tracks
    ensures |r| == |v.order|
    ensures forall i :: 0 <= i < |r| ==> v.order[i] in v.tracks && r[i] == v.tracks[v.order[i]]
  {
    InOrder(v.tracks, v.order)
  }

  function InOrder(tracks: map<int, Track>, order: seq<int>): (r: seq<Track>)
    requires forall n :: n in order ==> n in tracks
    ensures |r| == |order|
    ensures forall i :: 0 <= i < |r| ==> order[i] in tracks && r[i] == tracks[order[i]]
  {
    if order == [] then []
    else
      var first := order[0];
      assert first in order;
      [tracks[first]] + InOrder(tracks, order[1..])
  }

  /** A disc: a dictionary of tracks keyed by track number whose insertion
      order is `order`. */
  class Disc {
    var order: seq<int>
    var tracks: map<int, Track>
    var tagset: set<string>
    var common: set<string>
    var identical: Track
    var classical: bool

    function View(): DiscView
      reads this
    {
      DiscView(order, tracks, tagset, common, identical, classical)
    }

    predicate Valid()
      reads this
    {
      View().Valid()
    }

    /** `Disc({tracknumber: track})`. */
    constructor (tracknumber: int, track: Track)
      ensures order == [tracknumber] && tracks == map[tracknumber := track] && tagset == {}
      ensures common == {} && identical == Track(map[], {}, "") && !classical
    {
      order := [tracknumber];
      tracks := map[tracknumber := track];
      tagset := {};
      common := {};
      identical := Track(map[], {}, "");
      classical := false;
    }

    /** `disc[tracknumber] = track` for a new track number. */
    method Insert(tracknumber: int, track: Track)
      requires tracknumber !in tracks
      modifies this`order, this`tracks
      ensures order == old(order) + [tracknumber] && tracks == old(tracks)[tracknumber := track]
    {
      order := order + [tracknumber];
      tracks := tracks[tracknumber := track];
    }

    /** `disc.tagset |= track.tagset` for every track. */
    method CollectTagsets()
      requires forall n :: n in order ==> n in tracks
      requires forall n :: n in tracks ==> n in order
      modifies this`tagset
      ensures tagset == old(tagset) + UnionTagsets(tracks)
    {
      var i := 0;
      while i < |order|
        invariant 0 <= i <= |order|
        invariant tagset == old(tagset) + UnionOver(tracks, order[..i])
        invariant forall n :: n in order ==> n in tracks
      {
        assert order[..i + 1][..i] == order[..i];
        var n := order[i];
        assert n in order;
        tagset := tagset + tracks[n].tagset;
        i := i + 1;
      }
      assert order[..i] == order;
      UnionOverAll(tracks, order);
    }
  }

  /** The state of an album: its disc numbers in insertion order and the
      discs, with the union of their tagsets. */
  datatype AlbumView = AlbumView(order: seq<int>, discs: map<int, DiscView>, tagset: set<string>)
  {
    predicate Valid()
    {
      && Distinct(order)
      && (forall n :: n in discs ==> n in order) && (forall n :: n in order ==> n in discs)
      && (forall n :: n in discs ==> discs[n].Valid())
      && tagset == set n, k | n in discs && k in discs[n].tagset :: k
    }
  }

  /** An album: a dictionary of discs keyed by disc number, plus the
      attributes the scripts attach to it. */
  class Album {
    var path: string
    var order: seq<int>
    var discs: map<int, Disc>
    var tagset: set<string>
    var discCount: Scalar
    var common: Option<set<string>>
    var identical: Option<Track>
    var classical: bool
    var compilation: bool
    var newPath: string
    var oldFiles: map<string, string>
    var newFiles: map<string, string>

    /** No disc object is filed under two disc numbers. */
    predicate DistinctDiscs()
      reads this
    {
      forall i, j :: i in discs && j in discs && i != j ==> discs[i] != discs[j]
    }

    function View(): AlbumView
      reads this, discs.Values
    {
      AlbumView(order, map n | n in discs :: discs[n].View(), tagset)
    }

    predicate Valid()
      reads this, discs.Values
    {
      DistinctDiscs() && View().Valid()
    }

    constructor (path: string)
      ensures this.path == path && order == [] && discs == map[] && tagset == {}
      ensures common == None && identical == None && oldFiles == map[] && newFiles == map[]
    {
      this.path := path;
      order := [];
      discs := map[];
      tagset := {};
      discCount := PyInt(0);
      common := None;
      identical := None;
      classical := false;
      compilation := false;
      newPath := "";
      oldFiles := map[];
      newFiles := map[];
    }
  }

  /** Changing neither the album's discs nor anything in them leaves its
      view, and its validity, as they were. */
  twostate lemma ViewKept(album: Album)
    requires unchanged(album`order, album`discs, album`tagset)
    requires forall d :: d in album.discs.Values ==> unchanged(d)
    ensures album.View() == old(album.View())
    ensures album.Valid() == old(album.Valid())
  {
    forall n | n in album.discs
      ensures album.discs[n].View() == old(album.discs[n].View())
    {
      assert album.discs[n] in album.discs.Values;
    }
    assert album.View().discs == old(album.View().discs);
  }
}

/** The static tables of the tag checker: the catalog of known tags with their
    kind, qualifier and multivalue flag, the sets derived from it by
    comprehension, the obsolete-to-current tag mapping, the tag/sort-tag pairs,
    and the command-line switches the checks read. */
module TagCatalog {

  /** Whether a tag must be present (always, or only on classical discs), may
      be present, or is an obsolete name for another tag. */
  datatype Kind = Required | ReqClassical | Optional | Mapped

  /** Whether a tag's value must agree across the album, within a disc, must
      differ between tracks, or is not compared. */
  datatype Qual = AllSame | DiscSame | AllDiff | Ignored

  datatype Entry = Entry(kind: Kind, qual: Qual, multivalued: bool)

  /** `known_tags`, entry by entry in the order of the dictionary literal:
      (tag name, kind, qualifier, multivalued). */
  const Catalog: seq<(string, Entry)> := CatalogA + CatalogB + CatalogC

  const CatalogA: seq<(string, Entry)> := [
    ("accurateripdiscid",     Entry(Required,     AllDiff,  false)),
    ("accurateripresult",     Entry(Required,     Ignored,  false)),
    ("album",                 Entry(Required,     AllSame,  false)),
    ("album artist sort",     Entry(Required,     AllSame,  false)),
    ("albumartist",           Entry(Required,     AllSame,  false)),
    ("albumartistterse",      Entry(ReqClassical, AllSame,  false)),
    ("artist sort",           Entry(Optional,     Ignored,  true)),
    ("artist",                Entry(Required,     Ignored,  true)),
    ("artistterse",           Entry(ReqClassical, Ignored,  false)),
    ("catalog #",             Entry(Optional,     Ignored,  false)),
    ("cddb disc id",          Entry(Required,     DiscSame, false)),
    ("cdgap",                 Entry(Required,     AllDiff,  false)),
    ("cdindex",               Entry(Required,     AllDiff,  false)),
    ("cdtoc",                 Entry(Required,     DiscSame, false)),
    ("comment",               Entry(Optional,     Ignored,  false)),
    ("compilation",           Entry(Optional,     AllSame,  false)),
    ("composer",              Entry(Required,     Ignored,  true)),
    ("composersort",          Entry(ReqClassical, Ignored,  true)),
    ("composerterse",         Entry(ReqClassical, Ignored,  false))
  ]

  const CatalogB: seq<(string, Entry)> := [
    ("conductor",             Entry(Optional,     Ignored,  false)),
    ("conductorsort",         Entry(Optional,     Ignored,  false)),
    ("crc",                   Entry(Required,     Ignored,  false)),
    ("date",                  Entry(Required,     AllSame,  false)),
    ("description",           Entry(Optional,     Ignored,  false)),
    ("discnumber",            Entry(Required,     DiscSame, false)),
    ("disctotal",             Entry(Required,     AllSame,  false)),
    ("encoded by",            Entry(Required,     AllSame,  false)),
    ("encoder",               Entry(Required,     AllSame,  false)),
    ("encoder settings",      Entry(Required,     AllSame,  false)),
    ("genre",                 Entry(Required,     DiscSame, false)),
    ("hdcd",                  Entry(Optional,     Ignored,  false)),
    ("instrument",            Entry(Optional,     Ignored,  false)),
    ("isrc",                  Entry(Optional,     Ignored,  false)),
    ("label",                 Entry(Required,     AllSame,  false)),
    ("length",                Entry(Required,     Ignored,  false)),
    ("mbid",                  Entry(Optional,     Ignored,  false)),
    ("orchestra",             Entry(Optional,     Ignored,  false)),
    ("organization",          Entry(Mapped,       AllSame,  false))
  ]

  const CatalogC: seq<(string, Entry)> := [
    ("performer",             Entry(Optional,     Ignored,  false)),
    ("period",                Entry(ReqClassical, Ignored,  false)),
    ("pre-emphasis",          Entry(Optional,     Ignored,  false)),
    ("profile",               Entry(Required,     AllSame,  false)),
    ("rating",                Entry(Optional,     Ignored,  false)),
    ("replaygain_album_gain", Entry(Required,     DiscSame, false)),
    ("replaygain_album_peak", Entry(Required,     DiscSame, false)),
    ("replaygain_track_gain", Entry(Required,     Ignored,  false)),
    ("replaygain_track_peak", Entry(Required,     Ignored,  false)),
    ("soloists",              Entry(Optional,     Ignored,  true)),
    ("soloistssort",          Entry(Optional,     Ignored,  true)),
    ("source",                Entry(Required,     AllSame,  false)),
    ("style",                 Entry(Optional,     AllSame,  true)),
    ("title",                 Entry(Required,     Ignored,  false)),
    ("totaldiscs",            Entry(Mapped,       AllSame,  false)),
    ("totaltracks",           Entry(Mapped,       DiscSame, false)),
    ("tracknumber",           Entry(Required,     Ignored,  false)),
    ("tracktotal",            Entry(Required,     DiscSame, false)),
    ("upc",                   Entry(Required,     DiscSame, false))
  ]

  /** `known_tags_set`. */
  const KnownTagsSet: set<string> := set i | 0 <= i < |Catalog| :: Catalog[i].0

  const RequiredTags: set<string> :=
    set i | 0 <= i < |Catalog| && Catalog[i].1.kind == Required :: Catalog[i].0

  const RequiredClassicalTags: set<string> :=
    RequiredTags + set i | 0 <= i < |Catalog| && Catalog[i].1.kind == ReqClassical :: Catalog[i].0

  const OptionalTags: set<string> :=
    set i | 0 <= i < |Catalog| && Catalog[i].1.kind == Optional :: Catalog[i].0

  const IdenticalTagsAcrossDiscs: set<string> :=
    set i | 0 <= i < |Catalog| && Catalog[i].1.qual == AllSame :: Catalog[i].0

  const IdenticalTagsWithinDisc: set<string> :=
    set i | 0 <= i < |Catalog| && Catalog[i].1.qual in {AllSame, DiscSame} :: Catalog[i].0

  const DifferentTags: set<string> :=
    set i | 0 <= i < |Catalog| && Catalog[i].1.qual == AllDiff :: Catalog[i].0

  const AllowedMultivaluedTags: set<string> :=
    set i | 0 <= i < |Catalog| && Catalog[i].1.multivalued :: Catalog[i].0

  /** `mapped_tags`, in the order the dictionary literal lists it:
      (obsolete tag, current tag). */
  const MappedTags: seq<(string, string)> :=
    [("organization", "label"), ("totaldiscs", "disctotal"), ("totaltracks", "tracktotal")]

  /** `sorted_tags`, in the order the dictionary literal lists it:
      (tag, its sort variant). */
  const SortedTags: seq<(string, string)> :=
    [("artist", "artist sort"), ("albumartist", "album artist sort"), ("composer", "composersort"),
     ("conductor", "conductorsort"), ("soloists", "soloistssort")]

  /** `test_leading_The_tags`. */
  const LeadingTheTags: seq<string> := ["artist", "albumartist", "composer"]

  /** The members of `different_tags` in catalog order: the order in which
      the must-differ check visits them. */
  const DifferentTagsOrder: seq<string> := ["accurateripdiscid", "cdgap", "cdindex"]

  /** The command-line switches of the tag checker that the checks read:
      `--missing`, `--mapping`, `--sort-tag-mismatch`, `--no-sort-tag` and the
      set built from the `--tag` arguments. */
  datatype CheckOptions = CheckOptions(
    missing: bool,
    mapping: bool,
    sortTagMismatch: bool,
    noSortTag: bool,
    selected: set<string>)

  /** The derived sets come from the catalog alone and nest as their
      definitions say. */
  lemma DerivedSetsNest()
    ensures RequiredTags <= RequiredClassicalTags <= KnownTagsSet
    ensures IdenticalTagsAcrossDiscs <= IdenticalTagsWithinDisc <= KnownTagsSet
    ensures OptionalTags <= KnownTagsSet && DifferentTags <= KnownTagsSet
    ensures AllowedMultivaluedTags <= KnownTagsSet
  {
  }

  /** `name` is catalogued with entry `e`. */
  ghost predicate Catalogued(name: string, e: Entry)
  {
    exists i :: 0 <= i < |Catalog| && Catalog[i] == (name, e)
  }

  /** Where each part of the catalog sits in the whole. */
  lemma CatalogAAt(i: int)
    requires 0 <= i < |CatalogA|
    ensures Catalog[i] == CatalogA[i]
  {
  }

  lemma CatalogBAt(i: int)
    requires 0 <= i < |CatalogB|
    ensures Catalog[|CatalogA| + i] == CatalogB[i]
  {
  }

  lemma CatalogCAt(i: int)
    requires 0 <= i < |CatalogC|
    ensures Catalog[|CatalogA| + |CatalogB| + i] == CatalogC[i]
  {
  }

  /** Every obsolete tag is catalogued as `Mapped`, its replacement as
      `Required`, and the two carry the same qualifier and multivalue flag, so
      copying the old value to the new tag keeps every check's expectations. */
  lemma MappedTagsCompatible()
    ensures forall m :: 0 <= m < |MappedTags| ==>
      exists q: Qual, mv: bool :: Catalogued(MappedTags[m].0, Entry(Mapped, q, mv)) &&
        Catalogued(MappedTags[m].1, Entry(Required, q, mv))
  {
    CatalogBAt(18);
    assert CatalogB[18] == ("organization", Entry(Mapped, AllSame, false));
    CatalogBAt(14);
    assert CatalogB[14] == ("label", Entry(Required, AllSame, false));
    CatalogCAt(14);
    assert CatalogC[14] == ("totaldiscs", Entry(Mapped, AllSame, false));
    CatalogBAt(6);
    assert CatalogB[6] == ("disctotal", Entry(Required, AllSame, false));
    CatalogCAt(15);
    assert CatalogC[15] == ("totaltracks", Entry(Mapped, DiscSame, false));
    CatalogCAt(17);
    assert CatalogC[17] == ("tracktotal", Entry(Required, DiscSame, false));
  }

  /** The tag and the sort tag of a pair are both catalogued, and agree on
      whether several values are allowed. */
  ghost predicate PairAgrees(p: (string, string))
  {
    exists e: Entry, f: Entry :: Catalogued(p.0, e) && Catalogued(p.1, f) && e.multivalued == f.multivalued
  }

  /** Catalogue rows `i` and `j` witness that the pair `p` agrees. */
  lemma PairedAt(p: (string, string), i: int, j: int)
    requires 0 <= i < |Catalog| && 0 <= j < |Catalog|
    requires Catalog[i].0 == p.0 && Catalog[j].0 == p.1
    requires Catalog[i].1.multivalued == Catalog[j].1.multivalued
    ensures PairAgrees(p)
  {
    assert Catalogued(p.0, Catalog[i].1);
    assert Catalogued(p.1, Catalog[j].1);
  }

  lemma SortPair0Agrees()
    ensures PairAgrees(("artist", "artist sort"))
  {
    CatalogAAt(7);
    CatalogAAt(6);
    PairedAt(("artist", "artist sort"), 7, 6);
  }

  lemma SortPair1Agrees()
    ensures PairAgrees(("albumartist", "album artist sort"))
  {
    CatalogAAt(4);
    CatalogAAt(3);
    PairedAt(("albumartist", "album artist sort"), 4, 3);
  }

  lemma SortPair2Agrees()
    ensures PairAgrees(("composer", "composersort"))
  {
    CatalogAAt(16);
    CatalogAAt(17);
    PairedAt(("composer", "composersort"), 16, 17);
  }

  lemma SortPair3Agrees()
    ensures PairAgrees(("conductor", "conductorsort"))
  {
    CatalogBAt(0);
    CatalogBAt(1);
    PairedAt(("conductor", "conductorsort"), 19, 20);
  }

  lemma SortPair4Agrees()
    ensures PairAgrees(("soloists", "soloistssort"))
  {
    CatalogCAt(9);
    CatalogCAt(10);
    PairedAt(("soloists", "soloistssort"), 47, 48);
  }

  /** Every tag and its sort variant are catalogued, and agree on whether
      several values are allowed, so they can be paired value by value. */
  lemma SortedTagsPaired()
    ensures forall m :: 0 <= m < |SortedTags| ==> PairAgrees(SortedTags[m])
  {
    forall m | 0 <= m < |SortedTags|
      ensures PairAgrees(SortedTags[m])
    {
      if m == 0 {
        assert SortedTags[m] == ("artist", "artist sort");
        SortPair0Agrees();
      } else if m == 1 {
        assert SortedTags[m] == ("albumartist", "album artist sort");
        SortPair1Agrees();
      } else if m == 2 {
        assert SortedTags[m] == ("composer", "composersort");
        SortPair2Agrees();
      } else if m == 3 {
        assert SortedTags[m] == ("conductor", "conductorsort");
        SortPair3Agrees();
      } else {
        assert SortedTags[m] == ("soloists", "soloistssort");
        SortPair4Agrees();
      }
    }
  }

  /** The must-differ tags are exactly the three AccurateRip/CD-layout tags,
      listed once each in `DifferentTagsOrder`. */
  lemma DifferentTagsOrderIsDifferentTags()
    ensures DifferentTags == set t | t in DifferentTagsOrder
    ensures forall i, j :: 0 <= i < j < |DifferentTagsOrder| ==> DifferentTagsOrder[i] != DifferentTagsOrder[j]
  {
    CatalogAAt(0);
    assert CatalogA[0] == ("accurateripdiscid", Entry(Required, AllDiff, false));
    CatalogAAt(11);
    assert CatalogA[11] == ("cdgap", Entry(Required, AllDiff, false));
    CatalogAAt(12);
    assert CatalogA[12] == ("cdindex", Entry(Required, AllDiff, false));
  }
}

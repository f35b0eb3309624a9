/** The two album-level checks run right after the album is assembled:
    `check_disc_numbers`, which compares every track's disc total with the
    disc numbers present, and `check_identical_tags_across_discs`, which
    compares the first value of each across-disc tag from disc to disc. */
module AlbumChecks {
  import opened Wrappers
  import opened Text
  import opened MessageSink
  import opened Hierarchy
  import opened Sorting
  import opened TagCatalog
  import opened DiscScan
  import opened TrackChecks

  // ------------------------------------------------------------ disc total

  /** The disc total the loop reads from a track: the flattened
      `disctotal`, else the flattened obsolete `totaldiscs` (None when that
      is missing too), turned into an int when `int()` accepts it. */
  function DisctotalOf(t: Track): (r: Scalar)
    ensures "disctotal" !in t.tags && "totaldiscs" !in t.tags ==> r == PyNone
    ensures "disctotal" in t.tags ==>
      r == (match ParseInt(Flat(t, "disctotal")) case Some(c) => PyInt(c) case None => PyStr(Flat(t, "disctotal")))
  {
    var raw := if "disctotal" in t.tags then FlattenTag(t.Get("disctotal")) else FlattenTag(t.Get("totaldiscs"));
    if raw.PyStr? && ParseInt(raw.s).Some? then PyInt(ParseInt(raw.s).value) else raw
  }

  /** Python's kinds of value: None, int and str. */
  function Kind(s: Scalar): int
  {
    match s
    case PyNone => 0
    case PyInt(_) => 1
    case PyStr(_) => 2
  }

  /** `<` on values of one kind. Python refuses to compare values of
      different kinds; the order placed on those here is only there to make
      the relation total, and is never used on such values. */
  function ScalarLess(a: Scalar, b: Scalar): bool
  {
    if Kind(a) != Kind(b) then Kind(a) < Kind(b)
    else if a.PyInt? then a.i < b.i
    else if a.PyStr? then StrLess(a.s, b.s)
    else false
  }

  lemma ScalarLessIsTotal()
    ensures StrictTotalOrder(ScalarLess)
  {
    StrLessIsTotal();
    forall a: Scalar, b: Scalar | Kind(a) == Kind(b) && a.PyStr?
      ensures a == b || ScalarLess(a, b) || ScalarLess(b, a)
    {
      assert a.s == b.s || StrLess(a.s, b.s) || StrLess(b.s, a.s);
    }
  }

  /** The keys hold values of two different kinds, so `sorted` raises a
      TypeError on them. */
  predicate Mixed(keys: set<Scalar>)
  {
    exists a, b :: a in keys && b in keys && Kind(a) != Kind(b)
  }

  // ------------------------------------------------------------ the pairs

  /** Every disc listed in `order` is filed in `discs`, and lists its own
      tracks. */
  predicate DiscsListed(discs: map<int, DiscView>, order: seq<int>)
  {
    forall d :: d in order ==> d in discs && Listed(discs[d].tracks, discs[d].order)
  }

  lemma ValidListed(v: AlbumView)
    requires v.Valid()
    ensures DiscsListed(v.discs, v.order)
  {
  }

  /** The `(disctotal, (disc, track))` entries one disc contributes, in
      track order. */
  function DiscPairs(d: int, tracks: map<int, Track>, order: seq<int>): seq<(Scalar, (int, int))>
    requires Listed(tracks, order)
  {
    if order == [] then []
    else
      var last := order[|order| - 1];
      assert last in order;
      DiscPairs(d, tracks, order[..|order| - 1]) + [(DisctotalOf(tracks[last]), (d, last))]
  }

  /** The entries of all discs, in disc order. */
  function AlbumPairs(discs: map<int, DiscView>, order: seq<int>): seq<(Scalar, (int, int))>
    requires DiscsListed(discs, order)
  {
    if order == [] then []
    else
      var last := order[|order| - 1];
      assert last in order;
      var init := order[..|order| - 1];
      assert forall d :: d in init ==> d in order;
      AlbumPairs(discs, init) + DiscPairs(last, discs[last].tracks, discs[last].order)
  }

  lemma {:induction false} DiscPairsIn(d: int, tracks: map<int, Track>, order: seq<int>, k: Scalar, e: int, n: int)
    requires Listed(tracks, order)
    ensures (k, (e, n)) in DiscPairs(d, tracks, order) <==> e == d && n in order && DisctotalOf(tracks[n]) == k
  {
    if order != [] {
      var init := order[..|order| - 1];
      var last := order[|order| - 1];
      assert order == init + [last];
      assert forall x :: x in init ==> x in order;
      DiscPairsIn(d, tracks, init, k, e, n);
      assert DiscPairs(d, tracks, order) == DiscPairs(d, tracks, init) + [(DisctotalOf(tracks[last]), (d, last))];
      assert n in order <==> n in init || n == last;
    }
  }

  /** An entry is made exactly for each listed track of each listed disc,
      under that track's disc total. */
  lemma {:induction false} AlbumPairsIn(discs: map<int, DiscView>, order: seq<int>, k: Scalar, e: int, n: int)
    requires DiscsListed(discs, order)
    ensures (k, (e, n)) in AlbumPairs(discs, order) <==>
      e in order && n in discs[e].order && DisctotalOf(discs[e].tracks[n]) == k
  {
    if order != [] {
      var init := order[..|order| - 1];
      var last := order[|order| - 1];
      assert order == init + [last];
      assert forall d :: d in init ==> d in order;
      AlbumPairsIn(discs, init, k, e, n);
      DiscPairsIn(last, discs[last].tracks, discs[last].order, k, e, n);
    }
  }

  /** The `disctotals` dictionary: each disc total with the set of slots
      that carry it. */
  function Totals(ps: seq<(Scalar, (int, int))>): map<Scalar, set<(int, int)>>
  {
    if ps == [] then map[]
    else
      var t := Totals(ps[..|ps| - 1]);
      var p := ps[|ps| - 1];
      t[p.0 := (if p.0 in t then t[p.0] else {}) + {p.1}]
  }

  /** A disc total is a key exactly when an entry carries it, and its slots
      are exactly the slots of those entries. */
  lemma {:induction false} TotalsIn(ps: seq<(Scalar, (int, int))>, k: Scalar, slot: (int, int))
    ensures (k, slot) in ps ==> k in Totals(ps)
    ensures k in Totals(ps) ==> exists s :: (k, s) in ps
    ensures k in Totals(ps) ==> (slot in Totals(ps)[k] <==> (k, slot) in ps)
  {
    if ps != [] {
      var init := ps[..|ps| - 1];
      var p := ps[|ps| - 1];
      assert ps == init + [p];
      TotalsIn(init, k, slot);
      if k in Totals(ps) && k != p.0 {
        var s :| (k, s) in init;
        assert (k, s) in ps;
      }
      if k in Totals(ps) && k == p.0 {
        assert (k, p.1) in ps;
      }
    }
  }

  // ------------------------------------------------------------ the report

  /** What `check_disc_numbers` leaves behind: the `disc_count` it sets
      (None when it raises before setting it), whether it raises, and its
      lines. */
  datatype DiscReport = DiscReport(discCount: Option<Scalar>, outcome: Outcome, lines: seq<Diag>)

  /** `set(range(1, c + 1))`. */
  function Expected(c: int): (s: set<int>)
    ensures forall i :: i in s <==> 1 <= i <= c
  {
    var r := OneTo(c);
    set i | i in r
  }

  /** `list(range(1, c + 1))`. */
  function OneTo(c: int): (r: seq<int>)
    ensures forall i :: i in r <==> 1 <= i <= c
  {
    if c <= 0 then [] else OneTo(c - 1) + [c]
  }

  /** The comparison of the disc count with the disc numbers `present`: a
      TypeError when the count is not an int, else the missing and the
      unexpected disc numbers, each reported when there are any. */
  function RangeLines(count: Scalar, present: set<int>): (r: (Outcome, seq<Diag>))
    ensures r.0 == Done <==> count.PyInt?
  {
    match count
    case PyInt(c) =>
      var missing := Expected(c) - present;
      var extra := present - Expected(c);
      (Done, (if missing != {} then [MissingDiscs(missing)] else []) + (if extra != {} then [UnexpectedDiscs(extra)] else []))
    case _ => (Raised(TypeError), [])
  }

  /** The missing discs are the expected numbers absent from the album, the
      unexpected ones the present numbers outside `1..c`; no number is both. */
  lemma RangeMeaning(c: int, present: set<int>, s: set<int>)
    ensures MissingDiscs(s) in RangeLines(PyInt(c), present).1 <==>
      s != {} && forall i :: i in s <==> 1 <= i <= c && i !in present
    ensures UnexpectedDiscs(s) in RangeLines(PyInt(c), present).1 <==>
      s != {} && forall i :: i in s <==> i in present && !(1 <= i <= c)
    ensures forall i :: !(i in Expected(c) - present && i in present - Expected(c))
  {
    var missing := Expected(c) - present;
    var extra := present - Expected(c);
    if s != {} && forall i :: i in s <==> 1 <= i <= c && i !in present {
      assert s == missing;
    }
    if s != {} && forall i :: i in s <==> i in present && !(1 <= i <= c) {
      assert s == extra;
    }
  }

  /** One line per disc total, in the order of the sorted totals. */
  function SlotLines(totals: map<Scalar, set<(int, int)>>, keys: seq<Scalar>): (ds: seq<Diag>)
    requires forall k :: k in keys ==> k in totals
    ensures |ds| == |keys| && forall i :: 0 <= i < |keys| ==> ds[i] == DisctotalSlots(keys[i], totals[keys[i]])
  {
    seq(|keys|, i requires 0 <= i < |keys| => DisctotalSlots(keys[i], totals[keys[i]]))
  }

  /** The report, given the disc numbers in order, the set of them, and the
      `disctotals` dictionary. */
  ghost function ReportFrom(order: seq<int>, present: set<int>, totals: map<Scalar, set<(int, int)>>): DiscReport
  {
    if |totals.Keys| != 1 then
      if Mixed(totals.Keys) then DiscReport(None, Raised(TypeError), [InconsistentDisctotal])
      else InconsistentReport(order, present, totals)
    else OneTotalReport(present, totals)
  }

  /** Totals of one kind but not a single one: the count falls back to the
      largest disc number (1 without discs), after a line per total. */
  ghost function InconsistentReport(order: seq<int>, present: set<int>, totals: map<Scalar, set<(int, int)>>): DiscReport
  {
    var count := if order == [] then PyInt(1) else PyInt(MaxOf(order));
    var keys := SetToSorted(totals.Keys, ScalarLess);
    assert forall k :: k in keys ==> k in multiset(keys);
    var r := RangeLines(count, present);
    DiscReport(Some(count), r.0, [InconsistentDisctotal] + SlotLines(totals, keys) + r.1)
  }

  /** A single total: it is the count. */
  ghost function OneTotalReport(present: set<int>, totals: map<Scalar, set<(int, int)>>): DiscReport
    requires |totals.Keys| == 1
  {
    var k :| k in totals.Keys;
    var r := RangeLines(k, present);
    DiscReport(Some(k), r.0, r.1)
  }

  /** What `check_disc_numbers(album)` does to the album with discs `discs`
      listed in `order`. */
  ghost function DiscNumbers(discs: map<int, DiscView>, order: seq<int>): DiscReport
    requires DiscsListed(discs, order)
  {
    ReportFrom(order, discs.Keys, DiscTotals(discs, order))
  }

  /** The `disctotals` dictionary of the album. */
  ghost function DiscTotals(discs: map<int, DiscView>, order: seq<int>): map<Scalar, set<(int, int)>>
    requires DiscsListed(discs, order)
  {
    Totals(AlbumPairs(discs, order))
  }

  /** Track `n` of disc `d` is listed and carries the disc total `k`. */
  ghost predicate Carries(discs: map<int, DiscView>, order: seq<int>, d: int, n: int, k: Scalar)
    requires DiscsListed(discs, order)
  {
    d in order && n in discs[d].order && DisctotalOf(discs[d].tracks[n]) == k
  }

  /** A disc total some track carries is a key of the dictionary, and that
      track is among its slots. */
  lemma CarriedIsKey(discs: map<int, DiscView>, order: seq<int>, k: Scalar, d: int, n: int)
    requires DiscsListed(discs, order) && Carries(discs, order, d, n, k)
    ensures k in DiscTotals(discs, order) && (d, n) in DiscTotals(discs, order)[k]
  {
    AlbumPairsIn(discs, order, k, d, n);
    TotalsIn(AlbumPairs(discs, order), k, (d, n));
  }

  /** Every key of the dictionary is carried by some track, and its slots
      are exactly the tracks that carry it. */
  lemma KeyIsCarried(discs: map<int, DiscView>, order: seq<int>, k: Scalar, d: int, n: int)
    requires DiscsListed(discs, order) && k in DiscTotals(discs, order)
    ensures exists e, m :: Carries(discs, order, e, m, k)
    ensures (d, n) in DiscTotals(discs, order)[k] <==> Carries(discs, order, d, n, k)
  {
    var ps := AlbumPairs(discs, order);
    AlbumPairsIn(discs, order, k, d, n);
    TotalsIn(ps, k, (d, n));
    var s :| (k, s) in ps;
    AlbumPairsIn(discs, order, k, s.0, s.1);
    assert Carries(discs, order, s.0, s.1, k);
  }

  /** A single disc total `k` becomes the disc count, and only the range
      comparison follows. */
  lemma ReportOfOneTotal(order: seq<int>, present: set<int>, totals: map<Scalar, set<(int, int)>>, k: Scalar)
    requires totals.Keys == {k}
    ensures ReportFrom(order, present, totals) == DiscReport(Some(k), RangeLines(k, present).0, RangeLines(k, present).1)
  {
    assert |totals.Keys| == 1;
  }

  /** A set of one element holds nothing else. */
  lemma Singleton<T>(s: set<T>, k: T)
    requires |s| == 1 && k in s
    ensures s == {k}
  {
    assert |s - {k}| == 0;
  }

  /** Anything but a single disc total is reported as inconsistent; with
      totals of mixed kinds that is all that happens before the TypeError. */
  lemma ReportOfSeveralTotals(order: seq<int>, present: set<int>, totals: map<Scalar, set<(int, int)>>)
    requires |totals.Keys| != 1
    ensures |ReportFrom(order, present, totals).lines| > 0 && ReportFrom(order, present, totals).lines[0] == InconsistentDisctotal
    ensures Mixed(totals.Keys) ==> ReportFrom(order, present, totals) == DiscReport(None, Raised(TypeError), [InconsistentDisctotal])
    ensures !Mixed(totals.Keys) ==> ReportFrom(order, present, totals).discCount.Some?
  {
  }

  /** Without mixed kinds, the line after the first names the `i`-th
      smallest disc total and the slots that carry it. */
  lemma SlotLineOfSeveralTotals(order: seq<int>, present: set<int>, totals: map<Scalar, set<(int, int)>>, i: int)
    requires |totals.Keys| != 1 && !Mixed(totals.Keys)
    requires 0 <= i < |totals.Keys|
    ensures var keys := SetToSorted(totals.Keys, ScalarLess);
      && Sorted(keys, ScalarLess) && |keys| == |totals.Keys|
      && keys[i] in totals
      && ReportFrom(order, present, totals).lines[i + 1] == DisctotalSlots(keys[i], totals[keys[i]])
  {
    var keys := SetToSorted(totals.Keys, ScalarLess);
    SortedTotals(totals);
    assert ReportFrom(order, present, totals).lines == InconsistentReport(order, present, totals).lines;
    assert InconsistentReport(order, present, totals).lines[i + 1] == SlotLines(totals, keys)[i];
  }

  /** The disc totals in sorted order are exactly the keys of `totals`. */
  lemma SortedTotals(totals: map<Scalar, set<(int, int)>>)
    ensures var keys := SetToSorted(totals.Keys, ScalarLess);
      && Sorted(keys, ScalarLess) && |keys| == |totals.Keys|
      && forall k :: k in keys ==> k in totals
  {
    var keys := SetToSorted(totals.Keys, ScalarLess);
    assert |keys| == |multiset(keys)| == |totals.Keys|;
    ScalarLessIsTotal();
    SetToSortedSorted(totals.Keys, ScalarLess);
    assert forall k :: k in keys ==> k in multiset(keys);
  }

  /** When every track carries the same disc total `k`: nothing is
      inconsistent, the disc count becomes `k`, and the check raises exactly
      when `k` is not an int; with an int, only missing and unexpected disc
      numbers are reported. */
  lemma AgreeingTotals(discs: map<int, DiscView>, order: seq<int>, k: Scalar, d0: int, n0: int)
    requires DiscsListed(discs, order)
    requires Carries(discs, order, d0, n0, k)
    requires forall d, n :: d in order && n in discs[d].order ==> DisctotalOf(discs[d].tracks[n]) == k
    ensures DiscNumbers(discs, order).discCount == Some(k)
    ensures DiscNumbers(discs, order).outcome == Done <==> k.PyInt?
    ensures DiscNumbers(discs, order).lines == RangeLines(k, discs.Keys).1
  {
    var totals := DiscTotals(discs, order);
    CarriedIsKey(discs, order, k, d0, n0);
    forall j | j in totals ensures j == k {
      KeyIsCarried(discs, order, j, d0, n0);
    }
    assert totals.Keys == {k};
    ReportOfOneTotal(order, discs.Keys, totals, k);
  }

  /** Two tracks with different disc totals make the disc totals
      inconsistent: the first line says so; when one is an int and the other
      not (or None and a string), the check raises a TypeError right after
      that line, without setting the disc count. */
  lemma DisagreeingTotals(discs: map<int, DiscView>, order: seq<int>, a: Scalar, b: Scalar, d1: int, n1: int, d2: int, n2: int)
    requires DiscsListed(discs, order)
    requires Carries(discs, order, d1, n1, a) && Carries(discs, order, d2, n2, b) && a != b
    ensures |DiscNumbers(discs, order).lines| > 0 && DiscNumbers(discs, order).lines[0] == InconsistentDisctotal
    ensures Kind(a) != Kind(b) ==> DiscNumbers(discs, order) == DiscReport(None, Raised(TypeError), [InconsistentDisctotal])
  {
    var totals := DiscTotals(discs, order);
    CarriedIsKey(discs, order, a, d1, n1);
    CarriedIsKey(discs, order, b, d2, n2);
    SubsetCard({a, b}, totals.Keys);
    ReportOfSeveralTotals(order, discs.Keys, totals);
    if Kind(a) != Kind(b) {
      assert Mixed(totals.Keys);
    }
  }

  lemma SubsetCard<T>(a: set<T>, b: set<T>)
    requires a <= b
    ensures |a| <= |b|
  {
    assert b == a + (b - a);
  }

  // ------------------------------------------------------------ methods

  /** The inner loop of `check_disc_numbers` over one disc's tracks. */
  method DiscPairsOf(d: int, disc: Disc) returns (ps: seq<(Scalar, (int, int))>)
    requires Listed(disc.tracks, disc.order)
    ensures ps == DiscPairs(d, disc.tracks, disc.order)
  {
    ps := [];
    var i := 0;
    while i < |disc.order|
      invariant 0 <= i <= |disc.order|
      invariant ps == DiscPairs(d, disc.tracks, disc.order[..i])
    {
      ListedAt(disc.tracks, disc.order, i);
      var n := disc.order[i];
      ps := ps + [(DisctotalOf(disc.tracks[n]), (d, n))];
      i := i + 1;
    }
    assert disc.order[..i] == disc.order;
  }

  /** The entries of the first `j + 1` discs extend those of the first `j`
      with the entries of disc `order[j]`. */
  lemma AlbumPairsStep(discs: map<int, DiscView>, order: seq<int>, j: int)
    requires DiscsListed(discs, order) && 0 <= j < |order|
    ensures order[j] in discs && DiscsListed(discs, order[..j]) && DiscsListed(discs, order[..j + 1])
    ensures AlbumPairs(discs, order[..j + 1]) ==
      AlbumPairs(discs, order[..j]) + DiscPairs(order[j], discs[order[j]].tracks, discs[order[j]].order)
  {
    var d := order[j];
    assert d in order;
    var s := order[..j + 1];
    assert s[..|s| - 1] == order[..j] && s[|s| - 1] == d;
    assert forall x :: x in s ==> x in order;
  }

  /** The nested loops of `check_disc_numbers`: every track's entry, disc by
      disc. */
  method CollectPairs(album: Album, ghost v: AlbumView) returns (ps: seq<(Scalar, (int, int))>)
    requires album.Valid() && v == album.View()
    ensures DiscsListed(v.discs, v.order)
    ensures ps == AlbumPairs(v.discs, v.order)
  {
    ValidListed(v);
    ps := [];
    assert album.order[..0] == [];
    var j := 0;
    while j < |album.order|
      invariant 0 <= j <= |album.order|
      invariant DiscsListed(v.discs, v.order[..j])
      invariant ps == AlbumPairs(v.discs, v.order[..j])
    {
      AlbumPairsStep(v.discs, v.order, j);
      var disc := DiscAt(album, j);
      var more := DiscPairsOf(album.order[j], disc);
      ps := ps + more;
      j := j + 1;
    }
    assert v.order[..j] == v.order;
  }

  /** The `disctotals` dictionary filled from the entries, in order. */
  method TotalsOf(ps: seq<(Scalar, (int, int))>) returns (totals: map<Scalar, set<(int, int)>>)
    ensures totals == Totals(ps)
  {
    totals := map[];
    var i := 0;
    while i < |ps|
      invariant 0 <= i <= |ps|
      invariant totals == Totals(ps[..i])
    {
      assert ps[..i + 1][..i] == ps[..i];
      var p := ps[i];
      totals := totals[p.0 := (if p.0 in totals then totals[p.0] else {}) + {p.1}];
      i := i + 1;
    }
    assert ps[..i] == ps;
  }

  /** The decisions of `check_disc_numbers` once `disctotals` is filled. */
  method DecideDiscCount(order: seq<int>, present: set<int>, totals: map<Scalar, set<(int, int)>>) returns (r: DiscReport)
    ensures r == ReportFrom(order, present, totals)
  {
    var head: seq<Diag> := [];
    var count: Scalar;
    if |totals.Keys| != 1 {
      head := [InconsistentDisctotal];
      if Mixed(totals.Keys) {
        return DiscReport(None, Raised(TypeError), head);
      }
      ScalarLessIsTotal();
      var keys := SortedElements(totals.Keys, ScalarLess);
      assert forall k :: k in keys ==> k in multiset(keys);
      head := head + SlotLines(totals, keys);
      count := if order == [] then PyInt(1) else PyInt(MaxOf(order));
    } else {
      var k :| k in totals.Keys;
      Singleton(totals.Keys, k);
      ReportOfOneTotal(order, present, totals, k);
      count := k;
    }
    var rl := RangeLines(count, present);
    r := DiscReport(Some(count), rl.0, head + rl.1);
  }

  /** `check_disc_numbers(album)`: sets `album.disc_count` unless the
      disc totals are of mixed kinds, and reports inconsistent totals and
      missing or unexpected discs; returns whether a TypeError escaped. */
  method CheckDiscNumbers(album: Album, msgs: Messages) returns (outcome: Outcome)
    requires album.Valid()
    modifies album`discCount, msgs
    ensures album.View() == old(album.View()) && album.Valid()
    ensures DiscsListed(old(album.View()).discs, old(album.order))
    ensures var r := DiscNumbers(old(album.View()).discs, old(album.order));
      && outcome == r.outcome
      && (r.discCount.Some? ==> album.discCount == r.discCount.value)
      && (r.discCount.None? ==> album.discCount == old(album.discCount))
      && msgs.Snapshot() == old(msgs.Snapshot()).Then(Errors(r.lines))
  {
    var r := DiscNumbersOf(album, album.View());
    if r.discCount.Some? {
      album.discCount := r.discCount.value;
    }
    msgs.Record(Errors(r.lines));
    ViewKept(album);
    outcome := r.outcome;
  }

  /** Everything `check_disc_numbers` decides, before it acts on it. */
  method DiscNumbersOf(album: Album, ghost v: AlbumView) returns (r: DiscReport)
    requires album.Valid() && v == album.View()
    ensures DiscsListed(v.discs, v.order)
    ensures r == DiscNumbers(v.discs, v.order)
  {
    var present := album.discs.Keys;
    var order := album.order;
    assert present == v.discs.Keys;
    var ps := CollectPairs(album, v);
    var totals := TotalsOf(ps);
    r := DecideDiscCount(order, present, totals);
  }

  // ------------------------------------------------- identical across discs

  /** The value of `tag` on the first track (in order) that holds it. */
  function FirstValue(tracks: map<int, Track>, order: seq<int>, tag: string): (r: Option<seq<string>>)
    requires Listed(tracks, order)
    ensures r.Some? <==> exists n :: n in order && tag in tracks[n].tags
  {
    if order == [] then None
    else
      var first := order[0];
      assert first in order;
      assert forall n :: n in order ==> n == first || n in order[1..];
      if tag in tracks[first].tags then Some(tracks[first].tags[tag]) else FirstValue(tracks, order[1..], tag)
  }

  /** The value of `tag` on the first track of disc `d` that holds it. */
  function FirstOfDisc(discs: map<int, DiscView>, d: int, tag: string): Option<seq<string>>
  {
    if d in discs && Listed(discs[d].tracks, discs[d].order) then FirstValue(discs[d].tracks, discs[d].order, tag)
    else None
  }

  /** Some track of disc `d` holds `tag`. */
  predicate HasTag(discs: map<int, DiscView>, d: int, tag: string)
  {
    d in discs && tag in discs[d].tagset
  }

  /** Every disc has the tag, and its first holder's value is the first
      disc's. */
  predicate Agrees(discs: map<int, DiscView>, order: seq<int>, tag: string)
  {
    order == [] || AllFirst(discs, order, tag, FirstOfDisc(discs, order[0], tag))
  }

  /** Every disc in `order` has the tag, with `first` as its first value. */
  predicate AllFirst(discs: map<int, DiscView>, order: seq<int>, tag: string, first: Option<seq<string>>)
  {
    forall d :: d in order ==> HasTag(discs, d, tag) && FirstOfDisc(discs, d, tag) == first
  }

  /** The tags that should be the same on every disc, that some track of
      the album holds, and that do not agree from disc to disc. */
  ghost function AcrossMismatches(discs: map<int, DiscView>, order: seq<int>, tagset: set<string>): set<string>
    requires DiscsListed(discs, order)
  {
    set tag | tag in IdenticalTagsAcrossDiscs * tagset && !Agrees(discs, order, tag)
  }

  /** What `check_identical_tags_across_discs(album)` reports: nothing for
      a single disc, else one line with the mismatched tags, if any. */
  ghost function AcrossLines(discs: map<int, DiscView>, order: seq<int>, tagset: set<string>): seq<Diag>
    requires DiscsListed(discs, order)
  {
    var m := AcrossMismatches(discs, order, tagset);
    if |order| == 1 || m == {} then [] else [TagsNotIdenticalAcrossDiscs(m)]
  }

  /** A tag every track of every disc holds with the same values is never
      reported. */
  lemma UniformAgrees(discs: map<int, DiscView>, order: seq<int>, tag: string, vals: seq<string>)
    requires DiscsListed(discs, order)
    requires forall d :: d in order ==> discs[d].Valid()
    requires forall d, n :: d in order && n in discs[d].order ==> tag in discs[d].tracks[n].tags && discs[d].tracks[n].tags[tag] == vals
    ensures Agrees(discs, order, tag)
    ensures forall tagset :: tag !in AcrossMismatches(discs, order, tagset)
  {
    forall d | d in order
      ensures HasTag(discs, d, tag) && FirstOfDisc(discs, d, tag) == Some(vals)
    {
      UniformFirst(discs[d].tracks, discs[d].order, tag, vals);
      var n := discs[d].order[0];
      assert n in discs[d].order;
      UnionHolds(discs[d].tracks, n, tag);
    }
  }

  /** A tag a track holds is in the union of the tagsets. */
  lemma UnionHolds(tracks: map<int, Track>, n: int, tag: string)
    requires n in tracks && tracks[n].Valid() && tag in tracks[n].tags
    ensures tag in UnionTagsets(tracks)
  {
  }

  lemma {:induction false} UniformFirst(tracks: map<int, Track>, order: seq<int>, tag: string, vals: seq<string>)
    requires Listed(tracks, order) && order != []
    requires forall n :: n in order ==> tag in tracks[n].tags && tracks[n].tags[tag] == vals
    ensures FirstValue(tracks, order, tag) == Some(vals)
  {
    assert order[0] in order;
  }

  /** On an album of several discs, a tag some disc lacks is reported. */
  lemma MissingOnDiscReported(discs: map<int, DiscView>, order: seq<int>, tagset: set<string>, tag: string, d: int)
    requires DiscsListed(discs, order) && |order| > 1
    requires tag in IdenticalTagsAcrossDiscs && tag in tagset
    requires d in order && tag !in discs[d].tagset
    ensures exists m :: AcrossLines(discs, order, tagset) == [TagsNotIdenticalAcrossDiscs(m)] && tag in m
  {
    assert !HasTag(discs, d, tag);
    assert tag in AcrossMismatches(discs, order, tagset);
  }

  /** The inner loop over a disc's tracks, stopping at the first that holds
      the tag. */
  method FirstHolder(tracks: map<int, Track>, order: seq<int>, tag: string) returns (vals: seq<string>)
    requires Listed(tracks, order)
    requires exists n :: n in order && tag in tracks[n].tags
    ensures FirstValue(tracks, order, tag) == Some(vals)
  {
    var i := 0;
    while i < |order|
      invariant 0 <= i <= |order|
      invariant FirstValue(tracks, order[i..], tag) == FirstValue(tracks, order, tag)
      invariant exists n :: n in order[i..] && tag in tracks[n].tags
    {
      var n := order[i];
      assert n in order;
      assert order[i..][0] == n && order[i..][1..] == order[i + 1..];
      if tag in tracks[n].tags {
        return tracks[n].tags[tag];
      }
      i := i + 1;
    }
    assert false;
    vals := [];
  }

  /** A valid disc whose tagset holds the tag has a track holding it. */
  lemma HolderExists(v: DiscView, tag: string)
    requires v.Valid() && tag in v.tagset
    ensures exists n :: n in v.order && tag in v.tracks[n].tags
  {
    var n :| n in v.tracks && tag in v.tracks[n].tagset;
  }

  /** The disc objects `discs`, listed in `order`, are the discs `v`
      describes. */
  ghost predicate Shows(order: seq<int>, discs: map<int, Disc>, v: AlbumView)
    reads discs.Values
  {
    order == v.order && forall d :: d in order ==> d in discs && d in v.discs && discs[d].View() == v.discs[d] && v.discs[d].Valid()
  }

  lemma ValidShows(album: Album, v: AlbumView)
    requires album.Valid() && v == album.View()
    ensures Shows(album.order, album.discs, v)
  {
  }

  /** The loop over the discs for one tag: whether it is a mismatch. */
  method TagMismatch(order: seq<int>, discs: map<int, Disc>, ghost v: AlbumView, tag: string) returns (mismatch: bool)
    requires Shows(order, discs, v)
    ensures mismatch == !Agrees(v.discs, v.order, tag)
  {
    var reference: Option<seq<string>> := None;
    var j := 0;
    while j < |order|
      invariant 0 <= j <= |order|
      invariant j == 0 ==> reference.None?
      invariant j > 0 ==> reference == FirstOfDisc(v.discs, order[0], tag) && reference.Some?
      invariant AllFirst(v.discs, order[..j], tag, reference)
      invariant Shows(order, discs, v)
    {
      var d := order[j];
      assert d in order;
      var has, value := DiscFirst(discs[d], v.discs[d], tag);
      AllFirstStep(v.discs, order, j, tag, reference);
      if !has || (reference.Some? && reference.value != value) {
        return true;
      }
      reference := Some(value);
      j := j + 1;
    }
    assert order[..j] == order;
    return false;
  }

  /** One more disc that has the tag with the same first value keeps the
      discs agreeing; one that lacks it, or has another, breaks agreement. */
  lemma AllFirstStep(discs: map<int, DiscView>, order: seq<int>, j: int, tag: string, first: Option<seq<string>>)
    requires 0 <= j < |order| && AllFirst(discs, order[..j], tag, first)
    requires j > 0 ==> first == FirstOfDisc(discs, order[0], tag)
    ensures (HasTag(discs, order[j], tag) && (j == 0 || FirstOfDisc(discs, order[j], tag) == first)) ==>
      AllFirst(discs, order[..j + 1], tag, FirstOfDisc(discs, order[j], tag))
    ensures !HasTag(discs, order[j], tag) || (j > 0 && FirstOfDisc(discs, order[j], tag) != first) ==>
      !Agrees(discs, order, tag)
  {
    assert order[..j + 1] == order[..j] + [order[j]];
    assert order[j] in order;
    if j == 0 {
      assert order[..1] == [order[0]];
    }
  }

  /** Whether the disc holds the tag, and the value of its first track that
      does. */
  method DiscFirst(disc: Disc, ghost dv: DiscView, tag: string) returns (has: bool, value: seq<string>)
    requires disc.View() == dv && dv.Valid()
    ensures has == (tag in dv.tagset)
    ensures has ==> Listed(dv.tracks, dv.order) && FirstValue(dv.tracks, dv.order, tag) == Some(value)
  {
    has := tag in disc.tagset;
    var tracks := disc.tracks;
    var order := disc.order;
    value := [];
    if has {
      HolderExists(dv, tag);
      value := FirstHolder(tracks, order, tag);
    }
  }

  /** The `j`-th disc of a valid album, as the disc view describes it. */
  method DiscAt(album: Album, j: int) returns (disc: Disc)
    requires album.Valid() && 0 <= j < |album.order|
    ensures album.order[j] in album.View().discs && disc.View() == album.View().discs[album.order[j]]
    ensures disc.Valid() && disc.View().Valid()
  {
    var d := album.order[j];
    assert d in album.order;
    disc := album.discs[d];
  }

  /** `check_identical_tags_across_discs(album)`, visiting the tags in any
      order. */
  method CheckIdenticalTagsAcrossDiscs(album: Album, msgs: Messages)
    requires album.Valid()
    modifies msgs
    ensures DiscsListed(album.View().discs, album.order)
    ensures msgs.Snapshot() == old(msgs.Snapshot()).Then(Errors(AcrossLines(album.View().discs, album.order, album.tagset)))
  {
    ghost var v := album.View();
    ValidListed(v);
    if |album.order| == 1 {
      ThenNothing(msgs.Snapshot());
      return;
    }
    var ds := AcrossReport(album, v);
    msgs.Record(Errors(ds));
    ViewKept(album);
  }

  /** The lines of `check_identical_tags_across_discs` on an album of
      other than one disc. */
  method AcrossReport(album: Album, ghost v: AlbumView) returns (ds: seq<Diag>)
    requires album.Valid() && v == album.View() && |v.order| != 1
    ensures DiscsListed(v.discs, v.order)
    ensures ds == AcrossLines(v.discs, v.order, v.tagset)
  {
    ValidListed(v);
    ValidShows(album, v);
    var all := IdenticalTagsAcrossDiscs * album.tagset;
    var rest := all;
    var mismatches: set<string> := {};
    while rest != {}
      invariant rest <= all
      invariant Shows(album.order, album.discs, v)
      invariant forall t :: t in mismatches <==> t in all && t !in rest && !Agrees(v.discs, v.order, t)
      decreases rest
    {
      var tag :| tag in rest;
      var m := TagMismatch(album.order, album.discs, v, tag);
      if m {
        mismatches := mismatches + {tag};
      }
      rest := rest - {tag};
    }
    assert mismatches == AcrossMismatches(v.discs, v.order, v.tagset);
    ds := if mismatches == {} then [] else [TagsNotIdenticalAcrossDiscs(mismatches)];
  }
}

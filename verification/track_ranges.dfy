/** `track_list`: a list of track numbers written as "All tracks", "Track N"
    or "Tracks 1, 4-6, 10", and `output_dict_of_bad_tracks`, which reports one
    line per group of tracks sharing a problem. */
module TrackRanges {
  import opened Text
  import opened MessageSink
  import opened Grouping

  /** `list(zip(tracks, tracks))`: every number as a one-element run. */
  function Singles(s: seq<int>): (r: seq<(int, int)>)
    ensures |r| == |s| && forall i :: 0 <= i < |s| ==> r[i] == (s[i], s[i])
  {
    seq(|s|, i requires 0 <= i < |s| => (s[i], s[i]))
  }

  /** The runs of consecutive numbers of `s`, as `(first, last)` pairs: a
      number opens a new run unless the next run starts right after it. */
  function Runs(s: seq<int>): (r: seq<(int, int)>)
    ensures |r| <= |s|
    ensures r == [] <==> s == []
    ensures s != [] ==> r[0].0 == s[0]
  {
    if s == [] then []
    else
      var rest := Runs(s[1..]);
      if rest != [] && rest[0].0 == s[0] + 1 then [(s[0], rest[0].1)] + rest[1..]
      else [(s[0], s[0])] + rest
  }

  /** The numbers `a, a + 1, ..., b`. */
  function Range(a: int, b: int): (r: seq<int>)
    ensures a <= b ==> |r| == b - a + 1 && r[0] == a
    decreases b - a
  {
    if b < a then [] else [a] + Range(a + 1, b)
  }

  /** All the numbers the runs stand for, in order. */
  function Expand(r: seq<(int, int)>): seq<int>
  {
    if r == [] then [] else Range(r[0].0, r[0].1) + Expand(r[1..])
  }

  /** Each run is a non-empty interval, and two neighbouring runs could not be
      joined into one. */
  predicate WellFormed(r: seq<(int, int)>)
  {
    && (forall i :: 0 <= i < |r| ==> r[i].0 <= r[i].1)
    && (forall i :: 0 <= i < |r| - 1 ==> r[i + 1].0 != r[i].1 + 1)
  }

  lemma {:induction false} RangeExtend(a: int, b: int)
    requires a <= b
    ensures Range(a - 1, b) == [a - 1] + Range(a, b)
  {
  }

  /** Every number of `s` lies in exactly one run, in the order of `s`:
      expanding the runs gives `s` back. */
  lemma {:induction false} ExpandRuns(s: seq<int>)
    ensures Expand(Runs(s)) == s
  {
    if s != [] {
      var rest := Runs(s[1..]);
      ExpandRuns(s[1..]);
      if rest != [] && rest[0].0 == s[0] + 1 {
        RunsWellFormed(s[1..]);
        ExpandJoined(s[0], rest);
      } else {
        var r := [(s[0], s[0])] + rest;
        assert r[1..] == rest;
        assert Expand(r) == [s[0]] + Expand(rest);
        assert s == [s[0]] + s[1..];
      }
    }
  }

  /** Widening the first run down to `x` puts `x` in front of the
      expansion. */
  lemma ExpandJoined(x: int, rest: seq<(int, int)>)
    requires rest != [] && rest[0].0 == x + 1 && rest[0].0 <= rest[0].1
    ensures Expand([(x, rest[0].1)] + rest[1..]) == [x] + Expand(rest)
  {
    RangeExtend(rest[0].0, rest[0].1);
    var r := [(x, rest[0].1)] + rest[1..];
    assert r[1..] == rest[1..];
    var tail := Expand(rest[1..]);
    assert Expand(r) == Range(x, rest[0].1) + tail;
    assert Expand(rest) == Range(rest[0].0, rest[0].1) + tail;
    assert ([x] + Range(rest[0].0, rest[0].1)) + tail == [x] + (Range(rest[0].0, rest[0].1) + tail);
  }

  /** No run is empty, and no two neighbouring runs could be joined. */
  lemma {:induction false} RunsWellFormed(s: seq<int>)
    ensures WellFormed(Runs(s))
  {
    if s != [] {
      var rest := Runs(s[1..]);
      RunsWellFormed(s[1..]);
      var r := Runs(s);
      if rest != [] && rest[0].0 == s[0] + 1 {
        assert r == [(s[0], rest[0].1)] + rest[1..];
        assert forall i :: 1 <= i < |r| ==> r[i] == rest[i];
      } else {
        assert r == [(s[0], s[0])] + rest;
        assert forall i :: 1 <= i < |r| ==> r[i] == rest[i - 1];
      }
    }
  }

  function RunText(run: (int, int)): string
  {
    if run.0 == run.1 then IntToString(run.0) else IntToString(run.0) + "-" + IntToString(run.1)
  }

  function RunTexts(r: seq<(int, int)>): (t: seq<string>)
    ensures |t| == |r| && forall i :: 0 <= i < |r| ==> t[i] == RunText(r[i])
  {
    seq(|r|, i requires 0 <= i < |r| => RunText(r[i]))
  }

  /** What `track_list(tracks, track_count)` returns. */
  function TrackListText(tracks: seq<int>, count: int): string
  {
    if |tracks| == count then "All tracks"
    else if |tracks| == 1 then "Track " + IntToString(tracks[0])
    else "Tracks " + Join(RunTexts(Runs(tracks)), ", ")
  }

  /** The worked example of the function's own comment. */
  lemma TrackListExample()
    ensures TrackListText([1, 4, 5, 6, 10], 12) == "Tracks 1, 4-6, 10"
  {
    ExampleRuns();
    ExampleRunTexts();
    assert Join(["1", "4-6", "10"], ", ") == "1, 4-6, 10";
  }

  lemma ExampleRuns()
    ensures Runs([1, 4, 5, 6, 10]) == [(1, 1), (4, 6), (10, 10)]
  {
    var s := [1, 4, 5, 6, 10];
    assert Runs(s[4..]) == [(10, 10)];
    assert Runs(s[3..]) == [(6, 6), (10, 10)];
    assert Runs(s[2..]) == [(5, 6), (10, 10)];
    assert Runs(s[1..]) == [(4, 6), (10, 10)];
  }

  lemma ExampleRunTexts()
    ensures RunTexts([(1, 1), (4, 6), (10, 10)]) == ["1", "4-6", "10"]
  {
    assert IntToString(10) == "10" by {
      assert NatToString(10) == NatToString(1) + [DigitChar(0)];
    }
    assert IntToString(1) == "1" && IntToString(4) == "4" && IntToString(6) == "6";
    assert RunText((1, 1)) == "1" && RunText((4, 6)) == "4-6" && RunText((10, 10)) == "10";
  }

  /** One turn of the source's loop at position `pos`: the run at `pos` is
      merged into the one before it when it starts right after it. */
  function MergeBack(grouped: seq<(int, int)>, pos: nat): seq<(int, int)>
    requires 1 <= pos < |grouped|
  {
    if grouped[pos].0 == grouped[pos - 1].1 + 1 then
      grouped[..pos - 1] + [(grouped[pos - 1].0, grouped[pos].1)] + grouped[pos + 1..]
    else grouped
  }

  /** After the turn at `p - 1`, one more number has been folded into the
      runs of the suffix. */
  lemma {:induction false} MergeBackStep(s: seq<int>, p: nat)
    requires 2 <= p <= |s|
    ensures |Singles(s[..p - 1]) + Runs(s[p - 1..])| > p - 1
    ensures MergeBack(Singles(s[..p - 1]) + Runs(s[p - 1..]), p - 1) == Singles(s[..p - 2]) + Runs(s[p - 2..])
  {
    var rest := Runs(s[p - 1..]);
    var g := Singles(s[..p - 1]) + rest;
    assert s[p - 2..][1..] == s[p - 1..];
    assert Singles(s[..p - 1]) == Singles(s[..p - 2]) + [(s[p - 2], s[p - 2])];
    assert g[p - 1] == rest[0] && g[p - 2] == (s[p - 2], s[p - 2]);
    if rest[0].0 == s[p - 2] + 1 {
      assert g[..p - 2] == Singles(s[..p - 2]);
      assert g[p..] == rest[1..];
    }
  }

  /** `track_list(tracks, track_count)`: merges the one-element runs from the
      back, as the source does, and joins them. */
  method TrackList(tracks: seq<int>, count: int) returns (r: string)
    ensures r == TrackListText(tracks, count)
  {
    if |tracks| == count {
      return "All tracks";
    }
    if |tracks| == 1 {
      return "Track " + IntToString(tracks[0]);
    }
    var grouped := Singles(tracks);
    var pos := |grouped|;
    if |tracks| > 0 {
      assert tracks[|tracks| - 1..] == [tracks[|tracks| - 1]];
      assert tracks[..|tracks| - 1] + [tracks[|tracks| - 1]] == tracks;
      assert grouped == Singles(tracks[..|tracks| - 1]) + Runs(tracks[|tracks| - 1..]);
    }
    while pos > 1
      invariant |tracks| == 0 ==> grouped == [] && pos == 0
      invariant |tracks| > 0 ==> 1 <= pos <= |tracks|
      invariant |tracks| > 0 ==> grouped == Singles(tracks[..pos - 1]) + Runs(tracks[pos - 1..])
    {
      MergeBackStep(tracks, pos);
      pos := pos - 1;
      if grouped[pos].0 == grouped[pos - 1].1 + 1 {
        grouped := grouped[pos - 1 := (grouped[pos - 1].0, grouped[pos].1)];
        grouped := grouped[..pos] + grouped[pos + 1..];
      }
      assert grouped == MergeBack(Singles(tracks[..pos]) + Runs(tracks[pos..]), pos);
    }
    if |tracks| > 0 {
      assert tracks[..0] == [] && tracks[0..] == tracks;
    }
    assert grouped == Runs(tracks);
    r := "Tracks " + Join(RunTexts(grouped), ", ");
  }

  /** The lines `output_dict_of_bad_tracks` reports for `groups`: one per key,
      naming its tracks and the key's text, all with severity `sev`. The
      source orders the lines by their track lists; here they follow the
      keys' insertion order. */
  function BadTrackLines<K(==)>(g: Groups<K>, count: int, sev: Severity, subject: K -> Subject): (ms: seq<Msg>)
    requires g.Valid()
    ensures |ms| == |g.keys|
  {
    seq(|g.keys|, i requires 0 <= i < |g.keys| =>
      Msg(sev, BadTracks(TrackListText(g.lists[g.keys[i]], count), subject(g.keys[i]))))
  }

  /** Line `i` names the tracks on the list of the `i`-th key, and the key's
      text, with severity `sev`. */
  lemma BadTrackLineAt<K>(g: Groups<K>, count: int, sev: Severity, subject: K -> Subject, i: int)
    requires g.Valid() && 0 <= i < |g.keys|
    ensures g.keys[i] in g.lists
    ensures BadTrackLines(g, count, sev, subject)[i] ==
      Msg(sev, BadTracks(TrackListText(g.lists[g.keys[i]], count), subject(g.keys[i])))
  {
  }

  /** `output_dict_of_bad_tracks(groups, disc, method)`, with `method` given
      as the severity. */
  method OutputDictOfBadTracks<K(==)>(g: Groups<K>, count: int, sev: Severity, subject: K -> Subject, msgs: Messages)
    requires g.Valid()
    modifies msgs
    ensures msgs.Snapshot() == old(msgs.Snapshot()).Then(BadTrackLines(g, count, sev, subject))
  {
    var lines := BadTrackLines(g, count, sev, subject);
    var i := 0;
    while i < |g.keys|
      invariant 0 <= i <= |g.keys|
      invariant msgs.Snapshot() == old(msgs.Snapshot()).Then(lines[..i])
    {
      var k := g.keys[i];
      var scope := TrackList(g.lists[k], count);
      var m := Msg(sev, BadTracks(scope, subject(k)));
      BadTrackLineAt(g, count, sev, subject, i);
      msgs.Record([m]);
      ThenThen(old(msgs.Snapshot()), lines[..i], [m]);
      assert lines[..i + 1] == lines[..i] + [m];
      i := i + 1;
    }
    assert lines[..i] == lines;
  }
}

/** The diagnostics the scripts produce, and the `Messages` sink that collects
    them for one album or disc with its error and warning counters. A
    diagnostic is kept as structured data (its kind and payload) rather than
    as the formatted line. */
module MessageSink {
  import opened Wrappers

  /** How a group of tracks is named in the mapping messages: the whole disc,
      or the listed track numbers. */
  datatype TrackScope = AllTracks | SomeTracks(tracks: set<int>)

  /** What a line of a tracks-grouped report is about: a set of tag names or
      one (flattened) tag value. */
  datatype Subject = TagNames(names: set<string>) | Value(text: string)

  /** Whether an obsolete tag was copied to its replacement (`->`) or both
      were present with different values (`!=`). */
  datatype MapKind = Copied | Differs

  /** The detail part of a sort-tag mismatch line. */
  datatype SortDetail = SortTagNotFound(sortTag: string) | Versus(value: Scalar, sortValue: Scalar)

  datatype Diag =
      // album assembly
    | CriticalMissing(file: string, tag: string)
    | CriticalOutOfRange(file: string, tag: string, number: int)
    | CriticalNotNumber(file: string, tag: string, values: seq<string>)
    | DuplicateSlot(file: string)
      // album-level checks
    | InconsistentDisctotal
    | DisctotalSlots(disctotal: Scalar, slots: set<(int, int)>)
    | MissingDiscs(discs: set<int>)
    | UnexpectedDiscs(discs: set<int>)
    | TagsNotIdenticalAcrossDiscs(tags: set<string>)
      // disc-level checks
    | ObsoleteTagsNeedUpdating
    | ObsoleteTagsDiffer
    | MappingDetail(obsolete: string, kind: MapKind, current: string, within: TrackScope)
    | UnexpectedProfile(profile: string, genre: string)
    | AccurateRipFailed
    | AccurateRipTrack(track: int, result: string)
    | MissingTags
    | UnknownTags
    | UnknownOnTrack(track: int, tags: set<string>)
    | UnexpectedMultivalued(track: int, tags: set<string>)
    | TracktotalNotSame
    | TracktotalNotInt(tracktotal: string)
    | MissingTracks(tracks: set<int>)
    | UnexpectedTracks(tracks: set<int>)
    | TagsNotSame(tags: set<string>)
    | TagDuplicated(tag: string)
    | DuplicatedValue(value: string, trackList: seq<int>)
    | IncompatibleSortTags(tag: string, sortTag: string)
    | SortTagLine(scope: string, detail: SortDetail)
    | DuplicateValueInTag(track: int, tag: string, values: seq<string>)
    | LeadingThe(value: string, suggestion: string, tags: set<string>, scope: string)
    | AlbumArtistShouldBe(expected: seq<string>, albumArtist: string)
    | ClassicalCompilationComposer(composer: string)
    | SoundtrackCompilation(albumArtist: string)
    | CompilationAlbumArtist(albumArtist: string)
    | ConductorWithoutOrchestra(scope: string)
    | ArtistImpliesOrchestra
    | TagFound(tag: string)
      // `  <track list>: <subject>` lines of a tracks-grouped report
    | BadTracks(scope: string, subject: Subject)
      // rename/move planner
    | ProfileNotIdentical
    | ProfileUnknown(profile: string)
    | NotInAllTracks(tag: string)
    | NotIdentical(tag: string)
    | NameTooShortToTruncate
    | FullPath(path: string)
    | NameTruncated
    | TruncatedFrom(name: string)
    | TruncatedTo(name: string)
    | CollidingNewName
    | CollisionSource(name: string)
    | CollisionTarget(name: string)
    | DiscNotFound(disc: int, attrib: string, file: string)

  datatype Severity = Error | Warning | Note

  /** One call of `error`, `warn` or `note`. */
  datatype Msg = Msg(severity: Severity, diag: Diag)

  function Errors(ds: seq<Diag>): (r: seq<Msg>)
    ensures |r| == |ds| && forall i :: 0 <= i < |ds| ==> r[i] == Msg(Error, ds[i])
  {
    if ds == [] then [] else [Msg(Error, ds[0])] + Errors(ds[1..])
  }

  function Count(ms: seq<Msg>, sev: Severity): (n: nat)
    ensures n <= |ms|
  {
    if ms == [] then 0 else Count(ms[..|ms| - 1], sev) + (if ms[|ms| - 1].severity == sev then 1 else 0)
  }

  function Texts(ms: seq<Msg>): (r: seq<Diag>)
    ensures |r| == |ms| && forall i :: 0 <= i < |ms| ==> r[i] == ms[i].diag
  {
    if ms == [] then [] else Texts(ms[..|ms| - 1]) + [ms[|ms| - 1].diag]
  }

  lemma {:induction false} CountAppend(a: seq<Msg>, b: seq<Msg>, sev: Severity)
    ensures Count(a + b, sev) == Count(a, sev) + Count(b, sev)
    decreases |b|
  {
    if b == [] {
      assert a + b == a;
    } else {
      assert (a + b)[..|a + b| - 1] == a + b[..|b| - 1];
      CountAppend(a, b[..|b| - 1], sev);
    }
  }

  /** One message counts once under its own severity only. */
  lemma CountOne(m: Msg, sev: Severity)
    ensures Count([m], sev) == if m.severity == sev then 1 else 0
  {
    assert [m][..0] == [];
  }

  /** Only errors are counted as errors. */
  lemma {:induction false} CountErrors(ds: seq<Diag>)
    ensures Count(Errors(ds), Error) == |ds| && Count(Errors(ds), Warning) == 0
    decreases |ds|
  {
    if ds != [] {
      assert Errors(ds) == [Msg(Error, ds[0])] + Errors(ds[1..]);
      CountErrors(ds[1..]);
      CountAppend([Msg(Error, ds[0])], Errors(ds[1..]), Error);
      CountAppend([Msg(Error, ds[0])], Errors(ds[1..]), Warning);
    }
  }

  lemma ErrorsAppend(a: seq<Diag>, b: seq<Diag>)
    ensures Errors(a + b) == Errors(a) + Errors(b)
  {
    assert forall i :: 0 <= i < |a + b| ==> Errors(a + b)[i] == (Errors(a) + Errors(b))[i];
  }

  /** The observable state of a `Messages` object. */
  datatype Log = Log(messages: seq<Diag>, errors: nat, warnings: nat)
  {
    /** The state after the calls `ms`, in order. */
    function Then(ms: seq<Msg>): (r: Log)
      ensures r.messages == messages + Texts(ms)
    {
      Log(messages + Texts(ms), errors + Count(ms, Error), warnings + Count(ms, Warning))
    }
  }

  /** Reporting the errors `ds` appends them and counts each one as an
      error. */
  lemma {:induction false} ThenErrors(l: Log, ds: seq<Diag>)
    ensures l.Then(Errors(ds)) == Log(l.messages + ds, l.errors + |ds|, l.warnings)
  {
    CountErrors(ds);
    TextsErrors(ds);
  }

  lemma {:induction false} TextsErrors(ds: seq<Diag>)
    ensures Texts(Errors(ds)) == ds
  {
    var t := Texts(Errors(ds));
    assert forall i :: 0 <= i < |ds| ==> t[i] == ds[i];
  }

  lemma TextsAppend(a: seq<Msg>, b: seq<Msg>)
    ensures Texts(a + b) == Texts(a) + Texts(b)
  {
  }

  /** Recording two batches one after the other is recording their
      concatenation. */
  lemma ThenThen(l: Log, a: seq<Msg>, b: seq<Msg>)
    ensures l.Then(a).Then(b) == l.Then(a + b)
  {
    CountAppend(a, b, Error);
    CountAppend(a, b, Warning);
    TextsAppend(a, b);
  }

  /** Recording nothing changes nothing. */
  lemma ThenNothing(l: Log)
    ensures l.Then([]) == l
  {
  }

  /** Reporting the errors `a` and then the errors `b` is reporting `a + b`. */
  lemma ThenErrorsAppend(l: Log, a: seq<Diag>, b: seq<Diag>)
    ensures l.Then(Errors(a)).Then(Errors(b)) == l.Then(Errors(a + b))
  {
    ThenThen(l, Errors(a), Errors(b));
    ErrorsAppend(a, b);
  }

  /** `Messages`: the lines collected for one album or disc, with the number
      of `error` and `warn` calls made since it was created. */
  class Messages {
    var messages: seq<Diag>
    var errors: nat
    var warnings: nat

    function Snapshot(): (l: Log)
      reads this
      ensures l.messages == messages && l.errors == errors && l.warnings == warnings
    {
      Log(messages, errors, warnings)
    }

    constructor ()
      ensures Snapshot() == Log([], 0, 0)
    {
      messages := [];
      errors := 0;
      warnings := 0;
    }

    /** `__bool__`: the sink is true exactly when it holds a message. */
    predicate NonEmpty()
      reads this
      ensures NonEmpty() <==> |messages| > 0
    {
      messages != []
    }

    /** Empties the message list; the counters keep their values. */
    method Clear()
      modifies this
      ensures messages == [] && errors == old(errors) && warnings == old(warnings)
    {
      messages := [];
    }

    method Error(d: Diag)
      modifies this
      ensures Snapshot() == old(Snapshot()).Then([Msg(Severity.Error, d)])
      ensures messages == old(messages) + [d] && errors == old(errors) + 1 && warnings == old(warnings)
    {
      messages := messages + [d];
      errors := errors + 1;
    }

    method Warn(d: Diag)
      modifies this
      ensures Snapshot() == old(Snapshot()).Then([Msg(Warning, d)])
      ensures messages == old(messages) + [d] && errors == old(errors) && warnings == old(warnings) + 1
    {
      messages := messages + [d];
      warnings := warnings + 1;
    }

    method Note(d: Diag)
      modifies this
      ensures Snapshot() == old(Snapshot()).Then([Msg(Severity.Note, d)])
      ensures messages == old(messages) + [d] && errors == old(errors) && warnings == old(warnings)
    {
      messages := messages + [d];
    }

    /** Makes the calls `ms` in order. */
    method Record(ms: seq<Msg>)
      modifies this
      ensures Snapshot() == old(Snapshot()).Then(ms)
    {
      var i := 0;
      while i < |ms|
        invariant 0 <= i <= |ms|
        invariant Snapshot() == old(Snapshot()).Then(ms[..i])
      {
        ghost var before := Snapshot();
        match ms[i].severity {
          case Error => Error(ms[i].diag);
          case Warning => Warn(ms[i].diag);
          case Note => Note(ms[i].diag);
        }
        ThenThen(old(Snapshot()), ms[..i], [ms[i]]);
        assert ms[..i + 1] == ms[..i] + [ms[i]];
        i := i + 1;
      }
      assert ms[..i] == ms;
    }
  }
}

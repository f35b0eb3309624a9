# dBpa-scripts tag checker and rename planner, modelled in Dafny

The scripts look after a library of ripped FLAC albums. `CheckFlacTags.py`
reads the tracks of an album directory and checks their Vorbis comments
against a catalogue of known tags. It looks at disc and track numbering,
missing, unknown and multi-valued tags, values that must be identical or
must differ, sort-name tags, leading "The", compilations, multiple artists
and orchestras. Every finding goes into a `Messages` sink with error and
warning counters. `CommonUtils.py` builds the album in memory and computes
the "common" tags (those every track holds) and the "identical" tags (those
every track holds with the same values), per disc and per album.
`RearrangeAudioFiles.py` plans how an album is renamed, or moved to a new
directory tree. It checks that the tags the new names need are present,
builds the new directory, audio-file and cuesheet/log names, truncates
names to the maximum path length, and records the old-to-new name map with
collision detection.

The model follows the three scripts module by module:

- `messages.dfy`: the `Messages` sink, as a class.
- `hierarchy.dfy`: tracks (values), discs and albums (classes), `flatten_tag` and `replace_reserved_chars`.
- `assembly.dfy`: `check_critical_tag` and the assembly part of `get_album`.
- `aggregation.dfy` and `album_aggregates.dfy`: the common and identical tags.
- `catalog.dfy`: the tag catalogue and its derived sets.
- `track_ranges.dfy`: `track_list` and `output_dict_of_bad_tracks`.
- The checks: `album_checks.dfy`, `mapping.dfy`, `presence_checks.dfy`, `track_checks.dfy`, `sort_tags.dfy`, `leading_the.dfy` and `artist_checks.dfy`.
- The planner: `new_names.dfy` and `rename_plan.dfy`.
- Shared helpers: `wrappers.dfy`, `text.dfy`, `sorting.dfy`, `grouping.dfy` (Python's `defaultdict(list)`) and `disc_scan.dfy` (the loops over a disc's tracks).

Each check is a method that changes what the source changes: the
`Messages` sink, a disc's flags, the tracks' tags, the album's name maps.
Its `ensures` ties the new state to a specification function. Lemmas then
state what that function means.

Some conventions of the model:

- Diagnostics are structured values (`MessageSink.Diag`): a kind plus the tags, tracks or values the line names. They are not formatted strings.
- The global `args` becomes an explicit options value, and the global `msgs` a `Messages` object passed in.
- `os.path.join` is Windows' join with the separator `\`.
- A Python exception that escapes a check (`KeyError`, `TypeError`) is an explicit outcome.

## Model

| member | source | states |
|---|---|---|
| MessageSink.Messages.constructor | CommonUtils.py:16-19 | A new sink holds no message and both counters are zero. |
| MessageSink.Messages.NonEmpty | CommonUtils.py:21-22 | The sink is true exactly when it holds a message. |
| MessageSink.Messages.Clear | CommonUtils.py:29-30 | The message list is emptied; both counters keep their values. |
| MessageSink.Messages.Error | CommonUtils.py:32-34 | Appends exactly one message and adds one to the error count only. |
| MessageSink.Messages.Warn | CommonUtils.py:36-38 | Appends exactly one message and adds one to the warning count only. |
| MessageSink.Messages.Note | CommonUtils.py:40-41 | Appends exactly one message and changes neither counter. |
| MessageSink.Messages.Record | CommonUtils.py:32-41 | A batch of calls leaves the sink as the calls made one by one would. |
| MessageSink.CountErrors | CommonUtils.py:32-41 | Only errors count as errors, and each one counts once. |
| MessageSink.ThenErrors | CommonUtils.py:32-34 | Reporting a list of errors appends them in order and counts each. |
| MessageSink.ThenThen | CommonUtils.py:32-41 | Recording two batches in turn is recording their concatenation. |
| Hierarchy.FlattenTag | CommonUtils.py:103-107 | None comes back as None and a string unchanged; a list becomes a string, a one-value list its value. |
| Hierarchy.FlattenTagInjective | CommonUtils.py:103-107 | Two non-empty lists whose values contain no ';' flatten to the same text only if they are equal. |
| Hierarchy.ReplaceReservedChar | CommonUtils.py:93 | A reserved character becomes a character that is not reserved; any other character is kept. |
| Hierarchy.ReplaceReservedChars | CommonUtils.py:93-100 | Same length; each reserved character replaced by its substitute, every other kept; no reserved character is left. |
| Hierarchy.ReplaceReservedCharsIdempotent | CommonUtils.py:96-100 | Replacing twice is replacing once. |
| Hierarchy.ReplaceReservedCharsAppend | CommonUtils.py:96-100 | Clean text passes through unchanged, and replacement works piecewise on a concatenation. |
| Hierarchy.Get | CommonUtils.py:44-53 | `track.get(tag)` is None exactly when the track lacks the tag. |
| Hierarchy.GetOrEmpty | CheckFlacTags.py:380 | `track.get(tag, '')` is never None. |
| Hierarchy.NewTrack | CommonUtils.py:44-53 | A new track holds the tags read and their names as its tagset. |
| Hierarchy.Disc.constructor | CommonUtils.py:64-66 | A disc built from one track lists that track alone, with an empty tagset and no flags set. |
| Hierarchy.Disc.Insert | CommonUtils.py:171 | A new track number is added at the end of the disc's order, with its track. |
| Hierarchy.Disc.CollectTagsets | CommonUtils.py:178-179 | The disc's tagset gains exactly the union of its tracks' tagsets. |
| Hierarchy.Album.constructor | CommonUtils.py:77-79 | A new album has its path and no discs, tags or name maps. |
| Text.SplitOnJoin | RearrangeAudioFiles.py:145 | Splitting at a separator undoes joining with it when no piece contains it. |
| Text.JoinSplitOn | RearrangeAudioFiles.py:145 | Joining the pieces of a split with the same separator gives the text back. |
| Text.ParseIntOfIntToString | CommonUtils.py:139 | `int('%d' % n)` is `n`. |
| Text.TwoDigits | RearrangeAudioFiles.py:218 | `'%02d' % n` is exactly two digits for `n` in 0..99. |
| Text.SplitWords | CheckFlacTags.py:540 | `split()` yields non-empty words without whitespace. |
| Text.RemoveChar | CheckFlacTags.py:540 | `replace(c, '')` leaves no `c` and never lengthens the text. |
| Text.Take | CheckFlacTags.py:601 | The slice `s[:n]` is a prefix of at most `n` characters. |
| Sorting.Sort | CheckFlacTags.py:551 | `sorted(s)` holds the same elements with the same multiplicities. |
| Sorting.SortSorted | CheckFlacTags.py:551 | `sorted(s)` is in ascending order. |
| Sorting.SortEqualIff | CheckFlacTags.py:551-553 | Two lists sort to the same list exactly when they are permutations of each other. |
| Sorting.SortedUnique | CheckFlacTags.py:551 | An ordered permutation is unique. |
| Sorting.SetToSortedSorted | CheckFlacTags.py:703 | `sorted()` of a set lists its elements in ascending order. |
| Sorting.SortedElements | CheckFlacTags.py:703 | The method computes `sorted()` of a set. |
| Grouping.GroupAllMembers | CheckFlacTags.py:513 | A key has a list exactly when some appended pair carries it, and the list holds exactly its numbers, in order. |
| Grouping.GroupAllSnoc | CheckFlacTags.py:561 | Appending one more pair is one more `groups[k].append(n)`. |
| Grouping.AddShares | CheckFlacTags.py:483-487 | After an append some key holds two entries exactly when one already did or the key already had a list. |
| TagCatalog.DerivedSetsNest | CheckFlacTags.py:99-111 | Required tags are among the classical required tags; across-disc tags are among within-disc tags; every derived set is among the known tags. |
| TagCatalog.MappedTagsCompatible | CheckFlacTags.py:113-117 | Each obsolete tag is catalogued as mapped and its replacement as required, with the same qualifier and multivalue flag. |
| TagCatalog.SortedTagsPaired | CheckFlacTags.py:119-125 | Each tag and its sort variant are catalogued and agree on whether several values are allowed. |
| TagCatalog.DifferentTagsOrderIsDifferentTags | CheckFlacTags.py:109 | The must-differ tags are exactly the three AccurateRip/CD-layout tags, each listed once. |
| TrackRanges.Runs | CheckFlacTags.py:185-191 | Merging neighbours gives no more runs than numbers, none for no numbers, and the first run starts at the first number. |
| TrackRanges.ExpandRuns | CheckFlacTags.py:185-191 | Every number lies in exactly one run, in order: expanding the runs gives the list back. |
| TrackRanges.RunsWellFormed | CheckFlacTags.py:185-191 | No run is empty and no two neighbouring runs could be joined. |
| TrackRanges.TrackList | CheckFlacTags.py:177-193 | The in-place merge from the back yields "All tracks", "Track N", or "Tracks " with the runs. |
| TrackRanges.TrackListExample | CheckFlacTags.py:178-180 | [1, 4, 5, 6, 10] on a longer disc reads "Tracks 1, 4-6, 10". |
| TrackRanges.BadTrackLineAt | CheckFlacTags.py:196-205 | There is one line per key, naming that key's tracks and its text with the chosen severity. |
| TrackRanges.OutputDictOfBadTracks | CheckFlacTags.py:196-205 | Reports those lines and nothing else. |
| Assembly.CriticalTag | CommonUtils.py:131-146 | The value when the tag is present and its number is in 1..99 with no error; otherwise nothing and exactly one error saying why. |
| Assembly.CriticalTagOfNumber | CommonUtils.py:138-140 | A tag holding the decimal text of a number in 1..99 reads back as that number. |
| Assembly.CheckCriticalTag | CommonUtils.py:131-146 | Returns what `CriticalTag` gives and records its error. |
| Assembly.StepKeepsSlots | CommonUtils.py:168-174 | One file keeps every filled slot as it was and fills at most its own slot. |
| Assembly.SlotNeverOverwritten | CommonUtils.py:168-174 | A filled slot is never overwritten by later files. |
| Assembly.SlotFilledIff | CommonUtils.py:160-174 | A slot is filled exactly when some file with valid numbers carries it. |
| Assembly.FirstFileWins | CommonUtils.py:160-174 | The track in a slot is the first file that carries its numbers. |
| Assembly.DuplicateDropped | CommonUtils.py:172-174 | A file whose slot is taken changes nothing but the errors, which gain one line naming it. |
| Assembly.StepErrors | CommonUtils.py:162-174 | A file with two valid numbers adds no error unless its slot is taken; any other file adds exactly one. |
| Assembly.ReadSlot | CommonUtils.py:162-167 | The two critical-tag reads of one file, stopping at the first failure. |
| Assembly.PlaceTrack | CommonUtils.py:168-174 | Files the track in a new disc, at the end of its disc, or reports the slot as taken. |
| Assembly.FileTrack | CommonUtils.py:160-174 | One turn of the first loop moves the disc objects one assembly step on. |
| Assembly.FileTracks | CommonUtils.py:160-174 | The first loop builds exactly the discs and tracks the assembly of all files gives. |
| Assembly.CollectAlbumTagsets | CommonUtils.py:177-180 | Each disc's tagset becomes the union of its tracks', and the album's the union of its discs'. |
| Assembly.GetAlbum | CommonUtils.py:149-181 | The discs and tracks are those the files assemble to, every tagset is the union below it, and the messages are the assembly's errors. |
| Aggregation.CommonOfIff | CommonUtils.py:184-193 | A tag is common exactly when every tagset holds it. |
| Aggregation.DiscCommonIff | CommonUtils.py:184-193 | A tag is common to a disc exactly when every track holds it. |
| Aggregation.FindCommonDiscTags | CommonUtils.py:184-193 | Sets `disc.common` to the intersection of the tracks' tagsets. |
| Aggregation.CommonOfCommons | CommonUtils.py:196-206 | The intersection of the discs' common tags is the set of tags every track of every disc holds. |
| Aggregation.DiscStepKeeps | CommonUtils.py:217-226 | A tag survives a later turn exactly when both tracks hold it with equal value lists, and it keeps its values. |
| Aggregation.DeleteTags | CommonUtils.py:218-219 | Removes exactly the tags the track lacks. |
| Aggregation.DropDifferent | CommonUtils.py:220-226 | Removes exactly the tags whose values differ from the track's, from the keys and the tagset alike. |
| Aggregation.NarrowIdentical | CommonUtils.py:217-226 | One later turn narrows `identical` as the disc-level step says. |
| Aggregation.IdenticalOfIff | CommonUtils.py:209-227 | A tag is identical exactly when every track holds it with the first track's values, compared as lists. |
| Aggregation.IdenticalWithinEach | CommonUtils.py:209-227 | The identical tags are part of every track's tags and so of the common tags; their keys equal their tagset. |
| Aggregation.DiscIdenticalIff | CommonUtils.py:209-227 | The same, stated for the tracks of a disc in disc order. |
| Aggregation.FindIdenticalDiscTags | CommonUtils.py:209-227 | Sets `disc.identical` to the tags every track holds with the first track's values. |
| Aggregation.MergeCommon | CommonUtils.py:202-205 | The first disc's common tags are copied, and each later disc's intersected in. |
| Aggregation.MergeIdentical | CommonUtils.py:237-246 | The first disc's identical tags are copied, and each later disc narrows them by keys and tagset together. |
| Aggregation.CommonAcross | CommonUtils.py:199-206 | Every disc's `common` is set, and the intersection of them all is returned, or None for no disc. |
| Aggregation.IdenticalAcross | CommonUtils.py:234-247 | Every disc's `identical` is set, and the corrected fold of them all is returned, or None for no disc. |
| Aggregation.FindCommonAlbumTags | CommonUtils.py:196-206 | Sets every disc's and the album's common tags. |
| Aggregation.FindIdenticalAlbumTags | CommonUtils.py:230-247 | Sets every disc's identical tags and the album's to their corrected fold (see Findings). |
| AlbumAggregates.CommonAcrossIff | CommonUtils.py:196-206 | A tag is common to the album exactly when every track of every disc holds it. |
| AlbumAggregates.DiscIdenticalFromTracks | CommonUtils.py:209-227 | When every track of a disc holds a tag with the same values, so does the disc's `identical`. |
| AlbumAggregates.TracksFromDiscIdentical | CommonUtils.py:209-227 | When the disc's `identical` holds a tag, every track holds it with those values. |
| AlbumAggregates.IdenticalAcrossIff | CommonUtils.py:230-247 | A tag is identical across the album exactly when every track of every disc holds it with the first disc's first track's values. |
| AlbumAggregates.IdenticalWithinCommon | CommonUtils.py:196-247 | Every album-identical tag is an album-common tag. |
| AlbumAggregates.AlbumStepAsWritten | CommonUtils.py:239-246 | The written album step narrows `tagset` to the disc's and drops differing values, but leaves keys the disc lacks. |
| AlbumAggregates.IdenticalAsWritten | CommonUtils.py:234-247 | The written fold over the discs' identical tags. |
| AlbumAggregates.AsWrittenAgrees | CommonUtils.py:239-246 | The written and corrected folds agree on `tagset` and on the values of the tags in it; only stale keys differ. |
| AlbumAggregates.StaleKeyExample | CommonUtils.py:240 | A two-disc album where the written fold keeps a tag as a key that is not identical across the album. |
| AlbumChecks.DisctotalOf | CheckFlacTags.py:214-222 | The disc total read from a track: `disctotal` if present, else the obsolete `totaldiscs`, else None, made an int when it parses. |
| AlbumChecks.AlbumPairsIn | CheckFlacTags.py:212-223 | An entry is made exactly for each track of each disc, under that track's disc total. |
| AlbumChecks.TotalsIn | CheckFlacTags.py:223 | A disc total is a key exactly when some entry carries it, and its slots are exactly those entries. |
| AlbumChecks.RangeMeaning | CheckFlacTags.py:236-243 | Missing discs are expected numbers absent from the album; unexpected ones are present numbers outside 1..count; no number is both. |
| AlbumChecks.KeyIsCarried | CheckFlacTags.py:211-223 | Every disc-total key is carried by some track, and its slots are exactly the tracks carrying it. |
| AlbumChecks.ReportOfOneTotal | CheckFlacTags.py:233-234 | A single disc total becomes the disc count, and only the range comparison follows. |
| AlbumChecks.ReportOfSeveralTotals | CheckFlacTags.py:224-232 | Anything but one disc total is reported as inconsistent; totals of mixed kinds end in a TypeError after that. |
| AlbumChecks.SlotLineOfSeveralTotals | CheckFlacTags.py:226-228 | Line i+1 names the i-th smallest disc total and the slots that carry it. |
| AlbumChecks.AgreeingTotals | CheckFlacTags.py:224-243 | When every track carries total k: nothing is inconsistent, the count becomes k, and it raises exactly when k is not an int. |
| AlbumChecks.DisagreeingTotals | CheckFlacTags.py:224-232 | Two different disc totals are reported as inconsistent, and raise a TypeError when their kinds cannot be compared. |
| AlbumChecks.CollectPairs | CheckFlacTags.py:212-223 | The nested loops produce every track's entry, disc by disc. |
| AlbumChecks.TotalsOf | CheckFlacTags.py:211-223 | The `disctotals` dictionary built from the entries. |
| AlbumChecks.DecideDiscCount | CheckFlacTags.py:224-243 | The decisions once `disctotals` is filled, as the specification function states them. |
| AlbumChecks.CheckDiscNumbers | CheckFlacTags.py:208-243 | Sets `disc_count` unless a TypeError escapes, and reports inconsistent totals and missing or unexpected discs. |
| AlbumChecks.UniformAgrees | CheckFlacTags.py:246-276 | A tag every track of every disc holds with the same values is never reported. |
| AlbumChecks.MissingOnDiscReported | CheckFlacTags.py:256-258 | On an album of several discs, a tag some disc lacks is reported. |
| AlbumChecks.FirstHolder | CheckFlacTags.py:259-264 | The inner loop stops at the first track holding the tag. |
| AlbumChecks.TagMismatch | CheckFlacTags.py:255-274 | A tag is a mismatch exactly when some disc lacks it or its first holder's value differs from the first disc's. |
| AlbumChecks.CheckIdenticalTagsAcrossDiscs | CheckFlacTags.py:246-276 | Nothing for a one-disc album; otherwise one error listing exactly the mismatched across-disc tags, when there are any. |
| TagMapping.CopyTag | CheckFlacTags.py:329-330 | The track gains the current tag with the obsolete tag's values; nothing else changes. |
| TagMapping.MapTracksRaises | CheckFlacTags.py:326-331 | The track loop raises KeyError exactly when a track holds neither tag. |
| TagMapping.MapTracksAdded | CheckFlacTags.py:327-328 | Without KeyError, the added tracks are exactly those lacking the current tag. |
| TagMapping.MapTracksMismatch | CheckFlacTags.py:332-337 | Without KeyError, the mismatches are exactly the tracks whose two tags' values differ or lack the obsolete tag. |
| TagMapping.NewTagEverywhere | CheckFlacTags.py:326-331 | Afterwards every track holds the current tag; those that lacked it hold exactly the obsolete values, the others keep their own. |
| TagMapping.Detail | CheckFlacTags.py:340-346 | "all tracks" when every track of the disc is listed, else the listed tracks. |
| TagMapping.MappingOnlyReports | CheckFlacTags.py:320-351 | The tracks, the tagset and the outcome do not depend on `--mapping`; with it off there are no lines. |
| TagMapping.MapAllKeepsValues | CheckFlacTags.py:320-351 | No value a track already had is changed or removed, and the disc's tagset only grows. |
| TagMapping.ReportsCounts | CheckFlacTags.py:352-357 | The corrected reports count one error per non-empty group and no warning. |
| TagMapping.ReportsTexts | CheckFlacTags.py:352-357 | The corrected reports list every detail line after its header. |
| TagMapping.ReportsAsWritten | CheckFlacTags.py:352-354 | As written, the first header is recorded and then `msgs.extend` raises AttributeError. |
| TagMapping.ExtendCrashExample | CheckFlacTags.py:354 | A disc with an obsolete tag: the written code stops with AttributeError, the corrected one records the header and detail line. |
| TagMapping.MapOneTag | CheckFlacTags.py:326-337 | The track loop for one pair, against its specification function. |
| TagMapping.MapAllTags | CheckFlacTags.py:320-351 | The loop over the mapped pairs, against its specification function. |
| TagMapping.HandleMappedTags | CheckFlacTags.py:314-357 | Updates tracks and tagset as the pairs say, and records the corrected reports unless KeyError escaped. |
| TagMapping.HandleMappedTagsAsWritten | CheckFlacTags.py:314-357 | The same updates, with the reports as written. |
| PresenceChecks.Profile | CheckFlacTags.py:360-373 | Without identical genre and profile: not classical and silent; otherwise classical exactly for a "classical" profile, with one error exactly when genre and profile disagree. |
| PresenceChecks.ClassicalMeansEveryTrack | CheckFlacTags.py:364-371 | A disc is made classical only when every track carries the same profile and it reads "classical". |
| PresenceChecks.CheckProfile | CheckFlacTags.py:360-373 | Sets `disc.classical` and reports as `Profile` says. |
| PresenceChecks.RipLinesIff | CheckFlacTags.py:379-386 | A track is reported, with its result, exactly when its lower-cased AccurateRip result contains "inaccurate". |
| PresenceChecks.RipLinesEmptyIff | CheckFlacTags.py:383-386 | Nothing at all is reported exactly when no track failed. |
| PresenceChecks.CheckInaccurateRips | CheckFlacTags.py:376-386 | Reports the heading and one line per failed track, or nothing. |
| PresenceChecks.DiscMissingIff | CheckFlacTags.py:393-394 | The tags missing on the whole disc are the desired tags no track holds; the classical set is used exactly on a classical disc. |
| PresenceChecks.MissingGroupShape | CheckFlacTags.py:396-401 | Every per-track group is a non-empty set of desired tags, none of them missing on the whole disc. |
| PresenceChecks.MissingGroupMembers | CheckFlacTags.py:397-401 | A group holds exactly the tracks lacking precisely those tags. |
| PresenceChecks.CheckMissingTags | CheckFlacTags.py:389-407 | Reports, with `--missing`, the heading, the disc-wide missing tags and the per-track groups. |
| PresenceChecks.UnknownReportedOnce | CheckFlacTags.py:410-428 | An unknown tag a track holds is reported once for it: on "All tracks" when every track has it, else on that track's line. |
| PresenceChecks.UnknownOnTrackIff | CheckFlacTags.py:425-428 | Each per-track line names a track and exactly the scattered unknown tags it holds. |
| PresenceChecks.CommonTrackTags | CheckFlacTags.py:416-418 | The disc's tagset narrowed to the tags every track holds. |
| PresenceChecks.CheckUnknownTags | CheckFlacTags.py:410-428 | Reports the unknown-tag lines. |
| PresenceChecks.MultivaluedIff | CheckFlacTags.py:431-438 | A track is reported exactly when it holds several values for a tag that allows one, and its line names exactly those tags. |
| PresenceChecks.CheckMultivaluedTags | CheckFlacTags.py:431-438 | Reports those lines. |
| PresenceChecks.RepeatsIff | CheckFlacTags.py:578-580 | `len(v) != len(set(v))` holds exactly for lists holding some value twice. |
| PresenceChecks.DupsIff | CheckFlacTags.py:573-582 | A line is reported exactly for each track and tag whose values repeat, and it shows that list. |
| PresenceChecks.DupsOnIff | CheckFlacTags.py:576-582 | A track's lines name it, one per tag whose values repeat. |
| PresenceChecks.CheckDupsInTags | CheckFlacTags.py:573-582 | Reports those lines, track by track. |
| TrackChecks.MaxOf | CheckFlacTags.py:457 | `max` of the track numbers is one of them and no smaller than any. |
| TrackChecks.TrackCount | CheckFlacTags.py:444-452 | The count is `int(tracktotal)` when it is identical on the disc and numeric; otherwise no count and one error saying why. |
| TrackChecks.NumbersMeaning | CheckFlacTags.py:453-459 | A number is missing exactly when in 1..N without a track; unexpected exactly when a track has it outside 1..N. |
| TrackChecks.MissingTracksIff | CheckFlacTags.py:458-461 | The missing-tracks line is reported exactly when such a number exists, and names exactly those numbers. |
| TrackChecks.UnexpectedTracksIff | CheckFlacTags.py:459-463 | The unexpected-tracks line is reported exactly when such a number exists, and names exactly those numbers. |
| TrackChecks.NoCountOnlyNonPositiveExtra | CheckFlacTags.py:457 | Without a usable count, only numbers below 1 can be unexpected. |
| TrackChecks.TrackCountFromTracks | CheckFlacTags.py:445-450 | When every track carries the same integer `tracktotal`, it is the count and no error is reported. |
| TrackChecks.TracktotalNotSameIff | CheckFlacTags.py:445-447 | "tracktotal not same" is reported exactly when the tracks do not all carry the first track's `tracktotal`. |
| TrackChecks.CheckTrackNumbers | CheckFlacTags.py:441-463 | Reports the count error and the missing and unexpected tracks. |
| TrackChecks.NotSameIff | CheckFlacTags.py:466-470 | A tag is reported exactly when it must be identical within a disc, some track holds it, and the tracks disagree with the first. |
| TrackChecks.CheckIdenticalTags | CheckFlacTags.py:466-470 | Reports those tags in one line, or nothing. |
| TrackChecks.DifferentWarnIff | CheckFlacTags.py:475-489 | A must-differ tag is warned about exactly when two different tracks hold it with the same value. |
| TrackChecks.DuplicatedValueMeaning | CheckFlacTags.py:490-492 | A value line names a value held by several tracks, with exactly those tracks. |
| TrackChecks.GroupValues | CheckFlacTags.py:478-487 | Groups the tracks by value and notes whether a value was seen twice. |
| TrackChecks.CheckDifferentTags | CheckFlacTags.py:473-492 | Reports the lines for the must-differ tags in catalogue order. |
| SortTags.StripComments | CheckFlacTags.py:539 | Never lengthens the text, and leaves it unchanged when it has no `[` or no `]`. |
| SortTags.CanonSortsWords | CheckFlacTags.py:530-551 | The canonical form lists exactly the value's kept words, prefixes lowered, sorted. |
| SortTags.CanonVal | CheckFlacTags.py:530-551 | The in-place loop over the words computes the canonical form. |
| SortTags.NameAndSortForm | CheckFlacTags.py:499-503 | "Given Surname" and "Surname, Given" canonicalise alike. |
| SortTags.ArticleAndSortForm | CheckFlacTags.py:541-545 | "The Beatles" and "Beatles, The" both come down to the name alone. |
| SortTags.MatchReflexiveSymmetric | CheckFlacTags.py:523-557 | Values match themselves, whichever side is the sort tag. |
| SortTags.NameMatchesSortForm | CheckFlacTags.py:499-503 | A name matches its "Surname, Given" sort form. |
| SortTags.PairsMatch | CheckFlacTags.py:526-557 | The zip loop accepts exactly when every pair agrees literally or canonically. |
| SortTags.JudgeMeaning | CheckFlacTags.py:514-561 | Neither tag: skipped; sort tag alone: KeyError; tag alone: missing sort tag; both: the values decide. |
| SortTags.MissingTracksIff | CheckFlacTags.py:518-520 | A track is collected exactly when it misses the sort tag. |
| SortTags.MismatchesMeaning | CheckFlacTags.py:558-561 | A value pair has a list exactly when some track mismatches on it, listing exactly those tracks. |
| SortTags.FirstFailureMeaning | CheckFlacTags.py:514-517 | The scan raises exactly when some track fails, with the first failing track's exception. |
| SortTags.PairLinesShape | CheckFlacTags.py:562-570 | Nothing is reported exactly when nothing is missing or mismatched; otherwise the heading comes first. |
| SortTags.PairSilentIff | CheckFlacTags.py:512-570 | A pair raises and reports nothing exactly when every track has neither tag or both with matching values. |
| SortTags.MissingReported | CheckFlacTags.py:565-566 | A track missing its sort tag is named on the missing line. |
| SortTags.MismatchReported | CheckFlacTags.py:567-570 | A mismatched track is named on the line of its two values. |
| SortTags.StopsAtAbsentSortTag | CheckFlacTags.py:507-511 | A sort tag absent from the whole disc ends the check; later pairs are never looked at. |
| SortTags.AllQuietSilent | CheckFlacTags.py:505-570 | When every track is quiet for every pair, the check ends normally and reports nothing. |
| SortTags.JudgeTrack | CheckFlacTags.py:514-561 | One track's turn, against its specification function. |
| SortTags.PairCheck | CheckFlacTags.py:512-570 | One pair's loop, against its specification function. |
| SortTags.CheckSortTags | CheckFlacTags.py:495-570 | Reports the lines of the pairs checked, and says whether KeyError escaped. |
| LeadingArticle.Record | CheckFlacTags.py:590-596 | The value gains the tag and the tracks, becoming a new key at the end when it was not one. |
| LeadingArticle.ForTagsMeaning | CheckFlacTags.py:598-607 | A value is a key exactly when some tag flags it; its tags are those that flag it, its tracks those blamed. |
| LeadingArticle.LeadingTheMeaning | CheckFlacTags.py:585-614 | A value is reported exactly when a tag flags it, naming exactly those tags and tracks; every reported value starts with "The ". |
| LeadingArticle.LeadingTheComplete | CheckFlacTags.py:598-614 | Every value some tag flags is reported. |
| LeadingArticle.BeatlesSuggestion | CheckFlacTags.py:586-587 | "The Beatles" as the shared artist is reported with the suggestion "Beatles, The". |
| LeadingArticle.CollectItems | CheckFlacTags.py:598-607 | The loop over the three tags builds the dictionary its specification function gives. |
| LeadingArticle.LeadingLineAt | CheckFlacTags.py:608-614 | Line i is the line of the i-th key. |
| LeadingArticle.CheckLeadingThe | CheckFlacTags.py:585-614 | Reports one line per flagged value. |
| ArtistChecks.CompilationMeaning | CheckFlacTags.py:640-666 | Only a disc with a compilation tag is checked; classical: one complaint for a shared composer; else exactly when album artist and genre are identical and the artist does not suit the genre. |
| ArtistChecks.CheckCompilation | CheckFlacTags.py:640-666 | Reports those lines. |
| ArtistChecks.ScanArtistsMeaning | CheckFlacTags.py:630-637 | The scan finds every track naming the album artist, or stops at the first that does not, telling whether it lacks the tag. |
| ArtistChecks.MultipleArtistsMeaning | CheckFlacTags.py:617-637 | The complaint comes exactly when artist differs, album artist and genre do not, the album artist is unexpected, and the scan meets another artist before a track without one. |
| ArtistChecks.AllNamedSilent | CheckFlacTags.py:630-637 | A disc whose every track names the album artist is never reported. |
| ArtistChecks.CheckMultipleArtists | CheckFlacTags.py:617-637 | Reports the complaint, and says whether KeyError escaped. |
| ArtistChecks.ConductorLineMeaning | CheckFlacTags.py:675-681 | The conductor line comes exactly when some track has a conductor but no orchestra, listing exactly those tracks. |
| ArtistChecks.OrchestraArtistMeaning | CheckFlacTags.py:684-698 | The artist lines come exactly when a track's artist names an orchestra without an orchestra tag, each listing exactly those tracks. |
| ArtistChecks.CheckOrchestra | CheckFlacTags.py:669-698 | Reports those lines on a classical disc and nothing on any other. |
| ArtistChecks.SelectedAllNotes | CheckFlacTags.py:704-709 | Every line is a note and counts neither as an error nor as a warning. |
| ArtistChecks.SelectedMeaning | CheckFlacTags.py:701-709 | A tag is announced exactly when selected and on the disc; each value line names exactly the tracks holding that value. |
| ArtistChecks.FindSelectedTags | CheckFlacTags.py:701-709 | Reports those notes, tags in sorted order. |
| NewNames.JoinPath | RearrangeAudioFiles.py:214 | Exactly one separator goes between the two parts unless the path is empty or already ends in one. |
| NewNames.JoinAllIsJoin | RearrangeAudioFiles.py:214 | Joining component by component puts exactly one separator before each. |
| NewNames.SplitExt | RearrangeAudioFiles.py:244 | `base + ext` is the name, and the extension is empty or starts at the last dot of the last component. |
| NewNames.SplitExtOf | RearrangeAudioFiles.py:244 | A plain name followed by a dot and a dotless word splits at that dot. |
| NewNames.NewPathLevels | RearrangeAudioFiles.py:195-214 | The new path is the destination then one level per component, in order, each cleaned of reserved characters. |
| NewNames.AudioNameParts | RearrangeAudioFiles.py:217-226 | Only the tag values go through the replacement; the disc prefix, number and extension come through unchanged. |
| NewNames.AudioNameLayout | RearrangeAudioFiles.py:217-226 | Optional "Disc N - ", two-digit track number, title, credit, ".flac"; "Disc " leads exactly when disctotal is not "1". |
| NewNames.TwoDigitsValue | RearrangeAudioFiles.py:218 | The two-digit form reads back as the track number. |
| NewNames.AudioNameExtension | RearrangeAudioFiles.py:225 | A renamed audio file's extension is ".flac". |
| NewNames.AuxBaseLayout | RearrangeAudioFiles.py:229-234 | "albumartist - album", with " (Disc N)" exactly when disctotal is not "1". |
| NewNames.DiscInNameMeaning | RearrangeAudioFiles.py:286-290 | The disc number read from a name is the one in its trailing "(Disc N)<ext>", and 1 when there is none. |
| NewNames.AuxNameDisc | RearrangeAudioFiles.py:229-234 | Reading the disc number back from a renamed cuesheet or log of a multi-disc set gives its disc. |
| RenamePlan.OverriddenMeaning | RearrangeAudioFiles.py:140-145 | An overridden tag holds its last override split at ';'; every other tag, and the tagset, are unchanged. |
| RenamePlan.OverriddenNonEmpty | RearrangeAudioFiles.py:145 | An override always holds at least one value. |
| RenamePlan.ProcessTagOverrides | RearrangeAudioFiles.py:140-145 | Without overrides nothing changes; an album without discs (no identical tags) raises a TypeError; otherwise `album.identical` becomes the overridden tags. |
| RenamePlan.TestLinesMeaning | RearrangeAudioFiles.py:151-166 | At most one line per tag: "not present" for a tag outside the common tags, "not identical" for a common or used tag outside the identical ones. |
| RenamePlan.TestLinesEmpty | RearrangeAudioFiles.py:151-166 | A test reports nothing exactly when it finds nothing about any of its tags. |
| RenamePlan.TestTagLines | RearrangeAudioFiles.py:151-166 | The loop over a test's tags gives its lines. |
| RenamePlan.GateDecides | RearrangeAudioFiles.py:168-180 | One error and abort for an unidentical or unknown profile; else classical exactly for "Classical", a compilation exactly with a compilation tag. |
| RenamePlan.ClassicalPathTestsPass | RearrangeAudioFiles.py:182-186 | The path tests of a classical album are silent exactly when `albumartistterse` and `date` are in every track and identical, a used `compilation` tag is identical, and without one `composersort` is in every track and identical. |
| RenamePlan.ClassicalTestsPass | RearrangeAudioFiles.py:179-186 | The classical tests are silent exactly when `composerterse` and `artistterse` are in every track and, with a destination, the path tests are silent. |
| RenamePlan.PopTestsPass | RearrangeAudioFiles.py:187-192 | The tests of another profile are silent exactly when `artist` is in every track, and `date` (with a destination) and `album artist sort` (with that option) are in every track and identical. |
| RenamePlan.ProfileTestsPass | RearrangeAudioFiles.py:177-192 | Silent tests mean every tag the new names read is present, and identical where the path needs it. |
| RenamePlan.GateOpensPath | RearrangeAudioFiles.py:168-214 | A silent gate decided the profile, and with a destination the new path can be built. |
| RenamePlan.TestsMakePathReady | RearrangeAudioFiles.py:177-214 | Silent tests of a known profile, with a destination, leave every tag `get_new_path` reads present with a value. |
| RenamePlan.OverrideSettlesIdentical | RearrangeAudioFiles.py:145-156 | An override settles `test_identical` for a tag every track has; a tag some track lacks is still reported. |
| RenamePlan.ProfileLines | RearrangeAudioFiles.py:177-192 | The tests of a known profile, in the order they run. |
| RenamePlan.CheckTagValidity | RearrangeAudioFiles.py:148-192 | Records the gate's lines and sets the classical and compilation flags it decides; an album without discs raises a TypeError at the profile test, or, with only the common tags missing, right after the classical flag is set. |
| RenamePlan.FitNameMeaning | RearrangeAudioFiles.py:243-259 | Kept when the path fits; refused when under 10 base characters would remain; else `base[:-shrink] + '..' + ext`, making the path exactly the maximum. |
| RenamePlan.RecordReports | RearrangeAudioFiles.py:243-265 | A collision is reported exactly when the name is taken; the recording is error-free exactly when the name fits and is free. |
| RenamePlan.RecordKeepsMutual | RearrangeAudioFiles.py:272-273 | An error-free recording of a new file keeps the two name maps inverse to each other. |
| RenamePlan.FitNewName | RearrangeAudioFiles.py:241-259 | The truncation step gives the fitted name and its messages. |
| RenamePlan.DecideRecord | RearrangeAudioFiles.py:241-265 | The name to record and the messages, before the maps change. |
| RenamePlan.RecordFileToProcess | RearrangeAudioFiles.py:237-273 | Reports, then sets `old_files[old]` to the recorded name and `new_files[name]` to the old one. |
| RenamePlan.MissingAuxTag | RearrangeAudioFiles.py:230-232 | None exactly when the disc's identical tags hold all three the base name reads. |
| RenamePlan.CheckAuxFile | RearrangeAudioFiles.py:285-296 | An absent disc gives one error and records nothing; a missing tag raises KeyError; otherwise the file is recorded under its new name. |

## Left out

- Reading tags from disk (`get_track`, mutagen) and `os.listdir` in `get_album`: the files are given as a list of (file name, tags) records.
- `find_albums`, `check_nontag_info`, `check_and_prepare_audio_files`, `check_and_prepare_auxiliary_files` and `prepare_other_files`: they walk or probe the file system, or only loop over files calling modelled operations.
- The `os.path.exists` probe in `record_file_to_process`: it asks the file system.
- `do_move_or_copy`, `do_rename_in_place` and `remove_empty_directories`: they are file operations.
- `parse_args`, `process_album`, `main`, their counters and `uprint`: command-line and console plumbing.
- `Messages.__str__` and the exact wording of every message: diagnostics are structured values.
- `PostRipProcess.py`, `LogRippedTrack.py` and `FindLongPaths.py` are not part of this model.
- Text.Lower: `str.lower()` is modelled for ASCII letters only; other letters are kept unchanged.
- Text.ParseInt: `int()` accepts an optional sign and ASCII digits with surrounding blanks; other Unicode digits and underscores are not modelled.
- NewNames.JoinPath: drive letters and absolute components of `os.path.join` are not modelled; the components joined never start with a separator.
- NewNames.DiscInNameMeaning: the regex `\d` is modelled as ASCII digits, and `$` matching just before a trailing newline is not modelled; a `.` in the extension is a wildcard for any character but a newline, as in the regex.
- NewNames.NewPathLevels: requires every tag value used for a level to be non-empty, as an empty value would collapse a level; it also requires a destination that does not end in a separator, so a drive root such as `D:\` (which `JoinPath` handles) is not covered.
- RenamePlan.CheckTagValidity: sets the compilation flag once the tests have run, not between them; the one test that reads it is given the value it is about to receive.
- RenamePlan.RecordFileToProcess: the recomputed `new_fullpath` after the collision check feeds only the existence probe, which is left out.
- TrackRanges.OutputDictOfBadTracks: reports the keys in insertion order; the source sorts the lines by their track lists.
- SortTags.CheckSortTags: reports the missing-sort-tag line first and the mismatch lines in the order their values were first met; the source sorts these lines by their track lists.
- TagMapping.HandleMappedTags: reports the detail lines in the order the pairs were visited; the source sorts them.
- AlbumChecks.CheckIdenticalTagsAcrossDiscs: visits the tags in any order, as the source iterates a set; the reported tags are a set.
- PresenceChecks.CheckDupsInTags: visits a track's tags in name order; the source follows the track dictionary's order.
- TrackChecks.CheckDifferentTags: visits the must-differ tags in catalogue order; the source iterates a set.

## Findings

| source | as written | input that shows it | evidently intended | confidence | as-written member | corrected member |
|---|---|---|---|---|---|---|
| CommonUtils.py:240 | A later disc narrows only `identical.tagset`. The keys of the tags that disc lacks stay in the dictionary, but only as dictionary keys: the `in album.identical` test of RearrangeAudioFiles.py:155 still finds them. | Two discs: disc 1 has "albumartist" X on both tracks; disc 2 has X and Y. The written fold keeps "albumartist" as a key, so the gate's "not identical" test, which looks at keys, lets it through. | Drop the keys together with the tagset, as `find_identical_disc_tags` does at lines 218-220. | not executed | AlbumAggregates.IdenticalAsWritten, AlbumAggregates.StaleKeyExample | Aggregation.FindIdenticalAlbumTags |
| CheckFlacTags.py:354 | `msgs.extend(sorted(added))`, and the same at line 357; `Messages` has no `extend` method, so the call raises AttributeError. | A disc whose tracks carry "organization" but not "label", with `--mapping` on (its default). | Add each detail line to the messages after its header. | not executed | TagMapping.HandleMappedTagsAsWritten, TagMapping.ExtendCrashExample | TagMapping.HandleMappedTags |

# Chorale in Dafny

Chorale is a media server and ripper. This project models the self-contained algorithms under it and proves
what they are for:

- **The database synchroniser** (`EditScript`, `Ordering`, `SyncModel`, `SyncMatch`, `SyncTree`, `SyncDelete`,
  `SyncAdd`, `SyncCopy`, `SyncPlan`, `SyncLists`, `SyncMirror`, `SyncTunes`, `SyncHigh`, `SyncBest`, `SyncShape`,
  `SyncEvents`, `SyncTally`, `SyncCounts`, `SyncAgain`, `SyncTwice`, `SyncLacking`, `SyncDryRun`, `SyncIds`,
  `Synchroniser`). On graphs that may have cycles and share records, it is exact when a run fails and when it leaves
  the destination showing the source as it is, its high-quality versions in the place of the items that name them;
  deletions are safe on any two databases; a dry run predicts the real one, and a second run finds nothing to do. The
  edit script it matches names by is the one its diff computes, proved to be least.
- **The steam database** (`Keys`, `Decimal`, `SteamModel`, `SteamQuery`, `SteamOrder`, `SteamMeaning`,
  `SteamExamples`, `Steam`). Over every run its indexes agree with its records; the four kinds of cursor are compared
  with a plain scan, and what a query is answered with is stated in terms of the values of the fields. Its clients are
  the sweep for vanished files (`StaleSweep`) and the two id allocators (`AllocateId`).
- **The playback queue** (`QueueModel`, `QueueRuns`, `QueuePlayer`, `QueueCurrent`, `PlayQueue`), its insertions and
  removals by either order and its two-part shuffle, over every run of them; and exactly when the player is told
  right what is current and what comes next.
- **The tag-rewrite protocol** (`TagSerialiser`): atomic steps of tasks and callers in any interleaving.
- **Codecs and streams**: the children field (`Children`), the merged database over it (`Bits`, `MergeModel`,
  `MergeFollow`, `Merge`), SOAP bodies (`SoapModel`, `SoapMeaning`, `SoapDocument`, `Soap`), the repacketised programme
  stream (`ProgramModel`, `ProgramPackets`, `ProgramZero`, `ProgramStream`), the CRC (`Polynomial`, `Crc16`) and
  programme start times (`Epg`).

Where the source changes objects in place the model has a class whose methods are proved equal, field by field,
to functions of the state (`Synchroniser.Synchroniser`, the recordsets of `Steam`, `StaleSweep.FileScanner`, the
allocators, `PlayQueue.Queue`, `TagSerialiser.TagSerialiser`, `Merge.Database` and its recordsets,
`ProgramStream.ProgramStream`, `Soap.Parser`); the theorems are about those functions. Code that only computes
is functions and loops. What several modules use is in `Common`.

## What the theorems take for granted

- *Synchroniser mirror*: the source has no item of id 0, and both databases have a container as their root. If it has
  high-quality versions, these and what names them are items, each is the version of one item and has none itself, and
  no list names it (`SyncHigh.HighSource`); the theorems of `SyncMatch`, `SyncAdd`, `SyncPlan`, `SyncMirror`, `SyncTunes`
  and `SyncAgain` are for sources without, and those of `SyncHigh`, `SyncBest` and `SyncShape` for sources with. The
  ids that the destination allocates in the run are distinct and non-zero, and not in use once its deletions are done;
  `SyncIds` shows that the Empeg's allocator gives such ids, and when the plain one does. Nothing is asked of how
  either database lists its records, nor of the kinds of item: where these matter they are part of the conditions. The
  counts need only the absence of high-quality versions, and deletion safety, the dry run and what the observers are
  told none of this. That a second run is idle needs also that only containers list anything, that no item lacks a
  title and has a file name that it would be given for one, and that nothing that is listed has the root's record or
  both roots have one title.
- A failed deletion leaves its record; a failed commit has written what it was to write. Reading a record fails
  only where there is none. Both databases' child lists are lists of ids here: the codec of the field is `Children`.
- *Tag rewriting*: each query, write and critical section is one step; what a write takes from the database was
  current at its query or later.
- *Programme stream*: adaptation fields within the packet, six bytes of payload in every unit start, and in a packet
  of PID zero those or none. What is said of PES packets is for streams without PID zero.
- *SOAP*: parameter names sorted without regard to case and without colons, at most eight of a size, and the
  XML layer delivers each element's text unescaped in some number of pieces.
- Ids, times and lengths are unbounded except where a width is written out.

## What was found

- Where the destination lists one record twice, the synchroniser may match two source items to it, and then
  finishes without giving each a record of its own, however often it is run (`SyncTwice.SharedRecordMatchedTwice`,
  `SyncTwice.TwiceNeverMirrors`). If they are containers that do not list the same, one of their lists is lost
  (`SyncTwice.UnlikeNeverReflects`). `SyncMirror.SynchroniseReflects` and `SyncMirror.SynchroniseMirrors` are the
  exact conditions.
- Where a list names a record that is not there, as one can after an interrupted run, and needs no amending, a new
  record may be given that id and turn up in the list (`SyncLacking.LackingNeverReflects`).
- An item of a kind that is not copied, such as an image, is given an id and listed under it but gets no record
  (`SyncLacking.PictureNeverReflects`); `SyncLists.IdsLeadIfCopied` is the exact condition.
- A high-quality version is copied under its own title and tags, while its item's are what is compared
  (`SyncBest.BestVersionsThere`).
- A tune copied over a record of another size is counted neither as added nor as modified, nor are its bytes
  (`SyncCounts.StatisticsBalance`).
- `mediadb::AllocateID` may hand the same id out twice, and hand out an id that is in use, when ids are inserted
  later than the next ones are taken (`AllocateId.LateInsertsClash`); the synchroniser takes many before it inserts
  any. `AllocateId.TakeIsUnused` says exactly when it may not, and `AllocateId.TakesLast` how many takes in a row
  are safe. The Empeg allocator has no such condition.
- An equality query on an indexed field differs from a scan when the key is the default of a field that was never
  set (`SteamExamples.DefaultKeyMissed`), or of the other type and some key of the index converts to it;
  `SteamQuery.AccessPathsAgree` is the exact condition.
- Deleting through an ordered or an indexed cursor skips a record unless the deleted one was the last with its key
  (`SteamExamples.SecondSkipped`, `SteamOrder.DeleteAdvances`, `SteamOrder.IndexedDeleteAdvances`), and integer
  collation ignores the query (`SteamExamples.CollatesUnmatched`, `SteamOrder.CollateYieldsValues`), as does every
  ordered query, which also leaves out the records whose field was never set (`SteamExamples.OrderedUnmatched`);
  `SteamMeaning.AnswerIsRight` is the exact condition.
- Inserting into an empty queue by playing order puts the current index past the end
  (`QueueModel.QueueInsertCurrent`); `QueueRuns.RunValid` says that nothing else does. A track added to an empty queue
  is current, but the player hears of it only when it is started (`QueueCurrent.ValidKeepsCurrent`).
- The player may be left expecting a track that does not come next: after the current one alone is removed
  (`QueuePlayer.CurrentRemovedUntold`), after all that follow it are, or after a track is put in its place. When it
  reports one that is gone from the end the index runs past it (`QueuePlayer.StaleNextRunsPast`).
  `QueuePlayer.ToldInStep` is the exact condition.
- Packets of PID zero that come before an audio stream is found are sent as audio, and those that come after it and
  before a video stream is found as video, which in a programme without video is all of them
  (`ProgramZero.TakenForAudio`, `ProgramZero.TakenForVideo`); `ProgramZero.ZeroHarmless` says when they do no harm.
- A PES packet that has grown to 65535 bytes is cut short (`ProgramModel.NothingLost`). A video packet of more than
  65541 bytes that came without a length is sent with the low sixteen bits of one
  (`ProgramPackets.TooLongForItsLength`); `ProgramPackets.StreamDemultiplexes` says when a reader can go by the lengths.
- Writing the merged root's children back clears database 0's list when there are more than 20000 of them in all
  (`MergeModel.TooManyClears`), and adds a child 63 to it for each child of databases from the 129th on, which
  cannot be written (`MergeModel.FarChildAdds63`); `MergeModel.RootWriteBack` is the exact condition. A merged root
  whose list has been read goes on giving that list after it is written (`Merge.RootRecordset.SetString`).
- A child id of 0 comes back as 63, the question mark written for it (`Children.ReadsAsWritten`).

## Model

| member | source | states |
|---|---|---|
| `EditScript.Diff` | libutil/diff.h:39-144 | the two-row table computes the script of the recursive definition: what is left of both sequences is equal, and no other script leaves out less |
| `EditScript.FillRow` | libutil/diff.h:73-119 | one row of the table from the row above it, cell by cell |
| `EditScript.Choose` | libutil/diff.h:81-115 | the three-way choice with its strict comparisons is the least, ties preferring to keep, then to add |
| `EditScript.CellFits` | libutil/diff.h:73-121 | every cell's script leaves equal remainders of its two prefixes, and its cost counts what it leaves out |
| `EditScript.CellIsLeast` | libutil/diff.h:73-121 | no script whatever for the two prefixes costs less |
| `EditScript.TiesBroken` | libutil/diff.h:81-115 | of the least scripts it is the one that keeps two equal last items, and else adds the last of the second sequence if any least one does, and deletes the last of the first if none does |
| `EditScript.DiffOfEqual` | libutil/diff.h:73-121 | equal sequences need no edit |
| `EditScript.FitsFromStart` | libutil/diff.h:19-39 | the remainders agree in the form that a walk along both sequences uses |
| `SyncModel.AlignedStep` | libmediadb/sync.cpp:208-253 | at each step of the walk the script either skips a source name, or a destination name, or both lists are at the same name, or both have ended |
| `SyncModel.Check` | libmediadb/sync.cpp:114-259 | the recursion ends on any graph: what has been seen grows and, without an error, stays within what is mapped, and no destination record is touched |
| `SyncModel.MaybeDelete` | libmediadb/sync.cpp:278-342 | ends on any graph; nothing already visited is deleted or changed later, whichever deletion fails |
| `SyncModel.MaybeAdd` | libmediadb/sync.cpp:359-440 | ends on any graph; every item asked about is marked as visited |
| `SyncMatch.CheckMatches` | libmediadb/sync.cpp:114-259 | from a source without usable high-quality versions to any destination, comparing two alike items succeeds, every record matched leads back to an item matched to it, pairs agree in kind and title, and every pair added is settled: its children are paired or queued, and an unamended list corresponds one to one |
| `SyncMatch.WalkMatches` | libmediadb/sync.cpp:208-253 | the same of the loop over both child lists |
| `SyncMatch.MatchingSettles` | libmediadb/sync.cpp:677-691 | from the two roots matching cannot fail, maps root to root, and leaves no pair unsettled; the destination may share records and have cycles, as long as its root is a container |
| `SyncTree.TreeMatchedApart` | libmediadb/sync.cpp:114-259 | if the destination lists each record once at most and the root nowhere, no two items are matched to one record |
| `SyncTree.NamesMatchedApart` | libmediadb/sync.cpp:114-259 | nor are they, whatever the destination shares, if no two items of the source have one name and none has that of the destination's root |
| `SyncTwice.SharedRecordMatchedTwice` | libmediadb/sync.cpp:114-259 | a source and a destination that lists one record twice, for which two tunes are matched to it |
| `SyncTwice.TwiceNeverMirrors` | libmediadb/sync.cpp:677-755 | any run from the one to the other succeeds and changes nothing; what it leaves shows the source as it is, kinds, titles and lists, and is no mirror only because the two tunes have one record |
| `SyncTwice.RootKidsMatched` | libmediadb/sync.cpp:114-259 | if the two roots list the same names in order, all that the source's root lists is matched |
| `SyncTwice.UnlikeShare` | libmediadb/sync.cpp:114-259 | two containers, one with a tune and one empty, that are matched to one record |
| `SyncTwice.UnlikeNeverReflects` | libmediadb/sync.cpp:677-755 | so no finished run shows them as they are |
| `SyncDelete.MaybeDeleteWell` | libmediadb/sync.cpp:278-342 | one deletion with its subtree announces only unmatched records that exist, each once; those whose deletion succeeds are gone and all others kept |
| `SyncDelete.CheckSilent` | libmediadb/sync.cpp:114-259 | matching tells the observers nothing, and counts no deletion or amendment |
| `SyncDelete.PlanDeletesSafely` | libmediadb/sync.cpp:677-712 | after matching, every deletion announced was of a record that existed and was not matched, no record is announced twice, and in a real run the records gone are exactly those announced whose deletion did not fail; if none failed, every candidate that was not matched after all is gone |
| `SyncDelete.RunDeletesSafely` | libmediadb/sync.cpp:677-755 | the same safety over a whole run on any two databases, whether or not it finishes |
| `SyncAdd.MaybeAddWell` | libmediadb/sync.cpp:359-440 | items of any type: what is added gets an id issued meanwhile and is queued if of a kind that is copied, all its children having been visited; every id leads back to an item that has it, and if the ids issued are distinct no two items added share one |
| `SyncAdd.MaybeAddAllWell` | libmediadb/sync.cpp:701-710 | the same for all candidates |
| `SyncAdd.MaybeAddAllFails` | libmediadb/sync.cpp:359-440 | adding fails exactly when an item is missing that would be added, or is listed by one that would be |
| `SyncCopy.CopyItemWell` | libmediadb/sync.cpp:448-665 | copying one item writes that item's record as its phase says and no other, keeping of a list's record all but kind, title and children; it fails exactly as the commit or the transfer does; in a dry run it does neither |
| `SyncCopy.CopyRefused` | libmediadb/sync.cpp:448-597 | a new tune that is mapped to nothing is refused with one code, and what the source does not have with another; nothing is written for either |
| `SyncCopy.TouchAllMaps` | libmediadb/sync.cpp:461-470 | looking up a list's items leaves an entry for each, zero where there was none, and changes no other |
| `SyncCopy.CopyItemsWell` | libmediadb/sync.cpp:712-750 | a phase fails exactly when a call for one of its items does; a record that some items go to ends as one of them was written, every other as it was |
| `SyncCopy.AfterPhase` | libmediadb/sync.cpp:712-750 | the same of a whole phase over its queue |
| `SyncPlan.PlanFails` | libmediadb/sync.cpp:677-712 | planning fails exactly when a deletion that it announced does, or something to be added is missing |
| `SyncPlan.ClosedThere` | libmediadb/sync.cpp:359-440 | nothing is if the source's lists name only what is there |
| `SyncPlan.PlanGood` | libmediadb/sync.cpp:677-712 | unless a deletion fails there is one consistent plan: each mapped item matched a record that stays or is new and queued, two items share an id only from matching, and a list that is not to be amended named no record that was deleted |
| `SyncMirror.NamedOfMapped` | libmediadb/sync.cpp:448-495 | a copied child list names exactly the images of the source's wanted children, in order |
| `SyncMirror.KeptKids` | libmediadb/sync.cpp:205-259 | a list that was not rewritten already named the images of what the item lists, and still does if it names no record that the run makes |
| `SyncMirror.UncleanShows` | libmediadb/sync.cpp:205-259 | if it names one it names too many |
| `SyncPlan.CopyAllFails` | libmediadb/sync.cpp:712-755 | the copying phases fail exactly when a commit or a transfer of theirs does |
| `SyncPlan.PhasesRun` | libmediadb/sync.cpp:712-755 | what all four phases together do to each record |
| `SyncMirror.EndShows` | libmediadb/sync.cpp:677-755 | after a finished real run the record of every mapped item that is matched or of a kind that is copied is of its kind and, below the root and if it has one, has its title, whatever shares it |
| `SyncMirror.ListWrittenOrNot` | libmediadb/sync.cpp:448-495 | a container's record has in the end the list it had if no queued item has the record, and else one written for some item that has |
| `SyncMirror.SynchroniseReflects` | libmediadb/sync.cpp:677-755 | what a finished real run leaves shows the source as it is (root to root, equal kinds, equal titles below the root unless it is an item without one, each container's wanted children the images of the source's in order) exactly when containers that matching took one record for list as many wanted items, at each place the same one or two that share a record; and no list of a record that the plan leaves alone names an id that an item is given and that was no wanted record; and everything added is of a kind that is copied |
| `SyncMirror.SynchroniseMirrors` | libmediadb/sync.cpp:677-755 | a run, real or dry, fails exactly when a deletion it announced, or a commit or transfer for a queued item, does, or something to be added is missing; and what a finished real run leaves is a mirror, in which each item has a record of its own besides, exactly when matching took no record for two items, and the same of kept lists and kinds |
| `SyncMirror.TreeMirrors` | libmediadb/sync.cpp:677-755 | on a destination that lists each record once at most matching takes none for two, so that only the kept lists and the kinds count |
| `SyncMirror.NamesApartMirrors` | libmediadb/sync.cpp:677-755 | and on every destination whatever, if names tell the source's items apart |
| `SyncMirror.WantedClean` | libmediadb/sync.cpp:205-259 | kept lists are as asked if every list of the destination names only wanted records |
| `SyncLacking.LackingNeverReflects` | libmediadb/sync.cpp:677-755 | a destination that lists each record once, and in its root an id that is not there: no finished run that is given that id for the one new tune shows the source as it is |
| `SyncLacking.PictureNeverReflects` | libmediadb/sync.cpp:359-440 | an image in the source: no finished run makes a record for the id that it is given |
| `SyncLists.IdsLeadSomewhere` | libmediadb/sync.cpp:677-755 | after a finished real run that adds only kinds that are copied, every id that an item is mapped to is that of a record that exists, whatever the destination shares and whatever ids it allocates |
| `SyncLists.IdsLeadIfCopied` | libmediadb/sync.cpp:677-755 | with unused ids, exactly then |
| `SyncLists.WrittenListsLeadSomewhere` | libmediadb/sync.cpp:448-495 | so every id in a list written for an item is that of a record that exists at the end |
| `SyncLists.ListAtEnd` | libmediadb/sync.cpp:448-495 | the list that a queued container's record has at the end is one that was written for some item, and names only records that exist if what was added is of kinds that are copied |
| `SyncTunes.CheckCompares` | libmediadb/sync.cpp:114-259 | every item but a container that gets mapped is queued for copying, or for new tags, or its counterpart has its size and tags already |
| `SyncTunes.SynchroniseCopiesItems` | libmediadb/sync.cpp:677-755 | after a finished real run the record of every mapped item but a container has the source's size and tags exactly when any such items matched to one record have the same, and everything added is of a kind that is copied |
| `SyncTunes.QueuedAreWhole` | libmediadb/sync.cpp:501-643 | after a finished real run the record of every queued item is in every field a copy of a queued item that has it, and of that one if no other has: its own kind, or a tune for a high-quality one; its title, or its file's name if it has none; and every other field equal; records that no queued item has are as they were |
| `SyncHigh.PairStands` | libmediadb/sync.cpp:152-199 | comparing an item with its high-quality version there does what comparing it would if it had that version's size and no such version, but queues and maps the version |
| `SyncHigh.CheckStands` | libmediadb/sync.cpp:114-259 | so matching from a source with high-quality versions, which no list names, does what it would from the source with each item in its best version: the same is seen, mapped, kept as candidates and counted |
| `SyncHigh.MaybeAddStands` | libmediadb/sync.cpp:359-440 | so does adding, which maps an item and its high-quality version to one new id and queues the version |
| `SyncBest.PlanStands` | libmediadb/sync.cpp:677-710 | so does planning: the same records are deleted and announced, the same ids given, the same numbers counted |
| `SyncBest.FailsAsResolved` | libmediadb/sync.cpp:677-755 | and a whole run fails exactly when that one does, where a call for an item is the call for its best version |
| `SyncBest.BestVersionsThere` | libmediadb/sync.cpp:152-196 | after a finished real run the record of an item that has one alone is of the size of its best version, and a copy of that version in every field, or has the item's tags as it had before; it is missing only if that version is of a kind that is not copied |
| `SyncShape.BestMirrors` | libmediadb/sync.cpp:677-755 | what a finished real run from such a source leaves shows it, kinds and lists, and titles of all items without a high-quality version, in a record of its own for each, exactly when matching took no record for two items, no kept list names a record that the run makes, and everything added is of a kind that is copied |
| `SyncEvents.CopyItemsTell` | libmediadb/sync.cpp:712-750 | a phase announces each item before it copies it, with its place and how many there are, up to the first that fails |
| `SyncEvents.MaybeDeleteTells` | libmediadb/sync.cpp:278-342 | a run tells once that it is deleting, before the first deletion that it announces |
| `SyncEvents.RunTells` | libmediadb/sync.cpp:677-755 | any run, from any state of the synchroniser, tells that it begins, then of its deletions, then of its copies phase by phase, and that it has ended exactly if it returns no error; a finished one has announced all that it planned, a failed one the first of it |
| `SyncTally.StatisticsTally` | libmediadb/sync.cpp:677-755 | over any run on any two databases, finished or not, the counts of deleted files, deleted playlists and amended playlists are a tally of what the observers were told |
| `SyncTally.MaybeDeleteTallies` | libmediadb/sync.cpp:278-342 | each deletion counts its record by what it was in the destination at first |
| `SyncCounts.StatisticsBalance` | libmediadb/sync.cpp:677-755 | over any run, the counts of added playlists, added files and modified files are the sizes of the queues, and the bytes those of the added tunes; tunes copied over a record of another size are in neither |
| `SyncCounts.CheckCounts` | libmediadb/sync.cpp:114-259 | matching counts a modified file for each tune it queues for new tags, and no added one |
| `SyncCounts.MaybeAddCounts` | libmediadb/sync.cpp:359-440 | an addition counts what it queues, and its bytes |
| `SyncAgain.NothingToDo` | libmediadb/sync.cpp:677-755 | where the destination is as the source already, shared records included, a run of either kind queues, deletes, amends, announces and counts nothing |
| `SyncAgain.RunFinishes` | libmediadb/sync.cpp:677-755 | what that one leaves is as the source in everything that matching compares |
| `SyncAgain.SecondRunIdle` | libmediadb/sync.cpp:677-755 | so a second run after a finished real one finds nothing to do, if what shares records agreed, no kept list named what was added, it was of kinds that are copied, and no item lacks a title |
| `SyncMirror.ReachableMapped` | libmediadb/sync.cpp:109-113 | where the source is shown as it is everything reachable in it has a counterpart |
| `SyncMirror.ReachableIsImage` | libmediadb/sync.cpp:109-113 | and everything reachable in the destination is one |
| `SyncDryRun.MaybeAddTwins` | libmediadb/sync.cpp:359-440 | real and dry runs allocate for the same items and count the same, though their ids differ |
| `SyncDryRun.DryRunPredicts` | libmediadb/sync.cpp:677-755 | if the real run succeeds the dry run does too, with the same statistics and observer calls, and changes no record; on any two databases, whatever the dry run's transfers would return |
| `SyncDryRun.DryRunKeepsDestination` | libmediadb/sync.cpp:336-337 | a dry run changes no record even if it fails |
| `Synchroniser.GetNames` | libmediadb/sync.cpp:57-96 | ids of missing records and plain files are dropped, and the names are those of the rest in order |
| `Synchroniser.Synchroniser.CheckPlaylistNames` | libmediadb/sync.cpp:114-259 | the method on the object's sets and maps computes `SyncModel.Check` |
| `Synchroniser.Synchroniser.MatchChildren` | libmediadb/sync.cpp:208-253 | the loop with two moving positions computes the recursive walk |
| `Synchroniser.Synchroniser.MatchNext` | libmediadb/sync.cpp:208-253 | each turn of it takes the step that the script calls for |
| `Synchroniser.Synchroniser.CompareItems` | libmediadb/sync.cpp:152-196 | comparing two files, by size and tags, and preferring the high-quality version |
| `Synchroniser.Synchroniser.MaybeDelete` | libmediadb/sync.cpp:278-342 | as `SyncModel.MaybeDelete`, in place, with the code that a failed deletion returns |
| `Synchroniser.Synchroniser.MaybeAdd` | libmediadb/sync.cpp:359-440 | as `SyncModel.MaybeAdd`, in place |
| `Synchroniser.Synchroniser.CopyPlaylist` | libmediadb/sync.cpp:448-495 | as the function, with the map entries that looking up makes and the code that the commit returns |
| `Synchroniser.Synchroniser.CopyMetadata` | libmediadb/sync.cpp:501-545 | as the function, with the code that the commit returns |
| `Synchroniser.Synchroniser.AddTune` | libmediadb/sync.cpp:575-643 | metadata, and then the transfer unless it is a dry run |
| `Synchroniser.Synchroniser.Synchronise` | libmediadb/sync.cpp:677-755 | the whole run on the object is the run the theorems are about |
| `Decimal.UnsignedRoundTrip` | libdbsteam/rs.cpp:38-79 | a number written in decimal is read back, at 64 and at 32 bits |
| `Decimal.SignedRoundTrip` | libupnp/soap_parser.cpp:76-77 | the same with a sign |
| `Decimal.AnyText` | libdbsteam/rs.cpp:38-57 | any text is white space, a sign or none, digits, and what does not go on with them, and is read as the number of the digits under the sign: signed, held within 64 bits; unsigned, modulo 64 and 32 bits |
| `Decimal.DigitsMean` | libdbsteam/rs.cpp:59-79 | a number is written with its digits by their places and no leading zeros |
| `Keys.StrLessIs` | libdbsteam/db.h:62-75 | text keys are in order of the first place where they differ, a beginning before what it begins |
| `SteamModel.SetStringConsistent` | libdbsteam/rs.cpp:81-151 | storing a string keeps every index in agreement with the records, and converted values with what they came from |
| `SteamModel.SetIntegerConsistent` | libdbsteam/rs.cpp:153-201 | storing an integer does |
| `SteamModel.CacheConsistent` | libdbsteam/rs.cpp:38-57 | keeping a converted integer in the record does, and no reader can tell |
| `SteamModel.AddConsistent` | libdbsteam/rs.cpp:203-213 | a new record does |
| `SteamModel.DeleteConsistent` | libdbsteam/rs.cpp:220-269 | deleting a record does, and takes exactly it out of every column |
| `SteamModel.RunConsistent` | libdbsteam/db.h:30-82 | over every run from an empty database, a record is under a key of an index exactly when it is live and its value, valid in the index's type, is that key; no bucket is empty |
| `SteamModel.ReadsAfterSetString` | libdbsteam/rs.cpp:38-151 | what both getters give after a string was set |
| `SteamModel.ReadsAfterSetInteger` | libdbsteam/rs.cpp:38-201 | what both getters give after an integer was set, with the case where 0 reads as no text |
| `SteamMeaning.AddedReads` | libdbsteam/rs.cpp:203-213 | a new record has a number of its own, reads as zero and as no text in every field, and changes no other |
| `SteamMeaning.SetsOnlyThat` | libdbsteam/rs.cpp:81-201 | setting a field changes no other field and no other record |
| `SteamQuery.RelationMeaning` | libdb/query.cpp:29-69 | pushing And or Or means conjunction or disjunction, and keeps every earlier reference valid |
| `SteamQuery.MatchElementWithin` | libdbsteam/query.cpp:81-168 | growing a query's tree changes nothing already in it; matching ends because nodes refer only to earlier ones |
| `SteamQuery.ScanYieldsMatches` | libdbsteam/rs.cpp:275-304 | a scan yields the matching records, each once, by record number |
| `SteamMeaning.IntegerMeaning` | libdbsteam/query.cpp:116-146 | a restriction of an integer holds of a record exactly if its value is equal, unequal, greater, less, and so on, as the restriction says; pushing it keeps every earlier reference valid |
| `SteamMeaning.ComparisonYields` | libdbsteam/query.cpp:116-146 | for each of the six comparisons, a query of it yields exactly the records whose value compares so |
| `SteamMeaning.TextYields` | libdbsteam/query.cpp:88-115 | for each of the three of texts likewise |
| `SteamMeaning.RangeYields` | libtv/web_epg.cpp:215-219 | `And` of at least a and less than b yields exactly the records with a value from a to below b, once each and in order; `Or`, those with one on either side |
| `SteamQuery.SingleRestriction` | libdbsteam/query.cpp:55-71 | any tree over a single restriction means that restriction |
| `SteamQuery.AccessPathsAgree` | libdbsteam/query.cpp:15-72 | the indexed cursor yields the same sequence as the filtered scan exactly when both hold: the key is not the default or every record has the field set; and the key has the field's type or nothing in the index reads as it (no text with that value, no integer with that numeral) |
| `SteamExamples.DefaultKeyMissed` | libdbsteam/query.cpp:15-72 | one record whose field was never set: a scan for 0 finds it and the index does not |
| `SteamOrder.OrderedYieldsAll` | libdbsteam/rs.cpp:409-522 | an ordered cursor yields every record with the field set exactly once, by key and then record number |
| `SteamMeaning.OrderedAnswer` | libdbsteam/query.cpp:49-53 | an ordered query is answered with every record that has the first of its fields set, whatever it asks: integers by size, texts by their first difference, equal ones by record; with none if the field is not indexed |
| `SteamMeaning.PlainAnswer` | libdbsteam/query.cpp:55-71 | any other that does not collate is answered in order of record, with the records that match it exactly if it does not look up one value in an index that lacks some record with it |
| `SteamMeaning.AnswerIsRight` | libdbsteam/query.cpp:15-72 | so a query that does not collate is answered with the records that match it and no others exactly if, ordered, it asks for those that have the field set, and, looking up a value, the index has all that read as it |
| `SteamMeaning.CollatedAnswer` | libdbsteam/query.cpp:31-47 | one that does has a cursor exactly if it names one field and that is indexed |
| `SteamExamples.OrderedUnmatched` | libdbsteam/query.cpp:49-53 | two records with 5: those with 7, in order, are both of them |
| `SteamOrder.DeleteLast` | libdbsteam/rs.cpp:220-269 | deleting the last record of a bucket leads where moving on would |
| `SteamOrder.DeleteAdvances` | libdbsteam/rs.cpp:220-269 | after a deletion the cursor is at the record that was next exactly when the deleted one was the last with its key |
| `SteamExamples.SecondSkipped` | libdbsteam/rs.cpp:220-269 | two records with one key: an ordered cursor that deletes the first ends, though moving on would find the second |
| `SteamOrder.IndexedDeleteAdvances` | libdbsteam/rs.cpp:220-403 | a cursor over one bucket counts on after a deletion, so it passes over the next record unless it deleted the last |
| `SteamOrder.CollateYieldsWanted` | libdbsteam/rs.cpp:528-602 | a collating cursor yields each wanted key once, ascending |
| `SteamOrder.CollateYieldsValues` | libdbsteam/rs.cpp:528-651 | string collation gives the sorted distinct values of the matching records, integer collation those of all records |
| `SteamExamples.CollatesUnmatched` | libdbsteam/rs.cpp:528-651 | two records with 5: collating the integers of the records with 7 yields the 5 |
| `Steam.Recordset.GetInteger` | libdbsteam/rs.cpp:38-57 | reads the converted value and keeps it in the record |
| `Steam.Recordset.SetString` | libdbsteam/rs.cpp:81-151 | the record and its index change as `SteamModel.SetString` says; at the end, an error and no change |
| `Steam.Recordset.SetInteger` | libdbsteam/rs.cpp:153-201 | likewise |
| `Steam.Recordset.AddRecord` | libdbsteam/rs.cpp:203-213 | a record of a new number, which the cursor is then on |
| `Steam.Recordset.RemoveRecord` | libdbsteam/rs.cpp:220-264 | the record goes from the rows and from every index |
| `Steam.Query.And` | libdb/query.cpp:29-48 | pushes the node the functions speak of |
| `Steam.Query.Or` | libdb/query.cpp:50-69 | likewise |
| `Steam.Query.MatchElement` | libdbsteam/query.cpp:81-168 | evaluates as the function, though it may convert values as it goes |
| `Steam.SimpleRecordset.MoveNext` | libdbsteam/rs.cpp:284-304 | the next match, also if the current record has gone |
| `Steam.SimpleRecordset.Delete` | libdbsteam/rs.cpp:220-304 | deletes and goes to the next match of what is left |
| `Steam.IndexedRecordset.MoveNext` | libdbsteam/rs.cpp:354-403 | the next record of the bucket as it now is |
| `Steam.IndexedRecordset.Delete` | libdbsteam/rs.cpp:220-403 | deletes and then takes the next position of the bucket as it then stands |
| `Steam.OrderedRecordset.MoveNext` | libdbsteam/rs.cpp:449-522 | finds its key again and goes to the next place |
| `Steam.OrderedRecordset.Delete` | libdbsteam/rs.cpp:220-269 | deletes and then moves on from the same position |
| `Steam.CollateRecordset.MoveUntilValid` | libdbsteam/rs.cpp:565-602 | stops at the least remaining key that is wanted |
| `Steam.CollateRecordset.MoveNext` | libdbsteam/rs.cpp:619-651 | the next wanted key after the current one |
| `Steam.Execute` | libdbsteam/query.cpp:15-72 | gives the cursor of the access path that is chosen, at its start |
| `StaleSweep.UniqueStep` | libdbsteam/rs.cpp:220-269 | with unique keys, moving on and deleting both pass exactly the current key |
| `StaleSweep.FileScanner.OnFinished` | libdblocal/file_scanner.cpp:470-509 | if all scanned paths are in the database, the merge ends with exactly the records of scanned paths, every other record of the column gone and nothing else touched |
| `StaleSweep.FileScanner.Merge` | libdblocal/file_scanner.cpp:479-502 | the loop over cursor and list stops with every scanned path passed |
| `StaleSweep.FileScanner.DeleteRest` | libdblocal/file_scanner.cpp:504-508 | what is left of the cursor's records is deleted |
| `AllocateId.ScanReaches` | libmediadb/allocate_id.cpp:20-55 | an id is in the gap that the scan finds exactly when it is in the first run of unused ids above the lowest used one, or, if that lies above the expected id, between the two |
| `AllocateId.TakeIsUnused` | libmediadb/allocate_id.cpp:20-55 | a returned id is not in the database; it is no id still on its way, and later ones stay out of its way, exactly when the gap in hand is not used up or no id on its way is where the scan will look |
| `AllocateId.TakesLast` | libmediadb/allocate_id.cpp:20-55 | from one database, exactly as many consecutive takes as the first gap found has room for are new ids, in order; the next repeats the first |
| `AllocateId.StepSafe` | libmediadb/allocate_id.cpp:20-55 | with prompt insertion the gap stays free over every step |
| `AllocateId.LateInsertsClash` | libmediadb/allocate_id.cpp:20-55 | a run with late insertions that repeats an id and hands out one in use |
| `AllocateId.Step16Safe` | libdbempeg/allocate_id.cpp:21-59 | with no condition: a multiple of sixteen, unused, greater than any before |
| `AllocateId.Run16Increasing` | libdbempeg/allocate_id.cpp:21-59 | over every run the ids strictly increase in multiples of sixteen |
| `AllocateId.TakenOutside` | libdbempeg/allocate_id.cpp:21-59 | taking nothing but ids, each is outside the database |
| `AllocateId.PlainAllocator.Allocate` | libmediadb/allocate_id.cpp:20-55 | the cursor loop finds the gap of the function |
| `AllocateId.EmpegAllocator.Allocate` | libdbempeg/allocate_id.cpp:21-59 | likewise |
| `SyncIds.SixteensAreFresh` | libdbempeg/allocate_id.cpp:21-59 | however many ids are taken from the Empeg's allocator, they are distinct and unused |
| `SyncIds.PlainAreFresh` | libmediadb/allocate_id.cpp:20-55 | those from the plain one are exactly while no more are taken than the first gap has |
| `SyncIds.SixteensAreGiven` | libdbempeg/allocate_id.cpp:21-59 | a run that takes its ids from the Empeg's allocator is given them as the mirror theorems ask, deletions or not |
| `SyncIds.PlainAreGiven` | libmediadb/allocate_id.cpp:20-55 | one that takes them from the plain allocator is exactly while the first gap that is left by its deletions has room for all of them |
| `SyncIds.EmpegRun` | libmediadb/sync.cpp:677-755 | the whole of it for an Empeg, with no condition on ids left: when a run fails, and when a finished one leaves a mirror, the source as it is, and its items up to date |
| `QueueModel.PermutationFromSize` | liboutput/queue.cpp:561-585 | distinct positions below the length are all of them, which is all that `CheckQueue` looks for |
| `QueueModel.RemovePlayOrder` | liboutput/queue.cpp:249-362 | after a removal the survivors play in their old order |
| `QueueModel.RemoveCurrent` | liboutput/queue.cpp:249-362 | the first survivor from the old current position on becomes current, or the top if there is none |
| `QueueModel.RemoveValid` | liboutput/queue.cpp:249-362 | removal leaves the queue a permutation with a track current whenever there is one |
| `QueueModel.QueueInsertOrder` | liboutput/queue.cpp:139-172 | the playing order is the old one with the track at its place |
| `QueueModel.QueueInsertCurrent` | liboutput/queue.cpp:139-172 | the current track stays current, and if there was none there is none after |
| `QueueModel.EntryInsertOrder` | liboutput/queue.cpp:174-242 | likewise for insertion by entry, whatever place is drawn |
| `QueueModel.EntryInsertCurrent` | liboutput/queue.cpp:174-242 | the current track changes exactly when the new one lands on its place; a later place leaves the order up to and including it alone |
| `QueueModel.ShuffleValid` | liboutput/queue.cpp:392-449 | any outcome of shuffling is a permutation with the same track current |
| `QueueModel.ShuffleOrder` | liboutput/queue.cpp:392-449 | before the current track lie exactly the other played ones |
| `QueueModel.UnshuffleValid` | liboutput/queue.cpp:392-449 | unshuffling restores the order of the entries with the same track current |
| `QueueRuns.NextSound` | liboutput/queue.cpp:42-466 | every operation, seek and report of the player keeps the queue a permutation with the current index at most its length, and in range if it was, unless it inserts by playing order where there is nothing to play |
| `QueueRuns.RunSound` | liboutput/queue.cpp:42-466 | so over every run of them, whatever is drawn, the playing order is a permutation of the entries |
| `QueueRuns.RunValid` | liboutput/queue.cpp:42-466 | and a track is current whenever there is one, if no insertion by playing order meets an empty queue |
| `QueueRuns.RunConserves` | liboutput/queue.cpp:42-466 | over every run the tracks are those that were there and those inserted, but for those in the ranges removed |
| `QueuePlayer.RemovedNext` | liboutput/queue.cpp:249-362 | the track that a removal leaves next is the second survivor from the old current place on, or from the top if none is there |
| `QueuePlayer.ToldInStep` | liboutput/queue.cpp:119-521 | an operation keeps the URL that the player is to expect next that of the track after the current one exactly when: no track of another URL is put in the place of the current one in front of it; a removal leaves a next track that is announced or of the URL expected, or none was expected; and a shuffle or seek leaves a track to come if there was one |
| `QueuePlayer.QueueRemoveStays` | liboutput/queue.cpp:249-305 | for a range of the playing order: exactly unless it takes all after the current track, or that track and all but one after it, or it and all that follow with fewer than two before |
| `QueuePlayer.EntryRemoveStays` | liboutput/queue.cpp:307-362 | for a range of the entries: with a next track that stays, if the current one does, or the URL after the next is the same; with one that goes, if another comes after it, or two if the current one goes too, or two are left in all if none does after; with none, if the current one stays, or the first entry is in the range, or fewer than two are left, or one with no URL is next |
| `QueuePlayer.CurrentRemovedUntold` | liboutput/queue.cpp:307-362 | removing just the current one of entries with URLs of their own never does |
| `QueuePlayer.ReportInStep` | liboutput/queue.cpp:42-84 | while the two agree a report of the next track is never of one past the end, and they still agree after it |
| `QueuePlayer.RunInStep` | liboutput/queue.cpp:42-521 | so over every run whose operations meet the condition |
| `QueuePlayer.StaleNextRunsPast` | liboutput/queue.cpp:42-521 | two tracks of which the one to come is removed: its URL is still expected, and its report runs the index past the end |
| `QueueCurrent.StartTells` | liboutput/queue.cpp:364-379 | starting the player announces the track at the current place of the playing order, and the one after it where there is one |
| `QueueCurrent.RenewedIsCurrent` | liboutput/queue.cpp:174-464 | after a seek, a removal of the current track or an insertion by entry in its place, the URL expected is that of the track that is current then, whatever was expected before |
| `QueueCurrent.ToldAtCurrent` | liboutput/queue.cpp:42-464 | an operation keeps the URL expected now that of the current track exactly unless, where none was current, it adds one of another URL or removes entries and leaves another at the top; a report of the next track does exactly if the next URL expected is that track's |
| `QueueCurrent.ValidKeepsCurrent` | liboutput/queue.cpp:119-137 | while a track is current if there is one, only an addition to an empty queue goes unannounced |
| `QueueCurrent.PlayedMarks` | liboutput/queue.cpp:42-69 | what a report marks as played is the current track, and nothing else changes |
| `QueueCurrent.ReportMarksTrack` | liboutput/queue.cpp:42-84 | while both URLs agree with the queue, a report of the one expected now stays, one of the other moves on by one, and either marks a track of the URL reported and no other; any other report changes nothing |
| `QueueCurrent.RunAtCurrent` | liboutput/queue.cpp:42-521 | so over every run of operations, starts and reports that meet the two conditions both URLs agree with the queue |
| `PlayQueue.Queue.Add` | liboutput/queue.cpp:119-137 | the track comes last in both orders, the current index stays, and the player is told if it comes next |
| `PlayQueue.Queue.QueueInsert` | liboutput/queue.cpp:139-172 | as the function, in place; and what the player is told |
| `PlayQueue.Queue.EntryInsert` | liboutput/queue.cpp:174-242 | as the function at some place, in shuffled order never before the tracks still to come; and what the player is told |
| `PlayQueue.Queue.QueueRemove` | liboutput/queue.cpp:249-305 | marking, renumbering and erasing is the removal of the entries in that range of the playing order; and what the player is told |
| `PlayQueue.Queue.EntryRemove` | liboutput/queue.cpp:307-362 | the compaction loop is the same removal of a range of entries; and what the player is told |
| `PlayQueue.Queue.CompactQueue` | liboutput/queue.cpp:315-345 | the loop over the queue keeps the survivors renumbered and finds the new current index |
| `PlayQueue.Queue.SetShuffle` | liboutput/queue.cpp:392-449 | on: played and unplayed parts each in any order around the current track; off: the entries' order; nothing but the flag if there is at most one track; and what the player is told |
| `PlayQueue.Queue.OnURL` | liboutput/queue.cpp:42-84 | the branches on the two expected URLs mark and move as the function does |
| `PlayQueue.Queue.Seek` | liboutput/queue.cpp:451-466 | goes to a place of the playing order if there is one, and tells the player |
| `PlayQueue.Queue.SetURL` | liboutput/queue.cpp:478-495 | the URL of the current track, if there is one |
| `PlayQueue.Queue.SetNextURL` | liboutput/queue.cpp:497-521 | the URL of the track after it; where there is none what was expected stays |
| `TagSerialiser.StepInv` | libdblocal/tag_serialiser.cpp:41-145 | every step of any task or caller keeps the invariant: one live task an id, pending ids among those with tasks, every request covered |
| `TagSerialiser.NoLostUpdate` | libdblocal/tag_serialiser.cpp:41-145 | in every interleaving, once an id has no live task, the last attempt on its file had queried the database no earlier than the last commit before the last request |
| `TagSerialiser.FileIsFresh` | libdblocal/tag_serialiser.cpp:68-80 | if that attempt succeeded the file is as new as was asked for |
| `TagSerialiser.TasksCanStep` | libdblocal/tag_serialiser.cpp:41-107 | no live task is ever stuck |
| `TagSerialiser.TasksEnd` | libdblocal/tag_serialiser.cpp:52-102 | each of its steps brings a task nearer its end |
| `TagSerialiser.TasksIndependent` | libdblocal/tag_serialiser.cpp:41-107 | a task's steps do not touch other tasks or their progress |
| `TagSerialiser.OthersKeepWork` | libdblocal/tag_serialiser.cpp:41-145 | and no other action makes its work more or less, but a request for the same id |
| `TagSerialiser.RunBound` | libdblocal/tag_serialiser.cpp:41-145 | over every interleaving without a new request for an id, its tasks take no more steps than they had still to do at first |
| `TagSerialiser.TasksFinish` | libdblocal/tag_serialiser.cpp:41-145 | so once they have taken them, or no step of theirs is left to take, they have ended |
| `TagSerialiser.TagSerialiser.Rewrite` | libdblocal/tag_serialiser.cpp:118-145 | the critical section on the two sets is the protocol's step |
| `TagSerialiser.TagSerialiser.Begin` | libdblocal/tag_serialiser.cpp:45-50 | likewise for the start of a task |
| `TagSerialiser.TagSerialiser.Check` | libdblocal/tag_serialiser.cpp:83-101 | likewise for the decision to go round again or leave |
| `Children.AppendUTF8` | libmediadb/schema.cpp:8-49 | the shifted and masked bytes of each of the six lengths are the marks and six-bit groups of the format |
| `Children.VectorToChildren` | libmediadb/schema.cpp:51-65 | the loop writes the count and every id |
| `Children.GetUTF8Char` | libmediadb/schema.cpp:67-146 | the pointer moves past one character and its value is the sum of its groups by their places |
| `Children.ChildrenToVector` | libmediadb/schema.cpp:148-167 | the loop reads the list, or none where the count is 0 or over 20000 |
| `Children.ReadCharacter` | libmediadb/schema.cpp:67-146 | a written character is read back, wherever it stands in a string |
| `Children.RoundTrip` | libmediadb/schema.cpp:51-167 | a list survives writing and reading exactly when it has at most 20000 ids and all are in 1..2^31-1 |
| `Children.ReadsAsWritten` | libmediadb/schema.cpp:8-167 | any list of at most 20000 values comes back with each zero as 63, and without the values from 2^31 on, for each of which there is a zero at the end |
| `Children.ReadsAsSeen` | libmediadb/schema.cpp:10-11 | so with zeros allowed but nothing too great, only zeros change |
| `Children.DecodeBound` | libmediadb/schema.cpp:148-167 | whatever the field holds, at most 20000 values below 2^31 are read |
| `Children.CharacterMarked` | libmediadb/schema.cpp:8-49 | every character is in its shortest form, its first byte says how many bytes it has, and all others, and no first one, begin with the bits 10 |
| `Children.NoZeroInside` | libmediadb/schema.cpp:51-65 | what is written has no zero byte, so it ends where a string of C does |
| `MergeModel.TaggedApart` | libdbmerge/db.h:18-19 | tagged ids of local ones are distinct, and each says whose it is and what it was |
| `MergeModel.TaggedParts` | libdbmerge/db.cpp:259-270 | the or with the shifted number keeps the low bits and meets only the high ones |
| `MergeModel.IntWriteBack` | libdbmerge/db.cpp:259-296 | writing back an integer read through a wrapped record changes nothing exactly when it is local or no id |
| `MergeFollow.IdLeadsBack` | libdbmerge/db.cpp:206-296 | an id read through a record of another database as its own, as that of what it is filed under or as its parent's is sent back by a query to that database and the same local id exactly if it is local and neither zero nor the root's; writing it back stores the local one |
| `MergeFollow.IdIsFound` | libdbmerge/db.cpp:206-296 | so what such an id names is found, under that id, if it is there |
| `MergeFollow.OthersPass` | libdbmerge/db.cpp:259-371 | every other integer, and every text but the children, is read and written as it is |
| `MergeFollow.OtherQueries` | libdbmerge/db.cpp:206-253 | any query but for one id goes to the first database as it is; with no such database there is no record, and for an id of one that is not there no answer |
| `MergeFollow.FirstCompares` | libdbmerge/db.cpp:232-252 | a database answers one restriction first with the first record whose value compares as it says |
| `MergeModel.WrappedChildren` | libdbmerge/db.cpp:272-284 | the children a client reads are the record's own, each tagged; past the 128th database they are as many zeros |
| `MergeModel.ChildrenWriteBack` | libdbmerge/db.cpp:272-309 | writing them back restores the list exactly when all were local ids; past the 128th database, when each was 63 |
| `MergeModel.RootReads` | libdbmerge/db.cpp:315-353 | the merged root reads as all databases' tagged children in order exactly when there are at most 20000, none in a database after the 128th and none the zero id of the first |
| `MergeModel.RootBecomes` | libdbmerge/db.cpp:315-371 | what database 0's list becomes when the merged children are written back: empty if there were more than 20000, otherwise its untagged ids, zeros as 63, and a 63 more for every child past the 128th database |
| `MergeModel.RootWriteBack` | libdbmerge/db.cpp:315-371 | for any number of databases it stays as it was exactly when its ids are local and, if all the children could be read, none is past the 128th database, or, if not, it had none |
| `MergeModel.TooManyClears` | libdbmerge/db.cpp:315-371 | a list of one child beside a database with 20000: it loses that child |
| `MergeModel.FarChildAdds63` | libdbmerge/db.cpp:315-371 | a list of one child beside one in the 129th database: it gains the child 63 |
| `MergeModel.QueryReports` | libdbmerge/db.cpp:206-253 | a query for an id is answered by the record of that local id in the database it names, and the answer has the id asked for unless it is another database's root or zero |
| `MergeModel.ChildrenReachable` | libdbmerge/db.cpp:206-353 | every child of any database's root is listed in the merged root under an id that finds it |
| `Merge.Database.AddDatabase` | libdbmerge/db.cpp:111-129 | the first free place is taken and no other database moves; only a full list refuses |
| `Merge.Database.RemoveDatabase` | libdbmerge/db.cpp:131-143 | one place of the database is emptied and no number changes |
| `Merge.Database.Execute` | libdbmerge/db.cpp:206-253 | dispatch by the top byte, to the plain, wrapped or root face of the right database |
| `Merge.Database.MergeChildren` | libdbmerge/db.cpp:325-350 | the loop over databases gathers the tagged children |
| `Merge.Database.TaggedChildren` | libdbmerge/db.cpp:325-350 | one database's part of them |
| `Merge.WrapRecordset.GetInteger` | libdbmerge/db.cpp:259-270 | id fields gain the number, but for 0 and the root's id |
| `Merge.WrapRecordset.GetString` | libdbmerge/db.cpp:272-284 | the children field is read, tagged and written again |
| `Merge.WrapRecordset.SetInteger` | libdbmerge/db.cpp:286-296 | id fields lose it; other fields and records stay, and past the last record there is an error and no change |
| `Merge.WrapRecordset.SetString` | libdbmerge/db.cpp:298-309 | so do children; the rest likewise stays |
| `Merge.RootRecordset.GetString` | libdbmerge/db.cpp:315-353 | the merged list, made when first asked for and then kept |
| `Merge.RootRecordset.SetString` | libdbmerge/db.cpp:355-371 | only untagged ids reach database 0; other fields and records stay; the kept list is not renewed |
| `SoapModel.ValueRoundTrip` | libupnp/soap.cpp:63-116 | a value is read back from its text exactly when a truth value is 0 or 1 and an enumerated one's text is not that of an earlier one |
| `SoapMeaning.BoolMeans` | libupnp/soap.cpp:13-21 | exactly 1, and `true` and `yes` in any case, are true |
| `SoapMeaning.FindMeans` | libupnp/data.cpp:12-21 | a name is found exactly if it is there, letters of either case being the same |
| `SoapMeaning.NumberMeans` | libupnp/soap_parser.cpp:74-104 | any text of a number is read as the value of its digits under its sign, cut to the width, if 63 bits hold it |
| `SoapMeaning.OthersMean` | libupnp/soap_parser.cpp:62-72 | texts are read as they are, and enumerated values as the first place of the name, or the number of names |
| `SoapMeaning.NumberWritten` | libupnp/soap.cpp:93-117 | a number is written with its digits and no leading zeros, after a minus sign if it is negative as a signed one of 32 bits |
| `SoapMeaning.OthersWritten` | libupnp/soap.cpp:77-91 | a truth value is written as 1 or 0, a text as it is, an enumerated value as its name |
| `SoapDocument.FindsParam` | libupnp/data.cpp:12-21 | a name in any case is found at its place among sorted names |
| `SoapDocument.ElementRuns` | libupnp/soap_parser.cpp:23-128 | the events of one element, its text in any pieces, fill exactly its parameter's slot |
| `SoapDocument.SlotsApart` | libupnp/soap_parser.cpp:60-124 | no two parameters share a slot |
| `SoapDocument.DocumentRuns` | libupnp/soap_parser.cpp:23-128 | in any order and between any other events, elements of known but unexpected parameters among them, every given parameter's slot has what its text says and every other slot is untouched |
| `SoapDocument.CallRoundTrip` | libupnp/soap_parser.cpp:23-128 | a document that gives every parameter restores exactly the slots whose values are of the kind that comes back |
| `Soap.FindName` | libupnp/data.cpp:12-21 | binary search finds the name, or none |
| `Soap.FindEnum` | libupnp/soap.cpp:31-41 | the loop finds the first equal text |
| `Soap.CreateBody` | libupnp/soap.cpp:48-131 | the body has each parameter's element once, in order, with its value's text from the next slot of its width, and nothing else of interest; they are in one element, named for the action or its response, in the body of an envelope |
| `Soap.BodyParses` | libupnp/soap.cpp:48-131 | parsing a call's own body restores its used slots, where values are of the kind that comes back |
| `Soap.Parser.OnBegin` | libupnp/soap_parser.cpp:23-39 | as the function of the parser's state |
| `Soap.Parser.OnContent` | libupnp/soap_parser.cpp:41-46 | likewise |
| `Soap.Parser.OnEnd` | libupnp/soap_parser.cpp:48-128 | likewise, counting slots by width up to the expected parameter |
| `ProgramModel.FillKeeps` | libtv/program_stream.cpp:56-129 | the PIDs and buffers are those of the packet history, and what goes to the output is the PES packet that the new packet completes |
| `ProgramModel.OpenNext` | libtv/program_stream.cpp:93-127 | how the open PES packet of one kind goes on, at a unit start and elsewhere; a PID that starts both kinds is read as audio |
| `ProgramModel.AllTaken` | libtv/program_stream.cpp:56-129 | the PES packets sent and the one still open are together all that the PID carried since it was found, each byte once and in order, but for what is dropped at the cap |
| `ProgramModel.NothingLost` | libtv/program_stream.cpp:56-129 | that is all it carried exactly if no packet of it that starts no unit and has payload comes when the open PES packet has 65535 bytes or more |
| `ProgramPackets.ReadsTransport` | libtv/program_stream.cpp:72-91 | of a transport packet laid out as the standard says, its PID, whether it starts a unit, and its payload are read as they were put in, whatever its other flags and adaptation field |
| `ProgramPackets.ReadsKind` | libtv/program_stream.cpp:91-103 | and the kind of stream that it starts |
| `ProgramPackets.LengthenedMeans` | libtv/program_stream.cpp:110-117 | filling in touches nothing but a zero length field, which becomes the number of bytes that follow it, modulo 65536 |
| `ProgramPackets.OpenBound` | libtv/program_stream.cpp:123-126 | a PES packet is cut short only from 65535 bytes on and never has more than 65718, so only the lengths above 65535 cannot be written |
| `ProgramPackets.StreamOfPackets` | libtv/program_stream.cpp:10-121 | after the pack header the output is the completed PES packets one after another: audio as it came, video as it came but for a zero length filled in |
| `ProgramPackets.CompletedAreSent` | libtv/program_stream.cpp:105-121 | where the kinds keep to PIDs of their own, those of each kind are what is sent of it |
| `ProgramPackets.StreamDemultiplexes` | libtv/program_stream.cpp:45-55 | a reader that goes by the length fields finds those packets in the output again exactly if each audio packet came with its own length, and each video packet did, or came with none and has at most 65541 bytes |
| `ProgramPackets.TooLongForItsLength` | libtv/program_stream.cpp:110-117 | a video packet of 357 transport packets, 65688 bytes, that came without a length: it is sent with one that is 65536 short |
| `ProgramZero.RanIsStream` | libtv/program_stream.cpp:56-129 | without packets of PID zero the output of the program as it runs is the programme stream of the history |
| `ProgramZero.ZeroHarmless` | libtv/program_stream.cpp:82-127 | packets of PID zero leave the output as it would be without them if no unit start of PID zero, or that finds a kind, meets bytes waiting for a kind that was not found; and only then, if no PID begins both kinds |
| `ProgramZero.TakenForAudio` | libtv/program_stream.cpp:82-127 | what a packet of PID zero carries before an audio stream is found goes out as an audio PES packet |
| `ProgramZero.TakenForVideo` | libtv/program_stream.cpp:82-127 | what one carries after that and before a video stream is found goes out as a video PES packet with the next unit start of PID zero |
| `ProgramStream.ProgramStream.FillOutputBuffer` | libtv/program_stream.cpp:56-129 | every packet with its sync byte extends the history; bytes returned and waiting stay the output of the program run on it, packets of PID zero included |
| `ProgramStream.ProgramStream.Sort` | libtv/program_stream.cpp:75-127 | the packet taken apart, its stream found, and its payload kept |
| `ProgramStream.ProgramStream.SendOpen` | libtv/program_stream.cpp:93-121 | the swaps of buffers, the zero video length filled in |
| `ProgramStream.ProgramStream.Read` | libtv/program_stream.cpp:29-43 | what is returned continues what was returned before, and together with what waits it is the output so far; without packets of PID zero, the header and the completed PES packets |
| `Polynomial.RemainderIsTheOne` | libempeg/crc16.cpp:49-60 | long division by x^16 + x^12 + x^5 + 1 finds the remainder, and there is only one |
| `Polynomial.RemainderLinear` | libempeg/crc16.cpp:49-60 | the remainder of a sum is the sum of the remainders |
| `Crc16.TableRight` | libempeg/crc16.cpp:15-47 | each of the 256 entries is its index after eight steps of the division |
| `Crc16.UpdateBits` | libempeg/crc16.cpp:56-57 | one lookup is eight steps, with the message's bits coming in |
| `Crc16.ChecksumIsTheRemainder` | libempeg/crc16.cpp:49-60 | for every message the checksum is the one remainder of its polynomial, with nothing appended |
| `Crc16.ChecksumLinear` | libempeg/crc16.cpp:49-60 | it is linear over messages of equal length |
| `Crc16.TwoZerosMakeItUsual` | libempeg/crc16.cpp:49-60 | with two zero bytes appended it is the usual table-driven CRC |
| `Crc16.BurstDetected` | libempeg/crc16.cpp:49-60 | messages that differ only within sixteen consecutive bits differ in it |
| `Crc16.CRC16` | libempeg/crc16.cpp:49-60 | the loop computes it |
| `Epg.ConsecutiveDays` | libtv/epg.cpp:139-158 | every day number converts to a valid Gregorian date, and the next number to the next day |
| `Epg.CivilNext` | libtv/epg.cpp:151-157 | days of a year from March on are dates with the calendar's months, February last |
| `Epg.PlaceDate` | libtv/epg.cpp:142-150 | the divisions take a day count apart into cycles, centuries, fours and years with their longer last ones |
| `Epg.DaysFromEpoch` | libtv/epg.cpp:139-158 | the date is the calendar's, as many days from 1970 as the number is from 40587, on either side |
| `Epg.StartTimeMeans` | libtv/epg.cpp:293-294 | from 1970 on the start time is that date's midnight and the seconds of the clock, and does not wrap |
| `Epg.StartTimesInOrder` | libtv/epg.cpp:293-294 | start times order as dates and clocks do |
| `Epg.EventMeans` | libtv/epg.cpp:219-296 | an event of any day from 1970 on that begins at a time of day and lasts some hours, minutes and seconds has times that are on its date by the calendar, at that time of day and so far apart |
| `Epg.ClockMeans` | libtv/epg.cpp:225-231 | three bytes of digits are so many hours, minutes and seconds |
| `Epg.DayZero` | libtv/epg.cpp:139-158 | day zero is the seventeenth of November 1858 |
| `Epg.DigitsRead` | libtv/epg.cpp:160 | two decimal digits are read as the number they write |
| `Epg.Times` | libtv/epg.cpp:219-296 | an event's start and end from its bytes |

## Left out

- Sockets, HTTP, SSDP, GENA, NFS and the Empeg's own protocol: transport over libraries that are not part of this model.
- All of Qt, GStreamer, LAME, FLAC, TagLib, paranoia, mpg123 and DVB code: user interface and foreign calls.
- `DatabaseUpdater` and the rename stage of `EncodingTask`: simpler relatives of the tag protocol.
- High-quality versions that lists name, that several items share or that have one themselves; and a second run's
  idleness from sources with any.
- SyncAdd.MaybeAddWell: not for items with a high-quality version in the source, of which `SyncHigh.MaybeAddStands` is.
- SyncAdd.MaybeAddAllWell: likewise.
- SyncCounts.StatisticsBalance: likewise; `SyncBest.PlanStands` says that the counts of a plan are the same.
- A record with id 0 that is listed: it is left out here with its name, where the source keeps the name and fails its
  assertion that there are as many names as ids.
- Costs of a diff are unbounded, where the source has 32 bits of them.
- The steam database's regular expressions are any relation of two strings, fixed for a query; its locks and the two
  type-mask bits other than integer and string are not modelled; the maps of integer and string keys are one map.
- Paths are without NULs, so that `strcmp` and the order of the standard library's maps agree.
- The queue's metadata and observers; a URL is any function of a database and an id. The player's own doings between
  an operation's locked part and what it is told after it.
- PlayQueue.Queue.EntryInsert: not in shuffled order while playing with no current track, where the source divides by zero.
- PlayQueue.Queue.SetShuffle: not with several tracks and no current one, where the source reads past the queue's end.
- PlayQueue.Queue.OnURL: not for a track past the end, where the source reads past the queue's end too.
- The clearing of a database's records between the read of one field and the next in a tag write: what is written
  is at least as new as its query.
- Reading a children field past its terminator, which its count can ask for: every such byte reads as the terminator.
- Merged queries with several restrictions are conjunctions; `GetURL`, `OpenRead` and `OpenWrite` dispatch as queries do.
- XML tokenising and escaping, and the text of the SOAP envelope: bodies are lists of element events.
- ProgramModel.FillKeeps: not for packets of PID zero, of which `ProgramZero` says what they change, nor for unit
  starts with less than six bytes of payload, which the source reads past.
- ProgramModel.OpenNext: likewise.
- ProgramModel.AllTaken: likewise.
- ProgramModel.NothingLost: likewise.
- ProgramZero.ZeroHarmless: that harm is done is not said of programmes in which one PID begins both kinds.
- Program packets whose payload starts outside the packet, where the source reads past its buffer.
- The descriptors of an event (titles and descriptions) and the set of events seen.

# A verified model of the telemetry server and its clients

The telemetry server keeps raw data under digests. Any number of digests, of different algorithms, may name
the same data; each is an *alias* of one data row. On top of the data it keeps four tables of typed objects:
blobs, bottles, manifests and events. A bottle refers to public artifacts, a manifest to a bottle and an event
to a manifest, always by digest, and a PUT is refused while what it refers to is missing. This project models
that store, the clients that feed it, the mirror commands that copy it, and the queries that read it, and
proves what the design relies on.

`dafny verify dfyconfig.toml` checks everything.

## How the model is built

* `World` (Types.dfy) is the environment: hashing and the three document parsers are arbitrary functions, and
  `universe` marks the byte strings that are ever submitted. `NoCollisions` says that no two of *those* share a
  digest; every theorem that needs it says so. A parser answers `Malformed`, `Invalid` or a document, which keeps
  apart the two error responses that the processors give.
* `Store` (Store.dfy) holds the tables as values; primary keys are table positions. `Put` is one PUT with all its
  branches: query parameters, the data row, the alias row, the typed row, and what a refused PUT leaves behind.
  The version of the running processor is part of each request, so that servers of different versions may share a
  database. An object that is already there is answered with "no content" before it is processed again, so a
  failure of that processing never shows in the answer.
* `Puts` says what one PUT does without these functions: of the tables, the submitted bytes and the query
  parameters alone. In the same way the laws on lineage, pulls, parts and deprecations speak of the documents that
  were submitted, and those on the child tables of the items of a document.
* `Server.Database` is the same server as a class whose methods change the tables step by step. Each method is
  proved to do exactly what the store functions say; `History`, `Catalog`, `Live` and the others then reason
  about those functions over whole runs.
* `Catalog` is the simple idea behind the tables: a map from digests to bytes, and the set of accepted objects.
  The relational store is proved to refine it, answers included.
* `Mirror.Directory` is the directory of one type on disk. Its ghost field `crashes` records every state of the
  disk that a crash could have left: a data file is truncated before it is written and may hold any beginning of
  its data, the CSV writer may have passed on any part of its buffered lines and tear the last one, a torn
  `index.latest` reads as no time, and the next line that is appended is glued to a torn one. A line can be read as
  far as its algorithms are whole, and stops the upload there.
* A record counts as saved when its data file is right and its line is ahead of every line that stops the reader.
  `Crashes` proves what any number of killed and resumed runs lose and do not lose, `Uploads` reads directories
  back, and `Recovery` proves what the upload makes of a directory that was killed and resumed.
* `Interleaving` takes the PUT handler apart into its lookups and writes and lets any schedule mix those of many
  PUTs. A PUT that meets nobody is proved to be the PUT that the other modules take as one step.
* `Skipping` is the upload with `skipInvalid`: what it adds of a closed snapshot.
* `Limits` holds reachable states where a promise ends, one for each condition of the theorems on paging, crashes
  and interleaved PUTs.
* `Selectors` has a small relational semantics: rows, LEFT JOIN with a row of NULLs, NOT IN, and three-valued
  logic.
* `Reconcile` models the child rows of an object, which the other modules keep inside the object's row.
* `Parallel` models goroutines as actors that an arbitrary schedule interleaves.

## What holds, and what does not

* Every store that any history of PUTs and reprocessing leads to is valid, and nothing a history does removes or
  rebinds a row.
* Two lists of PUTs of the same objects under the same digests lead to the same catalog when none is refused, in
  whatever order and however often they are made.
* A client that sends an event succeeds from every valid store, whatever other clients do between its requests, if
  the server takes the event as it is, or the manifest, or the bottle, or if the client can supply the artifacts that
  the server has no name for. It takes one PUT of what the server takes at once, and at most two of each object and
  one per missing artifact otherwise.
* A live download is closed under dependencies, and a round trip through a mirror reproduces every object with all
  its digests *if* the bottles' artifacts were stored as blobs. Without that hypothesis it can fail, because the
  bottle processor looks for an artifact among all aliases and a refused PUT leaves its alias behind;
  `Restore.UnmirrorableStore` is such a store, and `Restore.RestoreAcceptedIff` gives the exact condition.
* Pages follow the creation time with a strict comparison. On a quiescent table a run misses nothing exactly when
  no page ends between two records of the same instant, and it ends exactly when the batch size is positive
  (`Listing.QuiescentPages`); `Limits.TieLoses` is a reachable store where it misses one. The mirror theorems take
  distinct creation times in each table as a hypothesis.
* Download runs over one directory, each of them killed anywhere, failed or ended, lose no record up to the recorded
  time (`Crashes.CrashesLoseNothing`), and the first one that ends leaves every record newer than `since` that was
  there at the beginning (`Crashes.ResumingEndsComplete`). A run is harmless to the others if two things hold of it.
  - It rewrites nothing with content that the recorded time vouches for. A run that resumes never does, nor does any
    other that starts no earlier (`Crashes.LaterRewritesNothing`). The condition is exact: over an index whose lines
    stand, every crash keeps the directory up to date if and only if it holds (`Crashes.NextRunIff`). Where it does
    not, the run may be killed so that a row is lost for good (`Crashes.StartingOverLosesAny`);
    `Limits.StartingOverLoses` is such a store.
  - Its lines stand: the index is intact, or has them already in its readable part. A run saves all that it gets
    exactly then (`Crashes.SavesAllIff`); `Limits.TornLineIsReal` is a run that loses a record.
* After any number of runs the upload can read a directory to its end exactly when no run has appended behind a torn
  line (`Recovery.ReadableIff`, `Recovery.RecoveredReadableIff`), and after harmless ones it submits every row newer
  than `since` under all the digests it had at the beginning (`Recovery.RecoveredIsSubmitted`). A directory where a
  run did append behind a torn line stops every upload there, also when all its records are saved.
* An upload that skips is stopped only by a bottle that cannot be parsed. It leaves every digest and blob, exactly the
  bottles that find their artifacts, and of the rest exactly what finds what it depends on
  (`Skipping.SkippingRestores`, `Live.CopySkipping`).
* However the steps of PUTs interleave, data and aliases stay unique, and an object whose PUT was answered without an
  error is found (`Interleaving.EverySchedule`). That no data has two rows in one table is kept exactly if no row is
  saved while another PUT of the same object is between its lookup and its save (`Interleaving.ValidIffNoOverlap`);
  `Limits.RaceDoubles` is a schedule of two PUTs where it is not, because no unique index backs that lookup.
* Copying with the two commands succeeds for every busy server whose artifacts are blobs (`Live.CopyLive`), and
  reproduces a quiescent one in an empty server (`Live.CopyQuiet`).
* Excluding deprecated bottles and marking bottles as deprecated disagree on a bottle exactly when some but not all
  of its digests are deprecated; `Queries.DeprecationDisagrees` is a reachable store where they do.
* The comment in pkg/client/requests.go:522 says that the server sorts the digests of a record. The query that
  collects them asks for no order; the model lists them in the order of the alias table. Whether an upload is
  accepted depends on that order only for a bottle that names itself as an artifact.

## Model

| member | source | states |
|---|---|---|
| Store.IndexOfDigest | internal/db/scopes.go:28-34 | the first alias row of that digest is found exactly when there is one |
| Invariant.EmptyIsValid | internal/db/models.go:42-60 | the freshly migrated database satisfies the invariant |
| Invariant.RegisterValid | internal/api/handlers.go:361-391 | ensuring data and alias keeps the invariant, adds at most one alias, and makes the digest name the submitted bytes; typed rows are not touched |
| Invariant.EnsureDataValid | internal/api/handlers.go:371-380 | one data row per content: the row found or created holds the submitted bytes |
| Invariant.MissingIff | internal/db/bottle_processor.go:88-107 | exactly the artifacts without an alias are reported as missing |
| Invariant.ResolveStable | internal/db/bottle_processor.go:88-107 | what resolved once resolves to the same rows in every grown store |
| Invariant.SaveRowValid | internal/api/handlers.go:412-418 | saving a resolved row keeps all rows of all tables right and at most one row per data |
| Invariant.EnsureRowValid | internal/api/handlers.go:392-418 | creating or reprocessing the typed row keeps the invariant and every row, also when processing fails |
| Invariant.PutValid | internal/api/handlers.go:342-432 | every PUT, accepted or refused at any step, keeps the invariant and everything stored |
| Catalog.SubmitSound | internal/api/handlers.go:366-418 | the abstract store keeps its invariant: aliases hash to their digest, and every accepted object would be accepted again |
| Catalog.AcceptanceStable | internal/api/handlers.go:366-418 | what is acceptable now is acceptable after any growth |
| Catalog.LookupAgrees | internal/db/scopes.go:22-34 | joining a table with the aliases finds an object exactly when the catalog holds the bytes that the digest names |
| Catalog.ManifestResolveAgrees | internal/db/manifest_processor.go:51-94 | a manifest is accepted or refused, and for which reason, by the catalog alone |
| Catalog.EventResolveAgrees | internal/db/event_processor.go:37-62 | likewise an event, with the two different errors for unreadable and for invalid documents |
| Catalog.ResolveAgrees | internal/db/bottle_processor.go:47-107 | likewise objects of every type |
| Catalog.GrowthExtends | internal/api/handlers.go:342-432 | growth of the tables only adds to the catalog |
| Catalog.ValidIsSound | internal/api/handlers.go:342-432 | the catalog of a valid store is sound |
| Catalog.PutRefines | internal/api/handlers.go:342-432 | one PUT on the tables is one submission to the catalog, with the same answer |
| Submissions.AcceptedAddsExactly | internal/api/handlers.go:342-432 | an accepted list of submissions adds exactly its digests and its objects |
| Submissions.OrderIsForgotten | internal/api/handlers.go:342-432 | accepted submissions lead to one catalog in every order and multiplicity |
| Submissions.SkippingSplits | pkg/client/requests.go:155-183 | uploading in parts is uploading the whole, stops included |
| Submissions.SkippingNothing | pkg/client/requests.go:162-169 | `skipInvalid` makes no difference where nothing is refused |
| Submissions.SkippingAddsNames | pkg/client/requests.go:162-169 | an upload that skips still leaves every alias and every blob behind, and adds nothing that was not submitted |
| Skipping.BottlesSkipping | internal/db/bottle_processor.go:88-107 | of the bottles submitted in order exactly those are added that find their artifacts among the names known before and those of the bottles up to them |
| Skipping.SkippingRestores | pkg/client/requests.go:155-183 | over a closed snapshot an upload that skips runs to its end and adds all names, all blobs, the bottles that find their artifacts, the manifests whose bottle is stored afterwards, the events whose manifest is, and nothing else |
| Skipping.SkippingEndsIff | pkg/client/requests.go:162-169 | it is stopped exactly by a bottle that cannot be parsed |
| History.RefreshedValid | internal/db/processor.go:22-66 | a reprocessed table is valid, keeps its rows, and leaves the catalog as it was |
| History.EveryRunKeepsTheStore | internal/api/handlers.go:342-432 | over any history of PUTs and reprocessing the invariant holds and no row is lost or rebound |
| History.ReachableIsValid | internal/db/models.go:42-60 | every store reachable from the empty one is valid |
| History.ManifestLinks | internal/db/manifest_processor.go:51-80 | a manifest row holds what the submitted manifest says, its bottle exists, goes by the digest the manifest names, and has as many parts as the manifest has layers |
| History.EventLinks | internal/db/event_processor.go:51-82 | an event row holds the submitted document, its manifest goes by the digest it names, and its bottle is the manifest's bottle under the manifest's digest |
| History.BottleLinks | internal/db/bottle_processor.go:88-112 | a bottle row holds the parsed document, and each artifact's data row goes by the artifact's digest |
| History.GetIff | internal/api/handlers.go:260-300 | a GET returns bytes exactly when the catalog holds that object under that digest |
| History.StableReads | internal/api/handlers.go:260-300 | what a GET returned once it returns after any history, and the bytes hash to the digest |
| History.PutThenGet | internal/api/handlers.go:342-432 | a PUT can be read back under the digest its parameters ask for exactly when it was not refused, and leaves that alias either way |
| History.PutAllRefines | internal/api/handlers.go:342-432 | a list of accepted PUTs is the list of their submissions |
| History.SubmitsWhatItAsks | internal/api/handlers.go:302-339 | a PUT submits its bytes under the digest that its parameters ask for |
| History.Confluence | internal/api/handlers.go:342-432 | any two accepted lists of PUTs that submit the same lead to the same catalog |
| Server.Database.Save | internal/db/blob_processor.go:27-34 | saving overwrites the row of the primary key, or appends |
| Server.FindArtifacts | internal/db/bottle_processor.go:88-107 | the loop over the artifacts finds the missing ones in order, and the data of the others |
| Server.ConvertArtifacts | internal/db/bottle_processor.go:180-193 | when none is missing, every artifact gets the data row its digest names |
| Server.Database.ProcessBottle | internal/db/bottle_processor.go:47-145 | the bottle processor, against the store's specification, with its error cases |
| Server.Database.ProcessManifest | internal/db/manifest_processor.go:36-82 | the manifest processor, likewise |
| Server.Database.ProcessEvent | internal/db/event_processor.go:33-83 | the event processor, likewise |
| Server.Database.RunProcessor | internal/db/processor.go:15-19 | each table has its processor |
| Puts.AsksSomehow | internal/api/handlers.go:302-339 | every request asks for one digest, or for a wrong one, or cannot be understood |
| Puts.WrongDigestConflicts | internal/api/handlers.go:318-323 | a digest parameter that is not the digest of the bytes conflicts, and nothing is stored |
| Puts.UnclearIsBadRequest | internal/api/handlers.go:306-339 | a digest that cannot be read or an algorithm without implementation is a bad request, and nothing is stored |
| Puts.PutLaw | internal/api/handlers.go:342-432 | what a PUT that asks for a digest leaves of data, aliases and the typed table, for each answer |
| Puts.AnswerLaw | internal/db/bottle_processor.go:47-107 | how a new object is answered, from its submitted document and what the tables hold: which errors, and exactly which missing digests |
| Server.Database.PutData | internal/api/handlers.go:342-432 | the handler's three steps have exactly the specified effect and answer: a digest that is not that of the bytes conflicts and unclear parameters are a bad request, both without any effect; otherwise data and alias are there afterwards, a row that was there gets the version of the request, a new one is appended with its time and version, and a refused PUT leaves the typed tables alone |
| Interleaving.AloneIsPut | internal/api/handlers.go:366-418 | the lookups and writes of a PUT that meets nobody amount to the PUT in one step, answer included |
| Interleaving.EverySchedule | internal/api/handlers.go:366-418 | under every schedule of the steps of any PUTs data and aliases stay unique, every row is right, nothing is lost, and what was answered without an error is found under its digest |
| Interleaving.OutrunIff | internal/api/handlers.go:371-391 | a PUT gets a database error exactly when its data or alias was not there at its lookup and is there when it comes to create it |
| Interleaving.ValidIffNoOverlap | internal/db/models.go:33-38 | when all PUTs are answered the store is valid exactly if no row was saved while another PUT of the same object was between its lookup and its save |
| Limits.RaceDoubles | internal/api/handlers.go:392-418 | two PUTs of one blob whose lookups both come before their saves are both answered, and its data has two rows |
| Server.StaleRowRefreshes | internal/db/processor.go:57-60 | processing a stale row of a valid store never fails and changes its version alone |
| Server.Database.Reprocess | internal/db/processor.go:22-66 | the loop ends, has processed each stale row once, reports nothing missing, and moves nothing but versions |
| Server.Database.MigrateDB | internal/db/setup.go:63-77 | the processors in order never fail on a valid database, which stays valid with the same catalog |
| Server.MigrationLeavesNothingStale | internal/db/setup.go:63-77 | after a migration no row is stale, and each row keeps id, creation time and content |
| Repair.MissingShrinks | pkg/client/single.go:93-115 | other clients can only shorten the list of missing artifacts |
| Repair.MissingOfExact | internal/db/bottle_processor.go:88-107 | the artifacts counted as missing are those of the submitted document without a name, each as often as it is listed |
| Repair.RefusedBottle | internal/db/bottle_processor.go:88-107 | a bottle is refused for missing artifacts exactly if it can be read, never for more than were missing before, and then for ones the client can supply if it could before |
| Repair.RepairedBottle | pkg/client/single.go:93-115 | once the missing artifacts have names the bottle is accepted, whatever happened meanwhile |
| Repair.RefusedManifest | internal/db/manifest_processor.go:51-65 | a manifest that fits its bottle is refused exactly while that is not stored under the digest it names |
| Repair.RefusedEvent | internal/db/event_processor.go:51-62 | an event that names its manifest is refused exactly while that is not stored under the digest it names |
| Repair.PutRunLaw | pkg/client/requests.go:199-249 | one request keeps the store valid and all that was in it, and is answered by the refusal that applies, or the object is stored |
| Repair.BottleLaw | pkg/client/single.go:93-115 | a bottle is stored if the server takes it as it is, with one PUT, or if the client can supply what the server has no name for, with at most two; one that cannot be read is refused at once |
| Repair.ManifestLaw | pkg/client/single.go:74-90 | a manifest is stored if the server takes it as it is, with one PUT, or if it fits its bottle and that is |
| Repair.EventLaw | pkg/client/single.go:55-71 | an event is stored if the server takes it as it is, with one PUT, or if it names its manifest and that is; within the bounds on all PUTs |
| Repair.Client.Interleave | internal/api/handlers.go:342-432 | what the server does for others between two requests only adds to what was seen |
| Repair.Client.PutObject | pkg/client/requests.go:199-249 | one request: what the server does for others first, then this PUT with its answer |
| Repair.Client.PushBlobs | pkg/client/single.go:97-105 | one PUT per missing artifact in order, each under the algorithm its digest names, up to the first that cannot be supplied |
| Repair.Client.SendBottle | pkg/client/single.go:93-115 | for every bundle and every interleaving exactly the specified requests, and so what BottleLaw promises |
| Repair.Client.SendManifest | pkg/client/single.go:74-90 | likewise, and so what ManifestLaw promises |
| Repair.Client.SendEvent | pkg/client/single.go:55-71 | likewise, and so what EventLaw promises |
| Listing.AliasesOfExact | internal/db/query.go:59-79 | a record lists exactly the aliases of its data |
| Listing.AliasesInOrder | internal/db/query.go:59-79 | the names of a record come in the order of their alias rows |
| Listing.ListExact | internal/api/handlers.go:239-244 | a list request answers the records of all named rows that are newer, in the order of creation, as many from the front as the limit allows; a negative limit is none |
| Listing.EntriesExact | internal/api/handlers.go:239-244 | a listing has exactly one entry for each row that has an alias |
| Listing.EntriesSorted | internal/api/handlers.go:243 | entries come in the order of creation, strictly if the times are distinct |
| Listing.PagesSound | pkg/client/requests.go:104-125 | with distinct times each record of a run comes once, in order, and is newer than the start |
| Listing.PagesCover | pkg/client/requests.go:104-125 | a record that is there at every request is not skipped, whatever is inserted between requests |
| Listing.PagesComplete | pkg/client/requests.go:104-125 | all that was in the table at the start is got up to the time reached, and to the end if the run ended |
| Listing.QuiescentPages | pkg/client/requests.go:104-125 | on an unchanging table a run ends exactly for batch sizes of at least one, and is complete exactly if no page ends inside a tie |
| Listing.DistinctHasNoTies | internal/api/handlers.go:242-243 | distinct creation times leave no tie at any page end |
| Limits.TieLoses | internal/api/handlers.go:242-244 | after two accepted PUTs of one instant, a run with pages of one record over the unchanging store ends without the second record |
| Restore.StageAccepted | pkg/client/requests.go:155-172 | records acceptable at the start of an upload are accepted in sequence |
| Restore.BottlesAccepted | internal/db/bottle_processor.go:88-107 | an upload of bottles is accepted exactly when each finds its artifacts among what came before |
| Restore.RestoreAcceptedIff | pkg/client/requests.go:175-183 | a closed snapshot uploads without refusal, to a server that may hold anything, exactly when every bottle finds its artifacts |
| Restore.RestoredExactly | pkg/client/requests.go:175-183 | an accepted upload adds exactly the digests and objects of the snapshot |
| Restore.ReferenceIsDownloaded | pkg/client/requests.go:142-152 | what a saved object refers to is downloaded later, under the digest it refers to |
| Restore.LiveDownloadIsClosed | pkg/client/requests.go:142-152 | a reverse-order download from a busy server is closed under dependencies |
| Restore.LiveMirrorIsAccepted | pkg/client/requests.go:175-183 | such a download is accepted by any server without one refusal if artifacts are blobs |
| Restore.QuietDownload | pkg/client/requests.go:142-152 | from a quiescent server a download gets everything |
| Restore.MirrorRoundTrip | pkg/client/requests.go:142-183 | downloading everything and uploading it to an empty server is accepted exactly when artifacts are supplied, and then reproduces every object with all its digests |
| Restore.UnmirrorableStore | internal/db/bottle_processor.go:93-103 | a reachable store that no mirror restores, since a refused PUT supplied an artifact's alias |
| Live.RunStamped | internal/api/handlers.go:412-418 | if the clock never reads the same twice, no two rows of a table ever share a creation time |
| Live.ClockTimesTables | internal/api/handlers.go:412-418 | then every table of every state of the history has distinct creation times, which is what the mirror theorems ask for |
| Live.ObservedIsLive | pkg/client/requests.go:142-152 | the states that list requests meet in one history, with distinct times in each table met, are what the closure theorem asks for |
| Live.LiveSnapshot | pkg/client/requests.go:142-183 | for every history of other clients' PUTs between the requests, with distinct times in each table met, the snapshot is closed, and accepted if artifacts are blobs |
| Live.ReachableRoundTrip | pkg/client/requests.go:142-183 | the round trip for every reachable store with distinct times in each table whose artifacts are blobs |
| Live.CopyLive | pkg/client/requests.go:142-183 | both commands succeed between a busy server whose artifacts are blobs and any other server, which ends up with the snapshot added |
| Live.CopySkipping | pkg/client/requests.go:142-183 | with `skipInvalid` both commands succeed between a busy server and any other, which ends up with exactly what finds what it depends on |
| Live.CopyQuiet | pkg/client/requests.go:142-183 | both commands succeed between a quiescent server whose artifacts are blobs and an empty one, which ends up with every object under all its digests |
| Mirror.Directory.WriteFile | pkg/client/requests.go:529-531 | the file ends up with the data, and a crash may leave any beginning of it, together with any part of the buffered lines |
| Mirror.Directory.Write | pkg/client/requests.go:533-539 | the line is buffered, and the writer may pass on any part of its buffer, the last line cut anywhere |
| Mirror.Directory.WriteLatest | pkg/client/requests.go:128-136 | the recorded time is replaced, and a crash may leave a file that reads as no time |
| Mirror.Directory.WriteRecord | pkg/client/requests.go:521-540 | a record's data file is truncated and written before its index line is even buffered; every beginning of the file and of the buffered lines is a state that a crash may leave |
| Mirror.WritePage | pkg/client/requests.go:110-118 | after a page all its records are written and indexed in order, and every state that a crash may leave holds files and lines of the page in order, the next of each perhaps in part |
| Mirror.PageSaved | pkg/client/requests.go:110-118 | saving a page keeps what holds of the run: every crash so far left the disk as it was before the run, or somewhere in the middle of the run |
| Mirror.LatestRecorded | pkg/client/requests.go:126-136 | so does recording the time of the last saved record |
| Mirror.NextRequest | pkg/client/requests.go:104-125 | one more request continues the same run |
| Mirror.DownloadPages | pkg/client/requests.go:107-132 | the loop gets exactly the pages of the run, ends exactly when one is short, and every crash on the way leaves the disk in the middle of the run |
| Mirror.Download | pkg/client/requests.go:79-139 | success exactly when the run ends; in both cases the disk is what it was plus exactly the records of the run, with the time reached recorded unless the first request failed, and every crash leaves the disk in the middle of this run |
| Mirror.DownloadAll | pkg/client/requests.go:142-152 | all types in reverse topological order up to the first run that does not end: success exactly when all end, the types visited are as after their runs, crashes included, and the others are untouched |
| Crashes.RunNamesDiffer | pkg/client/requests.go:104-125 | a run lists no data twice, so that it writes no data file twice |
| Crashes.OldRowsUntouched | pkg/client/requests.go:95-125 | nor does it list the data of a row that was created before its start |
| Crashes.CrashKeepsUpToDate | pkg/client/requests.go:79-139 | killed at any moment, a run that rewrites nothing the recorded time vouches for leaves every old row up to the recorded time saved, if it was before |
| Crashes.LaterRewritesNothing | pkg/client/requests.go:95-105 | a run that starts no earlier than the recorded time, as every resuming one does, rewrites nothing |
| Crashes.RunKeepsUpToDateIff | pkg/client/requests.go:79-139 | over an index whose lines stand, every crash of a run keeps the directory up to date if and only if the run rewrites nothing with content that the recorded time vouches for |
| Crashes.FirstNamesHold | pkg/client/requests.go:521-531 | a directory that was empty once holds the data of a row under one name, the first one of the row |
| Crashes.NextRunIff | pkg/client/requests.go:79-139 | the same condition for the next run over any directory that harmless runs have left |
| Crashes.LostStaysLost | pkg/client/requests.go:95-125 | what is not saved below the recorded time is not saved by any run that resumes, killed or ended |
| Crashes.CrashesLoseNothing | pkg/client/requests.go:79-139 | any number of harmless runs after each other, each killed anywhere or ended, leave every old row up to the recorded time saved |
| Crashes.ResumingEndsComplete | pkg/client/requests.go:79-139 | from an empty directory, after any number of killed runs, a run that ends leaves every row newer than `since` that was there at the beginning |
| Crashes.SavesAllIff | pkg/client/requests.go:521-540 | a run saves all it gets, where an upload reads it, exactly when the index is intact before it or has the lines already in its readable part |
| Recovery.ReadableIff | pkg/client/requests.go:351-402 | after any number of runs, killed anywhere, the upload can read the directory to its end exactly when no run appended behind a torn line and a line torn now reads as a whole one |
| Recovery.RecoveredReadableIff | pkg/client/requests.go:79-139 | the same after a run that ends, which counts if it got anything |
| Recovery.RecoveredIsSubmitted | pkg/client/requests.go:79-172 | after harmless runs and one that ends, the upload submits every row newer than `since` under all the digests it had at the beginning |
| Crashes.StartingOverLosesAny | pkg/client/requests.go:79-139 | a run that gets again, with content, what the recorded time vouches for may be killed so that the row is lost, and a run that resumes then does not bring it back |
| Limits.KilledAndResumed | pkg/client/requests.go:79-139 | these conditions are met by a run that is killed behind its data file and one that resumes and saves the record |
| Limits.StartingOverLoses | pkg/client/requests.go:95-136 | a complete run, one from the same start that is killed while it rewrites the data file, one that resumes: the record is lost |
| Limits.TornLineIsReal | pkg/client/requests.go:110-121 | a run that is killed while it writes its line, one that resumes and ends: the record is lost |
| Uploads.UploadsWhatWasGot | pkg/client/requests.go:351-402 | a downloaded index file can be read to its end, and submits exactly the downloaded records under all their digests |
| Uploads.ChainNext | pkg/client/requests.go:364-399 | each line runs on what the lines before it led to, and one that stops the run decides its effect and its outcome |
| Uploads.UploadAlgorithm | pkg/client/requests.go:379-397 | an algorithm without implementation or a missing data file stops the run before anything is sent |
| Uploads.UploadRecord | pkg/client/requests.go:378-398 | a data file is submitted under each algorithm in order, up to the first error or refusal that is not to be skipped |
| Uploads.UploadLine | pkg/client/requests.go:373-398 | a line is submitted as far as it can be read, and stops the run if it has no end or no algorithm |
| Uploads.StoppingLines | pkg/client/requests.go:373-398 | a line without an algorithm submits nothing and stops the run, a garbled one submits what is readable of it and stops |
| IndexText.KeptIsCut | pkg/client/requests.go:533-539 | what is kept of a line whose text is cut is one of the beginnings that a crash may leave |
| IndexText.ReadsAsKept | pkg/client/requests.go:360-392 | of a line whose text is cut the reader gets through the algorithms that are kept of it, and to its end exactly if it reads as a whole one |
| IndexText.GluesAsKept | pkg/client/requests.go:360-392 | with the text of another line glued to it the reader gets through what is kept of a glued line, and no further |
| Uploads.Upload | pkg/client/requests.go:155-172 | the lines of an index file are submitted in order; with `skipInvalid` missing digests do not stop it, anything else does and is reported, unreadable lines included |
| Uploads.UploadAll | pkg/client/requests.go:175-183 | all types in topological order, up to the first refusal that is not to be skipped |
| Uploads.UploadsTheSnapshot | pkg/client/requests.go:142-183 | what the two commands carry is the snapshot that the restore theorems are about |
| Uploads.Copy | pkg/client/requests.go:142-183 | download and upload after each other: the download succeeds exactly when all its runs end, the target then ends up with what submitting the snapshot leads to, with skipping or without, and the upload succeeds exactly when nothing stops it, without skipping when the snapshot is accepted |
| Selectors.CompileSelector | internal/db/scopes.go:182-194 | the inner loop yields the condition of all requirements and one join for each, and notices an unusable value |
| Selectors.FilterBySelectors | internal/db/scopes.go:158-198 | for every label table the compiled query returns exactly the bottles that satisfy some selector, whenever the selectors before the first empty one are usable; the query is in error exactly when a selector that does not parse or has a bad value comes before any empty one |
| Selectors.LeftJoinExact | internal/db/scopes.go:189-191 | a LEFT JOIN row extends a row by a matching label, or by NULLs if there is none |
| Selectors.JoinAllExact | internal/db/scopes.go:189-191 | the joined rows are exactly the independent choices of one label per requirement |
| Selectors.ConditionImplies | internal/db/scopes.go:200-277 | a row on which a requirement's condition is true belongs to a bottle that satisfies it |
| Selectors.ConditionHolds | internal/db/scopes.go:200-277 | on the row with the required key's label the condition is true for a bottle that satisfies it |
| Selectors.CompiledFor | internal/db/scopes.go:158-198 | compilation preserves meaning, bottle by bottle, for all operators and for bottles without labels |
| Selectors.EmptySelector | internal/db/scopes.go:177-180 | an empty selector selects every bottle, whatever was joined before |
| Selectors.CompiledToTheEnd | internal/db/scopes.go:158-198 | selectors none of which is empty compile to a query with their meaning |
| Selectors.UsableIsNotErroneous | internal/db/scopes.go:170-180 | selectors that are usable up to the first empty one cause no error, whatever follows it |
| Selectors.UsableUpToEmpty | internal/db/scopes.go:170-180 | selectors are usable if those up to the first empty one are, whatever stands behind it |
| Selectors.OperatorLaws | internal/db/scopes.go:200-277 | each negative operator is the negation of its positive one, one value is a list of one, and numbers compare if both can be read |
| Selectors.ParsedIsWellFormed | internal/db/scopes.go:200-277 | every requirement that a selector string can contain is usable |
| Selectors.ErrorStays | internal/db/scopes.go:170-180 | an error is not undone by later selectors, and nothing after an empty selector matters |
| Lineage.ParentsAreNext | internal/db/scopes.go:308-336 | the parents query finds exactly the bottles that some given bottle lists as a source, under any alias |
| Lineage.ChildrenAreNext | internal/db/scopes.go:339-364 | the children query finds exactly the bottles that list some given bottle as a source, under any alias |
| Lineage.SourceIff | internal/db/scopes.go:308-364 | one bottle is a source of another exactly if the document submitted as the other lists it under one of its aliases |
| Lineage.FinderIsNext | internal/db/relatives.go:212-275 | both queries are one step of the source relation between bottles |
| Lineage.UniqueDigestsIdentify | internal/db/relatives.go:98-126 | the digests of a generation stand for exactly its bottles |
| Lineage.FindGenerations | internal/db/relatives.go:196-209 | the first generation is one step from the data the digest names, every other one step from the one before, by the sources that the submitted documents list; from a bottle, generation k holds exactly the bottles at k + 1 steps, whichever alias the query starts from |
| Lineage.DescendantsFromFront | internal/db/relatives.go:188-190 | descendants at k + 1 steps are the descendants at k steps of the children |
| Lineage.Duality | internal/db/relatives.go:180-190 | B is an ancestor of A at k steps if and only if A is a descendant of B at k steps |
| Reconcile.ChildTable.Save | internal/db/bottle_processor.go:144 | saved items overwrite the row of their key or get a fresh key, and nothing else changes |
| Reconcile.PrunedAndSaved | internal/db/helpers.go:17-95 | pruning and then saving what was prepared reconciles the children |
| Reconcile.KeysByLocation | internal/db/helpers.go:29-33 | the map built from the rows has exactly the owner's locations, with their keys |
| Reconcile.DeleteSurplus | internal/db/helpers.go:48-53 | exactly the owner's rows at locations that are no longer wanted are deleted |
| Reconcile.ProcessByIndex | internal/db/helpers.go:17-56 | items by position get the keys of their locations, surplus rows go, and a conversion error leaves the table untouched |
| Reconcile.ProcessByKey | internal/db/helpers.go:58-95 | likewise for items by key, in any order of the keys |
| Reconcile.SavePrepared | internal/db/bottle_processor.go:67-144 | after the save the owner's rows are the items one to one, old locations kept their row ids, and no other row changed |
| Reconcile.ReconciledOnce | internal/db/helpers.go:17-95 | reconciling again with the same items changes nothing at all |
| Reconcile.ReconcileList | internal/db/helpers.go:17-56 | a list that converts without fail is reconciled: the rows are the items one to one, old locations keep their row ids, other owners are untouched |
| Reconcile.ReconcileMap | internal/db/helpers.go:58-95 | so are labels and annotations |
| Reconcile.LastDocumentStands | internal/db/helpers.go:17-95 | over any history of documents, an owner's rows are exactly the children of its last document, whatever was saved for others since |
| Reconcile.KeysStand | internal/db/helpers.go:17-95 | over any history of documents, a location keeps its row id for as long as every document of its owner wants it |
| Reconcile.AllReconciledHolds | internal/db/bottle_processor.go:67-144 | after a run that succeeds each label, annotation, author, part, artifact, source and metric row has the content of its item, and the deprecations are those of the document |
| Reconcile.BottleTables.Process | internal/db/bottle_processor.go:67-144 | the run succeeds exactly when everything converts and every artifact is known, and then the rows are the items of the document one to one, old locations keep their row ids and the deprecations are added once more; a failed run has saved nothing and pruned exactly the lists before the failing one; in both cases every owner whose locations were unique keeps them so |
| Reconcile.RunKeepsDistinct | internal/db/bottle_processor.go:67-144 | whether a run succeeds or fails, the locations of every owner stay unique in every list, so that the next run may rely on it |
| Reconcile.DeprecatedAgain | internal/db/bottle_processor.go:47-145 | processing a document again changes nothing about which digests are deprecated |
| Reconcile.FailureIsHarmless | internal/db/bottle_processor.go:67-144 | a failed run over children already reconciled with the same document changes nothing |
| Queries.FanOutIsHarmless | internal/db/query.go:101-110 | taking the maximum makes the count immune to however often the joins repeat a bottle |
| Queries.EventNamesItsBottle | internal/db/event_processor.go:64-80 | an event counts for a bottle exactly when the digest it names is an alias of that bottle |
| Queries.PullsAreConserved | internal/db/query.go:101-166 | a bottle's number of pulls is the sum of the pulls of its digests |
| Queries.EveryPullIsCountedOnce | internal/db/query.go:101-110 | over all bottles each pull event is counted once |
| Queries.OneMorePull | internal/db/query.go:161-166 | one event more counts for the digest it names exactly if its action is "pull" |
| Queries.OneMoreOfBottle | internal/db/query.go:101-110 | and for its bottle |
| Queries.OneMoreOfUser | internal/db/query.go:137-143 | and for its user |
| Queries.PutCountsPull | internal/db/event_processor.go:51-82 | after any PUT a bottle has one pull more exactly if the PUT has created an event whose submitted document is a pull and names the bottle through its manifest, and otherwise as many as before |
| Queries.UserPulls | internal/db/query.go:137-159 | the map has exactly the groups the limit lets through, with their counts |
| Queries.LimitedExact | internal/db/query.go:137-143 | a limit lets that many groups through |
| Queries.UserPullsSum | internal/db/query.go:137-166 | the counts by user add up to the pulls of the digest exactly when the limit leaves no user out |
| Queries.DigestsWithPartExact | internal/db/scopes.go:413-418 | the subquery holds exactly the aliases of the bottles with the part |
| Queries.FilterByParts | internal/db/scopes.go:409-425 | the narrowed join holds exactly the alias rows of the bottles whose submitted documents contain every requested part |
| Queries.PartsFound | internal/db/scopes.go:409-425 | a bottle is found exactly if its submitted document contains every requested part, for any number of aliases |
| Queries.ExcludedIff | internal/db/scopes.go:397-406 | a bottle is left out exactly when all its digests are deprecated |
| Queries.MarkedAndListedIff | internal/db/query.go:82-98 | a bottle is marked as deprecated exactly if some submitted document deprecates an alias of it, and listed exactly if some alias of it is deprecated by none |
| Queries.DeprecationAgrees | internal/db/query.go:82-98 | leaving out and marking agree on a bottle exactly when its digests are deprecated together, so always with one alias |
| Queries.BareColumnAgrees | internal/db/query.go:95 | reading the column from an arbitrary row of the group agrees with the any-alias rule under exactly the same condition |
| Queries.DeprecationDisagrees | internal/db/query.go:82-98 | a reachable store with a bottle that is marked as deprecated and still listed |
| Ancestors.GetNonBottleParents | internal/db/relatives.go:129-142 | the URIs of all sources that are no bottles, in order |
| Ancestors.GetDigestSet | internal/db/relatives.go:107-115 | the set holds exactly the digests of the generation |
| Ancestors.GetUnknownBottleParents | internal/db/relatives.go:145-163 | the digests of all source bottles that are not among the known parents, in order |
| Ancestors.NewExtendedAncestors | internal/webapp/ancestors.go:32-39 | the three lists belong to one classification |
| Ancestors.FindRelative | internal/webapp/ancestors.go:45-69 | the first matching place in the class of the source, or none if nothing matches |
| Ancestors.Classified | internal/webapp/ancestors.go:32-69 | every source of the current generation is matched, and in exactly one class |
| Ancestors.UnknownMeansAbsent | internal/db/relatives.go:145-163 | with the parents the server finds, a source is known exactly when some stored bottle goes by its digest |
| Parallel.StepKeepsInv | pkg/client/utils.go:24-33 | every step of any goroutine keeps the invariant and is one step nearer the end |
| Parallel.NoDeadlock | pkg/client/utils.go:20-33 | somebody can move exactly until the caller has returned |
| Parallel.ParallelMap | pkg/client/utils.go:17-36 | under every interleaving the call returns after all workers finished, each slot holding the function's value at its item |

## Left out

- Signatures, their processor and trust levels: library cryptography; the migration and the mirror here cover the other four types.
- HTTP transport, authentication, logging, configuration and the command line: no state of their own; requests reach the model parsed, and a request the transport loses is a run whose states end.
- Reading JSON, source URIs, selector strings and timestamps: parsers are arbitrary functions of the bytes, the same for all processor versions; an event's timestamp check against the clock counts as part of parsing.
- Interleaved PUTs elsewhere than in Interleaving: the other modules take a PUT as one step, and a store where data has two rows is no valid store to them. Reprocessing does not interleave with PUTs, and saving a row with its children is one step.
- Failures of the database itself other than a unique index: a statement that reaches the database succeeds.
- Server.Database.ProcessBottle: writes the document's children with the row; what a failing run does to the child tables is in Reconcile.
- A crash of the machine: what a write call returned from is on disk, in the order of the calls. Only the client is killed.
- A write to the disk that fails: the run stops there, and what it leaves is one of the states of a crash.
- What a line reads as that was torn twice: left open, so that the theorems hold for any reading.
- Repair.Client.PushBlobs: a missing digest with an algorithm that has no implementation makes the client panic; the model returns failure.
- Ordering a listing by anything but creation time, the order of a record's digests, full-text search, ranking by pulls, metric filters and the web pages: presentation.
- Labels whose numbers are infinite: a number is a real or missing, and a missing one compares with nothing. The selector parser itself accepts only integers after `>` and `<`.
- Part selectors of a relative, and the graph drawing that uses the classification.
- `genericGet` and the clients that ask several servers: one loop that returns the first answer.

/**
 Inputs on which the promises end: small reachable stores where a run loses a record, one for each condition
 that the theorems on paging and on crashes ask for.
*/
module Limits {
  import opened Types
  import opened Store
  import opened Invariant
  import opened History
  import opened Listing
  import opened Restore
  import opened Mirror
  import opened Crashes
  import I = Interleaving

  const A: Bytes := [0]
  const B: Bytes := [1]

  /** Two byte strings, neither of them a document. */
  const BLOBS := World(
    (alg: Algorithm, b: Bytes) => if b == A then "a" else "b",
    b => Malformed,
    b => Malformed,
    b => Malformed,
    b => b == A || b == B)

  const A_NAME := Digest(SHA256, "a")
  const B_NAME := Digest(SHA256, "b")

  function PutBlob(bytes: Bytes, now: Time): Request {
    Request(Blob, bytes, NoParam, 1, now)
  }

  function OneBlob(t: Time): Store {
    Store([DataRow(A, A_NAME)], [DigestRow(0, A_NAME)], NO_ROWS[Blob := [Row(t, 1, 0, BlobDetail)]])
  }

  function TwoBlobs(t: Time): Store {
    Store([DataRow(A, A_NAME), DataRow(B, B_NAME)], [DigestRow(0, A_NAME), DigestRow(1, B_NAME)],
          NO_ROWS[Blob := [Row(t, 1, 0, BlobDetail), Row(t, 1, 1, BlobDetail)]])
  }

  lemma BlobsDiffer()
    ensures A != B && A_NAME != B_NAME && BLOBS.NoCollisions()
    ensures BLOBS.DigestOf(CANONICAL, A) == A_NAME && BLOBS.DigestOf(CANONICAL, B) == B_NAME
  {
    assert A[0] != B[0] && "a"[0] != "b"[0];
  }

  lemma PutOne(t: Time)
    ensures Put(BLOBS, EMPTY, PutBlob(A, t)) == (OneBlob(t), Created) && Valid(BLOBS, OneBlob(t))
  {
    BlobsDiffer();
    var (s, id) := Register(BLOBS, EMPTY, A_NAME, A);
    assert s == Store([DataRow(A, A_NAME)], [DigestRow(0, A_NAME)], NO_ROWS) && id == Ok(0);
    assert NO_ROWS[Blob] + [Row(t, 1, 0, BlobDetail)] == [Row(t, 1, 0, BlobDetail)];
    EmptyIsValid(BLOBS);
    PutValid(BLOBS, EMPTY, PutBlob(A, t));
  }

  lemma PutTwo(t: Time)
    ensures Put(BLOBS, OneBlob(t), PutBlob(B, t)) == (TwoBlobs(t), Created) && Valid(BLOBS, TwoBlobs(t))
  {
    BlobsDiffer();
    PutOne(t);
    var one := OneBlob(t);
    var (s, id) := Register(BLOBS, one, B_NAME, B);
    assert s == Store(TwoBlobs(t).data, TwoBlobs(t).digests, one.tables) && id == Ok(1);
    var rows := [Row(t, 1, 0, BlobDetail)];
    assert s.tables[Blob] == rows && IndexOfRow(rows, 1) == None;
    assert rows + [Row(t, 1, 1, BlobDetail)] == TwoBlobs(t).tables[Blob];
    assert SaveRow(s, Blob, None, Row(t, 1, 1, BlobDetail)).tables == TwoBlobs(t).tables;
    PutValid(BLOBS, one, PutBlob(B, t));
  }

  // ---------- two records of one instant ----------

  function EntryA(t: Time): Entry {
    Entry(t, [A_NAME], A)
  }

  function EntryB(t: Time): Entry {
    Entry(t, [B_NAME], B)
  }

  lemma TwoEntries(t: Time)
    ensures Entries(TwoBlobs(t), TwoBlobs(t).tables[Blob]) == [EntryA(t), EntryB(t)]
  {
    BlobsDiffer();
    var s := TwoBlobs(t);
    var rows := s.tables[Blob];
    EntriesOfTwo(t);
    assert rows[..1] == [rows[0]] && rows[..1][..0] == [];
    assert Entries(s, rows[..1]) == [EntryA(t)];
  }

  /** With a page end inside a tie, a run over an unchanging reachable store ends and has lost a record. */
  lemma TieLoses(t: Time, since: Time)
    requires since < t
    ensures var s := PutAll(BLOBS, EMPTY, [PutBlob(A, t), PutBlob(B, t)]);
            && AllAccepted(BLOBS, EMPTY, [PutBlob(A, t), PutBlob(B, t)]) && |s.tables[Blob]| == 2
            && Pages([s, s, s], Blob, since, 1) == ([EntryOf(s, s.tables[Blob][0])], true)
            && !Covered(Pages([s, s, s], Blob, since, 1).0, EntryOf(s, s.tables[Blob][1]))
  {
    PutBoth(t);
    TwoEntries(t);
    TiedPages(t, since);
    EntriesOfTwo(t);
    BlobsDiffer();
  }

  lemma PutBoth(t: Time)
    ensures PutAll(BLOBS, EMPTY, [PutBlob(A, t), PutBlob(B, t)]) == TwoBlobs(t)
    ensures AllAccepted(BLOBS, EMPTY, [PutBlob(A, t), PutBlob(B, t)])
  {
    PutOne(t);
    PutTwo(t);
    var w := BLOBS;
    assert [PutBlob(A, t), PutBlob(B, t)][1..] == [PutBlob(B, t)] && [PutBlob(B, t)][1..] == [];
    assert PutAll(w, OneBlob(t), [PutBlob(B, t)]) == TwoBlobs(t) && AllAccepted(w, OneBlob(t), [PutBlob(B, t)]);
  }

  lemma EntriesOfTwo(t: Time)
    ensures EntryOf(TwoBlobs(t), TwoBlobs(t).tables[Blob][0]) == EntryA(t)
    ensures EntryOf(TwoBlobs(t), TwoBlobs(t).tables[Blob][1]) == EntryB(t)
  {
    BlobsDiffer();
    var digests := TwoBlobs(t).digests;
    assert digests[..1] == [digests[0]] && digests[..1][..0] == [];
    assert AliasesOf(digests[..1], 0) == [A_NAME] && AliasesOf(digests[..1], 1) == [];
  }

  lemma TiedAfter(t: Time, since: Time)
    requires since < t
    ensures var both := [EntryA(t), EntryB(t)];
            After(both, since) == both && After(both, t) == [] && Limited(both, 1) == [EntryA(t)]
  {
    var both := [EntryA(t), EntryB(t)];
    AllAfter(both, since);
    AfterShorter(both, t);
    assert both[..1] == [EntryA(t)];
  }

  lemma TiedLists(t: Time, since: Time)
    requires since < t
    ensures List(TwoBlobs(t), Blob, since, 1) == [EntryA(t)] && List(TwoBlobs(t), Blob, t, 1) == []
  {
    TwoEntries(t);
    TiedAfter(t, since);
  }

  lemma TiedPages(t: Time, since: Time)
    requires since < t
    ensures var s := TwoBlobs(t); Pages([s, s, s], Blob, since, 1) == ([EntryA(t)], true)
  {
    var s := TwoBlobs(t);
    TiedLists(t, since);
    UnfoldPages([s, s, s], 0, Blob, since, 1);
    UnfoldPages([s, s, s], 1, Blob, t, 1);
    assert [s, s, s][0..] == [s, s, s];
    assert [EntryA(t)] + [] == [EntryA(t)];
  }

  // ---------- runs that are killed ----------

  lemma OnePage(t: Time, since: Time)
    ensures EntryOf(OneBlob(t), OneBlob(t).tables[Blob][0]) == EntryA(t)
    ensures Pages([OneBlob(t)], Blob, since, 2) == (if since < t then [EntryA(t)] else [], true)
  {
    var s := OneBlob(t);
    var rows := s.tables[Blob];
    assert rows[..0] == [] && s.digests[..0] == [];
    assert AliasesOf(s.digests, 0) == [A_NAME];
    assert Entries(s, rows) == [EntryA(t)];
    assert [EntryA(t)][..0] == [];
    assert After([EntryA(t)], since) == if since < t then [EntryA(t)] else [];
  }

  const A_RECORD := Record(A_NAME, [SHA256])
  const A_LINE := Whole(A_RECORD)

  lemma BlobSaved(t: Time, d: Disk)
    requires HasSaved(BLOBS, d, EntryA(t))
    requires forall line | line in d.index.lines :: line.Whole? ==> line == A_LINE
    ensures A_LINE in d.index.lines && A_NAME in d.files && d.files[A_NAME] == A
  {
    var g :| HonestEntry(BLOBS, g) && Saved(d, g) && Covers(g, EntryA(t));
    assert Whole(RecordOf(g)) == A_LINE;
  }

  /** The directory after a run over the one blob. */
  function OneSaved(t: Time): Disk {
    Disk(map[A_NAME := A], IndexFile([A_LINE], None), Some(t))
  }

  lemma RunOverOne(t: Time, since: Time)
    requires since < t
    ensures RecordsOf([EntryA(t)]) == [A_RECORD]
    ensures Downloaded(BLANK, [OneBlob(t)], Blob, since, 2) == OneSaved(t)
  {
    OnePage(t, since);
    OneRecord(t);
  }

  lemma OneRecord(t: Time)
    ensures RecordsOf([EntryA(t)]) == [A_RECORD]
    ensures Append(NO_LINES, RecordsOf([EntryA(t)])) == IndexFile([A_LINE], None)
    ensures WriteFiles(map[], [EntryA(t)]) == map[A_NAME := A]
  {
    var e := EntryA(t);
    assert RecordOf(e).algs == [SHA256];
    assert RecordsOf([e]) == [RecordOf(e)];
    assert Lines([RecordOf(e)]) == [A_LINE];
    assert NO_LINES.lines + [A_LINE] == [A_LINE];
    assert [e][..0] == [];
    assert WriteFiles(map[], [e][..0]) == map[];
  }

  /** A crash may find a data file truncated. */
  lemma Truncated(disk: Disk)
    requires disk.files == map[A_NAME := A]
    ensures TornFile(disk, A_NAME, A, [], disk.(files := map[A_NAME := []]))
  {
    var left := disk.(files := map[A_NAME := []]);
    assert A[..0] == [] && disk.(files := disk.files[A_NAME := A[..0]]) == left;
    assert IndexAt(disk.index, [], 0, left.index);
    assert Spilled(disk.(files := disk.files[A_NAME := A[..0]]), [], left);
  }

  const BLOB_WRITTEN := Disk(map[A_NAME := A], NO_LINES, None)

  /** The blob is written, and its line in part. */
  const TORN := Disk(map[A_NAME := A], IndexFile([], Some(Torn(Record(A_NAME, []), false))), None)

  /** A crash may find a line written in part. */
  lemma LineTorn()
    ensures Spilled(BLOB_WRITTEN, [A_RECORD], TORN)
  {
    assert [A_RECORD][..0] == [];
    assert CutOf(A_RECORD, TORN.index.tail.value);
    assert IndexAt(NO_LINES, [A_RECORD], 0, TORN.index);
  }

  lemma TornIsMidway(t: Time, since: Time)
    requires since < t
    ensures Midway(BLANK, TORN, Pages([OneBlob(t)], Blob, since, 2).0, since)
  {
    OnePage(t, since);
    OneRecord(t);
    var full := [EntryA(t)];
    assert full[..1] == full && [A_RECORD][..0] == [];
    assert CutOf(A_RECORD, TORN.index.tail.value);
    assert IndexAt(NO_LINES, RecordsOf(full[..1]), 0, TORN.index);
    assert MidwayAt(BLANK, TORN, full, since, 1, 0, 0);
  }

  lemma RunOverTorn(t: Time, since: Time)
    requires since < t
    ensures Downloaded(TORN, [OneBlob(t)], Blob, since, 2)
           == Disk(map[A_NAME := A], IndexFile([Garbled(Record(A_NAME, []))], None), Some(t))
  {
    OnePage(t, since);
    OneRecord(t);
    GluedLine(A_RECORD);
    WrittenAgain(t);
  }

  lemma GluedLine(record: Record)
    ensures Append(TORN.index, [record]) == IndexFile([Garbled(Record(A_NAME, []))], None)
  {
    assert [record][1..] == [];
    assert [] + [Garbled(Record(A_NAME, []))] + Lines([]) == [Garbled(Record(A_NAME, []))];
  }

  lemma WrittenAgain(t: Time)
    ensures WriteFiles(map[A_NAME := A], [EntryA(t)]) == map[A_NAME := A]
  {
    assert [EntryA(t)][..0] == [];
    assert WriteFiles(map[A_NAME := A], []) == map[A_NAME := A];
    assert map[A_NAME := A][A_NAME := A] == map[A_NAME := A];
  }

  lemma BlobIsSaved(t: Time)
    ensures HasSaved(BLOBS, OneSaved(t), EntryA(t))
  {
    BlobsDiffer();
    var e := EntryA(t);
    assert RecordOf(e).algs == [SHA256];
    assert OneSaved(t).index.lines[0] == Whole(RecordOf(e));
    assert HonestEntry(BLOBS, e) && Saved(OneSaved(t), e) && Covers(e, e);
  }

  /** The directory when the rewriting of its data file was cut short. */
  function CutShort(t: Time): Disk {
    OneSaved(t).(files := map[A_NAME := []])
  }

  lemma CutShortMidway(t: Time, since: Time)
    ensures Midway(OneSaved(t), CutShort(t), [EntryA(t)], since)
  {
    var disk := OneSaved(t);
    assert disk.files[A_NAME := []] == map[A_NAME := []];
    assert [EntryA(t)][..0] == [] && WriteFiles(disk.files, []) == disk.files;
    assert CutAt(disk, [EntryA(t)], 0) == CutShort(t);
    KilledInFile(disk, [EntryA(t)], since, 0);
  }

  lemma KilledRewriting(t: Time, since: Time)
    requires since < t
    ensures Midway(OneSaved(t), CutShort(t), Pages([OneBlob(t)], Blob, since, 2).0, since)
  {
    OnePage(t, since);
    CutShortMidway(t, since);
    assert Pages([OneBlob(t)], Blob, since, 2).0 == [EntryA(t)];
  }

  lemma ResumedIsLeft(t: Time)
    ensures Downloaded(CutShort(t), [OneBlob(t)], Blob, t, 2) == CutShort(t)
    ensures !HasSaved(BLOBS, CutShort(t), EntryA(t))
  {
    OnePage(t, t);
    assert RecordsOf([]) == [];
    if HasSaved(BLOBS, CutShort(t), EntryA(t)) {
      BlobSaved(t, CutShort(t));
    }
  }

  /**
   A complete run, a second one from the same time that starts over, and is killed while it rewrites the first
   data file, then one that resumes: the recorded time stands, and the record is lost for good.
  */
  lemma StartingOverLoses(t: Time, since: Time)
    requires since < t
    ensures var s, disk, left := OneBlob(t), OneSaved(t), CutShort(t);
            && disk == Downloaded(BLANK, [s], Blob, since, 2)
            && UpToDate(BLOBS, disk, s, Blob, since) && Intact(disk.index)
            && Midway(disk, left, Pages([s], Blob, StartOf(disk, since, false), 2).0, since)
            && TornFile(disk, A_NAME, A, [], left)
            && var resumed := Downloaded(left, [s], Blob, StartOf(left, since, true), 2);
               && !HasSaved(BLOBS, resumed, EntryOf(s, s.tables[Blob][0]))
               && !UpToDate(BLOBS, resumed, s, Blob, since)
  {
    OnePage(t, since);
    RunOverOne(t, since);
    BlobIsSaved(t);
    KilledRewriting(t, since);
    Truncated(OneSaved(t));
    ResumedIsLeft(t);
  }

  /** A first run that is killed while its line is written, then one that resumes and ends: the record is lost. */
  lemma TornLineIsReal(t: Time, since: Time)
    requires since < t
    ensures var s := OneBlob(t);
            && Midway(BLANK, TORN, Pages([s], Blob, since, 2).0, since)
            && Spilled(BLOB_WRITTEN, [A_RECORD], TORN)
            && StartOf(TORN, since, true) == since && Pages([s], Blob, since, 2).1
            && var resumed := Downloaded(TORN, [s], Blob, since, 2);
               && resumed.latest == Some(t) && !HasSaved(BLOBS, resumed, EntryOf(s, s.tables[Blob][0]))
               && !UpToDate(BLOBS, resumed, s, Blob, since)
  {
    LineTorn();
    TornIsMidway(t, since);
    TornRunEnds(t, since);
    TornRunLoses(t, since);
  }

  lemma TornRunEnds(t: Time, since: Time)
    requires since < t
    ensures Pages([OneBlob(t)], Blob, since, 2).1
    ensures Downloaded(TORN, [OneBlob(t)], Blob, since, 2).latest == Some(t)
  {
    OnePage(t, since);
    RunOverTorn(t, since);
  }

  lemma TornRunLoses(t: Time, since: Time)
    requires since < t
    ensures var s, resumed := OneBlob(t), Downloaded(TORN, [OneBlob(t)], Blob, since, 2);
            && !HasSaved(BLOBS, resumed, EntryOf(s, s.tables[Blob][0]))
            && !UpToDate(BLOBS, resumed, s, Blob, since)
  {
    OnePage(t, since);
    RunOverTorn(t, since);
    var resumed := Downloaded(TORN, [OneBlob(t)], Blob, since, 2);
    if HasSaved(BLOBS, resumed, EntryA(t)) {
      BlobSaved(t, resumed);
    }
  }

  // ---------- a run that is killed, and one that resumes ----------

  lemma ServesOne(t: Time)
    ensures Serves(BLOBS, OneBlob(t), [OneBlob(t)], Blob) && Valid(BLOBS, OneBlob(t))
  {
    PutOne(t);
    GrowsReflexive(OneBlob(t));
  }

  lemma KilledBehindItsFile(t: Time, since: Time)
    requires since < t
    ensures Midway(BLANK, BLOB_WRITTEN, Pages([OneBlob(t)], Blob, since, 2).0, since)
  {
    OnePage(t, since);
    OneRecord(t);
    var full := [EntryA(t)];
    assert full[..0] == [] && full[..1] == full && RecordsOf(full[..1])[..0] == [];
    assert MidwayAt(BLANK, BLOB_WRITTEN, full, since, 1, 0, 0);
  }

  function OneAttempt(t: Time): Attempt {
    Attempt([OneBlob(t)], true, BLOB_WRITTEN)
  }

  lemma OneAttempted(t: Time, since: Time)
    requires since < t
    ensures Attempts(BLOBS, OneBlob(t), Blob, since, 2, BLANK, [OneAttempt(t)])
    ensures AllHarmless(OneBlob(t), Blob, since, 2, BLANK, [OneAttempt(t)])
  {
    ServesOne(t);
    KilledBehindItsFile(t, since);
    LaterRewritesNothing(BLOBS, OneBlob(t), [OneBlob(t)], Blob, since, 2, BLANK);
    assert StartOf(BLANK, since, true) == since;
    assert Intact(BLANK.index);
    assert Attempted(BLOBS, OneBlob(t), Blob, since, 2, BLANK, OneAttempt(t));
    assert HarmlessRun(OneBlob(t), Blob, since, 2, BLANK, OneAttempt(t));
  }

  /** The conditions on runs are met by one that is killed behind its data file and one that resumes. */
  lemma KilledAndResumed(t: Time, since: Time)
    requires since < t
    ensures Attempts(BLOBS, OneBlob(t), Blob, since, 2, BLANK, [OneAttempt(t)])
    ensures AllHarmless(OneBlob(t), Blob, since, 2, BLANK, [OneAttempt(t)])
    ensures HasSaved(BLOBS, Downloaded(BLOB_WRITTEN, [OneBlob(t)], Blob, since, 2), Old(OneBlob(t), Blob, 0))
  {
    OneAttempted(t, since);
    OnePage(t, since);
    BlobsDiffer();
    ServesOne(t);
    ResumingEndsComplete(BLOBS, OneBlob(t), Blob, since, 2, [OneAttempt(t)], [OneBlob(t)], true, 0);
  }

  // ---------- two PUTs of one blob at the same time ----------

  const RACE: seq<Request> := [PutBlob(A, 1), PutBlob(A, 2)]

  const ROW1 := Row(1, 1, 0, BlobDetail)
  const ROW2 := Row(2, 1, 0, BlobDetail)

  const NAMED_A := Store([DataRow(A, A_NAME)], [DigestRow(0, A_NAME)], NO_ROWS)
  const ONCE_A := NAMED_A.(tables := NO_ROWS[Blob := [ROW1]])
  const TWICE_A := NAMED_A.(tables := NO_ROWS[Blob := [ROW1, ROW2]])

  function Racing(s: Store, p: I.Phase, q: I.Phase): I.Serving {
    I.Serving(s, [p, q])
  }

  /** The PUTs have come from their arrival to this state. */
  ghost predicate Raced(schedule: seq<nat>, v: I.Serving) {
    I.RunAll(BLOBS, RACE, Racing(EMPTY, I.Arrived, I.Arrived), schedule) == v
  }

  lemma Races(schedule: seq<nat>, v: I.Serving, i: nat, s: Store, p: I.Phase)
    requires Raced(schedule, v) && i < 2 && |v.phases| == 2
    requires I.StepOne(BLOBS, RACE[i], v.store, v.phases[i]) == (s, p)
    ensures Raced(schedule + [i], I.Serving(s, v.phases[i := p]))
  {
    I.RunsOn(BLOBS, RACE, Racing(EMPTY, I.Arrived, I.Arrived), schedule, i);
  }

  lemma FirstLooks() returns (schedule: seq<nat>)
    ensures Raced(schedule, Racing(NAMED_A, I.RowMissing(0), I.Arrived))
  {
    BlobsDiffer();
    var named := EMPTY.(data := [DataRow(A, A_NAME)]);
    assert EMPTY.data + [DataRow(A, A_NAME)] == named.data;
    assert named.digests + [DigestRow(0, A_NAME)] == NAMED_A.digests;
    Races([], Racing(EMPTY, I.Arrived, I.Arrived), 0, EMPTY, I.DataMissing);
    Races([0], Racing(EMPTY, I.DataMissing, I.Arrived), 0, named, I.DataFound(0));
    Races([0, 0], Racing(named, I.DataFound(0), I.Arrived), 0, named, I.AliasMissing(0));
    Races([0, 0, 0], Racing(named, I.AliasMissing(0), I.Arrived), 0, NAMED_A, I.AliasFound(0));
    Races([0, 0, 0, 0], Racing(NAMED_A, I.AliasFound(0), I.Arrived), 0, NAMED_A, I.RowMissing(0));
    schedule := [0, 0, 0, 0] + [0];
  }

  lemma SecondLooks() returns (schedule: seq<nat>)
    ensures Raced(schedule, Racing(NAMED_A, I.RowMissing(0), I.RowMissing(0)))
  {
    BlobsDiffer();
    var first := FirstLooks();
    assert NAMED_A.digests[0] == DigestRow(0, A_NAME);
    Races(first, Racing(NAMED_A, I.RowMissing(0), I.Arrived), 1, NAMED_A, I.DataFound(0));
    Races(first + [1], Racing(NAMED_A, I.RowMissing(0), I.DataFound(0)), 1, NAMED_A, I.AliasFound(0));
    Races(first + [1] + [1], Racing(NAMED_A, I.RowMissing(0), I.AliasFound(0)), 1, NAMED_A, I.RowMissing(0));
    schedule := first + [1] + [1] + [1];
  }

  lemma BothResolve() returns (schedule: seq<nat>)
    ensures Raced(schedule, Racing(NAMED_A, I.Resolved(0, None, 1, BlobDetail), I.Resolved(0, None, 2, BlobDetail)))
  {
    var looked := SecondLooks();
    var first, second := I.Resolved(0, None, 1, BlobDetail), I.Resolved(0, None, 2, BlobDetail);
    Races(looked, Racing(NAMED_A, I.RowMissing(0), I.RowMissing(0)), 0, NAMED_A, first);
    Races(looked + [0], Racing(NAMED_A, first, I.RowMissing(0)), 1, NAMED_A, second);
    schedule := looked + [0] + [1];
  }

  lemma SavedTwice()
    ensures SaveRow(NAMED_A, Blob, None, ROW1) == ONCE_A && SaveRow(ONCE_A, Blob, None, ROW2) == TWICE_A
  {
    assert NO_ROWS[Blob] + [ROW1] == [ROW1];
    assert ONCE_A.tables[Blob] + [ROW2] == [ROW1, ROW2];
    assert NO_ROWS[Blob := [ROW1]][Blob := [ROW1, ROW2]] == NO_ROWS[Blob := [ROW1, ROW2]];
  }

  lemma BothSave() returns (schedule: seq<nat>)
    ensures Raced(schedule, Racing(TWICE_A, I.Done(Created), I.Done(Created)))
  {
    var resolved := BothResolve();
    var first, second := I.Resolved(0, None, 1, BlobDetail), I.Resolved(0, None, 2, BlobDetail);
    SavedTwice();
    Races(resolved, Racing(NAMED_A, first, second), 0, ONCE_A, I.Done(Created));
    Races(resolved + [0], Racing(ONCE_A, I.Done(Created), second), 1, TWICE_A, I.Done(Created));
    schedule := resolved + [0] + [1];
  }

  /** Two PUTs of one blob whose lookups both come before their saves are both answered, and its data has two rows. */
  lemma RaceDoubles() returns (schedule: seq<nat>)
    ensures Valid(BLOBS, EMPTY) && BLOBS.NoCollisions()
    ensures var v := I.RunAll(BLOBS, RACE, Racing(EMPTY, I.Arrived, I.Arrived), schedule);
            && v.phases == [I.Done(Created), I.Done(Created)]
            && v.store.tables[Blob] == [ROW1, ROW2] && ROW1.dataId == ROW2.dataId
  {
    EmptyIsValid(BLOBS);
    BlobsDiffer();
    schedule := BothSave();
  }
}

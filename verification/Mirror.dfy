/**
 The download command: every table is saved to an index file and data files, page by page, and a later
 run resumes from the time of the last record. The disk is followed through every write, so that what a
 crash leaves behind is known exactly.
*/
module Mirror {
  import opened Types
  import opened Store
  import opened Listing

  // ---------- what is on disk ----------

  /** An index record: the data file, which is called by a digest, and the algorithms of all digests. */
  datatype Record = Record(file: Digest, algs: seq<Algorithm>)

  /**
   A line of an index file. A garbled line can be read as far as the algorithms of its record and stops the
   reader there; nothing of it can be read if it has none, whatever file it names.
  */
  datatype Line = Whole(record: Record) | Garbled(record: Record)

  /**
   The beginning of a line: its algorithms as far as they are there, and whether the beginning is cut just
   behind the last of them.
  */
  datatype Torn = Torn(record: Record, clean: bool)
  {
    /** The line as it reads at the end of the file. */
    function Read(): Line {
      if clean && record.algs != [] then Whole(record) else Garbled(record)
    }

    /** The line as it reads with another one glued to it. */
    function Glued(): Line {
      if clean && record.algs != [] then Garbled(record.(algs := record.algs[..|record.algs| - 1])) else Garbled(record)
    }
  }

  /** The lines of an index file, and the beginning of a last one that was torn. */
  datatype IndexFile = IndexFile(lines: seq<Line>, tail: Option<Torn>)

  /** The directory of one type. A missing or torn `index.latest` reads as no time at all. */
  datatype Disk = Disk(files: map<Digest, Bytes>, index: IndexFile, latest: Option<Time>)

  const NO_LINES: IndexFile := IndexFile([], None)

  const BLANK: Disk := Disk(map[], NO_LINES, None)

  /** The first digest of a record, which names its data file; records are listed with at least one. */
  function NameOf(e: Entry): Digest {
    if e.digests == [] then Digest(CANONICAL, "") else e.digests[0]
  }

  function RecordOf(e: Entry): Record {
    Record(NameOf(e), seq(|e.digests|, i requires 0 <= i < |e.digests| => e.digests[i].alg))
  }

  function RecordsOf(entries: seq<Entry>): seq<Record> {
    seq(|entries|, i requires 0 <= i < |entries| => RecordOf(entries[i]))
  }

  function Lines(records: seq<Record>): seq<Line> {
    seq(|records|, i requires 0 <= i < |records| => Whole(records[i]))
  }

  /** Appending to an index file: the first line is glued to a torn one. */
  function Append(f: IndexFile, records: seq<Record>): IndexFile {
    if records == [] then f
    else if f.tail.Some? then IndexFile(f.lines + [f.tail.value.Glued()] + Lines(records[1..]), None)
    else IndexFile(f.lines + Lines(records), None)
  }

  /** Writing the data files of some entries in order. */
  function WriteFiles(files: map<Digest, Bytes>, entries: seq<Entry>): map<Digest, Bytes> {
    if entries == [] then files
    else
      var last := entries[|entries| - 1];
      WriteFiles(files, entries[..|entries| - 1])[NameOf(last) := last.data]
  }

  /** A whole line with only whole lines before it, so that whoever reads the index gets to it. */
  ghost predicate IsRead(lines: seq<Line>, record: Record) {
    exists i :: 0 <= i < |lines| && lines[i] == Whole(record) && forall j | 0 <= j < i :: lines[j].Whole?
  }

  /** The record is on disk where an upload finds it. */
  ghost predicate Saved(disk: Disk, e: Entry) {
    match disk
    case Disk(files, index, _) =>
      && e.digests != [] && IsRead(index.lines, RecordOf(e))
      && NameOf(e) in files && files[NameOf(e)] == e.data
  }

  // ---------- what a crash leaves ----------

  /** The beginning of a line of this record. */
  ghost predicate CutOf(record: Record, t: Torn) {
    t.record.file == record.file && t.record.algs <= record.algs
  }

  /** The line of a record is written in part; what a line reads as that was torn twice is left open. */
  ghost predicate TornBehind(f: IndexFile, record: Record, g: IndexFile) {
    g.lines == f.lines && g.tail.Some? && (f.tail.None? ==> CutOf(record, g.tail.value))
  }

  /** Of some records the first n have reached the file, and maybe a part of the next one. */
  ghost predicate IndexAt(f: IndexFile, records: seq<Record>, n: nat, g: IndexFile) {
    && n <= |records|
    && (|| g == Append(f, records[..n])
        || (n < |records| && TornBehind(Append(f, records[..n]), records[n], g)))
  }

  /** The CSV writer may have passed on any part of what is buffered. */
  ghost predicate Spilled(now: Disk, pending: seq<Record>, d: Disk) {
    d.files == now.files && d.latest == now.latest && exists n: nat :: IndexAt(now.index, pending, n, d.index)
  }

  /** A data file is truncated before it is written, so that any beginning of it may be there. */
  ghost predicate TornFile(now: Disk, name: Digest, data: Bytes, pending: seq<Record>, d: Disk) {
    exists n: nat :: n <= |data| && Spilled(now.(files := now.files[name := data[..n]]), pending, d)
  }

  /** The directory of one type, with every state of the disk that a crash could have left behind. */
  class Directory {
    var files: map<Digest, Bytes>
    var index: IndexFile
    var latest: Option<Time>
    /** Lines that the CSV writer has not been asked to flush yet. */
    var pending: seq<Record>
    ghost var crashes: iset<Disk>

    ghost function Now(): Disk
      reads this
    {
      Disk(files, index, latest)
    }

    constructor ()
      ensures Now() == BLANK && pending == [] && crashes == iset{}
    {
      files, index, latest, pending := map[], NO_LINES, None, [];
      crashes := iset{};
    }

    method Open()
      modifies this`crashes
      ensures crashes == old(crashes) + iset{Now()}
    {
      crashes := crashes + iset{Now()};
    }

    method WriteFile(name: Digest, data: Bytes)
      modifies this`files, this`crashes
      ensures files == old(files)[name := data]
      ensures crashes == old(crashes) + iset d: Disk | TornFile(old(Now()), name, data, pending, d)
    {
      crashes := crashes + iset d: Disk | TornFile(Now(), name, data, pending, d);
      files := files[name := data];
    }

    method Write(record: Record)
      modifies this`pending, this`crashes
      ensures pending == old(pending) + [record]
      ensures crashes == old(crashes) + iset d: Disk | Spilled(Now(), pending, d)
    {
      pending := pending + [record];
      crashes := crashes + iset d: Disk | Spilled(Now(), pending, d);
    }

    method Flush()
      modifies this`index, this`pending, this`crashes
      ensures index == Append(old(index), old(pending)) && pending == []
      ensures crashes == old(crashes) + iset{Now()}
    {
      index := Append(index, pending);
      pending := [];
      crashes := crashes + iset{Now()};
    }

    method WriteLatest(time: Time)
      modifies this`latest, this`crashes
      ensures latest == Some(time)
      ensures crashes == old(crashes) + iset{old(Now()).(latest := None), Now()}
    {
      latest := None;
      crashes := crashes + iset{Now()};
      latest := Some(time);
      crashes := crashes + iset{Now()};
    }

    /** The data file is written before the index line is even buffered. */
    method WriteRecord(e: Entry)
      requires e.digests != []
      modifies this`files, this`pending, this`crashes
      ensures files == old(files)[NameOf(e) := e.data]
      ensures pending == old(pending) + [RecordOf(e)]
      ensures crashes == old(crashes)
                         + (iset d: Disk | TornFile(old(Now()), NameOf(e), e.data, old(pending), d))
                         + (iset d: Disk | Spilled(Now(), pending, d))
    {
      WriteFile(e.digests[0], e.data);
      var algs: seq<Algorithm> := [];
      for i := 0 to |e.digests|
        invariant |algs| == i && forall j | 0 <= j < i :: algs[j] == e.digests[j].alg
      {
        algs := algs + [e.digests[i].alg];
      }
      assert Record(e.digests[0], algs) == RecordOf(e);
      Write(Record(e.digests[0], algs));
    }
  }

  // ---------- the disk in the middle of a run ----------

  /** Where a run starts. */
  function StartOf(disk: Disk, since: Time, fromLatest: bool): Time {
    if fromLatest && disk.latest.Some? then disk.latest.value else since
  }

  /** The data files when k entries are written, and maybe a part of the next one. */
  ghost predicate FilesAt(files0: map<Digest, Bytes>, full: seq<Entry>, k: nat, files: map<Digest, Bytes>) {
    && k <= |full|
    && var written := WriteFiles(files0, full[..k]);
       || files == written
       || (k < |full| && exists m: nat :: m <= |full[k].data| && files == written[NameOf(full[k]) := full[k].data[..m]])
  }

  /**
   The disk when k data files and n index lines of the run are written, and the time of the first j records
   may be recorded; the next file and the next line may be written in part.
  */
  ghost predicate MidwayAt(disk0: Disk, d: Disk, full: seq<Entry>, start: Time, k: nat, n: nat, j: nat) {
    && j <= n <= k <= |full|
    && FilesAt(disk0.files, full, k, d.files)
    && IndexAt(disk0.index, RecordsOf(full[..k]), n, d.index)
    && (d.latest == disk0.latest || d.latest == None || d.latest == Some(Last(full[..j], start)))
  }

  /** A state of the disk during a run that started on disk0 and gets these entries. */
  ghost predicate Midway(disk0: Disk, d: Disk, full: seq<Entry>, start: Time) {
    exists k: nat, n: nat, j: nat :: MidwayAt(disk0, d, full, start, k, n, j)
  }

  /** The disk after a run: a time is recorded unless the first request failed. */
  function Downloaded(disk0: Disk, states: seq<Store>, kind: Kind, start: Time, limit: int): Disk {
    var (got, _) := Pages(states, kind, start, limit);
    Disk(WriteFiles(disk0.files, got), Append(disk0.index, RecordsOf(got)),
         if states == [] then disk0.latest else Some(Last(got, start)))
  }

  // ---------- appending and writing in parts ----------

  lemma LinesOfBoth(a: seq<Record>, b: seq<Record>)
    ensures Lines(a + b) == Lines(a) + Lines(b)
  {
  }

  lemma JoinedLines(lines: seq<Line>, a: seq<Line>, b: seq<Line>)
    ensures lines + (a + b) == lines + a + b
  {
  }

  lemma AppendTwice(f: IndexFile, a: seq<Record>, b: seq<Record>)
    ensures Append(Append(f, a), b) == Append(f, a + b)
  {
    if a == [] {
      assert a + b == b;
    } else if b == [] {
      assert a + b == a;
    } else if f.tail.Some? {
      assert (a + b)[1..] == a[1..] + b;
      LinesOfBoth(a[1..], b);
      JoinedLines(f.lines + [f.tail.value.Glued()], Lines(a[1..]), Lines(b));
    } else {
      LinesOfBoth(a, b);
      JoinedLines(f.lines, Lines(a), Lines(b));
    }
  }

  lemma {:induction false} WriteTwice(files: map<Digest, Bytes>, a: seq<Entry>, b: seq<Entry>)
    ensures WriteFiles(WriteFiles(files, a), b) == WriteFiles(files, a + b)
  {
    if b == [] {
      assert a + b == a;
    } else {
      assert (a + b)[..|a + b| - 1] == a + b[..|b| - 1];
      WriteTwice(files, a, b[..|b| - 1]);
    }
  }

  lemma RecordsOfBoth(a: seq<Entry>, b: seq<Entry>)
    ensures RecordsOf(a + b) == RecordsOf(a) + RecordsOf(b)
  {
  }

  // ---------- one page ----------

  /** The disk while a page is saved: k data files and n lines of it are written. */
  ghost predicate PageAt(now: Disk, page: seq<Entry>, d: Disk, k: nat, n: nat) {
    && n <= k <= |page|
    && FilesAt(now.files, page, k, d.files)
    && IndexAt(now.index, RecordsOf(page[..k]), n, d.index)
    && d.latest == now.latest
  }

  ghost predicate DuringPage(now: Disk, page: seq<Entry>, d: Disk) {
    exists k: nat, n: nat :: PageAt(now, page, d, k, n)
  }

  lemma SpilledDuringPage(now: Disk, page: seq<Entry>, i: nat, files: map<Digest, Bytes>, latest: Option<Time>, d: Disk)
    requires i <= |page| && FilesAt(now.files, page, i, files) && latest == now.latest
    requires Spilled(Disk(files, now.index, latest), RecordsOf(page[..i]), d)
    ensures DuringPage(now, page, d)
  {
    var n: nat :| IndexAt(now.index, RecordsOf(page[..i]), n, d.index);
    assert PageAt(now, page, d, i, n);
  }

  lemma TornDuringPage(now: Disk, page: seq<Entry>, i: nat, was: Disk, d: Disk)
    requires i < |page|
    requires was == now.(files := WriteFiles(now.files, page[..i]))
    requires TornFile(was, NameOf(page[i]), page[i].data, RecordsOf(page[..i]), d)
    ensures DuringPage(now, page, d)
  {
    var m: nat :| m <= |page[i].data|
                  && Spilled(was.(files := was.files[NameOf(page[i]) := page[i].data[..m]]), RecordsOf(page[..i]), d);
    SpilledDuringPage(now, page, i, was.files[NameOf(page[i]) := page[i].data[..m]], was.latest, d);
  }

  /** The crashes of one run are old ones, or of the kind that is said. */
  ghost predicate OnlyDuring(before: iset<Disk>, after: iset<Disk>, now: Disk, page: seq<Entry>) {
    forall d | d in after :: d in before || DuringPage(now, page, d)
  }

  lemma OneMoreRecord(now: Disk, page: seq<Entry>, i: nat)
    requires i < |page|
    ensures WriteFiles(now.files, page[..i + 1]) == WriteFiles(now.files, page[..i])[NameOf(page[i]) := page[i].data]
    ensures RecordsOf(page[..i + 1]) == RecordsOf(page[..i]) + [RecordOf(page[i])]
  {
    assert page[..i + 1][..i] == page[..i];
  }

  lemma RecordCrashes(before: iset<Disk>, was: iset<Disk>, after: iset<Disk>, now: Disk, page: seq<Entry>, i: nat,
                      disk: Disk, disk': Disk, pending: seq<Record>, pending': seq<Record>)
    requires i < |page| && OnlyDuring(before, was, now, page)
    requires disk == now.(files := WriteFiles(now.files, page[..i])) && pending == RecordsOf(page[..i])
    requires disk' == now.(files := WriteFiles(now.files, page[..i + 1])) && pending' == RecordsOf(page[..i + 1])
    requires after == was
             + (iset d: Disk | TornFile(disk, NameOf(page[i]), page[i].data, pending, d))
             + (iset d: Disk | Spilled(disk', pending', d))
    ensures OnlyDuring(before, after, now, page)
  {
    forall d | d in after && d !in was ensures DuringPage(now, page, d) {
      if TornFile(disk, NameOf(page[i]), page[i].data, pending, d) {
        TornDuringPage(now, page, i, disk, d);
      } else {
        SpilledDuringPage(now, page, i + 1, disk'.files, now.latest, d);
      }
    }
  }

  /** Writes the data files of one page, then flushes the index lines. */
  method WritePage(dir: Directory, results: seq<Entry>)
    requires dir.pending == [] && forall i | 0 <= i < |results| :: results[i].digests != []
    modifies dir`files, dir`index, dir`pending, dir`crashes
    ensures dir.files == WriteFiles(old(dir.files), results)
    ensures dir.index == Append(old(dir.index), RecordsOf(results)) && dir.pending == []
    ensures OnlyDuring(old(dir.crashes), dir.crashes, old(dir.Now()), results)
  {
    ghost var now, before := dir.Now(), dir.crashes;
    assert results[..0] == [] && RecordsOf(results[..0]) == [];
    for i := 0 to |results|
      invariant dir.index == now.index && dir.latest == now.latest
      invariant dir.files == WriteFiles(now.files, results[..i]) && dir.pending == RecordsOf(results[..i])
      invariant OnlyDuring(before, dir.crashes, now, results)
    {
      ghost var was, disk, pending := dir.crashes, dir.Now(), dir.pending;
      OneMoreRecord(now, results, i);
      dir.WriteRecord(results[i]);
      RecordCrashes(before, was, dir.crashes, now, results, i, disk, dir.Now(), pending, dir.pending);
    }
    assert results[..|results|] == results;
    dir.Flush();
    assert PageAt(now, results, dir.Now(), |results|, |results|);
  }

  // ---------- the run ----------

  lemma FilesAtLater(files0: map<Digest, Bytes>, got: seq<Entry>, page: seq<Entry>, full: seq<Entry>, k: nat,
                                        files: map<Digest, Bytes>)
    requires got + page <= full && FilesAt(WriteFiles(files0, got), page, k, files)
    ensures FilesAt(files0, full, |got| + k, files)
  {
    assert full[..|got| + k] == got + page[..k];
    WriteTwice(files0, got, page[..k]);
    if k < |page| {
      assert full[|got| + k] == page[k];
    }
  }

  lemma RecordsAtLater(f: IndexFile, got: seq<Record>, page: seq<Record>, n: nat, g: IndexFile)
    requires IndexAt(Append(f, got), page, n, g)
    ensures IndexAt(f, got + page, |got| + n, g)
  {
    assert (got + page)[..|got| + n] == got + page[..n];
    AppendTwice(f, got, page[..n]);
  }

  lemma IndexAtLater(f: IndexFile, got: seq<Entry>, page: seq<Entry>, full: seq<Entry>, k: nat, n: nat, g: IndexFile)
    requires got + page <= full && k <= |page| && IndexAt(Append(f, RecordsOf(got)), RecordsOf(page[..k]), n, g)
    ensures IndexAt(f, RecordsOf(full[..|got| + k]), |got| + n, g)
  {
    assert full[..|got| + k] == got + page[..k];
    RecordsOfBoth(got, page[..k]);
    RecordsAtLater(f, RecordsOf(got), RecordsOf(page[..k]), n, g);
  }

  lemma PageIsMidway(disk0: Disk, now: Disk, got: seq<Entry>, page: seq<Entry>, full: seq<Entry>, start: Time, d: Disk)
    requires got + page <= full && DuringPage(now, page, d)
    requires now.files == WriteFiles(disk0.files, got) && now.index == Append(disk0.index, RecordsOf(got))
    requires now.latest == disk0.latest || now.latest == Some(Last(got, start))
    ensures Midway(disk0, d, full, start)
  {
    var k: nat, n: nat :| PageAt(now, page, d, k, n);
    FilesAtLater(disk0.files, got, page, full, k, d.files);
    IndexAtLater(disk0.index, got, page, full, k, n, d.index);
    assert full[..|got|] == got;
    assert MidwayAt(disk0, d, full, start, |got| + k, |got| + n, |got|);
  }

  /** A run that has got some of its entries: they are on disk, and every crash left something of the run,
       or was before it. */
  ghost predicate Running(disk0: Disk, now: Disk, before: iset<Disk>, crashes: iset<Disk>, full: seq<Entry>,
                          got: seq<Entry>, start: Time) {
    && got <= full
    && now.files == WriteFiles(disk0.files, got) && now.index == Append(disk0.index, RecordsOf(got))
    && OnlyMidway(before, crashes, disk0, full, start)
  }

  ghost predicate OnlyMidway(before: iset<Disk>, crashes: iset<Disk>, disk0: Disk, full: seq<Entry>, start: Time) {
    forall d | d in crashes :: d in before || Midway(disk0, d, full, start)
  }

  lemma NothingGotYet(disk: Disk, before: iset<Disk>, full: seq<Entry>, start: Time)
    ensures Running(disk, disk, before, before + iset{disk}, full, [], start)
  {
    assert full[..0] == [] && RecordsOf([]) == [];
    assert MidwayAt(disk, disk, full, start, 0, 0, 0);
  }

  lemma PageSaved(disk0: Disk, was: Disk, now: Disk, before: iset<Disk>, crashes: iset<Disk>, crashes': iset<Disk>,
                  full: seq<Entry>, got: seq<Entry>, page: seq<Entry>, start: Time)
    requires Running(disk0, was, before, crashes, full, got, start) && got + page <= full
    requires was.latest == disk0.latest || was.latest == Some(Last(got, start))
    requires OnlyDuring(crashes, crashes', was, page)
    requires now == was.(files := WriteFiles(was.files, page), index := Append(was.index, RecordsOf(page)))
    ensures Running(disk0, now, before, crashes', full, got + page, start)
  {
    WriteTwice(disk0.files, got, page);
    RecordsOfBoth(got, page);
    AppendTwice(disk0.index, RecordsOf(got), RecordsOf(page));
    forall d | d in crashes' && d !in before ensures Midway(disk0, d, full, start) {
      if d !in crashes {
        PageIsMidway(disk0, was, got, page, full, start, d);
      }
    }
  }

  lemma LatestRecorded(disk0: Disk, was: Disk, before: iset<Disk>, crashes: iset<Disk>, full: seq<Entry>,
                       got: seq<Entry>, start: Time)
    requires Running(disk0, was, before, crashes, full, got, start)
    ensures var now := was.(latest := Some(Last(got, start)));
            Running(disk0, now, before, crashes + iset{was.(latest := None), now}, full, got, start)
  {
    var n := |got|;
    assert full[..n] == got;
    assert MidwayAt(disk0, was.(latest := None), full, start, n, n, n);
    assert MidwayAt(disk0, was.(latest := Some(Last(got, start))), full, start, n, n, n);
  }

  /** The requests from the n-th on get the rest of the run. */
  ghost predicate ToCome(full: seq<Entry>, ended: bool, got: seq<Entry>, ok: bool, states: seq<Store>, n: nat,
                         kind: Kind, limit: int, start: Time) {
    if ok then full == got && ended
    else
      && n <= |states|
      && full == got + Pages(states[n..], kind, Last(got, start), limit).0
      && ended == Pages(states[n..], kind, Last(got, start), limit).1
  }

  lemma AllToCome(states: seq<Store>, kind: Kind, limit: int, start: Time)
    ensures var (full, ended) := Pages(states, kind, start, limit);
            ToCome(full, ended, [], false, states, 0, kind, limit, start)
  {
    assert states[0..] == states;
    assert [] + Pages(states, kind, start, limit).0 == Pages(states, kind, start, limit).0;
  }

  lemma UnfoldPages(states: seq<Store>, n: nat, kind: Kind, since: Time, limit: int)
    requires n < |states|
    ensures var page := List(states[n], kind, since, limit);
            var rest := Pages(states[n + 1..], kind, Last(page, since), limit);
            Pages(states[n..], kind, since, limit) == if |page| < limit then (page, true) else (page + rest.0, rest.1)
  {
    assert states[n..][0] == states[n] && states[n..][1..] == states[n + 1..];
  }

  lemma JoinsInAnyOrder(a: seq<Entry>, b: seq<Entry>, c: seq<Entry>)
    ensures a + (b + c) == a + b + c && a + b + [] == a + b
  {
  }

  /** One list request further: its page is next, and the rest follows the last time of the page. */
  lemma NextRequest(full: seq<Entry>, ended: bool, got: seq<Entry>, states: seq<Store>, n: nat, kind: Kind, limit: int,
                    start: Time)
    requires n < |states| && ToCome(full, ended, got, false, states, n, kind, limit, start)
    ensures var page := List(states[n], kind, Last(got, start), limit);
            && got + page <= full
            && ToCome(full, ended, got + page, |page| < limit, states, n + 1, kind, limit, start)
  {
    var since := Last(got, start);
    var page := List(states[n], kind, since, limit);
    UnfoldPages(states, n, kind, since, limit);
    LastOfBoth(got, page, start);
    JoinsInAnyOrder(got, page, if |page| < limit then [] else Pages(states[n + 1..], kind, Last(page, since), limit).0);
  }

  lemma ListedHaveDigests(s: Store, kind: Kind, since: Time, limit: int)
    ensures forall i | 0 <= i < |List(s, kind, since, limit)| :: List(s, kind, since, limit)[i].digests != []
  {
    ListMembers(s, kind, since, limit);
    EntriesExact(s, s.tables[kind]);
    forall i | 0 <= i < |List(s, kind, since, limit)| ensures List(s, kind, since, limit)[i].digests != [] {
      assert List(s, kind, since, limit)[i] in List(s, kind, since, limit);
    }
  }

  /** One list request: its page is saved, and the time reached is recorded unless the page is short. */
  method DownloadPage(dir: Directory, s: Store, kind: Kind, since: Time, batchSize: int, ghost disk0: Disk,
                      ghost before: iset<Disk>, ghost full: seq<Entry>, ghost got: seq<Entry>, ghost start: Time)
    returns (results: seq<Entry>, latest: Time)
    requires dir.pending == [] && since == Last(got, start) && got + List(s, kind, since, batchSize) <= full
    requires Running(disk0, dir.Now(), before, dir.crashes, full, got, start)
    requires dir.latest == disk0.latest || dir.latest == Some(Last(got, start))
    modifies dir
    ensures results == List(s, kind, since, batchSize) && latest == Last(got + results, start)
    ensures dir.pending == [] && Running(disk0, dir.Now(), before, dir.crashes, full, got + results, start)
    ensures |results| >= batchSize ==> dir.latest == Some(latest)
  {
    results := List(s, kind, since, batchSize);
    ListedHaveDigests(s, kind, since, batchSize);
    ghost var was, crashes := dir.Now(), dir.crashes;
    WritePage(dir, results);
    PageSaved(disk0, was, dir.Now(), before, crashes, dir.crashes, full, got, results, start);
    latest := since;
    if results != [] {
      latest := results[|results| - 1].createdAt;
    }
    LastOfBoth(got, results, start);
    if |results| >= batchSize {
      LatestRecorded(disk0, dir.Now(), before, dir.crashes, full, got + results, start);
      dir.WriteLatest(latest);
    }
  }

  /** What a run leaves of one directory, crashes included. */
  ghost predicate RanOver(disk0: Disk, disk: Disk, before: iset<Disk>, crashes: iset<Disk>, states: seq<Store>,
                          kind: Kind, start: Time, limit: int) {
    && disk == Downloaded(disk0, states, kind, start, limit)
    && OnlyMidway(before, crashes, disk0, Pages(states, kind, start, limit).0, start)
  }

  lemma NoneToCome(full: seq<Entry>, ended: bool, got: seq<Entry>, ok: bool, states: seq<Store>, n: nat, kind: Kind,
                   limit: int, start: Time)
    requires ToCome(full, ended, got, ok, states, n, kind, limit, start) && (ok || n == |states|)
    ensures full == got && ended == ok
  {
    if !ok {
      assert states[n..] == [];
      JoinsInAnyOrder(got, [], []);
    }
  }

  /**
   The loop of a run: page after page until one is short, or a request fails. The ghost parameters are what
   the run gets and whether it ends.
  */
  method DownloadPages(dir: Directory, states: seq<Store>, kind: Kind, since: Time, batchSize: int,
                       ghost full: seq<Entry>, ghost ended: bool, ghost disk0: Disk, ghost before: iset<Disk>)
    returns (ok: bool, latest: Time)
    requires dir.pending == [] && dir.Now() == disk0
    requires ToCome(full, ended, [], false, states, 0, kind, batchSize, since)
    requires Running(disk0, disk0, before, dir.crashes, full, [], since)
    modifies dir
    ensures ok == ended && latest == Last(full, since)
    ensures Running(disk0, dir.Now(), before, dir.crashes, full, full, since)
    ensures dir.pending == []
    ensures !ok ==> dir.latest == if states == [] then disk0.latest else Some(latest)
  {
    ghost var got: seq<Entry> := [];
    latest := since;
    var n := 0;
    ok := false;
    while n < |states| && !ok
      invariant n <= |states| && latest == Last(got, since) && dir.pending == []
      invariant ToCome(full, ended, got, ok, states, n, kind, batchSize, since)
      invariant Running(disk0, dir.Now(), before, dir.crashes, full, got, since)
      invariant !ok ==> dir.latest == if n == 0 then disk0.latest else Some(latest)
    {
      NextRequest(full, ended, got, states, n, kind, batchSize, since);
      var results;
      results, latest := DownloadPage(dir, states[n], kind, latest, batchSize, disk0, before, full, got, since);
      n := n + 1;
      got := got + results;
      ok := |results| < batchSize;
    }
    NoneToCome(full, ended, got, ok, states, n, kind, batchSize, since);
  }

  /**
   Downloads one type, when the n-th list request meets the server in `states[n]`; a request after the
   last state fails. The disk ends up as the specification says, whether or not the run ends, and every
   crash on the way leaves a state of this run.
  */
  method Download(dir: Directory, states: seq<Store>, kind: Kind, since: Time, fromLatest: bool, batchSize: int)
    returns (ok: bool)
    requires dir.pending == []
    modifies dir
    ensures var start := StartOf(old(dir.Now()), since, fromLatest);
            && ok == Pages(states, kind, start, batchSize).1
            && RanOver(old(dir.Now()), dir.Now(), old(dir.crashes), dir.crashes, states, kind, start, batchSize)
    ensures dir.pending == []
  {
    ghost var disk0, before := dir.Now(), dir.crashes;
    dir.Open();
    var latest := since;
    if fromLatest && dir.latest.Some? {
      latest := dir.latest.value;
    }
    ghost var start := latest;
    ghost var (got, ended) := Pages(states, kind, start, batchSize);
    AllToCome(states, kind, batchSize, start);
    NothingGotYet(disk0, before, got, start);
    ok, latest := DownloadPages(dir, states, kind, latest, batchSize, got, ended, disk0, before);
    if ok {
      LatestRecorded(disk0, dir.Now(), before, dir.crashes, got, got, start);
      dir.WriteLatest(latest);
    }
  }

  // ---------- downloading all types ----------

  const TOPOLOGICAL_ORDER: seq<Kind> := [Blob, Bottle, Manifest, Event]

  /** The run over the i-th type ends with a short page. */
  predicate Ends(disks: seq<Disk>, runs: Kind -> seq<Store>, since: Time, fromLatest: bool, limit: int, i: nat)
    requires i < |disks| == 4
  {
    var kind := TOPOLOGICAL_ORDER[i];
    Pages(runs(kind), kind, StartOf(disks[i], since, fromLatest), limit).1
  }

  /** The run over the i-th type has taken place. */
  ghost predicate Visited(disks: seq<Disk>, disk: Disk, before: iset<Disk>, crashes: iset<Disk>,
                          runs: Kind -> seq<Store>, since: Time, fromLatest: bool, limit: int, i: nat)
    requires i < |disks| == 4
  {
    var kind := TOPOLOGICAL_ORDER[i];
    RanOver(disks[i], disk, before, crashes, runs(kind), kind, StartOf(disks[i], since, fromLatest), limit)
  }

  /** The types from the i-th one on have run, and all of them ended, except perhaps that one. */
  ghost predicate TypesDone(disks: seq<Disk>, before: seq<iset<Disk>>, after: seq<Disk>, crashes: seq<iset<Disk>>,
                            runs: Kind -> seq<Store>, since: Time, fromLatest: bool, limit: int, i: nat, ok: bool)
    requires |disks| == |before| == |after| == |crashes| == 4 && i <= 4
  {
    && (forall j: nat | i < j < 4 :: Ends(disks, runs, since, fromLatest, limit, j))
    && (if i < 4 then ok == Ends(disks, runs, since, fromLatest, limit, i) else ok)
    && (forall j: nat | j < i :: after[j] == disks[j] && crashes[j] == before[j])
    && (forall j: nat | i <= j < 4 ::
         Visited(disks, after[j], before[j], crashes[j], runs, since, fromLatest, limit, j))
  }

  lemma OneMoreType(disks: seq<Disk>, before: seq<iset<Disk>>, after: seq<Disk>, crashes: seq<iset<Disk>>,
                    runs: Kind -> seq<Store>, since: Time, fromLatest: bool, limit: int, i: nat, disk: Disk,
                    crashed: iset<Disk>)
    requires |disks| == |before| == |after| == |crashes| == 4 && i < 4
    requires TypesDone(disks, before, after, crashes, runs, since, fromLatest, limit, i + 1, true)
    requires Visited(disks, disk, before[i], crashed, runs, since, fromLatest, limit, i)
    ensures TypesDone(disks, before, after[i := disk], crashes[i := crashed], runs, since, fromLatest, limit, i,
                      Ends(disks, runs, since, fromLatest, limit, i))
  {
  }

  method DownloadType(dir: Directory, ghost disks: seq<Disk>, runs: Kind -> seq<Store>, since: Time, fromLatest: bool,
                      batchSize: int, i: nat)
    returns (ok: bool)
    requires i < |disks| == 4 && dir.Now() == disks[i] && dir.pending == []
    modifies dir
    ensures ok == Ends(disks, runs, since, fromLatest, batchSize, i) && dir.pending == []
    ensures Visited(disks, dir.Now(), old(dir.crashes), dir.crashes, runs, since, fromLatest, batchSize, i)
  {
    var objType := TOPOLOGICAL_ORDER[i];
    ok := Download(dir, runs(objType), objType, since, fromLatest, batchSize);
  }

  /** The directories are these, and nothing is being written. */
  ghost predicate Snapshots(dirs: seq<Directory>, after: seq<Disk>, crashes: seq<iset<Disk>>)
    reads dirs
  {
    && |dirs| == |after| == |crashes| == 4
    && forall j: nat | j < 4 :: dirs[j].pending == [] && dirs[j].Now() == after[j] && dirs[j].crashes == crashes[j]
  }

  /** One more type, with the snapshots of the directories before and after it. */
  method DownloadNext(dirs: seq<Directory>, ghost disks: seq<Disk>, runs: Kind -> seq<Store>, since: Time,
                      fromLatest: bool, batchSize: int, i: nat, ghost before: seq<iset<Disk>>,
                      ghost after: seq<Disk>, ghost crashes: seq<iset<Disk>>)
    returns (ok: bool, ghost after': seq<Disk>, ghost crashes': seq<iset<Disk>>)
    requires i < 4 && Snapshots(dirs, after, crashes) && forall i, j | 0 <= i < j < 4 :: dirs[i] != dirs[j]
    requires |disks| == |before| == 4
    requires TypesDone(disks, before, after, crashes, runs, since, fromLatest, batchSize, i + 1, true)
    requires after[i] == disks[i] && crashes[i] == before[i]
    modifies dirs
    ensures Snapshots(dirs, after', crashes')
    ensures TypesDone(disks, before, after', crashes', runs, since, fromLatest, batchSize, i, ok)
  {
    ok := DownloadType(dirs[i], disks, runs, since, fromLatest, batchSize, i);
    ghost var disk, crashed := dirs[i].Now(), dirs[i].crashes;
    OneMoreType(disks, before, after, crashes, runs, since, fromLatest, batchSize, i, disk, crashed);
    after', crashes' := after[i := disk], crashes[i := crashed];
  }

  /**
   Downloads every type before the types it depends on. It succeeds exactly when all runs end, and stops at
   the first run that does not: the types from that one on have run, and the others are untouched.
  */
  method DownloadAll(dirs: seq<Directory>, ghost disks: seq<Disk>, runs: Kind -> seq<Store>, since: Time,
                     fromLatest: bool, batchSize: int)
    returns (ok: bool, ghost last: nat, ghost after: seq<Disk>)
    requires |dirs| == |disks| == 4 && forall i, j | 0 <= i < j < 4 :: dirs[i] != dirs[j]
    requires forall i | 0 <= i < 4 :: dirs[i].Now() == disks[i] && dirs[i].pending == []
    modifies dirs
    ensures last < 4 && (forall i: nat | last < i < 4 :: Ends(disks, runs, since, fromLatest, batchSize, i))
    ensures ok == Ends(disks, runs, since, fromLatest, batchSize, last) && (ok ==> last == 0)
    ensures |after| == 4 && forall i: nat | i < 4 :: dirs[i].Now() == after[i] && dirs[i].pending == []
    ensures forall i: nat | i < last :: after[i] == disks[i] && dirs[i].crashes == old(dirs[i].crashes)
    ensures forall i: nat | last <= i < 4 ::
              Visited(disks, after[i], old(dirs[i].crashes), dirs[i].crashes, runs, since, fromLatest, batchSize, i)
  {
    ghost var before := [dirs[0].crashes, dirs[1].crashes, dirs[2].crashes, dirs[3].crashes];
    ghost var crashes := before;
    after := disks;
    var i := |TOPOLOGICAL_ORDER|;
    ok := true;
    while i > 0 && ok
      invariant 0 <= i <= 4 && Snapshots(dirs, after, crashes)
      invariant TypesDone(disks, before, after, crashes, runs, since, fromLatest, batchSize, i, ok)
    {
      i := i - 1;
      ok, after, crashes := DownloadNext(dirs, disks, runs, since, fromLatest, batchSize, i, before, after, crashes);
    }
    last := i;
  }
}

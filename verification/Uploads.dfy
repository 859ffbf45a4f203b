/**
 Uploading what a download left on disk, line by line and file by file, and the two commands together.
*/
module Uploads {
  import opened Types
  import opened Store
  import opened Invariant
  import opened Catalog
  import opened Submissions
  import opened Listing
  import opened Restore
  import opened Server
  import opened Mirror
  import opened Crashes

  // ---------- what an upload submits ----------

  /** What is submitted up to the first thing that cannot be read, and whether everything can be. */
  datatype Script = Script(asks: seq<Ask>, readable: bool)

  const EMPTY_SCRIPT := Script([], true)

  function Then(s: Script, t: Script): Script {
    if s.readable then Script(s.asks + t.asks, t.readable) else s
  }

  function Chain(scripts: seq<Script>): Script {
    if scripts == [] then EMPTY_SCRIPT else Then(Chain(scripts[..|scripts| - 1]), scripts[|scripts| - 1])
  }

  /** The effect of a script, and whether it ran to its end. */
  function RunScript(w: World, c: Catalog, s: Script, skip: bool): (Catalog, bool) {
    var (c', error) := SubmitSkipping(w, c, s.asks, skip);
    (c', error.None? && s.readable)
  }

  /** One algorithm of a line: it must have an implementation, and the data file must be there. */
  function AlgorithmScript(w: World, kind: Kind, file: Option<Bytes>, alg: Algorithm): Script {
    if alg.Available() && file.Some? then Script([Ask(kind, w.DigestOf(alg, file.value), file.value)], true)
    else Script([], false)
  }

  function AlgorithmScripts(w: World, kind: Kind, file: Option<Bytes>, algs: seq<Algorithm>): seq<Script> {
    seq(|algs|, i requires 0 <= i < |algs| => AlgorithmScript(w, kind, file, algs[i]))
  }

  function FileOf(files: map<Digest, Bytes>, name: Digest): Option<Bytes> {
    if name in files then Some(files[name]) else None
  }

  /** The file of a record is submitted once under each of its algorithms. */
  function RecordScript(w: World, kind: Kind, files: map<Digest, Bytes>, record: Record): Script {
    Chain(AlgorithmScripts(w, kind, FileOf(files, record.file), record.algs))
  }

  /** A line can be read to its end if it is whole and has an algorithm at all. */
  predicate HasEnd(line: Line) {
    line.Whole? && line.record.algs != []
  }

  /** A line is submitted as far as it can be read. */
  function LineScript(w: World, kind: Kind, files: map<Digest, Bytes>, line: Line): Script {
    Then(RecordScript(w, kind, files, line.record), Script([], HasEnd(line)))
  }

  function LineScripts(w: World, kind: Kind, files: map<Digest, Bytes>, lines: seq<Line>): seq<Script> {
    seq(|lines|, i requires 0 <= i < |lines| => LineScript(w, kind, files, lines[i]))
  }

  /** The lines as they read, a torn one at the end included. */
  function AllLines(index: IndexFile): seq<Line> {
    index.lines + if index.tail.Some? then [index.tail.value.Read()] else []
  }

  function IndexScript(w: World, kind: Kind, disk: Disk): Script {
    Chain(LineScripts(w, kind, disk.files, AllLines(disk.index)))
  }

  /** All directories, in topological order. */
  function DirectoryScripts(w: World, disks: seq<Disk>): seq<Script>
    requires |disks| == 4
  {
    seq(4, i requires 0 <= i < 4 => IndexScript(w, TOPOLOGICAL_ORDER[i], disks[i]))
  }

  /** A line without an algorithm submits nothing and stops the run, and so does one that cannot be read on. */
  lemma StoppingLines(w: World, kind: Kind, files: map<Digest, Bytes>, file: Digest, record: Record)
    ensures LineScript(w, kind, files, Whole(Record(file, []))) == Script([], false)
    ensures LineScript(w, kind, files, Garbled(Record(file, []))) == Script([], false)
    ensures !LineScript(w, kind, files, Garbled(record)).readable
    ensures record.algs != [] ==>
              LineScript(w, kind, files, Whole(record)).readable == RecordScript(w, kind, files, record).readable
    ensures LineScript(w, kind, files, Garbled(record)).asks == RecordScript(w, kind, files, record).asks
    ensures LineScript(w, kind, files, Whole(record)).asks == RecordScript(w, kind, files, record).asks
  {
    var asks := RecordScript(w, kind, files, record).asks;
    assert asks + [] == asks;
    assert RecordScript(w, kind, files, Record(file, [])) == Script([], true);
  }

  lemma ThenRuns(w: World, c: Catalog, s: Script, t: Script, skip: bool)
    ensures var (c', ok) := RunScript(w, c, s, skip);
            RunScript(w, c, Then(s, t), skip) == if ok then RunScript(w, c', t, skip) else (c', false)
  {
    SkippingSplits(w, c, s.asks, t.asks, skip);
  }

  /** Where a chain stops, it has stopped for good. */
  lemma {:induction false} ChainStops(w: World, c: Catalog, scripts: seq<Script>, n: nat, skip: bool)
    requires n <= |scripts| && !RunScript(w, c, Chain(scripts[..n]), skip).1
    ensures RunScript(w, c, Chain(scripts), skip) == RunScript(w, c, Chain(scripts[..n]), skip)
  {
    if n == |scripts| {
      assert scripts[..n] == scripts;
    } else {
      var init := scripts[..|scripts| - 1];
      assert init[..n] == scripts[..n];
      ChainStops(w, c, init, n, skip);
      ThenRuns(w, c, Chain(init), scripts[|scripts| - 1], skip);
    }
  }

  /** The next script of a chain runs on what the scripts before it led to, and ends the run if it stops. */
  lemma ChainNext(w: World, c0: Catalog, c: Catalog, scripts: seq<Script>, i: nat, skip: bool)
    requires i < |scripts| && RunScript(w, c0, Chain(scripts[..i]), skip) == (c, true)
    ensures var next := RunScript(w, c, scripts[i], skip);
            && RunScript(w, c0, Chain(scripts[..i + 1]), skip) == next
            && (!next.1 ==> RunScript(w, c0, Chain(scripts), skip) == next)
  {
    var upTo := scripts[..i + 1];
    assert upTo[..i] == scripts[..i] && upTo[i] == scripts[i];
    ThenRuns(w, c0, Chain(scripts[..i]), scripts[i], skip);
    if !RunScript(w, c, scripts[i], skip).1 {
      ChainStops(w, c0, scripts, i + 1, skip);
    }
  }

  // ---------- what was downloaded can be read ----------

  lemma {:induction false} ReadableChain(w: World, kind: Kind, data: Bytes, algs: seq<Algorithm>)
    requires forall alg | alg in algs :: alg.Available()
    ensures Chain(AlgorithmScripts(w, kind, Some(data), algs))
         == Script(seq(|algs|, i requires 0 <= i < |algs| => Ask(kind, w.DigestOf(algs[i], data), data)), true)
  {
    var scripts := AlgorithmScripts(w, kind, Some(data), algs);
    if algs != [] {
      var n := |algs| - 1;
      ReadableChain(w, kind, data, algs[..n]);
      assert scripts[..n] == AlgorithmScripts(w, kind, Some(data), algs[..n]);
      assert algs[n] in algs;
    }
  }

  lemma SavedLine(w: World, kind: Kind, files: map<Digest, Bytes>, e: Entry)
    requires HonestEntry(w, e) && NameOf(e) in files && files[NameOf(e)] == e.data
    ensures LineScript(w, kind, files, Whole(RecordOf(e))) == Script(EntryAsks(kind, e), true)
  {
    var algs := RecordOf(e).algs;
    forall i | 0 <= i < |e.digests|
      ensures algs[i].Available() && w.DigestOf(algs[i], e.data) == e.digests[i]
    {
      assert e.digests[i] in e.digests;
    }
    ReadableChain(w, kind, e.data, algs);
    assert RecordScript(w, kind, files, RecordOf(e)).asks == EntryAsks(kind, e);
  }

  /** An index of records that are saved is uploaded as those records, and all of it can be read. */
  lemma {:induction false} UploadsWhatWasGot(w: World, kind: Kind, files: map<Digest, Bytes>, got: seq<Entry>)
    requires AreHonest(w, got)
    requires forall i | 0 <= i < |got| :: NameOf(got[i]) in files && files[NameOf(got[i])] == got[i].data
    ensures Chain(LineScripts(w, kind, files, Lines(RecordsOf(got)))) == Script(AsksOf(kind, got), true)
  {
    if got != [] {
      var init, last := got[..|got| - 1], got[|got| - 1];
      assert got == init + [last];
      UploadsWhatWasGot(w, kind, files, init);
      var scripts := LineScripts(w, kind, files, Lines(RecordsOf(got)));
      assert scripts[..|scripts| - 1] == LineScripts(w, kind, files, Lines(RecordsOf(init)));
      SavedLine(w, kind, files, last);
    }
  }

  // ---------- uploading ----------

  /** The server an upload goes to: its processor versions, and its clock at the n-th request. */
  datatype Target = Target(version: Kind -> nat, clock: nat -> Time)

  /** No two byte strings collide that are submitted, those on disk included. */
  ghost predicate Submittable(w: World, files: map<Digest, Bytes>) {
    w.NoCollisions() && forall d | d in files :: w.universe(files[d])
  }

  /** One PUT of an upload. */
  method PutFile(w: World, db: Database, target: Target, n: nat, kind: Kind, alg: Algorithm, data: Bytes)
    returns (answer: Response)
    requires w.NoCollisions() && Valid(w, db.State()) && w.universe(data) && alg.Available()
    modifies db
    ensures Valid(w, db.State())
    ensures Submit(w, Abs(old(db.State())), kind, w.DigestOf(alg, data), data) == (Abs(db.State()), answer)
  {
    var r := Request(kind, data, ByDigest(w.DigestOf(alg, data)), target.version(kind), target.clock(n));
    PutRefines(w, db.State(), r);
    PutValid(w, db.State(), r);
    answer := db.PutData(w, r);
  }

  lemma OneAsk(w: World, c: Catalog, a: Ask, skip: bool)
    ensures var (c', answer) := Submit(w, c, a.kind, a.digest, a.bytes);
            SubmitSkipping(w, c, [a], skip)
            == (c', if answer.Failed? && !(skip && answer.error.Missing?) then Some(answer.error) else None)
  {
    assert [a][1..] == [];
  }

  /** Uploads the data file of one line under one algorithm. */
  method UploadAlgorithm(w: World, files: map<Digest, Bytes>, db: Database, target: Target, n: nat, kind: Kind,
                         file: Digest, alg: Algorithm, skipInvalid: bool)
    returns (ok: bool)
    requires Submittable(w, files) && Valid(w, db.State())
    modifies db
    ensures Valid(w, db.State())
    ensures (Abs(db.State()), ok)
         == RunScript(w, Abs(old(db.State())), AlgorithmScript(w, kind, FileOf(files, file), alg), skipInvalid)
  {
    ok := false;
    if alg.Available() && file in files {
      OneAsk(w, Abs(db.State()), Ask(kind, w.DigestOf(alg, files[file]), files[file]), skipInvalid);
      var answer := PutFile(w, db, target, n, kind, alg, files[file]);
      ok := !(answer.Failed? && !(answer.error.Missing? && skipInvalid));
    }
  }

  /** Uploads the data file of one line under each of its algorithms. */
  method UploadRecord(w: World, files: map<Digest, Bytes>, db: Database, target: Target, n: nat, kind: Kind,
                      record: Record, skipInvalid: bool)
    returns (ok: bool)
    requires Submittable(w, files) && Valid(w, db.State())
    modifies db
    ensures Valid(w, db.State())
    ensures (Abs(db.State()), ok)
         == RunScript(w, Abs(old(db.State())), RecordScript(w, kind, files, record), skipInvalid)
  {
    ghost var c0 := Abs(db.State());
    ghost var scripts := AlgorithmScripts(w, kind, FileOf(files, record.file), record.algs);
    for i := 0 to |record.algs|
      invariant Valid(w, db.State())
      invariant RunScript(w, c0, Chain(scripts[..i]), skipInvalid) == (Abs(db.State()), true)
    {
      ChainNext(w, c0, Abs(db.State()), scripts, i, skipInvalid);
      var done := UploadAlgorithm(w, files, db, target, n + i, kind, record.file, record.algs[i], skipInvalid);
      if !done {
        return false;
      }
    }
    assert scripts[..|record.algs|] == scripts;
    ok := true;
  }

  /** Uploads one line as far as it can be read; a line that has no end stops the upload. */
  method UploadLine(w: World, files: map<Digest, Bytes>, db: Database, target: Target, n: nat, kind: Kind, line: Line,
                    skipInvalid: bool)
    returns (ok: bool)
    requires Submittable(w, files) && Valid(w, db.State())
    modifies db
    ensures Valid(w, db.State())
    ensures (Abs(db.State()), ok) == RunScript(w, Abs(old(db.State())), LineScript(w, kind, files, line), skipInvalid)
  {
    StopsAtItsEnd(w, Abs(db.State()), RecordScript(w, kind, files, line.record), HasEnd(line), skipInvalid);
    ok := UploadRecord(w, files, db, target, n, kind, line.record, skipInvalid);
    ok := ok && HasEnd(line);
  }

  lemma StopsAtItsEnd(w: World, c: Catalog, s: Script, hasEnd: bool, skip: bool)
    ensures var (c', ok) := RunScript(w, c, s, skip);
            RunScript(w, c, Then(s, Script([], hasEnd)), skip) == (c', ok && hasEnd)
  {
    assert s.asks + [] == s.asks;
  }

  /** Uploads the lines of one index file, and stops at the first error that is not to be skipped. */
  method Upload(w: World, dir: Directory, db: Database, target: Target, kind: Kind, skipInvalid: bool)
    returns (ok: bool)
    requires Submittable(w, dir.files) && Valid(w, db.State())
    modifies db
    ensures Valid(w, db.State())
    ensures (Abs(db.State()), ok) == RunScript(w, Abs(old(db.State())), IndexScript(w, kind, dir.Now()), skipInvalid)
  {
    var lines := AllLines(dir.index);
    ghost var c0, scripts := Abs(db.State()), LineScripts(w, kind, dir.files, lines);
    var sent: nat := 0;
    for i := 0 to |lines|
      invariant Valid(w, db.State())
      invariant RunScript(w, c0, Chain(scripts[..i]), skipInvalid) == (Abs(db.State()), true)
    {
      ChainNext(w, c0, Abs(db.State()), scripts, i, skipInvalid);
      var done := UploadLine(w, dir.files, db, target, sent, kind, lines[i], skipInvalid);
      if !done {
        return false;
      }
      sent := sent + |lines[i].record.algs|;
    }
    assert scripts[..|lines|] == scripts;
    ok := true;
  }

  /** Uploads every type before the types that depend on it. */
  method UploadAll(w: World, dirs: seq<Directory>, ghost disks: seq<Disk>, db: Database, target: Target,
                   skipInvalid: bool)
    returns (ok: bool)
    requires Valid(w, db.State())
    requires |dirs| == |disks| == 4
    requires forall i | 0 <= i < 4 :: disks[i] == dirs[i].Now() && Submittable(w, dirs[i].files)
    modifies db
    ensures Valid(w, db.State())
    ensures (Abs(db.State()), ok) == RunScript(w, Abs(old(db.State())), Chain(DirectoryScripts(w, disks)), skipInvalid)
  {
    ghost var c0, scripts := Abs(db.State()), DirectoryScripts(w, disks);
    for i := 0 to |TOPOLOGICAL_ORDER|
      invariant Valid(w, db.State())
      invariant RunScript(w, c0, Chain(scripts[..i]), skipInvalid) == (Abs(db.State()), true)
    {
      ChainNext(w, c0, Abs(db.State()), scripts, i, skipInvalid);
      var done := Upload(w, dirs[i], db, target, TOPOLOGICAL_ORDER[i], skipInvalid);
      if !done {
        return false;
      }
    }
    assert scripts[..4] == scripts;
    ok := true;
  }

  // ---------- both commands ----------

  /** Uploading the directory submits what one run over these states got. */
  ghost predicate Carries(w: World, disk: Disk, states: seq<Store>, kind: Kind, start: Time, limit: int) {
    && Pages(states, kind, start, limit).1
    && IndexScript(w, kind, disk) == Script(AsksOf(kind, Pages(states, kind, start, limit).0), true)
  }

  /** A directory that was filled by one from-scratch download can be uploaded, and carries what was got. */
  lemma UploadsTheType(w: World, states: seq<Store>, kind: Kind, start: Time, limit: int)
    requires w.NoCollisions() && (forall n | 0 <= n < |states| :: Valid(w, states[n]))
    requires Pages(states, kind, start, limit).1
    ensures var disk := Downloaded(BLANK, states, kind, start, limit);
            Carries(w, disk, states, kind, start, limit) && Submittable(w, disk.files)
  {
    var got := Pages(states, kind, start, limit).0;
    var disk := Downloaded(BLANK, states, kind, start, limit);
    PagesAreHonest(w, states, kind, start, limit);
    forall i | 0 <= i < |got| ensures NameOf(got[i]) in disk.files && disk.files[NameOf(got[i])] == got[i].data {
      WrittenData(w, map[], got, i);
    }
    WritesSubmittable(w, map[], got);
    assert AllLines(disk.index) == Lines(RecordsOf(got));
    UploadsWhatWasGot(w, kind, disk.files, got);
  }

  lemma {:induction false} WritesSubmittable(w: World, files: map<Digest, Bytes>, got: seq<Entry>)
    requires Submittable(w, files) && AreHonest(w, got)
    ensures Submittable(w, WriteFiles(files, got))
  {
    if got != [] {
      assert got[|got| - 1] in got;
      WritesSubmittable(w, files, got[..|got| - 1]);
    }
  }

  lemma ChainGrows(scripts: seq<Script>, n: nat, asks: seq<Ask>)
    requires n < |scripts| && scripts[n].readable && Chain(scripts[..n]) == Script(asks, true)
    ensures Chain(scripts[..n + 1]) == Script(asks + scripts[n].asks, true)
  {
    assert scripts[..n + 1][..n] == scripts[..n];
  }

  lemma FourInOrder(a: seq<Ask>, b: seq<Ask>, c: seq<Ask>, d: seq<Ask>)
    ensures [] + a + b + c + d == a + (b + (c + d))
  {
  }

  lemma ChainOfFour(scripts: seq<Script>)
    requires |scripts| == 4 && forall i | 0 <= i < 4 :: scripts[i].readable
    ensures Chain(scripts) == Script(scripts[0].asks + (scripts[1].asks + (scripts[2].asks + scripts[3].asks)), true)
  {
    ChainGrows(scripts, 0, []);
    ChainGrows(scripts, 1, [] + scripts[0].asks);
    ChainGrows(scripts, 2, [] + scripts[0].asks + scripts[1].asks);
    ChainGrows(scripts, 3, [] + scripts[0].asks + scripts[1].asks + scripts[2].asks);
    FourInOrder(scripts[0].asks, scripts[1].asks, scripts[2].asks, scripts[3].asks);
    assert scripts[..4] == scripts;
  }

  /**
   Four such directories submit exactly the snapshot when they are uploaded, so what is proved of
   submitting a snapshot holds of the two commands.
  */
  lemma UploadsTheSnapshot(w: World, disks: seq<Disk>, runs: Kind -> seq<Store>, start: Time, limit: int)
    requires |disks| == 4
    requires forall i | 0 <= i < 4 ::
               Carries(w, disks[i], runs(TOPOLOGICAL_ORDER[i]), TOPOLOGICAL_ORDER[i], start, limit)
    ensures AllEnded(runs, start, limit)
    ensures Chain(DirectoryScripts(w, disks)) == Script(SnapshotAsks(SnapshotOf(runs, start, limit)), true)
  {
    assert Carries(w, disks[0], runs(Blob), Blob, start, limit)
           && Carries(w, disks[1], runs(Bottle), Bottle, start, limit);
    assert Carries(w, disks[2], runs(Manifest), Manifest, start, limit)
           && Carries(w, disks[3], runs(Event), Event, start, limit);
    EveryTypeEnds(runs, start, limit);
    ChainOfFour(DirectoryScripts(w, disks));
  }

  lemma EveryTypeEnds(runs: Kind -> seq<Store>, start: Time, limit: int)
    requires Pages(runs(Blob), Blob, start, limit).1 && Pages(runs(Bottle), Bottle, start, limit).1
    requires Pages(runs(Manifest), Manifest, start, limit).1 && Pages(runs(Event), Event, start, limit).1
    ensures AllEnded(runs, start, limit)
  {
    forall kind: Kind ensures Pages(runs(kind), kind, start, limit).1 {
      assert kind.Blob? || kind.Bottle? || kind.Manifest? || kind.Event?;
    }
  }

  /** What a from-scratch download of all types leaves in empty directories, when all its runs end. */
  ghost predicate AllDownloaded(disks: seq<Disk>, runs: Kind -> seq<Store>, start: Time, limit: int) {
    && |disks| == 4
    && forall i: nat | i < 4 ::
         disks[i] == Downloaded(BLANK, runs(TOPOLOGICAL_ORDER[i]), TOPOLOGICAL_ORDER[i], start, limit)
  }

  /** One empty directory per type. */
  method EmptyDirectories() returns (dirs: seq<Directory>)
    ensures |dirs| == 4 && forall i: nat | i < 4 :: fresh(dirs[i])
    ensures forall i, j | 0 <= i < j < 4 :: dirs[i] != dirs[j]
    ensures forall i: nat | i < 4 :: dirs[i].Now() == BLANK && dirs[i].pending == []
  {
    var d0 := new Directory();
    var d1 := new Directory();
    var d2 := new Directory();
    var d3 := new Directory();
    dirs := [d0, d1, d2, d3];
  }

  /** A from-scratch download of all types into an empty directory. */
  method DownloadFromScratch(runs: Kind -> seq<Store>, start: Time, limit: int)
    returns (ok: bool, dirs: seq<Directory>, ghost disks: seq<Disk>)
    ensures ok <==> AllEnded(runs, start, limit)
    ensures |dirs| == |disks| == 4
    ensures forall i: nat | i < 4 :: disks[i] == dirs[i].Now()
    ensures ok ==> AllDownloaded(disks, runs, start, limit)
  {
    dirs := EmptyDirectories();
    ghost var blank := seq(4, _ => BLANK);
    ghost var last;
    ok, last, disks := DownloadAll(dirs, blank, runs, start, false, limit);
    AllTypesEnd(blank, runs, start, limit, last);
  }

  /** The upload of such a directory submits the snapshot. */
  method UploadSnapshot(w: World, dirs: seq<Directory>, ghost disks: seq<Disk>, ghost runs: Kind -> seq<Store>,
                        ghost start: Time, ghost limit: int, db: Database, target: Target, skipInvalid: bool)
    returns (ok: bool)
    requires w.NoCollisions() && Valid(w, db.State())
    requires forall kind, n | 0 <= n < |runs(kind)| :: Valid(w, runs(kind)[n])
    requires |dirs| == 4 && AllDownloaded(disks, runs, start, limit) && AllEnded(runs, start, limit)
    requires forall i: nat | i < 4 :: disks[i] == dirs[i].Now()
    modifies db
    ensures Valid(w, db.State())
    ensures var asks := SnapshotAsks(SnapshotOf(runs, start, limit));
            var (c, error) := SubmitSkipping(w, Abs(old(db.State())), asks, skipInvalid);
            (Abs(db.State()), ok) == (c, error.None?)
  {
    AllCarry(w, disks, runs, start, limit);
    UploadsTheSnapshot(w, disks, runs, start, limit);
    ok := UploadAll(w, dirs, disks, db, target, skipInvalid);
  }

  /**
   The two commands after each other: a from-scratch download of one server into an empty directory, and
   its upload to another. The download succeeds exactly when all its runs end; the other server then ends up
   with what submitting the snapshot leads to, and the upload succeeds exactly when nothing stops it. Without
   skipping that is when the whole snapshot is accepted.
  */
  method Copy(w: World, runs: Kind -> seq<Store>, start: Time, limit: int, db: Database, target: Target,
              skipInvalid: bool)
    returns (downloaded: bool, uploaded: bool)
    requires w.NoCollisions() && Valid(w, db.State())
    requires forall kind, n | 0 <= n < |runs(kind)| :: Valid(w, runs(kind)[n])
    modifies db
    ensures Valid(w, db.State())
    ensures downloaded <==> AllEnded(runs, start, limit)
    ensures !downloaded ==> !uploaded && db.State() == old(db.State())
    ensures downloaded ==>
              var asks := SnapshotAsks(SnapshotOf(runs, start, limit));
              var (c, error) := SubmitSkipping(w, Abs(old(db.State())), asks, skipInvalid);
              Abs(db.State()) == c && (uploaded <==> error.None?)
    ensures downloaded && !skipInvalid ==>
              var asks := SnapshotAsks(SnapshotOf(runs, start, limit));
              && Abs(db.State()) == SubmitAll(w, Abs(old(db.State())), asks).0
              && (uploaded <==> Accepts(w, Abs(old(db.State())), asks))
  {
    if !skipInvalid {
      SkippingNothing(w, Abs(db.State()), SnapshotAsks(SnapshotOf(runs, start, limit)), false);
    }
    uploaded := false;
    var dirs;
    ghost var disks;
    downloaded, dirs, disks := DownloadFromScratch(runs, start, limit);
    if downloaded {
      uploaded := UploadSnapshot(w, dirs, disks, runs, start, limit, db, target, skipInvalid);
    }
  }

  /** The directories that four from-scratch runs leave can be uploaded, and carry what was got. */
  lemma AllCarry(w: World, disks: seq<Disk>, runs: Kind -> seq<Store>, start: Time, limit: int)
    requires w.NoCollisions() && forall kind, n | 0 <= n < |runs(kind)| :: Valid(w, runs(kind)[n])
    requires AllDownloaded(disks, runs, start, limit) && AllEnded(runs, start, limit)
    ensures forall i: nat | i < 4 ::
              && Submittable(w, disks[i].files)
              && Carries(w, disks[i], runs(TOPOLOGICAL_ORDER[i]), TOPOLOGICAL_ORDER[i], start, limit)
  {
    forall i: nat | i < 4
      ensures Submittable(w, disks[i].files)
      ensures Carries(w, disks[i], runs(TOPOLOGICAL_ORDER[i]), TOPOLOGICAL_ORDER[i], start, limit)
    {
      UploadsTheType(w, runs(TOPOLOGICAL_ORDER[i]), TOPOLOGICAL_ORDER[i], start, limit);
    }
  }

  /** The last run to take place ends exactly when all do. */
  lemma AllTypesEnd(blank: seq<Disk>, runs: Kind -> seq<Store>, start: Time, limit: int, last: nat)
    requires |blank| == 4 && last < 4 && forall i: nat | i < 4 :: blank[i] == BLANK
    requires forall i: nat | last < i < 4 :: Ends(blank, runs, start, false, limit, i)
    requires Ends(blank, runs, start, false, limit, last) ==> last == 0
    ensures Ends(blank, runs, start, false, limit, last) <==> AllEnded(runs, start, limit)
  {
    if last == 0 && Ends(blank, runs, start, false, limit, 0) {
      assert Ends(blank, runs, start, false, limit, 1) && Ends(blank, runs, start, false, limit, 2);
      assert Ends(blank, runs, start, false, limit, 3);
      EveryTypeEnds(runs, start, limit);
    }
  }
}

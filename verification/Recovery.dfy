/**
 What the upload command makes of a directory that any number of killed and resumed downloads have left: how
 far it can be read, and that nothing that counts as saved is missing from what is submitted.
*/
module Recovery {
  import opened Types
  import opened Store
  import opened Invariant
  import opened Submissions
  import opened Listing
  import opened Restore
  import opened Mirror
  import opened Crashes
  import opened Uploads

  // ---------- the lines of a directory ----------

  ghost predicate IsRecordOf(w: World, files: map<Digest, Bytes>, record: Record, g: Entry) {
    HonestEntry(w, g) && record == RecordOf(g) && NameOf(g) in files
  }

  /** Some listed record has this line, and its data file is there, whatever is in it. */
  ghost predicate SoundRecord(w: World, files: map<Digest, Bytes>, record: Record) {
    exists g :: IsRecordOf(w, files, record, g)
  }

  /** Every whole line is that of a listed record. */
  ghost predicate LinesSound(w: World, disk: Disk) {
    forall i | 0 <= i < |disk.index.lines| && disk.index.lines[i].Whole? ::
      SoundRecord(w, disk.files, disk.index.lines[i].record)
  }

  lemma {:induction false} WrittenFilesStay(files0: map<Digest, Bytes>, full: seq<Entry>)
    ensures files0.Keys <= WriteFiles(files0, full).Keys
    ensures forall i | 0 <= i < |full| :: NameOf(full[i]) in WriteFiles(files0, full)
  {
    if full != [] {
      WrittenFilesStay(files0, full[..|full| - 1]);
    }
  }

  lemma FilesStay(files0: map<Digest, Bytes>, full: seq<Entry>, k: nat, files: map<Digest, Bytes>)
    requires FilesAt(files0, full, k, files)
    ensures files0.Keys <= files.Keys && forall i | 0 <= i < k :: NameOf(full[i]) in files
  {
    WrittenFilesStay(files0, full[..k]);
    forall i | 0 <= i < k ensures NameOf(full[i]) in files {
      assert full[..k][i] == full[i];
    }
  }

  /** The whole lines of an index behind which some records were appended. */
  lemma AppendedLines(f: IndexFile, records: seq<Record>)
    ensures var lines := Append(f, records).lines;
            && |lines| == |f.lines| + |records|
            && (forall i | 0 <= i < |f.lines| :: lines[i] == f.lines[i])
            && (forall i | |f.lines| <= i < |lines| ::
                  lines[i] == if i == |f.lines| && f.tail.Some? then f.tail.value.Glued()
                              else Whole(records[i - |f.lines|]))
  {
  }

  lemma LinesOfRun(disk0: Disk, d: Disk, full: seq<Entry>, start: Time, k: nat, n: nat, j: nat)
    requires MidwayAt(disk0, d, full, start, k, n, j)
    ensures var lines, lines0 := d.index.lines, disk0.index.lines;
            && |lines| == |lines0| + n
            && (forall i | 0 <= i < |lines0| :: lines[i] == lines0[i])
            && (forall i | |lines0| <= i < |lines| ::
                  lines[i] == if i == |lines0| && disk0.index.tail.Some? then disk0.index.tail.value.Glued()
                              else Whole(RecordOf(full[i - |lines0|])))
  {
    var records := RecordsOf(full[..k])[..n];
    AppendedLines(disk0.index, records);
    assert forall i | 0 <= i < n :: records[i] == RecordOf(full[i]);
  }

  lemma RunKeepsLinesSound(w: World, disk0: Disk, d: Disk, full: seq<Entry>, start: Time)
    requires LinesSound(w, disk0) && AreHonest(w, full) && Midway(disk0, d, full, start)
    ensures LinesSound(w, d)
  {
    var k: nat, n: nat, j: nat :| MidwayAt(disk0, d, full, start, k, n, j);
    LinesOfRun(disk0, d, full, start, k, n, j);
    FilesStay(disk0.files, full, k, d.files);
    var lines, lines0 := d.index.lines, disk0.index.lines;
    forall i | 0 <= i < |lines| && lines[i].Whole? ensures SoundRecord(w, d.files, lines[i].record) {
      if i < |lines0| {
        var g :| IsRecordOf(w, disk0.files, lines0[i].record, g);
        assert IsRecordOf(w, d.files, lines[i].record, g);
      } else {
        assert full[i - |lines0|] in full;
        assert IsRecordOf(w, d.files, lines[i].record, full[i - |lines0|]);
      }
    }
  }

  predicate AllWhole(lines: seq<Line>) {
    forall i | 0 <= i < |lines| :: lines[i].Whole?
  }

  /** The run that found this disk and left that one has appended a line behind a torn one. */
  predicate AppendsBehindTorn(disk: Disk, left: Disk) {
    disk.index.tail.Some? && |left.index.lines| > |disk.index.lines|
  }

  /** The lines are all whole after a run exactly if they were before and it appends none behind a torn one. */
  predicate KeepsWhole(disk: Disk, left: Disk) {
    AllWhole(left.index.lines) <==> AllWhole(disk.index.lines) && !AppendsBehindTorn(disk, left)
  }

  lemma WholeAfterRun(disk0: Disk, d: Disk, full: seq<Entry>, start: Time)
    requires Midway(disk0, d, full, start)
    ensures KeepsWhole(disk0, d)
  {
    var k: nat, n: nat, j: nat :| MidwayAt(disk0, d, full, start, k, n, j);
    LinesOfRun(disk0, d, full, start, k, n, j);
    var lines, lines0 := d.index.lines, disk0.index.lines;
    if AppendsBehindTorn(disk0, d) {
      assert !lines[|lines0|].Whole?;
    }
    if AllWhole(lines) {
      assert forall i | 0 <= i < |lines0| :: lines0[i] == lines[i];
    }
  }

  // ---------- what can be read of it ----------

  lemma {:induction false} ChainReadable(scripts: seq<Script>)
    ensures Chain(scripts).readable <==> forall i | 0 <= i < |scripts| :: scripts[i].readable
  {
    if scripts != [] {
      ChainReadable(scripts[..|scripts| - 1]);
      assert forall i | 0 <= i < |scripts| - 1 :: scripts[..|scripts| - 1][i] == scripts[i];
    }
  }

  /** Whatever comes before the first script that cannot be read is submitted. */
  lemma {:induction false} ChainContains(scripts: seq<Script>, i: nat, a: Ask)
    requires i < |scripts| && a in scripts[i].asks && forall j | 0 <= j < i :: scripts[j].readable
    ensures a in Chain(scripts).asks
  {
    var init := scripts[..|scripts| - 1];
    if i == |scripts| - 1 {
      ChainReadable(init);
    } else {
      ChainContains(init, i, a);
    }
  }

  lemma SoundRecordReadable(w: World, kind: Kind, files: map<Digest, Bytes>, record: Record)
    requires SoundRecord(w, files, record)
    ensures LineScript(w, kind, files, Whole(record)).readable
  {
    var g :| IsRecordOf(w, files, record, g);
    var scripts := AlgorithmScripts(w, kind, FileOf(files, record.file), record.algs);
    forall i | 0 <= i < |scripts| ensures scripts[i].readable {
      assert g.digests[i] in g.digests;
    }
    ChainReadable(scripts);
  }

  lemma LineReadableIff(w: World, kind: Kind, disk: Disk, i: nat)
    requires LinesSound(w, disk) && i < |disk.index.lines|
    ensures LineScript(w, kind, disk.files, disk.index.lines[i]).readable <==> disk.index.lines[i].Whole?
  {
    if disk.index.lines[i].Whole? {
      SoundRecordReadable(w, kind, disk.files, disk.index.lines[i].record);
    }
  }

  /** A torn line at the end can be read to its end. */
  ghost predicate TailReadable(w: World, kind: Kind, disk: Disk) {
    disk.index.tail.None? || LineScript(w, kind, disk.files, disk.index.tail.value.Read()).readable
  }

  lemma IndexReadableIff(w: World, kind: Kind, disk: Disk)
    requires LinesSound(w, disk)
    ensures IndexScript(w, kind, disk).readable <==> AllWhole(disk.index.lines) && TailReadable(w, kind, disk)
  {
    var lines, all := disk.index.lines, AllLines(disk.index);
    var scripts := LineScripts(w, kind, disk.files, all);
    ChainReadable(scripts);
    forall i: nat | i < |lines| ensures scripts[i].readable <==> lines[i].Whole? {
      LineReadableIff(w, kind, disk, i);
    }
    assert disk.index.tail.Some? ==> all[|lines|] == disk.index.tail.value.Read();
  }

  /** A record that is saved is submitted under all its names. */
  lemma SavedIsSubmitted(w: World, kind: Kind, disk: Disk, e: Entry, d: Digest)
    requires LinesSound(w, disk) && HasSaved(w, disk, e) && d in e.digests
    ensures Ask(kind, d, e.data) in IndexScript(w, kind, disk).asks
  {
    var g :| HonestEntry(w, g) && Saved(disk, g) && Covers(g, e);
    var lines := disk.index.lines;
    var i :| 0 <= i < |lines| && lines[i] == Whole(RecordOf(g)) && forall j | 0 <= j < i :: lines[j].Whole?;
    var scripts := LineScripts(w, kind, disk.files, AllLines(disk.index));
    forall j: nat | j < i ensures scripts[j].readable {
      LineReadableIff(w, kind, disk, j);
    }
    EntryIsAsked(w, kind, disk.files, g, d);
    ChainContains(scripts, i, Ask(kind, d, e.data));
  }

  lemma EntryIsAsked(w: World, kind: Kind, files: map<Digest, Bytes>, g: Entry, d: Digest)
    requires HonestEntry(w, g) && NameOf(g) in files && files[NameOf(g)] == g.data && d in g.digests
    ensures Ask(kind, d, g.data) in LineScript(w, kind, files, Whole(RecordOf(g))).asks
  {
    SavedLine(w, kind, files, g);
    var m :| 0 <= m < |g.digests| && g.digests[m] == d;
    assert EntryAsks(kind, g)[m] == Ask(kind, d, g.data);
  }

  // ---------- after any number of runs ----------

  lemma SoundAfter(w: World, s0: Store, kind: Kind, since: Time, limit: int, runs: seq<Attempt>, n: nat)
    requires Attempts(w, s0, kind, since, limit, BLANK, runs) && n <= |runs|
    ensures LinesSound(w, DiskAt(BLANK, runs, n))
  {
    for m := 0 to n
      invariant LinesSound(w, DiskAt(BLANK, runs, m))
    {
      var disk, run := DiskAt(BLANK, runs, m), runs[m];
      assert Attempted(w, s0, kind, since, limit, disk, run);
      PagesAreHonest(w, run.states, kind, StartOf(disk, since, run.fromLatest), limit);
      RunKeepsLinesSound(w, disk, run.left, Gets(kind, since, limit, disk, run),
                         StartOf(disk, since, run.fromLatest));
    }
  }

  ghost predicate NoneBehindTorn(disk0: Disk, runs: seq<Attempt>, n: nat)
    requires n <= |runs|
  {
    forall m: nat | m < n :: !AppendsBehindTorn(DiskAt(disk0, runs, m), runs[m].left)
  }

  lemma {:induction false} WholeAlong(runs: seq<Attempt>, n: nat)
    requires n <= |runs| && forall m: nat | m < |runs| :: KeepsWhole(DiskAt(BLANK, runs, m), runs[m].left)
    ensures AllWhole(DiskAt(BLANK, runs, n).index.lines) <==> NoneBehindTorn(BLANK, runs, n)
  {
    if n > 0 {
      WholeAlong(runs, n - 1);
      assert KeepsWhole(DiskAt(BLANK, runs, n - 1), runs[n - 1].left);
    }
  }

  lemma WholeAfter(w: World, s0: Store, kind: Kind, since: Time, limit: int, runs: seq<Attempt>, n: nat)
    requires Attempts(w, s0, kind, since, limit, BLANK, runs) && n <= |runs|
    ensures AllWhole(DiskAt(BLANK, runs, n).index.lines) <==> NoneBehindTorn(BLANK, runs, n)
  {
    forall m: nat | m < |runs| ensures KeepsWhole(DiskAt(BLANK, runs, m), runs[m].left) {
      var disk, run := DiskAt(BLANK, runs, m), runs[m];
      assert Attempted(w, s0, kind, since, limit, disk, run);
      WholeAfterRun(disk, run.left, Gets(kind, since, limit, disk, run), StartOf(disk, since, run.fromLatest));
    }
    WholeAlong(runs, n);
  }

  /**
   After any number of runs, killed anywhere or ended, harmless or not: the upload can read the directory to
   its end exactly when no run appended behind a torn line, and a line that is torn now reads as a whole one.
  */
  lemma ReadableIff(w: World, s0: Store, kind: Kind, since: Time, limit: int, runs: seq<Attempt>)
    requires Attempts(w, s0, kind, since, limit, BLANK, runs)
    ensures var disk := DiskAt(BLANK, runs, |runs|);
            IndexScript(w, kind, disk).readable
            <==> NoneBehindTorn(BLANK, runs, |runs|) && TailReadable(w, kind, disk)
  {
    SoundAfter(w, s0, kind, since, limit, runs, |runs|);
    WholeAfter(w, s0, kind, since, limit, runs, |runs|);
    IndexReadableIff(w, kind, DiskAt(BLANK, runs, |runs|));
  }

  /** After a run that ends: exactly when no run has appended behind a torn line, this one included. */
  lemma RecoveredReadableIff(w: World, s0: Store, kind: Kind, since: Time, limit: int, runs: seq<Attempt>,
                             states: seq<Store>, fromLatest: bool)
    requires Attempts(w, s0, kind, since, limit, BLANK, runs) && Serves(w, s0, states, kind)
    ensures var disk := DiskAt(BLANK, runs, |runs|);
            var start := StartOf(disk, since, fromLatest);
            var got := Pages(states, kind, start, limit).0;
            IndexScript(w, kind, Downloaded(disk, states, kind, start, limit)).readable
            <==> && NoneBehindTorn(BLANK, runs, |runs|)
                 && if got == [] then TailReadable(w, kind, disk) else disk.index.tail.None?
  {
    var disk := DiskAt(BLANK, runs, |runs|);
    var start := StartOf(disk, since, fromLatest);
    var got := Pages(states, kind, start, limit).0;
    var d := Downloaded(disk, states, kind, start, limit);
    RecoveredIsSound(w, s0, kind, since, limit, runs, states, fromLatest);
    WholeAfter(w, s0, kind, since, limit, runs, |runs|);
    WholeAfterRun(disk, d, got, start);
    AppendedLines(disk.index, RecordsOf(got));
    IndexReadableIff(w, kind, d);
    if got == [] {
      assert d.index == disk.index && d.files == disk.files;
    }
  }

  lemma RecoveredIsSound(w: World, s0: Store, kind: Kind, since: Time, limit: int, runs: seq<Attempt>,
                         states: seq<Store>, fromLatest: bool)
    requires Attempts(w, s0, kind, since, limit, BLANK, runs) && Serves(w, s0, states, kind)
    ensures var disk := DiskAt(BLANK, runs, |runs|);
            var start := StartOf(disk, since, fromLatest);
            var d := Downloaded(disk, states, kind, start, limit);
            Midway(disk, d, Pages(states, kind, start, limit).0, start) && LinesSound(w, d)
  {
    var disk := DiskAt(BLANK, runs, |runs|);
    var start := StartOf(disk, since, fromLatest);
    SoundAfter(w, s0, kind, since, limit, runs, |runs|);
    EndIsMidway(disk, states, kind, start, limit);
    PagesAreHonest(w, states, kind, start, limit);
    RunKeepsLinesSound(w, disk, Downloaded(disk, states, kind, start, limit), Pages(states, kind, start, limit).0,
                       start);
  }

  /**
   After any number of harmless runs that were killed and one that ends, the upload submits every row newer
   than `since` under all the digests that it had at the beginning.
  */
  lemma RecoveredIsSubmitted(w: World, s0: Store, kind: Kind, since: Time, limit: int, runs: seq<Attempt>,
                             states: seq<Store>, fromLatest: bool, i: nat, digest: Digest)
    requires w.NoCollisions() && Valid(w, s0)
    requires Attempts(w, s0, kind, since, limit, BLANK, runs) && AllHarmless(s0, kind, since, limit, BLANK, runs)
    requires var disk := DiskAt(BLANK, runs, |runs|);
             var (full, ended) := Pages(states, kind, StartOf(disk, since, fromLatest), limit);
             Serves(w, s0, states, kind) && LineStands(disk.index, full) && ended
    requires i < |s0.tables[kind]| && s0.tables[kind][i].createdAt > since && digest in Old(s0, kind, i).digests
    ensures var disk := DiskAt(BLANK, runs, |runs|);
            var d := Downloaded(disk, states, kind, StartOf(disk, since, fromLatest), limit);
            Ask(kind, digest, Old(s0, kind, i).data) in IndexScript(w, kind, d).asks
  {
    var disk := DiskAt(BLANK, runs, |runs|);
    ResumingEndsComplete(w, s0, kind, since, limit, runs, states, fromLatest, i);
    RecoveredIsSound(w, s0, kind, since, limit, runs, states, fromLatest);
    var d := Downloaded(disk, states, kind, StartOf(disk, since, fromLatest), limit);
    SavedIsSubmitted(w, kind, d, Old(s0, kind, i), digest);
  }
}

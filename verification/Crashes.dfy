/**
 What survives crashes of the download command, when any number of runs over one directory are ended, failed
 or killed at any moment: exactly when a run may lose a record up to the recorded time, and exactly when it
 saves all it gets.
*/
module Crashes {
  import opened Types
  import opened Store
  import opened Invariant
  import opened Listing
  import opened Restore
  import opened Mirror

  // ---------- the records of one run ----------

  /** The requests of a run meet a server that holds what it held before. */
  ghost predicate Serves(w: World, s0: Store, states: seq<Store>, kind: Kind) {
    && AllDistinct(states, kind)
    && (forall n | 0 <= n < |states| :: Valid(w, states[n]) && Grows(s0, states[n]))
    && (forall m, n | 0 <= m < n < |states| :: Grows(states[m], states[n]))
  }

  /** Data is in a table once, so that the time of its row is known by it. */
  lemma SameTime(w: World, s: Store, s': Store, kind: Kind, e: Entry, e': Entry)
    requires Valid(w, s) && Valid(w, s') && Grows(s, s')
    requires e in Entries(s, s.tables[kind]) && e' in Entries(s', s'.tables[kind]) && e.data == e'.data
    ensures e.createdAt == e'.createdAt
  {
    var i := RowOfEntry(w, s, kind, e);
    var j := RowOfEntry(w, s', kind, e');
    SameRow(w, s, s', kind, i, j);
  }

  lemma SameRow(w: World, s: Store, s': Store, kind: Kind, i: nat, j: nat)
    requires Valid(w, s) && Valid(w, s') && Grows(s, s') && i < |s.tables[kind]| && j < |s'.tables[kind]|
    requires s.tables[kind][i].dataId < |s.data| && s'.tables[kind][j].dataId < |s'.data|
    requires s.data[s.tables[kind][i].dataId].raw == s'.data[s'.tables[kind][j].dataId].raw
    ensures i == j && s.tables[kind][i].createdAt == s'.tables[kind][j].createdAt
  {
    assert ValidRows(w, s', kind) && GrowsRows(s.tables[kind], s'.tables[kind]);
    SameBytesSameRow(w, s'.data, s.tables[kind][i].dataId, s'.tables[kind][j].dataId);
    assert s'.tables[kind][i].dataId == s'.tables[kind][j].dataId;
  }

  /** No two entries share a data file. */
  ghost predicate NamesDiffer(full: seq<Entry>) {
    forall i, j | 0 <= i < j < |full| :: NameOf(full[i]) != NameOf(full[j])
  }

  /** Entries that share a data file have the same data. */
  lemma NameTellsData(w: World, e: Entry, e': Entry)
    requires w.NoCollisions() && HonestEntry(w, e) && HonestEntry(w, e') && NameOf(e) == NameOf(e')
    ensures e.data == e'.data
  {
    assert e.digests[0] in e.digests && e'.digests[0] in e'.digests;
    assert w.DigestOf(NameOf(e).alg, e.data) == w.DigestOf(NameOf(e).alg, e'.data);
  }

  lemma StateOf(w: World, s0: Store, states: seq<Store>, kind: Kind, since: Time, limit: int, e: Entry) returns (n: nat)
    requires Serves(w, s0, states, kind) && e in Pages(states, kind, since, limit).0
    ensures n < |states| && e in Entries(states[n], states[n].tables[kind]) && HonestEntry(w, e)
  {
    PagesListed(states, kind, since, limit);
    n :| 0 <= n < |states| && e in Entries(states[n], states[n].tables[kind]);
    var _ := RowOfEntry(w, states[n], kind, e);
  }

  lemma SameDataSameTime(w: World, s0: Store, states: seq<Store>, kind: Kind, since: Time, limit: int, e: Entry,
                         e': Entry)
    requires Serves(w, s0, states, kind) && e.data == e'.data
    requires e in Pages(states, kind, since, limit).0 && e' in Pages(states, kind, since, limit).0
    ensures e.createdAt == e'.createdAt
  {
    var m := StateOf(w, s0, states, kind, since, limit, e);
    var n := StateOf(w, s0, states, kind, since, limit, e');
    GrowsReflexive(states[m]);
    if m <= n {
      SameTime(w, states[m], states[n], kind, e, e');
    } else {
      SameTime(w, states[n], states[m], kind, e', e);
    }
  }

  lemma GrowsReflexive(s: Store)
    ensures Grows(s, s)
  {
    assert forall kind :: GrowsRows(s.tables[kind], s.tables[kind]);
  }

  /** A run lists no data twice, so that it writes no data file twice. */
  lemma RunNamesDiffer(w: World, s0: Store, states: seq<Store>, kind: Kind, since: Time, limit: int)
    requires w.NoCollisions() && Serves(w, s0, states, kind)
    ensures NamesDiffer(Pages(states, kind, since, limit).0) && AreHonest(w, Pages(states, kind, since, limit).0)
  {
    var full := Pages(states, kind, since, limit).0;
    PagesAreHonest(w, states, kind, since, limit);
    PagesSound(states, kind, since, limit);
    forall i, j | 0 <= i < j < |full| ensures NameOf(full[i]) != NameOf(full[j]) {
      assert full[i] in full && full[j] in full;
      if NameOf(full[i]) == NameOf(full[j]) {
        NameTellsData(w, full[i], full[j]);
        SameDataSameTime(w, s0, states, kind, since, limit, full[i], full[j]);
      }
    }
  }

  /** Nor does it write the data file of a row from before its start. */
  lemma OldRowsUntouched(w: World, s0: Store, states: seq<Store>, kind: Kind, since: Time, limit: int, i: nat, e: Entry)
    requires Serves(w, s0, states, kind) && Valid(w, s0) && i < |s0.tables[kind]|
    requires e in Pages(states, kind, since, limit).0 && s0.tables[kind][i].createdAt <= since
    ensures e.data != EntryOf(s0, s0.tables[kind][i]).data
  {
    var n := StateOf(w, s0, states, kind, since, limit, e);
    PagesNewer(states, kind, since, limit);
    EntryGrowsInPlace(w, s0, kind, i);
    if e.data == EntryOf(s0, s0.tables[kind][i]).data {
      SameTime(w, s0, states[n], kind, EntryOf(s0, s0.tables[kind][i]), e);
    }
  }

  // ---------- what a state in the middle of a run holds ----------

  lemma {:induction false} WrittenFiles(files0: map<Digest, Bytes>, full: seq<Entry>, name: Digest)
    ensures (forall i | 0 <= i < |full| :: NameOf(full[i]) != name) ==>
              (name in WriteFiles(files0, full) <==> name in files0)
              && (name in files0 ==> WriteFiles(files0, full)[name] == files0[name])
  {
    if full != [] {
      WrittenFiles(files0, full[..|full| - 1], name);
    }
  }

  lemma {:induction false} WrittenData(w: World, files0: map<Digest, Bytes>, full: seq<Entry>, i: nat)
    requires w.NoCollisions() && AreHonest(w, full) && i < |full|
    ensures NameOf(full[i]) in WriteFiles(files0, full) && WriteFiles(files0, full)[NameOf(full[i])] == full[i].data
  {
    var init, last := full[..|full| - 1], full[|full| - 1];
    assert full[i] in full && last in full;
    assert full == init + [last];
    if NameOf(full[i]) == NameOf(last) {
      NameTellsData(w, full[i], last);
    } else {
      WrittenData(w, files0, init, i);
    }
  }

  lemma FileKept(files0: map<Digest, Bytes>, full: seq<Entry>, k: nat, files: map<Digest, Bytes>, name: Digest)
    requires FilesAt(files0, full, k, files) && forall i | 0 <= i < |full| :: NameOf(full[i]) != name
    ensures name in files <==> name in files0
    ensures name in files0 ==> files[name] == files0[name]
  {
    WrittenFiles(files0, full[..k], name);
  }

  lemma FileWritten(w: World, files0: map<Digest, Bytes>, full: seq<Entry>, k: nat, files: map<Digest, Bytes>, i: nat)
    requires w.NoCollisions() && AreHonest(w, full) && NamesDiffer(full) && FilesAt(files0, full, k, files) && i < k
    ensures NameOf(full[i]) in files && files[NameOf(full[i])] == full[i].data
  {
    forall e | e in full[..k] ensures HonestEntry(w, e) {
      assert e in full;
    }
    WrittenData(w, files0, full[..k], i);
  }

  lemma {:induction false} EmptyWritten(files0: map<Digest, Bytes>, full: seq<Entry>, name: Digest)
    requires name in files0 && files0[name] == []
    requires forall i | 0 <= i < |full| && NameOf(full[i]) == name :: full[i].data == []
    ensures name in WriteFiles(files0, full) && WriteFiles(files0, full)[name] == []
  {
    if full != [] {
      EmptyWritten(files0, full[..|full| - 1], name);
    }
  }

  /** An empty data file cannot be cut short. */
  lemma EmptyFileKept(files0: map<Digest, Bytes>, full: seq<Entry>, k: nat, files: map<Digest, Bytes>, name: Digest)
    requires FilesAt(files0, full, k, files) && name in files0 && files0[name] == []
    requires forall i | 0 <= i < |full| && NameOf(full[i]) == name :: full[i].data == []
    ensures name in files && files[name] == []
  {
    EmptyWritten(files0, full[..k], name);
  }

  // ---------- lines ----------

  /** Every line can be read and none is torn. */
  ghost predicate Intact(f: IndexFile) {
    f.tail.None? && forall i | 0 <= i < |f.lines| :: f.lines[i].Whole?
  }

  /** The lines of these entries can be read behind this index: it is intact, or has them already. */
  ghost predicate LineStands(f: IndexFile, full: seq<Entry>) {
    Intact(f) || forall e | e in full :: IsRead(f.lines, RecordOf(e))
  }

  lemma LinesKept(f: IndexFile, records: seq<Record>, record: Record)
    requires IsRead(f.lines, record)
    ensures IsRead(Append(f, records).lines, record)
  {
    var i :| 0 <= i < |f.lines| && f.lines[i] == Whole(record) && forall j | 0 <= j < i :: f.lines[j].Whole?;
    var lines := Append(f, records).lines;
    assert forall j | 0 <= j < |f.lines| :: lines[j] == f.lines[j];
    assert lines[i] == Whole(record);
  }

  lemma LineAppended(f: IndexFile, records: seq<Record>, i: nat)
    requires Intact(f) && i < |records|
    ensures IsRead(Append(f, records).lines, records[i])
  {
    assert Append(f, records).lines[|f.lines| + i] == Whole(records[i]);
  }

  /** Nothing that is appended behind a line that stops the reader is read, and nothing else is new. */
  lemma ReadBefore(f: IndexFile, records: seq<Record>, record: Record)
    requires IsRead(Append(f, records).lines, record)
    ensures record !in records || !Intact(f) ==> IsRead(f.lines, record)
  {
    var lines := Append(f, records).lines;
    var i :| 0 <= i < |lines| && lines[i] == Whole(record) && forall j | 0 <= j < i :: lines[j].Whole?;
    assert forall j | 0 <= j < |f.lines| :: lines[j] == f.lines[j];
    assert f.tail.Some? && records != [] ==> lines[|f.lines|] == f.tail.value.Glued();
    if i >= |f.lines| {
      assert lines[i] == Whole(records[i - |f.lines|]);
    }
  }

  lemma RunSaved(w: World, disk0: Disk, d: Disk, full: seq<Entry>, start: Time, k: nat, n: nat, j: nat, i: nat)
    requires w.NoCollisions() && AreHonest(w, full) && NamesDiffer(full) && MidwayAt(disk0, d, full, start, k, n, j)
    requires i < n && LineStands(disk0.index, full)
    ensures Saved(d, full[i])
  {
    assert full[i] in full;
    FileWritten(w, disk0.files, full, k, d.files, i);
    var records := RecordsOf(full[..k])[..n];
    assert records[i] == RecordOf(full[i]);
    if Intact(disk0.index) {
      LineAppended(disk0.index, records, i);
    } else {
      LinesKept(disk0.index, records, RecordOf(full[i]));
    }
  }

  /** What was saved stays saved, unless its data file is rewritten and has something to lose. */
  lemma OldSaved(disk0: Disk, d: Disk, full: seq<Entry>, start: Time, g: Entry)
    requires Midway(disk0, d, full, start) && Saved(disk0, g)
    requires forall i | 0 <= i < |full| && NameOf(full[i]) == NameOf(g) :: full[i].data == g.data == []
    ensures Saved(d, g)
  {
    var k: nat, n: nat, j: nat :| MidwayAt(disk0, d, full, start, k, n, j);
    if g.data == [] {
      EmptyFileKept(disk0.files, full, k, d.files, NameOf(g));
    } else {
      FileKept(disk0.files, full, k, d.files, NameOf(g));
    }
    LinesKept(disk0.index, RecordsOf(full[..k])[..n], RecordOf(g));
  }

  /** What a run does not write is not saved by it. */
  lemma NotSavedBefore(disk0: Disk, d: Disk, full: seq<Entry>, start: Time, g: Entry)
    requires Midway(disk0, d, full, start) && Saved(d, g)
    requires forall i | 0 <= i < |full| :: NameOf(full[i]) != NameOf(g)
    ensures Saved(disk0, g)
  {
    var k: nat, n: nat, j: nat :| MidwayAt(disk0, d, full, start, k, n, j);
    FileKept(disk0.files, full, k, d.files, NameOf(g));
    var records := RecordsOf(full[..k])[..n];
    forall i | 0 <= i < |records| ensures records[i] != RecordOf(g) {
      assert records[i] == RecordOf(full[i]);
    }
    ReadBefore(disk0.index, records, RecordOf(g));
  }

  // ---------- the data file of a row ----------

  /** The record of a row as it was at the beginning. */
  function Old(s0: Store, kind: Kind, i: nat): Entry
    requires i < |s0.tables[kind]|
  {
    EntryOf(s0, s0.tables[kind][i])
  }

  lemma OldIsHonest(w: World, s0: Store, kind: Kind, i: nat)
    requires Valid(w, s0) && i < |s0.tables[kind]|
    ensures HonestEntry(w, Old(s0, kind, i)) && Old(s0, kind, i) in Entries(s0, s0.tables[kind])
    ensures s0.tables[kind][i].dataId < |s0.data|
    ensures Old(s0, kind, i).data == s0.data[s0.tables[kind][i].dataId].raw
  {
    EntryGrowsInPlace(w, s0, kind, i);
    var _ := RowOfEntry(w, s0, kind, Old(s0, kind, i));
    assert ValidRows(w, s0, kind) && ValidRow(w, s0, kind, s0.tables[kind][i]);
  }

  lemma {:induction false} AliasesPrefix(digests: seq<DigestRow>, digests': seq<DigestRow>, dataId: nat)
    requires digests <= digests'
    ensures AliasesOf(digests, dataId) <= AliasesOf(digests', dataId)
    decreases digests'
  {
    if |digests| < |digests'| {
      AliasesPrefix(digests, digests'[..|digests'| - 1], dataId);
    } else {
      assert digests == digests';
    }
  }

  /** The first name of a row's data never changes, so that its data file keeps its name. */
  lemma FirstNameStays(w: World, s0: Store, s: Store, kind: Kind, i: nat, e: Entry)
    requires Valid(w, s0) && Valid(w, s) && Grows(s0, s) && i < |s0.tables[kind]|
    requires e in Entries(s, s.tables[kind]) && e.data == Old(s0, kind, i).data
    ensures NameOf(e) == NameOf(Old(s0, kind, i)) && e.createdAt == Old(s0, kind, i).createdAt
  {
    OldIsHonest(w, s0, kind, i);
    var j := RowOfEntry(w, s, kind, e);
    SameRow(w, s0, s, kind, i, j);
    assert GrowsRows(s0.tables[kind], s.tables[kind]);
    AliasesPrefix(s0.digests, s.digests, s0.tables[kind][i].dataId);
  }

  /** A record that a run gets of an old row. */
  lemma GotOld(w: World, s0: Store, states: seq<Store>, kind: Kind, start: Time, limit: int, i: nat, e: Entry)
    requires Serves(w, s0, states, kind) && Valid(w, s0) && i < |s0.tables[kind]|
    requires e in Pages(states, kind, start, limit).0 && e.data == Old(s0, kind, i).data
    ensures NameOf(e) == NameOf(Old(s0, kind, i)) && e.createdAt == Old(s0, kind, i).createdAt > start
  {
    var n := StateOf(w, s0, states, kind, start, limit, e);
    FirstNameStays(w, s0, states[n], kind, i, e);
    PagesNewer(states, kind, start, limit);
  }

  /** A data file named by some digest of an old row is the data file of that row. */
  ghost predicate FirstNames(w: World, s0: Store, kind: Kind, disk: Disk) {
    forall i: nat, name | i < |s0.tables[kind]| && name in disk.files && IsNameOf(w, name, Old(s0, kind, i)) ::
      name == NameOf(Old(s0, kind, i))
  }

  predicate IsNameOf(w: World, name: Digest, e: Entry) {
    name == w.DigestOf(name.alg, e.data)
  }

  /** Any run keeps that, so that it holds of every directory that was blank once. */
  lemma RunKeepsFirstNames(w: World, s0: Store, states: seq<Store>, kind: Kind, start: Time, limit: int, disk0: Disk,
                           d: Disk)
    requires w.NoCollisions() && Valid(w, s0) && Serves(w, s0, states, kind) && FirstNames(w, s0, kind, disk0)
    requires Midway(disk0, d, Pages(states, kind, start, limit).0, start)
    ensures FirstNames(w, s0, kind, d)
  {
    var full := Pages(states, kind, start, limit).0;
    var k: nat, n: nat, j: nat :| MidwayAt(disk0, d, full, start, k, n, j);
    forall i: nat, name | i < |s0.tables[kind]| && name in d.files && IsNameOf(w, name, Old(s0, kind, i))
      ensures name == NameOf(Old(s0, kind, i))
    {
      if forall m | 0 <= m < |full| :: NameOf(full[m]) != name {
        FileKept(disk0.files, full, k, d.files, name);
      } else {
        var m :| 0 <= m < |full| && NameOf(full[m]) == name;
        NamedLikeOld(w, s0, states, kind, start, limit, i, full[m]);
      }
    }
  }

  lemma NamedLikeOld(w: World, s0: Store, states: seq<Store>, kind: Kind, start: Time, limit: int, i: nat, e: Entry)
    requires w.NoCollisions() && Valid(w, s0) && Serves(w, s0, states, kind) && i < |s0.tables[kind]|
    requires e in Pages(states, kind, start, limit).0 && IsNameOf(w, NameOf(e), Old(s0, kind, i))
    ensures e.data == Old(s0, kind, i).data && NameOf(e) == NameOf(Old(s0, kind, i))
  {
    OldIsHonest(w, s0, kind, i);
    var _ := StateOf(w, s0, states, kind, start, limit, e);
    assert e.digests[0] in e.digests;
    assert w.DigestOf(NameOf(e).alg, e.data) == w.DigestOf(NameOf(e).alg, Old(s0, kind, i).data);
    GotOld(w, s0, states, kind, start, limit, i, e);
  }

  // ---------- up to the recorded time ----------

  /** The disk has a record with this data and time and at least these names. */
  ghost predicate HasSaved(w: World, disk: Disk, e: Entry) {
    exists g :: HonestEntry(w, g) && Saved(disk, g) && Covers(g, e)
  }

  /** Every row between `since` and the recorded time is saved: what a run that resumes there relies on. */
  ghost predicate UpToDate(w: World, disk: Disk, s0: Store, kind: Kind, since: Time) {
    forall i: nat | i < |s0.tables[kind]| && disk.latest.Some?
      && since < s0.tables[kind][i].createdAt <= disk.latest.value :: HasSaved(w, disk, Old(s0, kind, i))
  }

  /** The recorded time vouches for this row, and the run gets it again. */
  ghost predicate GotAgain(disk: Disk, saved: Entry, e: Entry) {
    disk.latest.Some? && saved.createdAt <= disk.latest.value && e.data == saved.data
  }

  /** A run that gets this rewrites nothing with content that the recorded time vouches for. */
  ghost predicate RewritesNothing(disk: Disk, s0: Store, kind: Kind, full: seq<Entry>) {
    forall i: nat, e | i < |s0.tables[kind]| && e in full && GotAgain(disk, Old(s0, kind, i), e) :: e.data == []
  }

  /** That is so of a run that does not start before the recorded time. */
  lemma LaterRewritesNothing(w: World, s0: Store, states: seq<Store>, kind: Kind, start: Time, limit: int, disk: Disk)
    requires Serves(w, s0, states, kind) && Valid(w, s0) && (disk.latest.None? || disk.latest.value <= start)
    ensures RewritesNothing(disk, s0, kind, Pages(states, kind, start, limit).0)
  {
    var full := Pages(states, kind, start, limit).0;
    forall i: nat, e | i < |s0.tables[kind]| && e in full ensures !GotAgain(disk, Old(s0, kind, i), e) {
      if e.data == Old(s0, kind, i).data {
        GotOld(w, s0, states, kind, start, limit, i, e);
      }
    }
  }

  /** A saved row stays saved during a run, if the run does not get it again or it has no content. */
  lemma OldRowKept(w: World, s0: Store, states: seq<Store>, kind: Kind, start: Time, limit: int, disk0: Disk, d: Disk,
                   i: nat)
    requires w.NoCollisions() && Valid(w, s0) && Serves(w, s0, states, kind) && i < |s0.tables[kind]|
    requires Midway(disk0, d, Pages(states, kind, start, limit).0, start)
    requires HasSaved(w, disk0, Old(s0, kind, i))
    requires forall e | e in Pages(states, kind, start, limit).0 && e.data == Old(s0, kind, i).data :: e.data == []
    ensures HasSaved(w, d, Old(s0, kind, i))
  {
    var full := Pages(states, kind, start, limit).0;
    var g :| HonestEntry(w, g) && Saved(disk0, g) && Covers(g, Old(s0, kind, i));
    RunNamesDiffer(w, s0, states, kind, start, limit);
    forall m | 0 <= m < |full| && NameOf(full[m]) == NameOf(g) ensures full[m].data == g.data == [] {
      assert full[m] in full;
      NameTellsData(w, full[m], g);
    }
    OldSaved(disk0, d, full, start, g);
  }

  lemma AmongFirst(full: seq<Entry>, start: Time, j: nat, m: nat)
    requires StrictlySorted(full) && j <= |full| && m < |full|
    requires start < full[m].createdAt <= Last(full[..j], start)
    ensures m < j
  {
  }

  /** A row up to the time of the first j records of a run is among them. */
  lemma GotBy(w: World, s0: Store, states: seq<Store>, kind: Kind, start: Time, limit: int, j: nat, i: nat)
    returns (m: nat)
    requires Valid(w, s0) && Serves(w, s0, states, kind) && i < |s0.tables[kind]|
    requires j <= |Pages(states, kind, start, limit).0|
    requires start < s0.tables[kind][i].createdAt <= Last(Pages(states, kind, start, limit).0[..j], start)
    ensures m < j && Covers(Pages(states, kind, start, limit).0[m], Old(s0, kind, i))
  {
    var full := Pages(states, kind, start, limit).0;
    PagesSound(states, kind, start, limit);
    assert full[j - 1] in full;
    m := IsGot(w, s0, states, kind, start, limit, i);
    AmongFirst(full, start, j, m);
  }

  lemma IsGot(w: World, s0: Store, states: seq<Store>, kind: Kind, start: Time, limit: int, i: nat) returns (m: nat)
    requires Valid(w, s0) && Serves(w, s0, states, kind) && i < |s0.tables[kind]|
    requires start < s0.tables[kind][i].createdAt
    requires Pages(states, kind, start, limit).1
             || s0.tables[kind][i].createdAt <= Last(Pages(states, kind, start, limit).0, start)
    ensures m < |Pages(states, kind, start, limit).0|
    ensures Covers(Pages(states, kind, start, limit).0[m], Old(s0, kind, i))
  {
    var full := Pages(states, kind, start, limit).0;
    PagesComplete(w, s0, states, kind, start, limit, i);
    var g :| g in full && Covers(g, Old(s0, kind, i));
    m :| 0 <= m < |full| && full[m] == g;
  }

  /** It is then saved. */
  lemma NewRowSaved(w: World, s0: Store, states: seq<Store>, kind: Kind, start: Time, limit: int, disk0: Disk, d: Disk,
                    k: nat, n: nat, j: nat, i: nat)
    requires w.NoCollisions() && Valid(w, s0) && Serves(w, s0, states, kind) && i < |s0.tables[kind]|
    requires MidwayAt(disk0, d, Pages(states, kind, start, limit).0, start, k, n, j)
    requires LineStands(disk0.index, Pages(states, kind, start, limit).0)
    requires start < s0.tables[kind][i].createdAt <= Last(Pages(states, kind, start, limit).0[..j], start)
    ensures HasSaved(w, d, Old(s0, kind, i))
  {
    var full := Pages(states, kind, start, limit).0;
    var m := GotBy(w, s0, states, kind, start, limit, j, i);
    RunNamesDiffer(w, s0, states, kind, start, limit);
    RunSaved(w, disk0, d, full, start, k, n, j, m);
    assert full[m] in full;
  }

  /** A run that rewrites nothing keeps the directory up to date, whenever it is killed. */
  lemma CrashKeepsUpToDate(w: World, s0: Store, states: seq<Store>, kind: Kind, since: Time, fromLatest: bool,
                           limit: int, disk0: Disk, d: Disk)
    requires w.NoCollisions() && Valid(w, s0) && Serves(w, s0, states, kind)
    requires var start := StartOf(disk0, since, fromLatest);
             var full := Pages(states, kind, start, limit).0;
             && Midway(disk0, d, full, start)
             && LineStands(disk0.index, full) && RewritesNothing(disk0, s0, kind, full)
    requires UpToDate(w, disk0, s0, kind, since)
    ensures UpToDate(w, d, s0, kind, since)
  {
    var start := StartOf(disk0, since, fromLatest);
    var full := Pages(states, kind, start, limit).0;
    var k: nat, n: nat, j: nat :| MidwayAt(disk0, d, full, start, k, n, j);
    forall i: nat | i < |s0.tables[kind]| && d.latest.Some? && since < s0.tables[kind][i].createdAt <= d.latest.value
      ensures HasSaved(w, d, Old(s0, kind, i))
    {
      if start < s0.tables[kind][i].createdAt <= Last(full[..j], start) {
        NewRowSaved(w, s0, states, kind, start, limit, disk0, d, k, n, j, i);
      } else {
        forall e | e in full && e.data == Old(s0, kind, i).data ensures e.data == [] {
          assert GotAgain(disk0, Old(s0, kind, i), e);
        }
        OldRowKept(w, s0, states, kind, start, limit, disk0, d, i);
      }
    }
  }

  /** The disk when a run was killed as it had just truncated its k-th data file. */
  function CutAt(disk: Disk, full: seq<Entry>, k: nat): Disk
    requires k < |full|
  {
    disk.(files := WriteFiles(disk.files, full[..k])[NameOf(full[k]) := []])
  }

  lemma KilledInFile(disk: Disk, full: seq<Entry>, start: Time, k: nat)
    requires k < |full|
    ensures Midway(disk, CutAt(disk, full, k), full, start)
  {
    var left := CutAt(disk, full, k);
    assert full[k].data[..0] == [];
    assert FilesAt(disk.files, full, k, left.files);
    assert RecordsOf(full[..k])[..0] == [];
    assert MidwayAt(disk, left, full, start, k, 0, 0);
  }

  /** No other data file has the data of an old row when its own has just been truncated. */
  lemma NoOtherFile(w: World, s0: Store, states: seq<Store>, kind: Kind, start: Time, limit: int, disk0: Disk, k: nat,
                    i: nat, g: Entry)
    requires w.NoCollisions() && Valid(w, s0) && Serves(w, s0, states, kind) && FirstNames(w, s0, kind, disk0)
    requires i < |s0.tables[kind]| && k < |Pages(states, kind, start, limit).0|
    requires Pages(states, kind, start, limit).0[k].data == Old(s0, kind, i).data == g.data
    requires HonestEntry(w, g) && NameOf(g) != NameOf(Old(s0, kind, i))
    ensures NameOf(g) !in CutAt(disk0, Pages(states, kind, start, limit).0, k).files
  {
    var full := Pages(states, kind, start, limit).0;
    assert full[k] in full;
    GotOld(w, s0, states, kind, start, limit, i, full[k]);
    assert g.digests[0] in g.digests;
    assert IsNameOf(w, NameOf(g), Old(s0, kind, i));
    forall m | 0 <= m < k ensures NameOf(full[..k][m]) != NameOf(g) {
      assert full[m] in full;
      if NameOf(full[m]) == NameOf(g) {
        NamedLikeOld(w, s0, states, kind, start, limit, i, full[m]);
      }
    }
    WrittenFiles(disk0.files, full[..k], NameOf(g));
  }

  /** A run that gets an old row with content may be killed so that the row is no longer saved. */
  lemma CutLoses(w: World, s0: Store, states: seq<Store>, kind: Kind, start: Time, limit: int, disk0: Disk, k: nat,
                 i: nat)
    requires w.NoCollisions() && Valid(w, s0) && Serves(w, s0, states, kind) && FirstNames(w, s0, kind, disk0)
    requires i < |s0.tables[kind]| && k < |Pages(states, kind, start, limit).0|
    requires Pages(states, kind, start, limit).0[k].data == Old(s0, kind, i).data != []
    ensures !HasSaved(w, CutAt(disk0, Pages(states, kind, start, limit).0, k), Old(s0, kind, i))
  {
    var full := Pages(states, kind, start, limit).0;
    var d := CutAt(disk0, full, k);
    assert full[k] in full;
    GotOld(w, s0, states, kind, start, limit, i, full[k]);
    if HasSaved(w, d, Old(s0, kind, i)) {
      var g :| HonestEntry(w, g) && Saved(d, g) && Covers(g, Old(s0, kind, i));
      NoOtherFile(w, s0, states, kind, start, limit, disk0, k, i, g);
    }
  }

  /**
   The exact condition on a run over an index whose lines stand: every crash leaves the directory up to date
   if and only if the run rewrites nothing with content that the recorded time vouches for.
  */
  lemma RunKeepsUpToDateIff(w: World, s0: Store, states: seq<Store>, kind: Kind, since: Time, fromLatest: bool,
                            limit: int, disk0: Disk)
    requires w.NoCollisions() && Valid(w, s0) && Serves(w, s0, states, kind)
    requires UpToDate(w, disk0, s0, kind, since) && FirstNames(w, s0, kind, disk0)
    requires LineStands(disk0.index, Pages(states, kind, StartOf(disk0, since, fromLatest), limit).0)
    ensures var start := StartOf(disk0, since, fromLatest);
            var full := Pages(states, kind, start, limit).0;
            (forall d | Midway(disk0, d, full, start) :: UpToDate(w, d, s0, kind, since))
            <==> RewritesNothing(disk0, s0, kind, full)
  {
    var start := StartOf(disk0, since, fromLatest);
    var full := Pages(states, kind, start, limit).0;
    if RewritesNothing(disk0, s0, kind, full) {
      forall d | Midway(disk0, d, full, start) ensures UpToDate(w, d, s0, kind, since) {
        CrashKeepsUpToDate(w, s0, states, kind, since, fromLatest, limit, disk0, d);
      }
    }
    if forall d | Midway(disk0, d, full, start) :: UpToDate(w, d, s0, kind, since) {
      forall i: nat, e | i < |s0.tables[kind]| && e in full && GotAgain(disk0, Old(s0, kind, i), e)
        ensures e.data == []
      {
        var k: nat :| k < |full| && full[k] == e;
        KilledInFile(disk0, full, start, k);
        OnlyEmptyAgain(w, s0, states, kind, since, start, limit, disk0, k, i);
      }
    }
  }

  lemma OnlyEmptyAgain(w: World, s0: Store, states: seq<Store>, kind: Kind, since: Time, start: Time, limit: int,
                       disk0: Disk, k: nat, i: nat)
    requires w.NoCollisions() && Valid(w, s0) && Serves(w, s0, states, kind) && FirstNames(w, s0, kind, disk0)
    requires start == since || disk0.latest == Some(start)
    requires i < |s0.tables[kind]| && k < |Pages(states, kind, start, limit).0|
    requires GotAgain(disk0, Old(s0, kind, i), Pages(states, kind, start, limit).0[k])
    requires UpToDate(w, CutAt(disk0, Pages(states, kind, start, limit).0, k), s0, kind, since)
    ensures Pages(states, kind, start, limit).0[k].data == []
  {
    var full := Pages(states, kind, start, limit).0;
    assert full[k] in full;
    GotOld(w, s0, states, kind, start, limit, i, full[k]);
    if full[k].data != [] {
      CutLoses(w, s0, states, kind, start, limit, disk0, k, i);
    }
  }

  /** What is lost below the recorded time stays lost in every run that resumes, ended or killed. */
  lemma LostStaysLost(w: World, s0: Store, states: seq<Store>, kind: Kind, limit: int, disk0: Disk, d: Disk, i: nat)
    requires w.NoCollisions() && Valid(w, s0) && Serves(w, s0, states, kind) && i < |s0.tables[kind]|
    requires disk0.latest.Some? && s0.tables[kind][i].createdAt <= disk0.latest.value
    requires Midway(disk0, d, Pages(states, kind, disk0.latest.value, limit).0, disk0.latest.value)
    requires !HasSaved(w, disk0, Old(s0, kind, i))
    ensures !HasSaved(w, d, Old(s0, kind, i))
  {
    var full := Pages(states, kind, disk0.latest.value, limit).0;
    if HasSaved(w, d, Old(s0, kind, i)) {
      var g :| HonestEntry(w, g) && Saved(d, g) && Covers(g, Old(s0, kind, i));
      RunNamesDiffer(w, s0, states, kind, disk0.latest.value, limit);
      forall m | 0 <= m < |full| ensures NameOf(full[m]) != NameOf(g) {
        assert full[m] in full;
        OldRowsUntouched(w, s0, states, kind, disk0.latest.value, limit, i, full[m]);
        if NameOf(full[m]) == NameOf(g) {
          NameTellsData(w, full[m], g);
        }
      }
      NotSavedBefore(disk0, d, full, disk0.latest.value, g);
    }
  }

  // ---------- many runs ----------

  /** One run over the directory, and the disk it leaves: at its end, or when it is killed. */
  datatype Attempt = Attempt(states: seq<Store>, fromLatest: bool, left: Disk)

  /** The disk that the n-th run finds, or that the last one has left. */
  function DiskAt(disk0: Disk, runs: seq<Attempt>, n: nat): Disk
    requires n <= |runs|
  {
    if n == 0 then disk0 else runs[n - 1].left
  }

  /** What a run over this disk gets. */
  function Gets(kind: Kind, since: Time, limit: int, disk: Disk, run: Attempt): seq<Entry> {
    Pages(run.states, kind, StartOf(disk, since, run.fromLatest), limit).0
  }

  ghost predicate Attempted(w: World, s0: Store, kind: Kind, since: Time, limit: int, disk: Disk, run: Attempt) {
    && Serves(w, s0, run.states, kind)
    && Midway(disk, run.left, Gets(kind, since, limit, disk, run), StartOf(disk, since, run.fromLatest))
  }

  /** The runs follow each other on the disk. */
  ghost predicate Attempts(w: World, s0: Store, kind: Kind, since: Time, limit: int, disk0: Disk, runs: seq<Attempt>) {
    forall n: nat | n < |runs| :: Attempted(w, s0, kind, since, limit, DiskAt(disk0, runs, n), runs[n])
  }

  /** A run that gets this does no harm: it rewrites nothing, and its lines stand. */
  ghost predicate Harmless(disk: Disk, s0: Store, kind: Kind, full: seq<Entry>) {
    RewritesNothing(disk, s0, kind, full) && LineStands(disk.index, full)
  }

  ghost predicate HarmlessRun(s0: Store, kind: Kind, since: Time, limit: int, disk: Disk, run: Attempt) {
    Harmless(disk, s0, kind, Gets(kind, since, limit, disk, run))
  }

  ghost predicate AllHarmless(s0: Store, kind: Kind, since: Time, limit: int, disk0: Disk, runs: seq<Attempt>) {
    forall n: nat | n < |runs| :: HarmlessRun(s0, kind, since, limit, DiskAt(disk0, runs, n), runs[n])
  }

  /** However many runs are killed, no record up to the recorded time is missing. */
  lemma CrashesLoseNothing(w: World, s0: Store, kind: Kind, since: Time, limit: int, disk0: Disk, runs: seq<Attempt>,
                           n: nat)
    requires w.NoCollisions() && Valid(w, s0) && n <= |runs|
    requires Attempts(w, s0, kind, since, limit, disk0, runs) && AllHarmless(s0, kind, since, limit, disk0, runs)
    requires UpToDate(w, disk0, s0, kind, since)
    ensures UpToDate(w, DiskAt(disk0, runs, n), s0, kind, since)
  {
    for m := 0 to n
      invariant UpToDate(w, DiskAt(disk0, runs, m), s0, kind, since)
    {
      var disk, run := DiskAt(disk0, runs, m), runs[m];
      assert Attempted(w, s0, kind, since, limit, disk, run);
      assert HarmlessRun(s0, kind, since, limit, disk, run);
      CrashKeepsUpToDate(w, s0, run.states, kind, since, run.fromLatest, limit, disk, run.left);
    }
  }

  lemma FirstNamesHold(w: World, s0: Store, kind: Kind, since: Time, limit: int, runs: seq<Attempt>, n: nat)
    requires w.NoCollisions() && Valid(w, s0) && n <= |runs| && Attempts(w, s0, kind, since, limit, BLANK, runs)
    ensures FirstNames(w, s0, kind, DiskAt(BLANK, runs, n))
  {
    for m := 0 to n
      invariant FirstNames(w, s0, kind, DiskAt(BLANK, runs, m))
    {
      var disk, run := DiskAt(BLANK, runs, m), runs[m];
      assert Attempted(w, s0, kind, since, limit, disk, run);
      var start := StartOf(disk, since, run.fromLatest);
      RunKeepsFirstNames(w, s0, run.states, kind, start, limit, disk, run.left);
    }
  }

  /**
   From an empty directory, after any number of harmless runs: whenever the next run over standing lines is
   killed, the directory stays up to date, if and only if that run rewrites nothing.
  */
  lemma NextRunIff(w: World, s0: Store, kind: Kind, since: Time, limit: int, runs: seq<Attempt>, states: seq<Store>,
                   fromLatest: bool)
    requires w.NoCollisions() && Valid(w, s0) && Serves(w, s0, states, kind)
    requires Attempts(w, s0, kind, since, limit, BLANK, runs) && AllHarmless(s0, kind, since, limit, BLANK, runs)
    requires var disk := DiskAt(BLANK, runs, |runs|);
             LineStands(disk.index, Pages(states, kind, StartOf(disk, since, fromLatest), limit).0)
    ensures var disk := DiskAt(BLANK, runs, |runs|);
            var start := StartOf(disk, since, fromLatest);
            var full := Pages(states, kind, start, limit).0;
            (forall d | Midway(disk, d, full, start) :: UpToDate(w, d, s0, kind, since))
            <==> RewritesNothing(disk, s0, kind, full)
  {
    var disk := DiskAt(BLANK, runs, |runs|);
    CrashesLoseNothing(w, s0, kind, since, limit, BLANK, runs, |runs|);
    FirstNamesHold(w, s0, kind, since, limit, runs, |runs|);
    RunKeepsUpToDateIff(w, s0, states, kind, since, fromLatest, limit, disk);
  }

  // ---------- a run that ends ----------

  /** The state after a run is one of the states of the run. */
  lemma EndIsMidway(disk0: Disk, states: seq<Store>, kind: Kind, start: Time, limit: int)
    ensures var full := Pages(states, kind, start, limit).0;
            MidwayAt(disk0, Downloaded(disk0, states, kind, start, limit), full, start, |full|, |full|, |full|)
    ensures Midway(disk0, Downloaded(disk0, states, kind, start, limit), Pages(states, kind, start, limit).0, start)
  {
    var full := Pages(states, kind, start, limit).0;
    assert full[..|full|] == full && RecordsOf(full)[..|full|] == RecordsOf(full);
    assert MidwayAt(disk0, Downloaded(disk0, states, kind, start, limit), full, start, |full|, |full|, |full|);
  }

  lemma EndsComplete(w: World, s0: Store, kind: Kind, since: Time, limit: int, disk: Disk, states: seq<Store>,
                     fromLatest: bool, i: nat)
    requires w.NoCollisions() && Valid(w, s0) && UpToDate(w, disk, s0, kind, since)
    requires var start := StartOf(disk, since, fromLatest);
             var (full, ended) := Pages(states, kind, start, limit);
             Serves(w, s0, states, kind) && LineStands(disk.index, full) && ended
    requires i < |s0.tables[kind]| && s0.tables[kind][i].createdAt > since
    ensures HasSaved(w, Downloaded(disk, states, kind, StartOf(disk, since, fromLatest), limit), Old(s0, kind, i))
  {
    var start := StartOf(disk, since, fromLatest);
    var full := Pages(states, kind, start, limit).0;
    var d := Downloaded(disk, states, kind, start, limit);
    EndIsMidway(disk, states, kind, start, limit);
    if s0.tables[kind][i].createdAt <= start {
      forall e | e in full ensures e.data != Old(s0, kind, i).data {
        OldRowsUntouched(w, s0, states, kind, start, limit, i, e);
      }
      OldRowKept(w, s0, states, kind, start, limit, disk, d, i);
    } else {
      var m := IsGot(w, s0, states, kind, start, limit, i);
      PagesSound(states, kind, start, limit);
      assert full[..|full|] == full && full[m] in full;
      NewRowSaved(w, s0, states, kind, start, limit, disk, d, |full|, |full|, |full|, i);
    }
  }

  /**
   Crash, resume, crash, resume, and so on: once a run ends, the directory has every record newer than
   `since` that was in the table when the first run began.
  */
  lemma ResumingEndsComplete(w: World, s0: Store, kind: Kind, since: Time, limit: int, runs: seq<Attempt>,
                             states: seq<Store>, fromLatest: bool, i: nat)
    requires w.NoCollisions() && Valid(w, s0)
    requires Attempts(w, s0, kind, since, limit, BLANK, runs) && AllHarmless(s0, kind, since, limit, BLANK, runs)
    requires var disk := DiskAt(BLANK, runs, |runs|);
             var (full, ended) := Pages(states, kind, StartOf(disk, since, fromLatest), limit);
             Serves(w, s0, states, kind) && LineStands(disk.index, full) && ended
    requires i < |s0.tables[kind]| && s0.tables[kind][i].createdAt > since
    ensures var disk := DiskAt(BLANK, runs, |runs|);
            HasSaved(w, Downloaded(disk, states, kind, StartOf(disk, since, fromLatest), limit), Old(s0, kind, i))
  {
    CrashesLoseNothing(w, s0, kind, since, limit, BLANK, runs, |runs|);
    EndsComplete(w, s0, kind, since, limit, DiskAt(BLANK, runs, |runs|), states, fromLatest, i);
  }

  /** A run saves all it gets, exactly when the lines of it stand. */
  lemma SavesAllIff(w: World, states: seq<Store>, s0: Store, kind: Kind, start: Time, limit: int, disk0: Disk)
    requires w.NoCollisions() && Serves(w, s0, states, kind)
    ensures var got := Pages(states, kind, start, limit).0;
            (forall e | e in got :: Saved(Downloaded(disk0, states, kind, start, limit), e))
            <==> LineStands(disk0.index, got)
  {
    var got := Pages(states, kind, start, limit).0;
    var d := Downloaded(disk0, states, kind, start, limit);
    RunNamesDiffer(w, s0, states, kind, start, limit);
    EndIsMidway(disk0, states, kind, start, limit);
    if LineStands(disk0.index, got) {
      forall e | e in got ensures Saved(d, e) {
        var i :| 0 <= i < |got| && got[i] == e;
        RunSaved(w, disk0, d, got, start, |got|, |got|, |got|, i);
      }
    } else {
      var e :| e in got && !IsRead(disk0.index.lines, RecordOf(e));
      if Saved(d, e) {
        ReadBefore(disk0.index, RecordsOf(got), RecordOf(e));
      }
    }
  }

  /**
   The loss in general: a run that gets again, with content, what the recorded time vouches for may be killed so
   that the row is lost, and a run that resumes then, however it ends, never brings it back.
  */
  lemma StartingOverLosesAny(w: World, s0: Store, states: seq<Store>, kind: Kind, start: Time, limit: int, disk0: Disk,
                             k: nat, i: nat, later: seq<Store>)
    requires w.NoCollisions() && Valid(w, s0) && Serves(w, s0, states, kind) && Serves(w, s0, later, kind)
    requires FirstNames(w, s0, kind, disk0) && i < |s0.tables[kind]| && k < |Pages(states, kind, start, limit).0|
    requires GotAgain(disk0, Old(s0, kind, i), Pages(states, kind, start, limit).0[k]) && Old(s0, kind, i).data != []
    ensures var full := Pages(states, kind, start, limit).0;
            var left := CutAt(disk0, full, k);
            && Midway(disk0, left, full, start) && StartOf(left, start, true) == disk0.latest.value
            && !HasSaved(w, Downloaded(left, later, kind, disk0.latest.value, limit), Old(s0, kind, i))
  {
    var full := Pages(states, kind, start, limit).0;
    var left := CutAt(disk0, full, k);
    KilledInFile(disk0, full, start, k);
    CutLoses(w, s0, states, kind, start, limit, disk0, k, i);
    EndIsMidway(left, later, kind, disk0.latest.value, limit);
    LostStaysLost(w, s0, later, kind, limit, left, Downloaded(left, later, kind, disk0.latest.value, limit), i);
  }
}

/**
 The states that a download meets are those of one server with one history: its list requests fall between
 the steps of the other clients.
*/
module Live {
  import opened Types
  import opened Store
  import opened Invariant
  import opened Catalog
  import opened History
  import opened Submissions
  import opened Listing
  import R = Restore
  import opened Server
  import U = Uploads
  import K = Skipping

  // ---------- creation times over a history ----------

  /** The clock readings of the PUTs of a history. */
  function Times(steps: seq<Step>): set<Time> {
    set i | 0 <= i < |steps| && steps[i].PutStep? :: steps[i].request.now
  }

  ghost predicate DistinctClock(steps: seq<Step>) {
    forall i, j | 0 <= i < j < |steps| && steps[i].PutStep? && steps[j].PutStep? ::
      steps[i].request.now != steps[j].request.now
  }

  /** Each row was created at one of these times, and no two rows of a table at the same one. */
  ghost predicate StampedRows(rows: seq<Row>, times: set<Time>) {
    DistinctTimes(rows) && forall i | 0 <= i < |rows| :: rows[i].createdAt in times
  }

  ghost predicate Stamped(s: Store, times: set<Time>) {
    forall kind :: StampedRows(s.tables[kind], times)
  }

  /** At most one row is added, and it carries the time. */
  ghost predicate AppendsAtMost(rows: seq<Row>, rows': seq<Row>, now: Time) {
    |rows'| == |rows| || (|rows'| == |rows| + 1 && rows'[|rows|].createdAt == now)
  }

  lemma PutAppends(w: World, s: Store, r: Request, kind: Kind)
    requires Valid(w, s) && w.NoCollisions() && w.universe(r.bytes)
    ensures AppendsAtMost(s.tables[kind], Put(w, s, r).0.tables[kind], r.now)
  {
    var digest := ParsePutParams(w, r.bytes, r.param);
    if digest.Ok? {
      RegisterValid(w, s, digest.value, r.bytes);
      var (s', id) := Register(w, s, digest.value, r.bytes);
      EnsureRowAppends(w, s', r.kind, id.value, r.version, r.now, kind);
    }
  }

  lemma EnsureRowAppends(w: World, s: Store, k: Kind, dataId: nat, version: nat, now: Time, kind: Kind)
    requires dataId < |s.data|
    ensures AppendsAtMost(s.tables[kind], EnsureRow(w, s, k, dataId, version, now).0.tables[kind], now)
  {
  }

  lemma AppendStamped(rows: seq<Row>, rows': seq<Row>, now: Time, times: set<Time>)
    requires StampedRows(rows, times) && GrowsRows(rows, rows') && AppendsAtMost(rows, rows', now) && now !in times
    ensures StampedRows(rows', times + {now})
  {
    forall i | 0 <= i < |rows| ensures rows'[i].createdAt == rows[i].createdAt {
      assert rows'[i] == rows[i].(version := rows'[i].version);
    }
  }

  lemma StepStamped(w: World, s: Store, step: Step, times: set<Time>)
    requires Valid(w, s) && w.NoCollisions() && (step.PutStep? ==> w.universe(step.request.bytes))
    requires Stamped(s, times) && (step.PutStep? ==> step.request.now !in times)
    ensures Stamped(Do(w, s, step), times + Times([step]))
  {
    match step
    case PutStep(r) =>
      PutValid(w, s, r);
      assert [step][0] == step;
      assert Times([step]) == {r.now};
      forall kind ensures StampedRows(Put(w, s, r).0.tables[kind], times + {r.now}) {
        PutAppends(w, s, r, kind);
        AppendStamped(s.tables[kind], Put(w, s, r).0.tables[kind], r.now, times);
      }
    case ReprocessStep(kind, version) =>
      assert Times([step]) == {};
      forall k ensures StampedRows(Refreshed(s, kind, version).tables[k], times) {
        assert StampedRows(s.tables[k], times);
      }
      assert times + {} == times;
  }

  lemma {:induction false} RunStamped(w: World, s: Store, steps: seq<Step>, times: set<Time>)
    requires Valid(w, s) && w.NoCollisions() && InUniverse(w, steps)
    requires Stamped(s, times) && DistinctClock(steps) && times !! Times(steps)
    ensures Stamped(Run(w, s, steps), times + Times(steps))
    decreases steps
  {
    if steps == [] {
      assert times + Times(steps) == times;
    } else {
      var first, rest := [steps[0]], steps[1..];
      assert steps == first + rest;
      forall t ensures t in Times(steps) <==> t in Times(first) || t in Times(rest) {
        if t in Times(rest) {
          var i :| 0 <= i < |rest| && rest[i].PutStep? && rest[i].request.now == t;
          assert steps[i + 1] == rest[i];
        }
        assert first[0] == steps[0];
      }
      assert Times(steps) == Times(first) + Times(rest);
      forall t | t in Times(first) ensures t !in Times(rest) {
      }
      StepKeepsTheStore(w, s, steps[0]);
      assert steps[0].PutStep? ==> steps[0].request.now in Times(steps);
      StepStamped(w, s, steps[0], times);
      RunStamped(w, Do(w, s, steps[0]), rest, times + Times(first));
      assert times + Times(first) + Times(rest) == times + Times(steps);
    }
  }

  // ---------- one timeline ----------

  lemma {:induction false} RunSplits(w: World, s: Store, a: seq<Step>, b: seq<Step>)
    ensures Run(w, s, a + b) == Run(w, Run(w, s, a), b)
    decreases a
  {
    if a == [] {
      assert a + b == b;
    } else {
      assert (a + b)[1..] == a[1..] + b;
      RunSplits(w, Do(w, s, a[0]), a[1..], b);
    }
  }

  /** The store after the first n steps. */
  function StateAt(w: World, steps: seq<Step>, n: nat): Store
    requires n <= |steps|
  {
    Run(w, EMPTY, steps[..n])
  }

  lemma TimelineGrows(w: World, steps: seq<Step>, m: nat, n: nat)
    requires w.NoCollisions() && InUniverse(w, steps) && m <= n <= |steps|
    ensures Grows(StateAt(w, steps, m), StateAt(w, steps, n))
  {
    assert steps[..n] == steps[..m] + steps[m..n];
    RunSplits(w, EMPTY, steps[..m], steps[m..n]);
    ReachableIsValid(w, steps[..m]);
    EveryRunKeepsTheStore(w, StateAt(w, steps, m), steps[m..n]);
  }

  /** A clock that never reads the same twice is enough for distinct creation times in every table. */
  lemma ClockTimesTables(w: World, steps: seq<Step>, n: nat, start: Time)
    requires w.NoCollisions() && InUniverse(w, steps) && n <= |steps|
    requires DistinctClock(steps) && forall t | t in Times(steps) :: t > start
    ensures R.Timed(StateAt(w, steps, n), start)
  {
    ReachableIsValid(w, steps[..n]);
    EmptyIsValid(w);
    assert Stamped(EMPTY, {});
    RunStamped(w, EMPTY, steps[..n], {});
    var s := StateAt(w, steps, n);
    forall kind
      ensures DistinctTimes(s.tables[kind])
      ensures forall i | 0 <= i < |s.tables[kind]| :: s.tables[kind][i].createdAt > start
    {
      assert StampedRows(s.tables[kind], {} + Times(steps[..n]));
      forall t | t in Times(steps[..n]) ensures t in Times(steps) {
        var i :| 0 <= i < n && steps[..n][i].PutStep? && steps[..n][i].request.now == t;
        assert steps[i] == steps[..n][i];
      }
    }
  }

  /** The list requests for a type meet the server after `at(kind)[n]` of its steps;
       types are taken in reverse dependency order. */
  ghost predicate Observed(w: World, steps: seq<Step>, at: Kind -> seq<nat>, runs: Kind -> seq<Store>) {
    && (forall kind :: |runs(kind)| == |at(kind)|)
    && (forall kind, n | 0 <= n < |at(kind)| ::
         at(kind)[n] <= |steps| && runs(kind)[n] == StateAt(w, steps, at(kind)[n]))
    && (forall m, n | 0 <= m < |at(Event)| && 0 <= n < |at(Manifest)| :: at(Event)[m] <= at(Manifest)[n])
    && (forall m, n | 0 <= m < |at(Manifest)| && 0 <= n < |at(Bottle)| :: at(Manifest)[m] <= at(Bottle)[n])
    && (forall m, n | 0 <= m < |at(Bottle)| && 0 <= n < |at(Blob)| :: at(Bottle)[m] <= at(Blob)[n])
  }

  ghost predicate OrderedRuns(before: seq<Store>, after: seq<Store>) {
    forall m, n | 0 <= m < |before| && 0 <= n < |after| :: Grows(before[m], after[n])
  }

  lemma LaterTypeGrows(w: World, steps: seq<Step>, at: Kind -> seq<nat>, runs: Kind -> seq<Store>, k: Kind, k': Kind)
    requires w.NoCollisions() && InUniverse(w, steps) && Observed(w, steps, at, runs)
    requires forall m, n | 0 <= m < |at(k)| && 0 <= n < |at(k')| :: at(k)[m] <= at(k')[n]
    ensures OrderedRuns(runs(k), runs(k'))
  {
    forall m, n | 0 <= m < |runs(k)| && 0 <= n < |runs(k')| ensures Grows(runs(k)[m], runs(k')[n]) {
      TimelineGrows(w, steps, at(k)[m], at(k')[n]);
    }
  }

  /** Whatever the other clients do, what a download meets is what the closure theorem asks for. */
  lemma ObservedIsLive(w: World, steps: seq<Step>, at: Kind -> seq<nat>, runs: Kind -> seq<Store>, start: Time)
    requires w.NoCollisions() && InUniverse(w, steps) && Observed(w, steps, at, runs)
    requires forall kind, n | 0 <= n < |runs(kind)| :: R.Timed(runs(kind)[n], start)
    ensures R.LiveRuns(w, runs, start)
  {
    forall kind, n | 0 <= n < |runs(kind)| ensures R.LiveState(w, runs(kind)[n], start) {
      ReachableIsValid(w, steps[..at(kind)[n]]);
    }
    LaterTypeGrows(w, steps, at, runs, Event, Manifest);
    LaterTypeGrows(w, steps, at, runs, Manifest, Bottle);
    LaterTypeGrows(w, steps, at, runs, Bottle, Blob);
  }

  /**
   The live snapshot over all histories: whatever PUTs, failed ones and reprocessing included, fall between
   the list requests, what the download saves is closed under dependencies, and any server accepts it in
   dependency order if the bottles' artifacts were stored as blobs.
  */
  lemma LiveSnapshot(w: World, c: Catalog, steps: seq<Step>, at: Kind -> seq<nat>, runs: Kind -> seq<Store>,
                     start: Time, limit: int)
    requires w.NoCollisions() && InUniverse(w, steps) && Observed(w, steps, at, runs) && Sound(w, c)
    requires forall kind, n | 0 <= n < |runs(kind)| :: R.Timed(runs(kind)[n], start)
    requires R.AllEnded(runs, start, limit)
    ensures R.Closed(w, R.SnapshotOf(runs, start, limit))
    ensures (forall n | 0 <= n < |runs(Bottle)| :: R.ArtifactsAreBlobs(runs(Bottle)[n])) ==>
              Accepts(w, c, R.SnapshotAsks(R.SnapshotOf(runs, start, limit)))
  {
    ObservedIsLive(w, steps, at, runs, start);
    R.LiveDownloadIsClosed(w, runs, start, limit);
    if forall n | 0 <= n < |runs(Bottle)| :: R.ArtifactsAreBlobs(runs(Bottle)[n]) {
      R.LiveMirrorIsAccepted(w, c, runs, start, limit);
    }
  }

  lemma QuietRoundTrip(w: World, s: Store, runs: Kind -> seq<Store>, start: Time, limit: int)
    requires w.NoCollisions() && R.LiveState(w, s, start) && R.Quiet(s, runs) && limit >= 1 && R.ArtifactsAreBlobs(s)
    ensures var asks := R.SnapshotAsks(R.SnapshotOf(runs, start, limit));
            Accepts(w, NOTHING, asks) && SubmitAll(w, NOTHING, asks).0 == R.MirrorImage(Abs(s))
  {
    R.QuietDownload(w, s, runs, start, limit);
    assert Sound(w, NOTHING);
    R.LiveMirrorIsAccepted(w, NOTHING, runs, start, limit);
    R.MirrorRoundTrip(w, s, runs, start, limit);
  }

  /**
   The round trip over all histories: a store that any history led to, with distinct creation times in each
   table, is reproduced by downloading it from scratch and uploading it to an empty server, if its artifacts
   were stored as blobs.
  */
  lemma ReachableRoundTrip(w: World, steps: seq<Step>, runs: Kind -> seq<Store>, start: Time, limit: int)
    requires w.NoCollisions() && InUniverse(w, steps) && limit >= 1 && R.Timed(Run(w, EMPTY, steps), start)
    requires R.Quiet(Run(w, EMPTY, steps), runs) && R.ArtifactsAreBlobs(Run(w, EMPTY, steps))
    ensures var asks := R.SnapshotAsks(R.SnapshotOf(runs, start, limit));
            && Accepts(w, NOTHING, asks)
            && SubmitAll(w, NOTHING, asks).0 == R.MirrorImage(Abs(Run(w, EMPTY, steps)))
  {
    ReachableIsValid(w, steps);
    QuietRoundTrip(w, Run(w, EMPTY, steps), runs, start, limit);
  }

  // ---------- the two commands ----------

  /** Copying a busy server whose artifacts are blobs succeeds, whatever the target holds already. */
  method CopyLive(w: World, runs: Kind -> seq<Store>, start: Time, limit: int, db: Database, target: U.Target)
    returns (downloaded: bool, uploaded: bool)
    requires w.NoCollisions() && Valid(w, db.State()) && R.LiveRuns(w, runs, start) && R.AllEnded(runs, start, limit)
    requires forall n | 0 <= n < |runs(Bottle)| :: R.ArtifactsAreBlobs(runs(Bottle)[n])
    modifies db
    ensures Valid(w, db.State()) && downloaded && uploaded
    ensures Abs(db.State()) == SubmitAll(w, Abs(old(db.State())), R.SnapshotAsks(R.SnapshotOf(runs, start, limit))).0
  {
    LiveRunsAreValid(w, runs, start);
    ValidIsSound(w, db.State());
    R.LiveMirrorIsAccepted(w, Abs(db.State()), runs, start, limit);
    downloaded, uploaded := U.Copy(w, runs, start, limit, db, target, false);
  }

  /**
   Copying a busy server and skipping what misses something always succeeds. Of the bottles exactly those that
   find their artifacts are copied, and of the rest exactly what finds what it depends on.
  */
  method CopySkipping(w: World, runs: Kind -> seq<Store>, start: Time, limit: int, db: Database, target: U.Target)
    returns (downloaded: bool, uploaded: bool)
    requires w.NoCollisions() && Valid(w, db.State()) && R.LiveRuns(w, runs, start) && R.AllEnded(runs, start, limit)
    modifies db
    ensures Valid(w, db.State()) && downloaded && uploaded
    ensures var m := R.SnapshotOf(runs, start, limit);
            Abs(db.State()).items
            == Abs(old(db.State())).items + K.Kept(w, Abs(old(db.State())), m, Abs(db.State()))
  {
    LiveRunsAreValid(w, runs, start);
    ValidIsSound(w, db.State());
    R.LiveDownloadIsClosed(w, runs, start, limit);
    LiveBottlesParse(w, runs, start, limit);
    K.SkippingRestores(w, Abs(db.State()), R.SnapshotOf(runs, start, limit));
    downloaded, uploaded := U.Copy(w, runs, start, limit, db, target, true);
  }

  lemma LiveBottlesParse(w: World, runs: Kind -> seq<Store>, start: Time, limit: int)
    requires R.LiveRuns(w, runs, start)
    ensures K.BottlesParse(w, R.SnapshotOf(runs, start, limit))
  {
    forall e | e in R.SnapshotOf(runs, start, limit).bottles ensures w.parseBottle(e.data).Parsed? {
      var n := R.StateOfEntry(w, runs, start, limit, Bottle, e);
      var _ := R.RowOfEntry(w, runs(Bottle)[n], Bottle, e);
    }
  }

  lemma LiveRunsAreValid(w: World, runs: Kind -> seq<Store>, start: Time)
    requires R.LiveRuns(w, runs, start)
    ensures forall kind, n | 0 <= n < |runs(kind)| :: Valid(w, runs(kind)[n])
  {
    forall kind, n | 0 <= n < |runs(kind)| ensures Valid(w, runs(kind)[n]) {
      assert R.LiveState(w, runs(kind)[n], start);
    }
  }

  lemma EmptyIsNothing()
    ensures Abs(EMPTY) == NOTHING
  {
    assert Items(EMPTY) == {};
  }

  /** Copying a quiescent server into an empty one reproduces every object with all its digests. */
  method CopyQuiet(w: World, ghost s: Store, runs: Kind -> seq<Store>, start: Time, limit: int, db: Database,
                   target: U.Target)
    returns (downloaded: bool, uploaded: bool)
    requires w.NoCollisions() && R.LiveState(w, s, start) && R.Quiet(s, runs) && limit >= 1 && R.ArtifactsAreBlobs(s)
    requires db.State() == EMPTY
    modifies db
    ensures Valid(w, db.State()) && downloaded && uploaded
    ensures Abs(db.State()) == R.MirrorImage(Abs(s))
  {
    EmptyIsValid(w);
    EmptyIsNothing();
    R.QuietDownload(w, s, runs, start, limit);
    QuietRoundTrip(w, s, runs, start, limit);
    LiveRunsAreValid(w, runs, start);
    downloaded, uploaded := U.Copy(w, runs, start, limit, db, target, false);
  }
}

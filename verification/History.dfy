/**
 Whole histories of a store: PUTs of any client in any order, accepted or not, and reprocessing by
 servers of any version in between.
*/
module History {
  import opened Types
  import opened Store
  import opened Invariant
  import opened Catalog
  import opened Submissions
  import opened Puts

  datatype Step = PutStep(request: Request) | ReprocessStep(kind: Kind, version: nat)

  /** What reprocessing a table of a valid store leaves: the stale rows carry the new version. */
  function Refreshed(s: Store, kind: Kind, version: nat): Store {
    var rows := s.tables[kind];
    s.(tables := s.tables[kind := seq(|rows|, i requires 0 <= i < |rows| =>
      if rows[i].version < version then rows[i].(version := version) else rows[i])])
  }

  function Do(w: World, s: Store, step: Step): Store {
    match step
    case PutStep(r) => Put(w, s, r).0
    case ReprocessStep(kind, version) => Refreshed(s, kind, version)
  }

  function Run(w: World, s: Store, steps: seq<Step>): Store
    decreases steps
  {
    if steps == [] then s else Run(w, Do(w, s, steps[0]), steps[1..])
  }

  ghost predicate InUniverse(w: World, steps: seq<Step>) {
    forall i :: 0 <= i < |steps| && steps[i].PutStep? ==> w.universe(steps[i].request.bytes)
  }

  // ---------- invariance over all histories ----------

  lemma RefreshedValid(w: World, s: Store, kind: Kind, version: nat)
    requires Valid(w, s)
    ensures Valid(w, Refreshed(s, kind, version)) && Grows(s, Refreshed(s, kind, version))
    ensures Abs(Refreshed(s, kind, version)) == Abs(s)
  {
    var s' := Refreshed(s, kind, version);
    forall k ensures GrowsRows(s.tables[k], s'.tables[k]) {
    }
    forall k ensures ValidRows(w, s', k) {
      assert ValidRows(w, s, k);
      forall i | 0 <= i < |s'.tables[k]| ensures ValidRow(w, s', k, s'.tables[k][i]) {
        ValidRowStable(w, s, s', k, s.tables[k][i], s'.tables[k][i]);
      }
    }
    assert Items(s') == Items(s);
  }

  lemma StepKeepsTheStore(w: World, s: Store, step: Step)
    requires Valid(w, s) && w.NoCollisions() && (step.PutStep? ==> w.universe(step.request.bytes))
    ensures Valid(w, Do(w, s, step)) && Grows(s, Do(w, s, step))
  {
    match step
    case PutStep(r) => PutValid(w, s, r);
    case ReprocessStep(kind, version) => RefreshedValid(w, s, kind, version);
  }

  /** Every store that any history leads to is valid, and has kept all rows of the store it began with. */
  lemma {:induction false} EveryRunKeepsTheStore(w: World, s: Store, steps: seq<Step>)
    requires Valid(w, s) && w.NoCollisions() && InUniverse(w, steps)
    ensures Valid(w, Run(w, s, steps)) && Grows(s, Run(w, s, steps))
    decreases steps
  {
    if steps == [] {
      assert forall kind :: GrowsRows(s.tables[kind], s.tables[kind]);
    } else {
      var s' := Do(w, s, steps[0]);
      StepKeepsTheStore(w, s, steps[0]);
      EveryRunKeepsTheStore(w, s', steps[1..]);
      GrowsTransitive(s, s', Run(w, s, steps));
    }
  }

  /** In particular every store reachable from the empty one is valid. */
  lemma ReachableIsValid(w: World, steps: seq<Step>)
    requires w.NoCollisions() && InUniverse(w, steps)
    ensures Valid(w, Run(w, EMPTY, steps))
  {
    EmptyIsValid(w);
    EveryRunKeepsTheStore(w, EMPTY, steps);
  }

  // ---------- what validity says of the rows ----------

  lemma ManifestLinks(w: World, s: Store, m: nat)
    requires Valid(w, s) && m < |s.tables[Manifest]|
    ensures var row := s.tables[Manifest][m];
            && row.detail.ManifestDetail? && row.detail.bottleId < |s.tables[Bottle]|
            && row.dataId < |s.data|
            && w.parseManifest(s.data[row.dataId].raw)
               == Parsed(ManifestDoc(row.detail.bottleDigest, row.detail.layers))
            && var bottle := s.tables[Bottle][row.detail.bottleId];
            && DigestRow(bottle.dataId, row.detail.bottleDigest) in s.digests
            && bottle.detail.BottleDetail?
            && |bottle.detail.doc.parts| == |row.detail.layers|
  {
    assert ValidRows(w, s, Manifest) && ValidRows(w, s, Bottle);
    var row := s.tables[Manifest][m];
    assert ValidRow(w, s, Manifest, row);
    assert ValidRow(w, s, Bottle, s.tables[Bottle][row.detail.bottleId]);
    var i := IndexOfDigest(s.digests, row.detail.bottleDigest).value;
    assert s.digests[i] in s.digests;
  }

  /** An event's prejoined bottle is the bottle of its manifest, under the digest the manifest uses. */
  lemma EventLinks(w: World, s: Store, e: nat)
    requires Valid(w, s) && e < |s.tables[Event]|
    ensures var row := s.tables[Event][e];
            && row.detail.EventDetail? && row.detail.manifestId < |s.tables[Manifest]|
            && row.dataId < |s.data| && w.parseEvent(s.data[row.dataId].raw) == Parsed(row.detail.event)
            && row.detail.manifestDigest == row.detail.event.manifest
            && var manifest := s.tables[Manifest][row.detail.manifestId];
            && DigestRow(manifest.dataId, row.detail.manifestDigest) in s.digests
            && manifest.detail.ManifestDetail?
            && row.detail.eventBottleId == manifest.detail.bottleId
            && row.detail.eventBottleDigest == manifest.detail.bottleDigest
            && row.detail.eventBottleId < |s.tables[Bottle]|
            && DigestRow(s.tables[Bottle][row.detail.eventBottleId].dataId, row.detail.eventBottleDigest) in s.digests
  {
    assert ValidRows(w, s, Event);
    var row := s.tables[Event][e];
    assert ValidRow(w, s, Event, row);
    var i := IndexOfDigest(s.digests, row.detail.manifestDigest).value;
    assert s.digests[i] in s.digests;
    ManifestLinks(w, s, row.detail.manifestId);
  }

  lemma BottleLinks(w: World, s: Store, b: nat)
    requires Valid(w, s) && b < |s.tables[Bottle]|
    ensures var row := s.tables[Bottle][b];
            && row.dataId < |s.data|
            && row.detail.BottleDetail?
            && w.parseBottle(s.data[row.dataId].raw) == Parsed(row.detail.doc)
            && |row.detail.artifactData| == |row.detail.doc.artifacts|
            && forall i | 0 <= i < |row.detail.doc.artifacts| ::
                 DigestRow(row.detail.artifactData[i], row.detail.doc.artifacts[i]) in s.digests
  {
    assert ValidRows(w, s, Bottle);
    var row := s.tables[Bottle][b];
    assert ValidRow(w, s, Bottle, row);
    var artifacts := row.detail.doc.artifacts;
    MissingIff(s.digests, artifacts);
    forall i | 0 <= i < |artifacts| ensures DigestRow(row.detail.artifactData[i], artifacts[i]) in s.digests {
      assert artifacts[i] in artifacts;
      assert FindAlias(s.digests, artifacts[i]).Some?;
      var j := IndexOfDigest(s.digests, artifacts[i]).value;
      assert s.digests[j] in s.digests;
    }
  }

  // ---------- stable reads ----------

  lemma GetIff(w: World, s: Store, kind: Kind, digest: Digest, bytes: Bytes)
    requires Valid(w, s)
    ensures Get(s, kind, digest) == Some(bytes) <==> Stored(Abs(s), kind, digest) && Abs(s).aliases[digest] == bytes
  {
    LookupAgrees(w, s, kind, digest);
  }

  /** What a GET once returned is returned for ever, and hashes to the digest asked for. */
  lemma StableReads(w: World, s: Store, steps: seq<Step>, kind: Kind, digest: Digest, bytes: Bytes)
    requires Valid(w, s) && w.NoCollisions() && InUniverse(w, steps)
    requires Get(s, kind, digest) == Some(bytes)
    ensures Get(Run(w, s, steps), kind, digest) == Some(bytes)
    ensures digest == w.DigestOf(digest.alg, bytes)
  {
    var s' := Run(w, s, steps);
    EveryRunKeepsTheStore(w, s, steps);
    GrowthExtends(w, s, s');
    GetIff(w, s, kind, digest, bytes);
    GetIff(w, s', kind, digest, bytes);
    ValidIsSound(w, s);
  }

  /** A PUT that is not refused can be read back under the digest it asks for, and it leaves that alias either way. */
  lemma PutThenGet(w: World, s: Store, r: Request, digest: Digest)
    requires Valid(w, s) && w.NoCollisions() && w.universe(r.bytes) && Asks(w, r, digest)
    ensures var (s', answer) := Put(w, s, r);
            && (Get(s', r.kind, digest) == Some(r.bytes) <==> !answer.Failed?)
            && FindAlias(s'.digests, digest).Some?
  {
    var s' := Put(w, s, r).0;
    AskedIsParsed(w, r, digest);
    PutRefines(w, s, r);
    PutValid(w, s, r);
    SubmittedIsStored(w, Abs(s), r.kind, digest, r.bytes);
    GetIff(w, s', r.kind, digest, r.bytes);
    AliasesExact(s', digest);
  }

  // ---------- confluence ----------

  function PutAll(w: World, s: Store, rs: seq<Request>): Store
    decreases rs
  {
    if rs == [] then s else PutAll(w, Put(w, s, rs[0]).0, rs[1..])
  }

  predicate AllAccepted(w: World, s: Store, rs: seq<Request>)
    decreases rs
  {
    rs != [] ==> !Put(w, s, rs[0]).1.Failed? && AllAccepted(w, Put(w, s, rs[0]).0, rs[1..])
  }

  /** What a PUT submits, once its query parameters are understood. */
  function AskOf(w: World, r: Request): Ask {
    var digest := ParsePutParams(w, r.bytes, r.param);
    Ask(r.kind, if digest.Ok? then digest.value else w.DigestOf(CANONICAL, r.bytes), r.bytes)
  }

  function AsksOf(w: World, rs: seq<Request>): (asks: seq<Ask>)
    ensures |asks| == |rs| && forall i :: 0 <= i < |rs| ==> asks[i] == AskOf(w, rs[i])
  {
    seq(|rs|, i requires 0 <= i < |rs| => AskOf(w, rs[i]))
  }

  /** What a PUT submits: its bytes, under the digest it asks for. */
  lemma SubmitsWhatItAsks(w: World, r: Request, d: Digest)
    requires Asks(w, r, d)
    ensures AskOf(w, r) == Ask(r.kind, d, r.bytes)
  {
    AskedIsParsed(w, r, d);
  }

  lemma AsksAreHonest(w: World, rs: seq<Request>)
    requires forall i | 0 <= i < |rs| :: w.universe(rs[i].bytes)
    ensures AllHonest(w, AsksOf(w, rs))
  {
  }

  lemma AcceptedPutIsAsk(w: World, s: Store, r: Request)
    requires Valid(w, s) && w.NoCollisions() && w.universe(r.bytes) && !Put(w, s, r).1.Failed?
    ensures var a := AskOf(w, r);
            Submit(w, Abs(s), a.kind, a.digest, a.bytes) == (Abs(Put(w, s, r).0), Put(w, s, r).1)
  {
    PutRefines(w, s, r);
  }

  lemma AsksFromFirst(w: World, c: Catalog, c': Catalog, rs: seq<Request>)
    requires rs != []
    requires var a := AskOf(w, rs[0]);
             var (c1, answer) := Submit(w, c, a.kind, a.digest, a.bytes); c1 == c' && !answer.Failed?
    ensures SubmitAll(w, c, AsksOf(w, rs)) == SubmitAll(w, c', AsksOf(w, rs[1..]))
  {
    assert AsksOf(w, rs)[1..] == AsksOf(w, rs[1..]);
  }

  lemma {:induction false} PutAllRefines(w: World, s: Store, rs: seq<Request>)
    requires Valid(w, s) && w.NoCollisions() && (forall i | 0 <= i < |rs| :: w.universe(rs[i].bytes))
    requires AllAccepted(w, s, rs)
    ensures Accepts(w, Abs(s), AsksOf(w, rs))
    ensures Abs(PutAll(w, s, rs)) == SubmitAll(w, Abs(s), AsksOf(w, rs)).0
    decreases rs
  {
    if rs != [] {
      AcceptedPutIsAsk(w, s, rs[0]);
      PutValid(w, s, rs[0]);
      PutAllRefines(w, Put(w, s, rs[0]).0, rs[1..]);
      AsksFromFirst(w, Abs(s), Abs(Put(w, s, rs[0]).0), rs);
    }
  }

  /**
   Confluence: any two lists of PUTs that submit the same objects under the same digests, in whatever
   order and however often, lead to the same catalog when none of their PUTs is refused.
  */
  lemma Confluence(w: World, s: Store, rs0: seq<Request>, rs1: seq<Request>)
    requires Valid(w, s) && w.NoCollisions()
    requires forall i | 0 <= i < |rs0| :: w.universe(rs0[i].bytes)
    requires forall i | 0 <= i < |rs1| :: w.universe(rs1[i].bytes)
    requires AllAccepted(w, s, rs0) && AllAccepted(w, s, rs1)
    requires forall a :: a in AsksOf(w, rs0) <==> a in AsksOf(w, rs1)
    ensures Abs(PutAll(w, s, rs0)) == Abs(PutAll(w, s, rs1))
  {
    PutAllRefines(w, s, rs0);
    PutAllRefines(w, s, rs1);
    AsksAreHonest(w, rs0);
    AsksAreHonest(w, rs1);
    ValidIsSound(w, s);
    OrderIsForgotten(w, Abs(s), AsksOf(w, rs0), AsksOf(w, rs1));
  }
}

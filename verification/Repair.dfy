/**
 The client that sends an object together with what it depends on: it pushes optimistically, reads
 from the error what the server misses, pushes that, and tries once more. Between any two of its
 requests the server may serve other clients and reprocess its tables.
*/
module Repair {
  import opened Types
  import opened Store
  import opened Invariant
  import opened Catalog
  import opened History
  import opened Server

  type GetArtifact = Digest -> Option<Bytes>

  // ---------- well-formed packages ----------

  /** The bottle can be read, and the caller can supply whatever artifact of it the server has no name for. */
  ghost predicate GoodBottle(w: World, c: Catalog, bottle: Bytes, artifact: GetArtifact) {
    w.parseBottle(bottle).Parsed? && forall a | a in MissingOf(w, c, bottle) :: Fetches(w, artifact, a)
  }

  /** The manifest names the bottle, and has a layer for each of its parts. */
  ghost predicate FitsBottle(w: World, manifest: Bytes, bottle: Bytes) {
    match w.parseManifest(manifest)
    case Parsed(doc) =>
      && doc.config.alg.Available() && doc.config == w.DigestOf(doc.config.alg, bottle)
      && |doc.layers| == Parts(w, bottle)
    case _ => false
  }

  /** The event names the manifest. */
  ghost predicate FitsManifest(w: World, event: Bytes, manifest: Bytes) {
    match w.parseEvent(event)
    case Parsed(doc) => doc.manifest.alg.Available() && doc.manifest == w.DigestOf(doc.manifest.alg, manifest)
    case _ => false
  }

  /** The server takes the manifest as it is, or it comes with its bottle. */
  ghost predicate GoodManifest(w: World, c: Catalog, manifest: Bytes, bottle: Bytes, artifact: GetArtifact) {
    Refusal(w, c, Manifest, manifest) == None || (FitsBottle(w, manifest, bottle) && GoodBottle(w, c, bottle, artifact))
  }

  /** The server takes the event as it is, or it comes with its manifest. */
  ghost predicate GoodEvent(w: World, c: Catalog, event: Bytes, manifest: Bytes, bottle: Bytes, artifact: GetArtifact) {
    || Refusal(w, c, Event, event) == None
    || (FitsManifest(w, event, manifest) && GoodManifest(w, c, manifest, bottle, artifact))
  }

  /** The artifacts of a bottle that the catalog has no name for. */
  function MissingOf(w: World, c: Catalog, bottle: Bytes): seq<Digest> {
    match w.parseBottle(bottle)
    case Parsed(doc) => MissingFrom(c, doc.artifacts)
    case _ => []
  }

  /** The object is stored, and can be asked for by this digest. */
  ghost predicate Named(c: Catalog, kind: Kind, digest: Digest, bytes: Bytes) {
    Stored(c, kind, digest) && c.aliases[digest] == bytes
  }

  lemma {:induction false} MissingShrinks(c: Catalog, c': Catalog, artifacts: seq<Digest>)
    requires Extends(c, c')
    ensures |MissingFrom(c', artifacts)| <= |MissingFrom(c, artifacts)|
  {
    if artifacts != [] {
      MissingShrinks(c, c', artifacts[..|artifacts| - 1]);
    }
  }

  lemma MissingSince(c: Catalog, c': Catalog, artifacts: seq<Digest>)
    requires Extends(c, c')
    ensures |MissingFrom(c', artifacts)| <= |MissingFrom(c, artifacts)|
    ensures forall d | d in MissingFrom(c', artifacts) :: d in MissingFrom(c, artifacts)
  {
    MissingShrinks(c, c', artifacts);
    MissingFromIff(c, artifacts);
    MissingFromIff(c', artifacts);
  }

  /** A bottle is refused for missing artifacts only, if it can be read, and for fewer of them later. */
  lemma RefusedBottle(w: World, c: Catalog, c': Catalog, bottle: Bytes, artifact: GetArtifact, error: PutError)
    requires Extends(c, c') && Refusal(w, c', Bottle, bottle) == Some(error)
    ensures error.Missing? ==> |error.digests| <= |MissingOf(w, c, bottle)|
    ensures w.parseBottle(bottle).Parsed? <==> error.Missing?
    ensures GoodBottle(w, c, bottle, artifact) ==>
              error.Missing? && forall d | d in error.digests :: Fetches(w, artifact, d)
    ensures Refusal(w, c, Bottle, bottle) != None
  {
    if w.parseBottle(bottle).Parsed? {
      MissingSince(c, c', w.parseBottle(bottle).doc.artifacts);
    }
    if Refusal(w, c, Bottle, bottle) == None {
      AcceptanceStable(w, c, c', Bottle, bottle);
    }
  }

  /** Once what was missing has names, the bottle is accepted. */
  lemma RepairedBottle(w: World, c1: Catalog, c2: Catalog, c3: Catalog, bottle: Bytes, missing: seq<Digest>)
    requires Extends(c1, c2) && Extends(c2, c3)
    requires Refusal(w, c1, Bottle, bottle) == Some(Missing(missing))
    requires forall d | d in missing :: d in c2.aliases
    ensures Refusal(w, c3, Bottle, bottle) == None
  {
    var artifacts := w.parseBottle(bottle).doc.artifacts;
    MissingFromIff(c1, artifacts);
    MissingFromIff(c3, artifacts);
  }

  /** What is stored can be read. */
  lemma StoredIsReadable(w: World, c: Catalog, digest: Digest, bottle: Bytes)
    requires Sound(w, c) && Named(c, Bottle, digest, bottle)
    ensures w.parseBottle(bottle).Parsed?
  {
    assert (Bottle, bottle) in c.items && Refusal(w, c, Bottle, bottle) == None;
  }

  lemma StillGoodBottle(w: World, c: Catalog, c': Catalog, bottle: Bytes, artifact: GetArtifact)
    requires Extends(c, c') && GoodBottle(w, c, bottle, artifact)
    ensures GoodBottle(w, c', bottle, artifact)
  {
    MissingSince(c, c', w.parseBottle(bottle).doc.artifacts);
  }

  lemma StillGoodManifest(w: World, c: Catalog, c': Catalog, manifest: Bytes, bottle: Bytes, artifact: GetArtifact)
    requires Extends(c, c') && GoodManifest(w, c, manifest, bottle, artifact)
    ensures GoodManifest(w, c', manifest, bottle, artifact)
  {
    if Refusal(w, c, Manifest, manifest) == None {
      AcceptanceStable(w, c, c', Manifest, manifest);
    } else {
      StillGoodBottle(w, c, c', bottle, artifact);
    }
  }

  /** A manifest that fits its bottle is refused exactly while that is not stored under the digest it names. */
  lemma RefusedManifest(w: World, c: Catalog, manifest: Bytes, bottle: Bytes)
    requires w.NoCollisions() && Sound(w, c) && w.universe(bottle) && FitsBottle(w, manifest, bottle)
    ensures var config := w.parseManifest(manifest).doc.config;
            Refusal(w, c, Manifest, manifest)
            == (if Named(c, Bottle, config, bottle) then None else Some(Missing([config])))
  {
    var config := w.parseManifest(manifest).doc.config;
    if config in c.aliases {
      NamesItsBytes(w, c, config, bottle);
    }
  }

  lemma RefusedEvent(w: World, c: Catalog, event: Bytes, manifest: Bytes)
    requires w.NoCollisions() && Sound(w, c) && w.universe(manifest) && FitsManifest(w, event, manifest)
    ensures var m := w.parseEvent(event).doc.manifest;
            Refusal(w, c, Event, event)
            == (if Named(c, Manifest, m, manifest) then None else Some(Missing([m])))
  {
    var m := w.parseEvent(event).doc.manifest;
    if m in c.aliases {
      NamesItsBytes(w, c, m, manifest);
    }
  }

  /** What a refusal of a manifest tells the client, if the manifest was good before. */
  lemma ReadRefusedManifest(w: World, c: Catalog, c': Catalog, manifest: Bytes, bottle: Bytes, artifact: GetArtifact,
                            error: PutError)
    requires w.NoCollisions() && Sound(w, c') && w.universe(bottle) && Extends(c, c')
    requires Refusal(w, c', Manifest, manifest) == Some(error)
    ensures Refusal(w, c, Manifest, manifest) != None
    ensures GoodManifest(w, c, manifest, bottle, artifact) ==>
              var config := w.parseManifest(manifest).doc.config;
              && FitsBottle(w, manifest, bottle) && error == Missing([config]) && GoodBottle(w, c', bottle, artifact)
  {
    if Refusal(w, c, Manifest, manifest) == None {
      AcceptanceStable(w, c, c', Manifest, manifest);
    } else if GoodManifest(w, c, manifest, bottle, artifact) {
      RefusedManifest(w, c', manifest, bottle);
      StillGoodBottle(w, c, c', bottle, artifact);
    }
  }

  /** Sent again once its bottle is stored under the digest the refusal named, the manifest is not refused. */
  lemma ManifestAgain(w: World, c: Catalog, c': Catalog, manifest: Bytes, bottle: Bytes, alg: Algorithm)
    requires w.NoCollisions() && Sound(w, c') && w.universe(bottle) && Extends(c, c')
    requires Named(c, Bottle, w.DigestOf(alg, bottle), bottle)
    ensures FitsBottle(w, manifest, bottle) && alg == w.parseManifest(manifest).doc.config.alg ==>
              Refusal(w, c', Manifest, manifest) == None
  {
    if FitsBottle(w, manifest, bottle) && alg == w.parseManifest(manifest).doc.config.alg {
      NamedStable(c, c', Bottle, w.parseManifest(manifest).doc.config, bottle);
      RefusedManifest(w, c', manifest, bottle);
    }
  }

  lemma ReadRefusedEvent(w: World, c: Catalog, c': Catalog, event: Bytes, manifest: Bytes, bottle: Bytes,
                         artifact: GetArtifact, error: PutError)
    requires w.NoCollisions() && Sound(w, c') && w.universe(manifest) && Extends(c, c')
    requires Refusal(w, c', Event, event) == Some(error)
    ensures Refusal(w, c, Event, event) != None
    ensures GoodEvent(w, c, event, manifest, bottle, artifact) ==>
              var m := w.parseEvent(event).doc.manifest;
              && FitsManifest(w, event, manifest) && error == Missing([m])
              && GoodManifest(w, c', manifest, bottle, artifact)
  {
    if Refusal(w, c, Event, event) == None {
      AcceptanceStable(w, c, c', Event, event);
    } else if GoodEvent(w, c, event, manifest, bottle, artifact) {
      RefusedEvent(w, c', event, manifest);
      StillGoodManifest(w, c, c', manifest, bottle, artifact);
    }
  }

  lemma EventAgain(w: World, c: Catalog, c': Catalog, event: Bytes, manifest: Bytes, alg: Algorithm)
    requires w.NoCollisions() && Sound(w, c') && w.universe(manifest) && Extends(c, c')
    requires Named(c, Manifest, w.DigestOf(alg, manifest), manifest)
    ensures FitsManifest(w, event, manifest) && alg == w.parseEvent(event).doc.manifest.alg ==>
              Refusal(w, c', Event, event) == None
  {
    if FitsManifest(w, event, manifest) && alg == w.parseEvent(event).doc.manifest.alg {
      NamedStable(c, c', Manifest, w.parseEvent(event).doc.manifest, manifest);
      RefusedEvent(w, c', event, manifest);
    }
  }

  /** The unnamed among the artifacts of the submitted document, each as often as it is listed. */
  lemma MissingOfExact(w: World, c: Catalog, bottle: Bytes, d: Digest)
    ensures multiset(MissingOf(w, c, bottle))[d]
         == match w.parseBottle(bottle)
            case Parsed(doc) => if d in c.aliases then 0 else multiset(doc.artifacts)[d]
            case _ => 0
  {
    if w.parseBottle(bottle).Parsed? {
      MissingFromCounts(c, w.parseBottle(bottle).doc.artifacts, d);
    }
  }

  lemma {:induction false} MissingFromCounts(c: Catalog, artifacts: seq<Digest>, d: Digest)
    ensures multiset(MissingFrom(c, artifacts))[d] == if d in c.aliases then 0 else multiset(artifacts)[d]
  {
    if artifacts != [] {
      var init, last := artifacts[..|artifacts| - 1], artifacts[|artifacts| - 1];
      assert artifacts == init + [last];
      MissingFromCounts(c, init, d);
    }
  }

  /** How often the bottle is put at most: once if the server takes it as it is. */
  function BottlesToSend(w: World, c: Catalog, bottle: Bytes): nat {
    if Refusal(w, c, Bottle, bottle) == None then 1 else 2
  }

  lemma FewerMissing(w: World, c: Catalog, c': Catalog, bottle: Bytes)
    requires Extends(c, c')
    ensures |MissingOf(w, c', bottle)| <= |MissingOf(w, c, bottle)|
    ensures BottlesToSend(w, c', bottle) <= BottlesToSend(w, c, bottle)
  {
    if w.parseBottle(bottle).Parsed? {
      MissingShrinks(c, c', w.parseBottle(bottle).doc.artifacts);
    }
    if Refusal(w, c, Bottle, bottle) == None {
      AcceptanceStable(w, c, c', Bottle, bottle);
    }
  }

  lemma StillAccepted(w: World, c: Catalog, c': Catalog, manifest: Bytes)
    requires Extends(c, c')
    ensures Refusal(w, c, Manifest, manifest) == None ==> Refusal(w, c', Manifest, manifest) == None
  {
    if Refusal(w, c, Manifest, manifest) == None {
      AcceptanceStable(w, c, c', Manifest, manifest);
    }
  }

  lemma ExtendsTransitive(c0: Catalog, c1: Catalog, c2: Catalog)
    requires Extends(c0, c1) && Extends(c1, c2)
    ensures Extends(c0, c2)
  {
  }

  /** The caller can supply the data of this digest. */
  ghost predicate Fetches(w: World, artifact: GetArtifact, d: Digest) {
    d.alg.Available() && artifact(d).Some? && w.DigestOf(d.alg, artifact(d).value) == d
  }

  /** The data can be supplied, and the digest has an implementation. */
  predicate CanSend(artifact: GetArtifact, d: Digest) {
    artifact(d).Some? && d.alg.Available()
  }

  /** The first n can be sent, and the next one cannot if there is one. */
  ghost predicate StopsAt(artifact: GetArtifact, missing: seq<Digest>, n: nat) {
    && n <= |missing| && (forall j | 0 <= j < n :: CanSend(artifact, missing[j]))
    && (n < |missing| ==> !CanSend(artifact, missing[n]))
  }

  ghost predicate AllFetch(w: World, artifact: GetArtifact, missing: seq<Digest>) {
    forall d | d in missing :: Fetches(w, artifact, d)
  }

  lemma NamedStable(c: Catalog, c': Catalog, kind: Kind, digest: Digest, bytes: Bytes)
    requires Extends(c, c') && Named(c, kind, digest, bytes)
    ensures Named(c', kind, digest, bytes)
  {
  }

  /** The answer to a submission is the refusal that still applies afterwards, or the object is stored. */
  lemma SubmitAnswers(w: World, c: Catalog, kind: Kind, digest: Digest, bytes: Bytes)
    ensures var (c', answer) := Submit(w, c, kind, digest, bytes);
            && digest in c'.aliases
            && (if answer.Failed? then Refusal(w, c', kind, bytes) == Some(answer.error)
                else Named(c', kind, digest, bytes))
  {
  }

  /** What one submission leaves behind, refused or not. */
  ghost predicate Answered(w: World, c: Catalog, kind: Kind, digest: Digest, bytes: Bytes, answer: Response) {
    && digest in c.aliases
    && if answer.Failed? then Refusal(w, c, kind, bytes) == Some(answer.error) else Named(c, kind, digest, bytes)
  }

  lemma SubmitLeaves(w: World, c0: Catalog, c: Catalog, kind: Kind, digest: Digest, bytes: Bytes)
    requires w.NoCollisions() && Sound(w, c) && w.universe(bytes) && Extends(c0, c)
    requires digest.alg.Available() && digest == w.DigestOf(digest.alg, bytes)
    ensures var (c', answer) := Submit(w, c, kind, digest, bytes);
            Extends(c0, c') && Sound(w, c') && Answered(w, c', kind, digest, bytes, answer)
  {
    SubmitSound(w, c, kind, digest, bytes);
    SubmitAnswers(w, c, kind, digest, bytes);
    ExtendsTransitive(c0, c, Submit(w, c, kind, digest, bytes).0);
  }

  lemma PutIsSubmit(w: World, s: Store, r: Request, digest: Digest)
    requires w.NoCollisions() && Valid(w, s) && w.universe(r.bytes)
    requires r.param == ByDigest(digest) && digest.alg.Available() && digest == w.DigestOf(digest.alg, r.bytes)
    ensures Submit(w, Abs(s), r.kind, digest, r.bytes) == (Abs(Put(w, s, r).0), Put(w, s, r).1)
  {
    PutRefines(w, s, r);
  }

  lemma PutLeaves(w: World, c0: Catalog, s: Store, r: Request, digest: Digest)
    requires w.NoCollisions() && Valid(w, s) && w.universe(r.bytes) && Extends(c0, Abs(s))
    requires r.param == ByDigest(digest) && digest.alg.Available() && digest == w.DigestOf(digest.alg, r.bytes)
    ensures var (s', answer) := Put(w, s, r);
            && Valid(w, s') && Extends(c0, Abs(s')) && Sound(w, Abs(s'))
            && Answered(w, Abs(s'), r.kind, digest, r.bytes, answer)
  {
    ValidIsSound(w, s);
    PutIsSubmit(w, s, r, digest);
    SubmitLeaves(w, c0, Abs(s), r.kind, digest, r.bytes);
    PutValid(w, s, r);
  }

  // ---------- the requests of a client in order ----------

  /** How many PUTs of each kind a client has made. */
  datatype Sent = Sent(blobs: nat, bottles: nat, manifests: nat, events: nat)
  {
    function Plus(kind: Kind): (r: Sent)
      ensures r.Total() == Total() + 1
      ensures r.blobs == blobs + (if kind.Blob? then 1 else 0) && r.bottles == bottles + (if kind.Bottle? then 1 else 0)
      ensures r.manifests == manifests + (if kind.Manifest? then 1 else 0)
      ensures r.events == events + (if kind.Event? then 1 else 0)
    {
      match kind
      case Blob => this.(blobs := blobs + 1)
      case Bottle => this.(bottles := bottles + 1)
      case Manifest => this.(manifests := manifests + 1)
      case Event => this.(events := events + 1)
    }

    function Others(): Sent {
      this.(blobs := 0)
    }

    function Total(): nat {
      blobs + bottles + manifests + events
    }
  }

  const NOTHING_SENT: Sent := Sent(0, 0, 0, 0)

  /** No more PUTs than these were made from one count to a later one. */
  predicate SentAtMost(before: Sent, after: Sent, events: nat, manifests: nat, bottles: nat, blobs: nat) {
    && after.events <= before.events + events
    && after.manifests <= before.manifests + manifests
    && after.bottles <= before.bottles + bottles
    && after.blobs <= before.blobs + blobs
  }

  /**
   What a client meets: what the server does for others just before this client's n-th request, the versions
   of its processors, and its clock.
  */
  datatype Scene = Scene(w: World, others: nat -> seq<Step>, version: Kind -> nat, clock: nat -> Time)
  {
    /** No two submitted byte strings collide, whoever submits them. */
    ghost predicate Fair() {
      w.NoCollisions() && forall n :: InUniverse(w, others(n))
    }
  }

  datatype Outcome = Outcome(store: Store, sent: Sent, ok: bool)

  /** One PUT of this client, after what the server does for others before it. */
  function PutRun(scene: Scene, s: Store, sent: Sent, kind: Kind, alg: Algorithm, bytes: Bytes): (Store, Response) {
    var n := sent.Total();
    Put(scene.w, Run(scene.w, s, scene.others(n)),
        Request(kind, bytes, ByDigest(scene.w.DigestOf(alg, bytes)), scene.version(kind), scene.clock(n)))
  }

  function BlobsRun(scene: Scene, s: Store, sent: Sent, missing: seq<Digest>, artifact: GetArtifact): Outcome
    decreases missing
  {
    if missing == [] then Outcome(s, sent, true)
    else if !CanSend(artifact, missing[0]) then Outcome(s, sent, false)
    else
      var (s', answer) := PutRun(scene, s, sent, Blob, missing[0].alg, artifact(missing[0]).value);
      if answer.Failed? then Outcome(s', sent.Plus(Blob), false)
      else BlobsRun(scene, s', sent.Plus(Blob), missing[1..], artifact)
  }

  /** The object once more, if what it missed was sent. */
  function AgainRun(scene: Scene, o: Outcome, kind: Kind, alg: Algorithm, bytes: Bytes): Outcome {
    if !o.ok then o
    else
      var (s', answer) := PutRun(scene, o.store, o.sent, kind, alg, bytes);
      Outcome(s', o.sent.Plus(kind), !answer.Failed?)
  }

  function BottleRun(scene: Scene, s: Store, sent: Sent, alg: Algorithm, bottle: Bytes, artifact: GetArtifact): Outcome
  {
    var (s', answer) := PutRun(scene, s, sent, Bottle, alg, bottle);
    if answer.Failed? && answer.error.Missing? then
      AgainRun(scene, BlobsRun(scene, s', sent.Plus(Bottle), answer.error.digests, artifact), Bottle, alg, bottle)
    else Outcome(s', sent.Plus(Bottle), !answer.Failed?)
  }

  /** The algorithm of the one digest that is said to be missing, if just one is and it has an implementation. */
  function OneMissing(answer: Response): Option<Algorithm> {
    if answer.Failed? && answer.error.Missing? && |answer.error.digests| == 1 && answer.error.digests[0].alg.Available()
    then Some(answer.error.digests[0].alg)
    else None
  }

  function ManifestRun(scene: Scene, s: Store, sent: Sent, alg: Algorithm, manifest: Bytes, bottle: Bytes,
                       artifact: GetArtifact): Outcome
  {
    var (s', answer) := PutRun(scene, s, sent, Manifest, alg, manifest);
    match OneMissing(answer)
    case Some(config) =>
      AgainRun(scene, BottleRun(scene, s', sent.Plus(Manifest), config, bottle, artifact), Manifest, alg, manifest)
    case None => Outcome(s', sent.Plus(Manifest), !answer.Failed?)
  }

  function EventRun(scene: Scene, s: Store, sent: Sent, alg: Algorithm, event: Bytes, manifest: Bytes, bottle: Bytes,
                    artifact: GetArtifact): Outcome
  {
    var (s', answer) := PutRun(scene, s, sent, Event, alg, event);
    match OneMissing(answer)
    case Some(named) =>
      AgainRun(scene, ManifestRun(scene, s', sent.Plus(Event), named, manifest, bottle, artifact), Event, alg, event)
    case None => Outcome(s', sent.Plus(Event), !answer.Failed?)
  }

  // ---------- what the requests lead to ----------

  /** The store is valid, and what was in the catalog still is. */
  ghost predicate Keeps(w: World, s: Store, s': Store) {
    Valid(w, s') && Extends(Abs(s), Abs(s'))
  }

  lemma KeepsOn(w: World, s: Store, s1: Store, s2: Store)
    requires Keeps(w, s, s1) && Keeps(w, s1, s2)
    ensures Keeps(w, s, s2)
  {
    ExtendsTransitive(Abs(s), Abs(s1), Abs(s2));
  }

  lemma PutRunLaw(scene: Scene, s: Store, sent: Sent, kind: Kind, alg: Algorithm, bytes: Bytes)
    requires scene.Fair() && Valid(scene.w, s) && alg.Available() && scene.w.universe(bytes)
    ensures var (s', answer) := PutRun(scene, s, sent, kind, alg, bytes);
            && Keeps(scene.w, s, s') && Sound(scene.w, Abs(s'))
            && Answered(scene.w, Abs(s'), kind, scene.w.DigestOf(alg, bytes), bytes, answer)
  {
    var w, n := scene.w, sent.Total();
    var s1 := Run(w, s, scene.others(n));
    EveryRunKeepsTheStore(w, s, scene.others(n));
    GrowthExtends(w, s, s1);
    var digest := w.DigestOf(alg, bytes);
    PutLeaves(w, Abs(s), s1, Request(kind, bytes, ByDigest(digest), scene.version(kind), scene.clock(n)), digest);
  }

  ghost predicate SuppliesKnown(w: World, artifact: GetArtifact) {
    forall d | artifact(d).Some? :: w.universe(artifact(d).value)
  }

  /** What pushing blobs promises. */
  ghost predicate BlobsPromised(w: World, s: Store, sent: Sent, missing: seq<Digest>, artifact: GetArtifact,
                                o: Outcome) {
    && Keeps(w, s, o.store) && o.sent.Others() == sent.Others()
    && sent.blobs <= o.sent.blobs && StopsAt(artifact, missing, o.sent.blobs - sent.blobs)
    && (o.ok <==> forall d | d in missing :: CanSend(artifact, d))
    && (AllFetch(w, artifact, missing) ==> forall d | d in missing :: d in Abs(o.store).aliases)
  }

  lemma NoBlobs(w: World, s: Store, sent: Sent, missing: seq<Digest>, artifact: GetArtifact)
    requires Valid(w, s) && (missing != [] ==> !CanSend(artifact, missing[0]))
    ensures BlobsPromised(w, s, sent, missing, artifact, Outcome(s, sent, missing == []))
  {
    SameIsKept(w, s);
    if missing != [] {
      assert missing[0] in missing;
    }
  }

  lemma OneMoreBlob(w: World, s: Store, s1: Store, sent: Sent, missing: seq<Digest>, artifact: GetArtifact, o: Outcome)
    requires missing != [] && CanSend(artifact, missing[0]) && Keeps(w, s, s1)
    requires Fetches(w, artifact, missing[0]) ==> missing[0] in Abs(s1).aliases
    requires BlobsPromised(w, s1, sent.Plus(Blob), missing[1..], artifact, o)
    ensures BlobsPromised(w, s, sent, missing, artifact, o)
  {
    KeepsOn(w, s, s1, o.store);
    FirstAndRest(w, artifact, missing);
    NamedFirstAndRest(w, artifact, missing, Abs(s1), Abs(o.store));
    OneMoreStops(artifact, missing, o.sent.blobs - sent.blobs);
  }

  lemma FirstAndRest(w: World, artifact: GetArtifact, missing: seq<Digest>)
    requires missing != [] && CanSend(artifact, missing[0])
    ensures (forall d | d in missing :: CanSend(artifact, d)) <==> forall d | d in missing[1..] :: CanSend(artifact, d)
    ensures AllFetch(w, artifact, missing) <==> Fetches(w, artifact, missing[0]) && AllFetch(w, artifact, missing[1..])
  {
    assert forall d :: d in missing <==> d == missing[0] || d in missing[1..];
  }

  lemma NamedFirstAndRest(w: World, artifact: GetArtifact, missing: seq<Digest>, c1: Catalog, c2: Catalog)
    requires missing != [] && Extends(c1, c2)
    requires Fetches(w, artifact, missing[0]) ==> missing[0] in c1.aliases
    requires AllFetch(w, artifact, missing[1..]) ==> forall d | d in missing[1..] :: d in c2.aliases
    ensures AllFetch(w, artifact, missing) ==> forall d | d in missing :: d in c2.aliases
  {
    assert forall d :: d in missing <==> d == missing[0] || d in missing[1..];
  }

  lemma {:induction false} BlobsLaw(scene: Scene, s: Store, sent: Sent, missing: seq<Digest>, artifact: GetArtifact)
    requires scene.Fair() && Valid(scene.w, s) && SuppliesKnown(scene.w, artifact)
    ensures BlobsPromised(scene.w, s, sent, missing, artifact, BlobsRun(scene, s, sent, missing, artifact))
    decreases missing
  {
    if missing == [] || !CanSend(artifact, missing[0]) {
      NoBlobs(scene.w, s, sent, missing, artifact);
    } else {
      PutRunLaw(scene, s, sent, Blob, missing[0].alg, artifact(missing[0]).value);
      var s1 := PutRun(scene, s, sent, Blob, missing[0].alg, artifact(missing[0]).value).0;
      BlobsLaw(scene, s1, sent.Plus(Blob), missing[1..], artifact);
      var o := BlobsRun(scene, s1, sent.Plus(Blob), missing[1..], artifact);
      OneMoreBlob(scene.w, s, s1, sent, missing, artifact, o);
    }
  }

  lemma SameIsKept(w: World, s: Store)
    requires Valid(w, s)
    ensures Keeps(w, s, s)
  {
  }

  lemma OneMoreStops(artifact: GetArtifact, missing: seq<Digest>, n: nat)
    requires missing != [] && CanSend(artifact, missing[0]) && n > 0 && StopsAt(artifact, missing[1..], n - 1)
    ensures StopsAt(artifact, missing, n)
  {
    forall j | 0 <= j < n ensures CanSend(artifact, missing[j]) {
      assert j > 0 ==> missing[j] == missing[1..][j - 1];
    }
    assert n < |missing| ==> missing[n] == missing[1..][n - 1];
  }

  /** What sending a bottle promises, from what the server held before. */
  ghost predicate BottlePromised(w: World, s: Store, sent: Sent, alg: Algorithm, bottle: Bytes, artifact: GetArtifact,
                                 o: Outcome) {
    && Keeps(w, s, o.store)
    && (o.ok ==> Named(Abs(o.store), Bottle, w.DigestOf(alg, bottle), bottle))
    && (Refusal(w, Abs(s), Bottle, bottle) == None ==> o.ok && o.sent == sent.Plus(Bottle))
    && (GoodBottle(w, Abs(s), bottle, artifact) ==> o.ok)
    && (!w.parseBottle(bottle).Parsed? ==> !o.ok && o.sent == sent.Plus(Bottle))
    && SentAtMost(sent, o.sent, 0, 0, 2, |MissingOf(w, Abs(s), bottle)|)
  }

  lemma BottleLaw(scene: Scene, s: Store, sent: Sent, alg: Algorithm, bottle: Bytes, artifact: GetArtifact)
    requires scene.Fair() && Valid(scene.w, s) && SuppliesKnown(scene.w, artifact)
    requires alg.Available() && scene.w.universe(bottle)
    ensures BottlePromised(scene.w, s, sent, alg, bottle, artifact, BottleRun(scene, s, sent, alg, bottle, artifact))
  {
    var w := scene.w;
    var (s1, answer) := PutRun(scene, s, sent, Bottle, alg, bottle);
    PutRunLaw(scene, s, sent, Bottle, alg, bottle);
    if answer.Failed? {
      RefusedBottle(w, Abs(s), Abs(s1), bottle, artifact, answer.error);
      if answer.error.Missing? {
        BottleRetried(scene, s, s1, sent, alg, bottle, artifact, answer.error.digests);
      }
    } else {
      StoredIsReadable(w, Abs(s1), w.DigestOf(alg, bottle), bottle);
    }
  }

  lemma BottleRetried(scene: Scene, s: Store, s1: Store, sent: Sent, alg: Algorithm, bottle: Bytes,
                      artifact: GetArtifact, missing: seq<Digest>)
    requires scene.Fair() && Valid(scene.w, s) && SuppliesKnown(scene.w, artifact)
    requires alg.Available() && scene.w.universe(bottle)
    requires Keeps(scene.w, s, s1) && Refusal(scene.w, Abs(s1), Bottle, bottle) == Some(Missing(missing))
    requires GoodBottle(scene.w, Abs(s), bottle, artifact) ==> AllFetch(scene.w, artifact, missing)
    ensures var o := AgainRun(scene, BlobsRun(scene, s1, sent.Plus(Bottle), missing, artifact), Bottle, alg, bottle);
            && Keeps(scene.w, s, o.store)
            && (o.ok ==> Named(Abs(o.store), Bottle, scene.w.DigestOf(alg, bottle), bottle))
            && (GoodBottle(scene.w, Abs(s), bottle, artifact) ==> o.ok)
            && SentAtMost(sent, o.sent, 0, 0, 2, |missing|)
  {
    var o1 := BlobsRun(scene, s1, sent.Plus(Bottle), missing, artifact);
    BlobsLaw(scene, s1, sent.Plus(Bottle), missing, artifact);
    OthersTell(sent.Plus(Bottle), o1.sent);
    KeepsOn(scene.w, s, s1, o1.store);
    if o1.ok {
      var s2 := PutRun(scene, o1.store, o1.sent, Bottle, alg, bottle).0;
      PutRunLaw(scene, o1.store, o1.sent, Bottle, alg, bottle);
      KeepsOn(scene.w, s, o1.store, s2);
      if AllFetch(scene.w, artifact, missing) {
        RepairedBottle(scene.w, Abs(s1), Abs(o1.store), Abs(s2), bottle, missing);
      }
    }
    assert AllFetch(scene.w, artifact, missing) ==> forall d | d in missing :: CanSend(artifact, d);
  }

  lemma OthersTell(a: Sent, b: Sent)
    requires a.Others() == b.Others()
    ensures a.bottles == b.bottles && a.manifests == b.manifests && a.events == b.events
  {
  }

  /** What sending a manifest promises. */
  ghost predicate ManifestPromised(w: World, s: Store, sent: Sent, alg: Algorithm, manifest: Bytes, bottle: Bytes,
                                   artifact: GetArtifact, o: Outcome) {
    && Keeps(w, s, o.store)
    && (o.ok ==> Named(Abs(o.store), Manifest, w.DigestOf(alg, manifest), manifest))
    && (Refusal(w, Abs(s), Manifest, manifest) == None ==> o.ok && o.sent == sent.Plus(Manifest))
    && (GoodManifest(w, Abs(s), manifest, bottle, artifact) ==> o.ok)
    && SentAtMost(sent, o.sent, 0, 2, BottlesToSend(w, Abs(s), bottle), |MissingOf(w, Abs(s), bottle)|)
  }

  lemma ManifestLaw(scene: Scene, s: Store, sent: Sent, alg: Algorithm, manifest: Bytes, bottle: Bytes,
                    artifact: GetArtifact)
    requires scene.Fair() && Valid(scene.w, s) && SuppliesKnown(scene.w, artifact)
    requires alg.Available() && scene.w.universe(manifest) && scene.w.universe(bottle)
    ensures ManifestPromised(scene.w, s, sent, alg, manifest, bottle, artifact,
                             ManifestRun(scene, s, sent, alg, manifest, bottle, artifact))
  {
    var w := scene.w;
    var (s1, answer) := PutRun(scene, s, sent, Manifest, alg, manifest);
    PutRunLaw(scene, s, sent, Manifest, alg, manifest);
    match OneMissing(answer)
    case Some(config) =>
      ReadRefusedManifest(w, Abs(s), Abs(s1), manifest, bottle, artifact, answer.error);
      ManifestAfter(scene, s, s1, sent, alg, config, manifest, bottle, artifact);
    case None =>
      ManifestAnswered(w, s, s1, sent, alg, manifest, bottle, artifact, answer);
  }

  /** A manifest whose first answer says nothing that can be repaired. */
  lemma ManifestAnswered(w: World, s: Store, s1: Store, sent: Sent, alg: Algorithm, manifest: Bytes, bottle: Bytes,
                         artifact: GetArtifact, answer: Response)
    requires w.NoCollisions() && Keeps(w, s, s1) && Sound(w, Abs(s1)) && w.universe(bottle) && OneMissing(answer).None?
    requires Answered(w, Abs(s1), Manifest, w.DigestOf(alg, manifest), manifest, answer)
    ensures ManifestPromised(w, s, sent, alg, manifest, bottle, artifact,
                             Outcome(s1, sent.Plus(Manifest), !answer.Failed?))
  {
    if answer.Failed? {
      ReadRefusedManifest(w, Abs(s), Abs(s1), manifest, bottle, artifact, answer.error);
    }
  }

  lemma ManifestAfter(scene: Scene, s: Store, s1: Store, sent: Sent, alg: Algorithm, config: Algorithm,
                      manifest: Bytes, bottle: Bytes, artifact: GetArtifact)
    requires scene.Fair() && SuppliesKnown(scene.w, artifact) && alg.Available() && config.Available()
    requires scene.w.universe(manifest) && scene.w.universe(bottle)
    requires Keeps(scene.w, s, s1) && Refusal(scene.w, Abs(s), Manifest, manifest) != None
    requires GoodManifest(scene.w, Abs(s), manifest, bottle, artifact) ==>
               && FitsBottle(scene.w, manifest, bottle) && config == scene.w.parseManifest(manifest).doc.config.alg
               && GoodBottle(scene.w, Abs(s1), bottle, artifact)
    ensures var o := BottleRun(scene, s1, sent.Plus(Manifest), config, bottle, artifact);
            ManifestPromised(scene.w, s, sent, alg, manifest, bottle, artifact,
                             AgainRun(scene, o, Manifest, alg, manifest))
  {
    FewerMissing(scene.w, Abs(s), Abs(s1), bottle);
    BottleLaw(scene, s1, sent.Plus(Manifest), config, bottle, artifact);
    var o := BottleRun(scene, s1, sent.Plus(Manifest), config, bottle, artifact);
    BottlesSent(scene.w, s1, sent.Plus(Manifest), config, bottle, artifact, o);
    KeepsOn(scene.w, s, s1, o.store);
    ManifestRetried(scene, s, o, alg, config, manifest, bottle);
  }

  lemma BottlesSent(w: World, s: Store, sent: Sent, alg: Algorithm, bottle: Bytes, artifact: GetArtifact, o: Outcome)
    requires BottlePromised(w, s, sent, alg, bottle, artifact, o)
    ensures SentAtMost(sent, o.sent, 0, 0, BottlesToSend(w, Abs(s), bottle), |MissingOf(w, Abs(s), bottle)|)
  {
  }

  lemma ManifestRetried(scene: Scene, s: Store, o: Outcome, alg: Algorithm, config: Algorithm, manifest: Bytes,
                        bottle: Bytes)
    requires scene.Fair() && Keeps(scene.w, s, o.store)
    requires alg.Available() && scene.w.universe(manifest) && scene.w.universe(bottle)
    requires o.ok ==> Named(Abs(o.store), Bottle, scene.w.DigestOf(config, bottle), bottle)
    ensures var o' := AgainRun(scene, o, Manifest, alg, manifest);
            && Keeps(scene.w, s, o'.store)
            && (o'.ok ==> Named(Abs(o'.store), Manifest, scene.w.DigestOf(alg, manifest), manifest))
            && ((o.ok && FitsBottle(scene.w, manifest, bottle)
                 && config == scene.w.parseManifest(manifest).doc.config.alg) ==> o'.ok)
            && o'.sent == if o.ok then o.sent.Plus(Manifest) else o.sent
  {
    if o.ok {
      var s' := PutRun(scene, o.store, o.sent, Manifest, alg, manifest).0;
      PutRunLaw(scene, o.store, o.sent, Manifest, alg, manifest);
      KeepsOn(scene.w, s, o.store, s');
      ManifestAgain(scene.w, Abs(o.store), Abs(s'), manifest, bottle, config);
    }
  }

  /** What sending an event promises. */
  ghost predicate EventPromised(w: World, s: Store, sent: Sent, alg: Algorithm, event: Bytes, manifest: Bytes,
                                bottle: Bytes, artifact: GetArtifact, o: Outcome) {
    && Keeps(w, s, o.store)
    && (o.ok ==> Named(Abs(o.store), Event, w.DigestOf(alg, event), event))
    && (Refusal(w, Abs(s), Event, event) == None ==> o.ok && o.sent == sent.Plus(Event))
    && (GoodEvent(w, Abs(s), event, manifest, bottle, artifact) ==> o.ok)
    && (Refusal(w, Abs(s), Manifest, manifest) == None ==> SentAtMost(sent, o.sent, 2, 1, 0, 0))
    && SentAtMost(sent, o.sent, 2, 2, BottlesToSend(w, Abs(s), bottle), |MissingOf(w, Abs(s), bottle)|)
  }

  lemma EventLaw(scene: Scene, s: Store, sent: Sent, alg: Algorithm, event: Bytes, manifest: Bytes, bottle: Bytes,
                 artifact: GetArtifact)
    requires scene.Fair() && Valid(scene.w, s) && SuppliesKnown(scene.w, artifact)
    requires alg.Available() && scene.w.universe(event) && scene.w.universe(manifest) && scene.w.universe(bottle)
    ensures EventPromised(scene.w, s, sent, alg, event, manifest, bottle, artifact,
                          EventRun(scene, s, sent, alg, event, manifest, bottle, artifact))
  {
    var w := scene.w;
    var (s1, answer) := PutRun(scene, s, sent, Event, alg, event);
    PutRunLaw(scene, s, sent, Event, alg, event);
    match OneMissing(answer)
    case Some(named) =>
      ReadRefusedEvent(w, Abs(s), Abs(s1), event, manifest, bottle, artifact, answer.error);
      EventAfter(scene, s, s1, sent, alg, named, event, manifest, bottle, artifact);
    case None =>
      EventAnswered(w, s, s1, sent, alg, event, manifest, bottle, artifact, answer);
  }

  /** An event whose first answer says nothing that can be repaired. */
  lemma EventAnswered(w: World, s: Store, s1: Store, sent: Sent, alg: Algorithm, event: Bytes, manifest: Bytes,
                      bottle: Bytes, artifact: GetArtifact, answer: Response)
    requires w.NoCollisions() && Keeps(w, s, s1) && Sound(w, Abs(s1)) && w.universe(manifest)
    requires OneMissing(answer).None?
    requires Answered(w, Abs(s1), Event, w.DigestOf(alg, event), event, answer)
    ensures EventPromised(w, s, sent, alg, event, manifest, bottle, artifact,
                          Outcome(s1, sent.Plus(Event), !answer.Failed?))
  {
    if answer.Failed? {
      ReadRefusedEvent(w, Abs(s), Abs(s1), event, manifest, bottle, artifact, answer.error);
    }
  }

  lemma EventAfter(scene: Scene, s: Store, s1: Store, sent: Sent, alg: Algorithm, named: Algorithm, event: Bytes,
                   manifest: Bytes, bottle: Bytes, artifact: GetArtifact)
    requires scene.Fair() && SuppliesKnown(scene.w, artifact) && alg.Available() && named.Available()
    requires scene.w.universe(event) && scene.w.universe(manifest) && scene.w.universe(bottle)
    requires Keeps(scene.w, s, s1) && Refusal(scene.w, Abs(s), Event, event) != None
    requires GoodEvent(scene.w, Abs(s), event, manifest, bottle, artifact) ==>
               && FitsManifest(scene.w, event, manifest) && named == scene.w.parseEvent(event).doc.manifest.alg
               && GoodManifest(scene.w, Abs(s1), manifest, bottle, artifact)
    ensures var o := ManifestRun(scene, s1, sent.Plus(Event), named, manifest, bottle, artifact);
            EventPromised(scene.w, s, sent, alg, event, manifest, bottle, artifact,
                          AgainRun(scene, o, Event, alg, event))
  {
    FewerMissing(scene.w, Abs(s), Abs(s1), bottle);
    StillAccepted(scene.w, Abs(s), Abs(s1), manifest);
    ManifestLaw(scene, s1, sent.Plus(Event), named, manifest, bottle, artifact);
    var o := ManifestRun(scene, s1, sent.Plus(Event), named, manifest, bottle, artifact);
    KeepsOn(scene.w, s, s1, o.store);
    EventRetried(scene, s, o, alg, named, event, manifest);
  }

  lemma EventRetried(scene: Scene, s: Store, o: Outcome, alg: Algorithm, named: Algorithm, event: Bytes,
                     manifest: Bytes)
    requires scene.Fair() && Keeps(scene.w, s, o.store)
    requires alg.Available() && scene.w.universe(event) && scene.w.universe(manifest)
    requires o.ok ==> Named(Abs(o.store), Manifest, scene.w.DigestOf(named, manifest), manifest)
    ensures var o' := AgainRun(scene, o, Event, alg, event);
            && Keeps(scene.w, s, o'.store)
            && (o'.ok ==> Named(Abs(o'.store), Event, scene.w.DigestOf(alg, event), event))
            && ((o.ok && FitsManifest(scene.w, event, manifest)
                 && named == scene.w.parseEvent(event).doc.manifest.alg) ==> o'.ok)
            && o'.sent == if o.ok then o.sent.Plus(Event) else o.sent
  {
    if o.ok {
      var s' := PutRun(scene, o.store, o.sent, Event, alg, event).0;
      PutRunLaw(scene, o.store, o.sent, Event, alg, event);
      KeepsOn(scene.w, s, o.store, s');
      EventAgain(scene.w, Abs(o.store), Abs(s'), event, manifest, named);
    }
  }

  // ---------- the client ----------

  class Client {
    const scene: Scene
    const db: Database
    /** The PUTs this client has made. */
    var sent: Sent

    constructor (scene: Scene, db: Database)
      ensures this.scene == scene && this.db == db && sent == NOTHING_SENT
    {
      this.scene, this.db, sent := scene, db, NOTHING_SENT;
    }

    ghost predicate Ready(artifact: GetArtifact)
      reads db
    {
      scene.Fair() && Valid(scene.w, db.State()) && SuppliesKnown(scene.w, artifact)
    }

    method Interleave(steps: seq<Step>)
      requires scene.w.NoCollisions() && InUniverse(scene.w, steps) && Valid(scene.w, db.State())
      modifies db
      ensures Valid(scene.w, db.State()) && Extends(old(Abs(db.State())), Abs(db.State()))
      ensures db.State() == Run(scene.w, old(db.State()), steps)
    {
      ghost var s0 := db.State();
      EveryRunKeepsTheStore(scene.w, s0, steps);
      for i := 0 to |steps|
        invariant Valid(scene.w, db.State())
        invariant Run(scene.w, db.State(), steps[i..]) == Run(scene.w, s0, steps)
      {
        ghost var s := db.State();
        StepKeepsTheStore(scene.w, s, steps[i]);
        assert steps[i..][1..] == steps[i + 1..] && steps[i..][0] == steps[i];
        match steps[i]
        case PutStep(r) => var _ := db.PutData(scene.w, r);
        case ReprocessStep(kind, v) => var _, _ := db.Reprocess(scene.w, kind, v);
      }
      GrowthExtends(scene.w, s0, db.State());
    }

    /** One PUT of this client: it is answered by a refusal, or the object is stored. */
    method PutObject(kind: Kind, alg: Algorithm, bytes: Bytes) returns (answer: Response)
      requires scene.Fair() && Valid(scene.w, db.State()) && alg.Available() && scene.w.universe(bytes)
      modifies db, this`sent
      ensures sent == old(sent).Plus(kind)
      ensures (db.State(), answer) == PutRun(scene, old(db.State()), old(sent), kind, alg, bytes)
      ensures Keeps(scene.w, old(db.State()), db.State())
      ensures Answered(scene.w, Abs(db.State()), kind, scene.w.DigestOf(alg, bytes), bytes, answer)
    {
      PutRunLaw(scene, db.State(), sent, kind, alg, bytes);
      answer := PutNow(kind, alg, bytes);
    }

    method PutNow(kind: Kind, alg: Algorithm, bytes: Bytes) returns (answer: Response)
      requires scene.Fair() && Valid(scene.w, db.State())
      modifies db, this`sent
      ensures sent == old(sent).Plus(kind)
      ensures (db.State(), answer) == PutRun(scene, old(db.State()), old(sent), kind, alg, bytes)
    {
      var n := sent.Total();
      Interleave(scene.others(n));
      var digest := scene.w.DigestOf(alg, bytes);
      answer := db.PutData(scene.w, Request(kind, bytes, ByDigest(digest), scene.version(kind), scene.clock(n)));
      sent := sent.Plus(kind);
    }

    /** Pushes the data of the missing artifacts in order, up to the first that cannot be supplied. */
    method PushBlobs(missing: seq<Digest>, artifact: GetArtifact) returns (ok: bool)
      requires Ready(artifact)
      modifies db, this`sent
      ensures Outcome(db.State(), sent, ok) == BlobsRun(scene, old(db.State()), old(sent), missing, artifact)
      ensures BlobsPromised(scene.w, old(db.State()), old(sent), missing, artifact, Outcome(db.State(), sent, ok))
    {
      BlobsLaw(scene, db.State(), sent, missing, artifact);
      ghost var all := BlobsRun(scene, db.State(), sent, missing, artifact);
      for i := 0 to |missing|
        invariant Valid(scene.w, db.State())
        invariant BlobsRun(scene, db.State(), sent, missing[i..], artifact) == all
      {
        assert missing[i..][0] == missing[i] && missing[i..][1..] == missing[i + 1..];
        var data := artifact(missing[i]);
        if data.None? || !missing[i].alg.Available() {
          return false;
        }
        var answer := PutObject(Blob, missing[i].alg, data.value);
        if answer.Failed? {
          return false;
        }
      }
      ok := true;
    }

    method SendBottle(alg: Algorithm, bottle: Bytes, artifact: GetArtifact) returns (ok: bool)
      requires Ready(artifact) && alg.Available() && scene.w.universe(bottle)
      modifies db, this`sent
      ensures Outcome(db.State(), sent, ok) == BottleRun(scene, old(db.State()), old(sent), alg, bottle, artifact)
      ensures BottlePromised(scene.w, old(db.State()), old(sent), alg, bottle, artifact, Outcome(db.State(), sent, ok))
    {
      BottleLaw(scene, db.State(), sent, alg, bottle, artifact);
      var answer := PutObject(Bottle, alg, bottle);
      ok := !answer.Failed?;
      if answer.Failed? && answer.error.Missing? {
        ok := PushBlobs(answer.error.digests, artifact);
        if ok {
          answer := PutObject(Bottle, alg, bottle);
          ok := !answer.Failed?;
        }
      }
    }

    method SendManifest(alg: Algorithm, manifest: Bytes, bottle: Bytes, artifact: GetArtifact) returns (ok: bool)
      requires Ready(artifact) && alg.Available() && scene.w.universe(manifest) && scene.w.universe(bottle)
      modifies db, this`sent
      ensures Outcome(db.State(), sent, ok)
           == ManifestRun(scene, old(db.State()), old(sent), alg, manifest, bottle, artifact)
      ensures ManifestPromised(scene.w, old(db.State()), old(sent), alg, manifest, bottle, artifact,
                               Outcome(db.State(), sent, ok))
    {
      ManifestLaw(scene, db.State(), sent, alg, manifest, bottle, artifact);
      var answer := PutObject(Manifest, alg, manifest);
      ok := !answer.Failed?;
      if answer.Failed? && answer.error.Missing? && |answer.error.digests| == 1
         && answer.error.digests[0].alg.Available() {
        ok := SendBottle(answer.error.digests[0].alg, bottle, artifact);
        if ok {
          answer := PutObject(Manifest, alg, manifest);
          ok := !answer.Failed?;
        }
      }
    }

    method SendEvent(alg: Algorithm, event: Bytes, manifest: Bytes, bottle: Bytes, artifact: GetArtifact)
      returns (ok: bool)
      requires Ready(artifact) && alg.Available()
      requires scene.w.universe(event) && scene.w.universe(manifest) && scene.w.universe(bottle)
      modifies db, this`sent
      ensures Outcome(db.State(), sent, ok)
           == EventRun(scene, old(db.State()), old(sent), alg, event, manifest, bottle, artifact)
      ensures EventPromised(scene.w, old(db.State()), old(sent), alg, event, manifest, bottle, artifact,
                            Outcome(db.State(), sent, ok))
    {
      EventLaw(scene, db.State(), sent, alg, event, manifest, bottle, artifact);
      var answer := PutObject(Event, alg, event);
      ok := !answer.Failed?;
      if answer.Failed? && answer.error.Missing? && |answer.error.digests| == 1
         && answer.error.digests[0].alg.Available() {
        ok := SendManifest(answer.error.digests[0].alg, manifest, bottle, artifact);
        if ok {
          answer := PutObject(Event, alg, event);
          ok := !answer.Failed?;
        }
      }
    }
  }
}

/**
 What one PUT does, said of the tables, the submitted bytes and the query parameters alone.
*/
module Puts {
  import opened Types
  import opened Store
  import opened Invariant

  // ---------- the query parameters ----------

  predicate Implemented(alg: Algorithm) {
    alg == SHA256 || alg == SHA384 || alg == SHA512
  }

  /** The digest under which the request asks for its bytes to be stored. */
  predicate Asks(w: World, r: Request, d: Digest) {
    match r.param
    case NoParam => d == Digest(SHA256, w.hash(SHA256, r.bytes))
    case ByAlgorithm(alg) => Implemented(alg) && d == Digest(alg, w.hash(alg, r.bytes))
    case ByDigest(named) => d == named && Implemented(d.alg) && d.encoded == w.hash(d.alg, r.bytes)
    case BadDigest => false
  }

  /** The parameters name a digest that is not that of the bytes. */
  predicate AsksWrongly(w: World, r: Request) {
    && r.param.ByDigest? && Implemented(r.param.digest.alg)
    && r.param.digest.encoded != w.hash(r.param.digest.alg, r.bytes)
  }

  /** The parameters cannot be understood. */
  predicate AsksUnclearly(r: Request) {
    || r.param.BadDigest?
    || (r.param.ByDigest? && !Implemented(r.param.digest.alg))
    || (r.param.ByAlgorithm? && !Implemented(r.param.alg))
  }

  /** Every request asks for one digest, or wrongly, or unclearly. */
  lemma AsksSomehow(w: World, r: Request)
    ensures AsksWrongly(w, r) || AsksUnclearly(r) || exists d :: Asks(w, r, d)
    ensures forall d | Asks(w, r, d) :: !AsksWrongly(w, r) && !AsksUnclearly(r)
    ensures forall d, d' | Asks(w, r, d) && Asks(w, r, d') :: d == d'
  {
    match r.param
    case NoParam =>
      assert Asks(w, r, Digest(SHA256, w.hash(SHA256, r.bytes)));
    case ByAlgorithm(alg) =>
      assert Implemented(alg) ==> Asks(w, r, Digest(alg, w.hash(alg, r.bytes)));
    case ByDigest(d) =>
      assert Implemented(d.alg) && d.encoded == w.hash(d.alg, r.bytes) ==> Asks(w, r, d);
    case BadDigest =>
  }

  lemma WrongDigestConflicts(w: World, s: Store, r: Request)
    requires AsksWrongly(w, r)
    ensures Put(w, s, r) == (s, Failed(Conflict))
  {
    assert r.param.digest.alg.Available();
  }

  lemma UnclearIsBadRequest(w: World, s: Store, r: Request)
    requires AsksUnclearly(r)
    ensures Put(w, s, r) == (s, Failed(BadRequest))
  {
  }

  /** The parameters are understood as what they ask for. */
  lemma AskedIsParsed(w: World, r: Request, d: Digest)
    requires Asks(w, r, d)
    ensures ParsePutParams(w, r.bytes, r.param) == Ok(d)
    ensures d.alg.Available() && d == w.DigestOf(d.alg, r.bytes)
  {
  }

  // ---------- the tables afterwards ----------

  ghost predicate HasData(s: Store, bytes: Bytes) {
    exists i :: 0 <= i < |s.data| && s.data[i].raw == bytes
  }

  /** The row of the bytes and its alias are there; where they were not before, they were appended. */
  ghost predicate Registered(w: World, s: Store, s': Store, bytes: Bytes, d: Digest, id: nat) {
    && id < |s'.data| && s'.data[id].raw == bytes
    && s'.data == s.data + (if HasData(s, bytes) then [] else [DataRow(bytes, Digest(SHA256, w.hash(SHA256, bytes)))])
    && s'.digests == s.digests + (if DigestRow(id, d) in s.digests then [] else [DigestRow(id, d)])
  }

  lemma DataIsEnsured(w: World, s: Store, bytes: Bytes)
    requires Valid(w, s) && w.NoCollisions() && w.universe(bytes)
    ensures var (s1, id) := EnsureData(s, w.DigestOf(CANONICAL, bytes), bytes);
            && id < |s1.data| && s1.data[id].raw == bytes
            && s1.data == s.data + (if HasData(s, bytes) then []
                                    else [DataRow(bytes, Digest(SHA256, w.hash(SHA256, bytes)))])
  {
    EnsureDataValid(w, s, bytes);
    if HasData(s, bytes) {
      var i :| 0 <= i < |s.data| && s.data[i].raw == bytes;
      assert s.data[i].canonical == w.DigestOf(CANONICAL, bytes);
    }
  }

  lemma AliasIffRow(w: World, s: Store, id: nat, d: Digest)
    requires ValidDigests(w, s.data, s.digests)
    ensures FindAlias(s.digests, d) == Some(id) <==> DigestRow(id, d) in s.digests
  {
    if DigestRow(id, d) in s.digests {
      var j :| 0 <= j < |s.digests| && s.digests[j] == DigestRow(id, d);
      var i := IndexOfDigest(s.digests, d).value;
      assert i == j;
    }
  }

  lemma SameAlias(digests: seq<DigestRow>, digests': seq<DigestRow>, d: Digest)
    requires digests <= digests' && FindAlias(digests', d).Some?
    ensures FindAlias(digests, d).Some? ==> FindAlias(digests, d) == FindAlias(digests', d)
    ensures HasAlias(digests', FindAlias(digests', d).value)
  {
    assert digests'[IndexOfDigest(digests', d).value].dataId == FindAlias(digests', d).value;
    if FindAlias(digests, d).Some? {
      FindAliasStable(digests, digests', d);
    }
  }

  lemma RegisterRegisters(w: World, s: Store, d: Digest, bytes: Bytes)
    requires Valid(w, s) && w.NoCollisions() && w.universe(bytes) && Implemented(d.alg) && d == w.DigestOf(d.alg, bytes)
    ensures var (s', id) := Register(w, s, d, bytes);
            && id.Ok? && Registered(w, s, s', bytes, d, id.value) && s'.tables == s.tables
            && Valid(w, s') && HasAlias(s'.digests, id.value)
  {
    RegisterValid(w, s, d, bytes);
    DataIsEnsured(w, s, bytes);
    var (s', id) := Register(w, s, d, bytes);
    AliasIffRow(w, s, id.value, d);
    SameAlias(s.digests, s'.digests, d);
  }

  // ---------- the typed row afterwards ----------

  /** The row of these bytes is new, at the end of its table, and carries the time and version of the request. */
  ghost predicate RowAdded(s: Store, s': Store, r: Request, id: nat) {
    var rows, rows' := s.tables[r.kind], s'.tables[r.kind];
    && |rows'| == |rows| + 1 && rows' == rows + [rows'[|rows|]]
    && rows'[|rows|].dataId == id && rows'[|rows|].createdAt == r.now && rows'[|rows|].version == r.version
    && forall kind | kind != r.kind :: s'.tables[kind] == s.tables[kind]
  }

  /** The row that was there carries the version of the request, and nothing else has changed. */
  ghost predicate RowRefreshed(s: Store, s': Store, r: Request, id: nat) {
    var rows := s.tables[r.kind];
    exists i: nat :: i < |rows| && rows[i].dataId == id
      && s'.tables == s.tables[r.kind := rows[i := rows[i].(version := r.version)]]
  }

  ghost predicate HasRow(s: Store, kind: Kind, id: nat) {
    exists i :: 0 <= i < |s.tables[kind]| && s.tables[kind][i].dataId == id
  }

  /** What step 3 leaves, and how it is answered. */
  ghost predicate Objected(s: Store, s': Store, r: Request, id: nat, answer: Response) {
    match answer
    case Created => !HasRow(s, r.kind, id) && RowAdded(s, s', r, id)
    case NoContent => HasRow(s, r.kind, id) && RowRefreshed(s, s', r, id)
    case Failed(_) => !HasRow(s, r.kind, id) && s'.tables == s.tables
  }

  lemma EnsuresObject(w: World, s: Store, r: Request, id: nat)
    requires Valid(w, s) && id < |s.data| && HasAlias(s.digests, id)
    ensures var (s', answer) := EnsureRow(w, s, r.kind, id, r.version, r.now);
            Objected(s, s', r, id, answer) && s'.data == s.data && s'.digests == s.digests
  {
    var rows := s.tables[r.kind];
    match IndexOfRow(rows, id)
    case Some(i) =>
      assert ValidRows(w, s, r.kind) && ValidRow(w, s, r.kind, rows[i]);
      var s' := EnsureRow(w, s, r.kind, id, r.version, r.now).0;
      assert rows[i := rows[i].(version := rows[i].version)] == rows;
      assert s'.tables == s.tables[r.kind := rows[i := rows[i].(version := r.version)]];
    case None =>
  }

  /**
   A PUT that asks for a digest: its data and alias are there whatever the answer is. An object that was there
   is refreshed to the version of the request, a new one is appended, and a refused one leaves the typed
   tables alone.
  */
  lemma PutLaw(w: World, s: Store, r: Request, d: Digest) returns (id: nat)
    requires Valid(w, s) && w.NoCollisions() && w.universe(r.bytes) && Asks(w, r, d)
    ensures var (s', answer) := Put(w, s, r);
            && Registered(w, s, s', r.bytes, d, id)
            && Objected(s, s', r, id, answer)
  {
    AskedIsParsed(w, r, d);
    RegisterRegisters(w, s, d, r.bytes);
    var (s1, known) := Register(w, s, d, r.bytes);
    id := known.value;
    EnsuresObject(w, s1, r, id);
  }

  /** The effect of a PUT that asks for this digest. */
  ghost predicate PutWell(w: World, s: Store, s': Store, r: Request, d: Digest, answer: Response) {
    exists id: nat :: Registered(w, s, s', r.bytes, d, id) && Objected(s, s', r, id, answer)
  }

  lemma PutIsWell(w: World, s: Store, r: Request)
    ensures AsksWrongly(w, r) ==> Put(w, s, r) == (s, Failed(Conflict))
    ensures AsksUnclearly(r) ==> Put(w, s, r) == (s, Failed(BadRequest))
    ensures Valid(w, s) && w.NoCollisions() && w.universe(r.bytes) ==>
              forall d | Asks(w, r, d) :: PutWell(w, s, Put(w, s, r).0, r, d, Put(w, s, r).1)
  {
    if AsksWrongly(w, r) {
      WrongDigestConflicts(w, s, r);
    }
    if AsksUnclearly(r) {
      UnclearIsBadRequest(w, s, r);
    }
    if Valid(w, s) && w.NoCollisions() && w.universe(r.bytes) {
      forall d | Asks(w, r, d) ensures PutWell(w, s, Put(w, s, r).0, r, d, Put(w, s, r).1) {
        var _ := PutLaw(w, s, r, d);
      }
    }
  }

  // ---------- the answer for an object that is new ----------

  ghost predicate IsNamed(s: Store, d: Digest) {
    exists id :: DigestRow(id, d) in s.digests
  }

  /** The i-th row of the table goes by this digest. */
  ghost predicate RowGoesBy(s: Store, kind: Kind, i: nat, d: Digest) {
    i < |s.tables[kind]| && DigestRow(s.tables[kind][i].dataId, d) in s.digests
  }

  /** The unnamed among the artifacts, each as often as it is listed. */
  ghost predicate AreMissing(s: Store, artifacts: seq<Digest>, missing: seq<Digest>) {
    && missing != []
    && forall d :: multiset(missing)[d] == if IsNamed(s, d) then 0 else multiset(artifacts)[d]
  }

  /** A blob is taken as it is, a bottle if it is readable and its artifacts have names. */
  ghost predicate BottleAnswered(w: World, s: Store, bytes: Bytes, answer: Response) {
    match w.parseBottle(bytes)
    case Parsed(doc) =>
      if forall a | a in doc.artifacts :: IsNamed(s, a) then answer == Created
      else answer.Failed? && answer.error.Missing? && AreMissing(s, doc.artifacts, answer.error.digests)
    case _ => answer == Failed(BadRequest)
  }

  /** A manifest is taken if its bottle is stored under the digest it names, with a part for each layer. */
  ghost predicate ManifestAnswered(w: World, s: Store, bytes: Bytes, answer: Response) {
    match w.parseManifest(bytes)
    case Parsed(doc) =>
      && ((forall b: nat :: !RowGoesBy(s, Bottle, b, doc.config)) ==> answer == Failed(Missing([doc.config])))
      && (forall b: nat | RowGoesBy(s, Bottle, b, doc.config) && s.tables[Bottle][b].dataId < |s.data| ::
            var bottle := w.parseBottle(s.data[s.tables[Bottle][b].dataId].raw);
            bottle.Parsed? && answer == if |bottle.doc.parts| == |doc.layers| then Created else Failed(BadRequest))
    case _ => answer == Failed(BadRequest)
  }

  /** An event is taken if its manifest is stored under the digest it names. */
  ghost predicate EventAnswered(w: World, s: Store, bytes: Bytes, answer: Response) {
    match w.parseEvent(bytes)
    case Parsed(doc) =>
      answer == if exists m: nat :: RowGoesBy(s, Manifest, m, doc.manifest) then Created
                else Failed(Missing([doc.manifest]))
    case Malformed => answer == Failed(Conflict)
    case Invalid => answer == Failed(BadRequest)
  }

  ghost predicate Answered(w: World, s: Store, r: Request, answer: Response) {
    match r.kind
    case Blob => answer == Created
    case Bottle => BottleAnswered(w, s, r.bytes, answer)
    case Manifest => ManifestAnswered(w, s, r.bytes, answer)
    case Event => EventAnswered(w, s, r.bytes, answer)
  }

  lemma NamedIffAlias(w: World, s: Store, d: Digest)
    ensures IsNamed(s, d) <==> FindAlias(s.digests, d).Some?
  {
    var i := IndexOfDigest(s.digests, d);
    if i.Some? {
      assert s.digests[i.value] == DigestRow(s.digests[i.value].dataId, d);
    }
    if IsNamed(s, d) {
      var id :| DigestRow(id, d) in s.digests;
      var j :| 0 <= j < |s.digests| && s.digests[j] == DigestRow(id, d);
    }
  }

  lemma FoundIffGoesBy(w: World, s: Store, kind: Kind, i: nat, d: Digest)
    requires Valid(w, s)
    ensures RowGoesBy(s, kind, i, d) <==> FindByDigest(s, kind, d) == Some(i)
  {
    assert ValidRows(w, s, kind);
    if i < |s.tables[kind]| {
      AliasIffRow(w, s, s.tables[kind][i].dataId, d);
    }
    if FindByDigest(s, kind, d) == Some(i) {
      AliasIffRow(w, s, FindAlias(s.digests, d).value, d);
    }
  }

  lemma {:induction false} MissingAre(w: World, s: Store, artifacts: seq<Digest>, d: Digest)
    ensures multiset(MissingArtifacts(s.digests, artifacts))[d]
         == if IsNamed(s, d) then 0 else multiset(artifacts)[d]
  {
    if artifacts != [] {
      var init, last := artifacts[..|artifacts| - 1], artifacts[|artifacts| - 1];
      assert artifacts == init + [last];
      MissingAre(w, s, init, d);
      NamedIffAlias(w, s, last);
    }
  }

  lemma BottleAnswer(w: World, s: Store, bytes: Bytes, answer: Response)
    requires match ResolveBottle(w, s, bytes) case Ok(_) => answer == Created case Err(e) => answer == Failed(e)
    ensures BottleAnswered(w, s, bytes, answer)
  {
    if w.parseBottle(bytes).Parsed? {
      var artifacts := w.parseBottle(bytes).doc.artifacts;
      MissingIff(s.digests, artifacts);
      forall d ensures IsNamed(s, d) <==> FindAlias(s.digests, d).Some? {
        NamedIffAlias(w, s, d);
      }
      forall d ensures multiset(MissingArtifacts(s.digests, artifacts))[d]
                    == if IsNamed(s, d) then 0 else multiset(artifacts)[d]
      {
        MissingAre(w, s, artifacts, d);
      }
    }
  }

  lemma ManifestAnswer(w: World, s: Store, bytes: Bytes, answer: Response)
    requires Valid(w, s)
    requires match ResolveManifest(w, s, bytes) case Ok(_) => answer == Created case Err(e) => answer == Failed(e)
    ensures ManifestAnswered(w, s, bytes, answer)
  {
    if w.parseManifest(bytes).Parsed? {
      var config := w.parseManifest(bytes).doc.config;
      forall b: nat ensures RowGoesBy(s, Bottle, b, config) <==> FindByDigest(s, Bottle, config) == Some(b) {
        FoundIffGoesBy(w, s, Bottle, b, config);
      }
      if b: nat :| RowGoesBy(s, Bottle, b, config) {
        assert ValidRows(w, s, Bottle) && ValidRow(w, s, Bottle, s.tables[Bottle][b]);
      }
    }
  }

  lemma EventAnswer(w: World, s: Store, bytes: Bytes, answer: Response)
    requires Valid(w, s)
    requires match ResolveEvent(w, s, bytes) case Ok(_) => answer == Created case Err(e) => answer == Failed(e)
    ensures EventAnswered(w, s, bytes, answer)
  {
    if w.parseEvent(bytes).Parsed? {
      var manifest := w.parseEvent(bytes).doc.manifest;
      forall m: nat ensures RowGoesBy(s, Manifest, m, manifest) <==> FindByDigest(s, Manifest, manifest) == Some(m) {
        FoundIffGoesBy(w, s, Manifest, m, manifest);
      }
      if m: nat :| RowGoesBy(s, Manifest, m, manifest) {
        assert ValidRows(w, s, Manifest) && ValidRow(w, s, Manifest, s.tables[Manifest][m]);
      }
    }
  }

  /** The answer to a PUT of new bytes, from the submitted document and what the tables hold. */
  lemma AnswerLaw(w: World, s: Store, r: Request, d: Digest)
    requires Valid(w, s) && w.NoCollisions() && w.universe(r.bytes) && Asks(w, r, d)
    requires Put(w, s, r).1 != NoContent
    ensures var (s', answer) := Put(w, s, r);
            Answered(w, Store(s'.data, s'.digests, s.tables), r, answer)
  {
    AskedIsParsed(w, r, d);
    RegisterRegisters(w, s, d, r.bytes);
    var (s1, id) := Register(w, s, d, r.bytes);
    var answer := Put(w, s, r).1;
    match r.kind
    case Blob =>
    case Bottle => BottleAnswer(w, s1, r.bytes, answer);
    case Manifest => ManifestAnswer(w, s1, r.bytes, answer);
    case Event => EventAnswer(w, s1, r.bytes, answer);
  }
}

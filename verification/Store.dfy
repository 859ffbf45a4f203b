/**
 The relational store and what one PUT does to it, as functions on store values. Primary keys are
 table positions: no PUT ever deletes a row of the tables below.
*/
module Store {
  import opened Types

  datatype DataRow = DataRow(raw: Bytes, canonical: Digest)

  /** An alias: one name of one data row. */
  datatype DigestRow = DigestRow(dataId: nat, digest: Digest)

  /** The columns that only one of the object types has. */
  datatype Detail =
    | BlobDetail
    | BottleDetail(doc: BottleDoc, artifactData: seq<nat>)
    | ManifestDetail(bottleId: nat, bottleDigest: Digest, layers: seq<Digest>)
    | EventDetail(manifestId: nat, manifestDigest: Digest, eventBottleId: nat, eventBottleDigest: Digest,
                  event: EventDoc)

  datatype Row = Row(createdAt: Time, version: nat, dataId: nat, detail: Detail)

  type Tables = m: map<Kind, seq<Row>> | forall k: Kind :: k in m
    witness map k: Kind | true :: []

  const NO_ROWS: Tables := map k: Kind | true :: []

  datatype Store = Store(data: seq<DataRow>, digests: seq<DigestRow>, tables: Tables)

  const EMPTY: Store := Store([], [], NO_ROWS)

  datatype PutError = BadRequest | Conflict | Missing(digests: seq<Digest>) | DatabaseError

  datatype Response = Created | NoContent | Failed(error: PutError)

  datatype Result<+T> = Ok(value: T) | Err(error: PutError)

  /** The `digest` and `digest-alg` query parameters of a PUT. */
  datatype DigestParam = NoParam | BadDigest | ByDigest(digest: Digest) | ByAlgorithm(alg: Algorithm)

  datatype Request = Request(kind: Kind, bytes: Bytes, param: DigestParam, version: nat, now: Time)

  // ---------- lookups: the first matching row in primary key order ----------

  function IndexWhere<T>(rows: seq<T>, p: T -> bool): (r: Option<nat>)
    ensures r.Some? ==> r.value < |rows| && p(rows[r.value])
    ensures r.Some? ==> forall j :: 0 <= j < r.value ==> !p(rows[j])
    ensures r.None? ==> forall j :: 0 <= j < |rows| ==> !p(rows[j])
  {
    if rows == [] then None
    else if p(rows[0]) then Some(0)
    else match IndexWhere(rows[1..], p)
      case None => None
      case Some(i) => Some(i + 1)
  }

  function IndexOfData(data: seq<DataRow>, canonical: Digest): (r: Option<nat>)
    ensures r.Some? ==> r.value < |data| && data[r.value].canonical == canonical
    ensures r.Some? ==> forall j :: 0 <= j < r.value ==> data[j].canonical != canonical
    ensures r.None? ==> forall j :: 0 <= j < |data| ==> data[j].canonical != canonical
  {
    IndexWhere(data, (row: DataRow) => row.canonical == canonical)
  }

  function IndexOfDigest(digests: seq<DigestRow>, digest: Digest): (r: Option<nat>)
    ensures r.Some? ==> r.value < |digests| && digests[r.value].digest == digest
    ensures r.Some? ==> forall j :: 0 <= j < r.value ==> digests[j].digest != digest
    ensures r.None? ==> forall j :: 0 <= j < |digests| ==> digests[j].digest != digest
  {
    IndexWhere(digests, (row: DigestRow) => row.digest == digest)
  }

  function IndexOfRow(rows: seq<Row>, dataId: nat): (r: Option<nat>)
    ensures r.Some? ==> r.value < |rows| && rows[r.value].dataId == dataId
    ensures r.Some? ==> forall j :: 0 <= j < r.value ==> rows[j].dataId != dataId
    ensures r.None? ==> forall j :: 0 <= j < |rows| ==> rows[j].dataId != dataId
  {
    IndexWhere(rows, (row: Row) => row.dataId == dataId)
  }

  /** The data row that a digest names. */
  function FindAlias(digests: seq<DigestRow>, digest: Digest): Option<nat> {
    match IndexOfDigest(digests, digest)
    case None => None
    case Some(i) => Some(digests[i].dataId)
  }

  /** The row of a table whose data has the digest as an alias (an inner join with the aliases). */
  function FindByDigest(s: Store, kind: Kind, digest: Digest): (r: Option<nat>)
    ensures r.Some? ==> r.value < |s.tables[kind]|
  {
    match FindAlias(s.digests, digest)
    case None => None
    case Some(id) => IndexOfRow(s.tables[kind], id)
  }

  // ---------- resolving an object's references ----------

  function MissingArtifacts(digests: seq<DigestRow>, artifacts: seq<Digest>): seq<Digest> {
    if artifacts == [] then []
    else
      var last := artifacts[|artifacts| - 1];
      MissingArtifacts(digests, artifacts[..|artifacts| - 1])
      + if FindAlias(digests, last).None? then [last] else []
  }

  function ArtifactData(digests: seq<DigestRow>, artifacts: seq<Digest>): seq<nat> {
    seq(|artifacts|, i requires 0 <= i < |artifacts| =>
      var id := FindAlias(digests, artifacts[i]);
      if id.Some? then id.value else 0)
  }

  function PartCount(row: Row): nat {
    if row.detail.BottleDetail? then |row.detail.doc.parts| else 0
  }

  function ResolveBottle(w: World, s: Store, raw: Bytes): Result<Detail> {
    match w.parseBottle(raw)
    case Malformed => Err(BadRequest)
    case Invalid => Err(BadRequest)
    case Parsed(doc) =>
      var missing := MissingArtifacts(s.digests, doc.artifacts);
      if missing != [] then Err(Missing(missing))
      else Ok(BottleDetail(doc, ArtifactData(s.digests, doc.artifacts)))
  }

  function ResolveManifest(w: World, s: Store, raw: Bytes): Result<Detail> {
    match w.parseManifest(raw)
    case Malformed => Err(BadRequest)
    case Invalid => Err(BadRequest)
    case Parsed(doc) =>
      match FindByDigest(s, Bottle, doc.config)
      case None => Err(Missing([doc.config]))
      case Some(b) =>
        if |doc.layers| != PartCount(s.tables[Bottle][b]) then Err(BadRequest)
        else Ok(ManifestDetail(b, doc.config, doc.layers))
  }

  function ResolveEvent(w: World, s: Store, raw: Bytes): Result<Detail> {
    match w.parseEvent(raw)
    case Malformed => Err(Conflict)
    case Invalid => Err(BadRequest)
    case Parsed(doc) =>
      match FindByDigest(s, Manifest, doc.manifest)
      case None => Err(Missing([doc.manifest]))
      case Some(m) =>
        var manifest := s.tables[Manifest][m].detail;
        if manifest.ManifestDetail? then
          Ok(EventDetail(m, doc.manifest, manifest.bottleId, manifest.bottleDigest, doc))
        else
          Err(DatabaseError)
  }

  function Resolve(w: World, s: Store, kind: Kind, raw: Bytes): Result<Detail> {
    match kind
    case Blob => Ok(BlobDetail)
    case Bottle => ResolveBottle(w, s, raw)
    case Manifest => ResolveManifest(w, s, raw)
    case Event => ResolveEvent(w, s, raw)
  }

  // ---------- one PUT ----------

  function ParsePutParams(w: World, bytes: Bytes, param: DigestParam): Result<Digest> {
    match param
    case BadDigest => Err(BadRequest)
    case ByDigest(d) =>
      if !d.alg.Available() then Err(BadRequest)
      else if w.DigestOf(d.alg, bytes) != d then Err(Conflict)
      else Ok(d)
    case ByAlgorithm(alg) =>
      if !alg.Available() then Err(BadRequest) else Ok(w.DigestOf(alg, bytes))
    case NoParam => Ok(w.DigestOf(CANONICAL, bytes))
  }

  function EnsureData(s: Store, canonical: Digest, bytes: Bytes): (Store, nat) {
    match IndexOfData(s.data, canonical)
    case Some(i) => (s, i)
    case None => (s.(data := s.data + [DataRow(bytes, canonical)]), |s.data|)
  }

  /** The unique index on the digest column refuses a second data row for the same digest. */
  function EnsureDigest(s: Store, dataId: nat, digest: Digest): Result<Store> {
    match FindAlias(s.digests, digest)
    case Some(id) => if id == dataId then Ok(s) else Err(DatabaseError)
    case None => Ok(s.(digests := s.digests + [DigestRow(dataId, digest)]))
  }

  /** A save with a primary key overwrites that row, one without appends. */
  function SaveRow(s: Store, kind: Kind, at: Option<nat>, row: Row): Store
    requires at.Some? ==> at.value < |s.tables[kind]|
  {
    var rows := s.tables[kind];
    s.(tables := s.tables[kind := if at.Some? then rows[at.value := row] else rows + [row]])
  }

  /** Runs the processor of a table for new data or for a row that is already there. */
  function Process(w: World, s: Store, kind: Kind, at: Option<nat>, createdAt: Time, version: nat,
                   dataId: nat): Result<Store>
    requires at.Some? ==> at.value < |s.tables[kind]|
    requires dataId < |s.data|
  {
    match Resolve(w, s, kind, s.data[dataId].raw)
    case Err(e) => Err(e)
    case Ok(detail) => Ok(SaveRow(s, kind, at, Row(createdAt, version, dataId, detail)))
  }

  /** Steps 1 and 2: the data row and its alias. */
  function Register(w: World, s: Store, digest: Digest, bytes: Bytes): (Store, Result<nat>) {
    var canonical := if digest.alg == CANONICAL then digest else w.DigestOf(CANONICAL, bytes);
    var (s1, id) := EnsureData(s, canonical, bytes);
    match EnsureDigest(s1, id, digest)
    case Err(e) => (s1, Err(e))
    case Ok(s2) => (s2, Ok(id))
  }

  /**
   Step 3: the typed row. A row of an older or newer processor is processed again, but the response
   was already sent by then.
  */
  function EnsureRow(w: World, s: Store, kind: Kind, dataId: nat, version: nat, now: Time): (Store, Response)
    requires dataId < |s.data|
  {
    match IndexOfRow(s.tables[kind], dataId)
    case Some(i) =>
      var row := s.tables[kind][i];
      if row.version == version then (s, NoContent)
      else (
        match Process(w, s, kind, Some(i), row.createdAt, version, dataId)
        case Ok(s') => (s', NoContent)
        case Err(_) => (s, NoContent))
    case None =>
      match Process(w, s, kind, None, now, version, dataId)
      case Ok(s') => (s', Created)
      case Err(e) => (s, Failed(e))
  }

  function Put(w: World, s: Store, r: Request): (Store, Response) {
    match ParsePutParams(w, r.bytes, r.param)
    case Err(e) => (s, Failed(e))
    case Ok(digest) =>
      var (s', id) := Register(w, s, digest, r.bytes);
      match id
      case Err(e) => (s', Failed(e))
      case Ok(i) => EnsureRow(w, s', r.kind, i, r.version, r.now)
  }

  function Get(s: Store, kind: Kind, digest: Digest): Option<Bytes> {
    match FindByDigest(s, kind, digest)
    case None => None
    case Some(i) =>
      var id := s.tables[kind][i].dataId;
      if id < |s.data| then Some(s.data[id].raw) else None
  }
}

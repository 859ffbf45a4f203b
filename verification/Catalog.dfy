/**
 What the relational store means: a map from aliases to bytes and a set of accepted objects. The
 store refines this catalog PUT by PUT, answers included.
*/
module Catalog {
  import opened Types
  import opened Store
  import opened Invariant

  datatype Catalog = Catalog(aliases: map<Digest, Bytes>, items: set<(Kind, Bytes)>)

  const NOTHING: Catalog := Catalog(map[], {})

  // ---------- PUT on a catalog ----------

  function MissingFrom(c: Catalog, artifacts: seq<Digest>): seq<Digest> {
    if artifacts == [] then []
    else
      var last := artifacts[|artifacts| - 1];
      MissingFrom(c, artifacts[..|artifacts| - 1]) + if last in c.aliases then [] else [last]
  }

  predicate Stored(c: Catalog, kind: Kind, digest: Digest) {
    digest in c.aliases && (kind, c.aliases[digest]) in c.items
  }

  /** The reason for which the bytes are refused as an object of the given kind, if there is one. */
  function Refusal(w: World, c: Catalog, kind: Kind, bytes: Bytes): Option<PutError> {
    match kind
    case Blob => None
    case Bottle => (
      match w.parseBottle(bytes)
      case Parsed(doc) =>
        var missing := MissingFrom(c, doc.artifacts);
        if missing == [] then None else Some(Missing(missing))
      case _ => Some(BadRequest))
    case Manifest => (
      match w.parseManifest(bytes)
      case Parsed(doc) =>
        if !Stored(c, Bottle, doc.config) then Some(Missing([doc.config]))
        else if |doc.layers| != Parts(w, c.aliases[doc.config]) then Some(BadRequest)
        else None
      case _ => Some(BadRequest))
    case Event => (
      match w.parseEvent(bytes)
      case Parsed(doc) => if Stored(c, Manifest, doc.manifest) then None else Some(Missing([doc.manifest]))
      case Malformed => Some(Conflict)
      case Invalid => Some(BadRequest))
  }

  function Parts(w: World, bottle: Bytes): nat {
    match w.parseBottle(bottle)
    case Parsed(doc) => |doc.parts|
    case _ => 0
  }

  /** The alias is recorded whether or not the object is then accepted. */
  function Submit(w: World, c: Catalog, kind: Kind, digest: Digest, bytes: Bytes): (Catalog, Response) {
    var named := c.(aliases := c.aliases[digest := bytes]);
    if (kind, bytes) in c.items then (named, NoContent)
    else match Refusal(w, named, kind, bytes)
      case None => (named.(items := named.items + {(kind, bytes)}), Created)
      case Some(e) => (named, Failed(e))
  }

  function CatalogPut(w: World, c: Catalog, r: Request): (Catalog, Response) {
    match ParsePutParams(w, r.bytes, r.param)
    case Err(e) => (c, Failed(e))
    case Ok(digest) => Submit(w, c, r.kind, digest, r.bytes)
  }

  // ---------- the catalog's own invariant ----------

  ghost predicate Sound(w: World, c: Catalog) {
    match c
    case Catalog(aliases, items) =>
      && (forall d | d in aliases ::
            w.universe(aliases[d]) && d.alg.Available() && d == w.DigestOf(d.alg, aliases[d]))
      && (forall kind, b | (kind, b) in items ::
            b in aliases.Values && Refusal(w, c, kind, b) == None)
  }

  ghost predicate Extends(c: Catalog, c': Catalog) {
    match c
    case Catalog(aliases, items) =>
      && (forall d | d in aliases :: d in c'.aliases && c'.aliases[d] == aliases[d])
      && items <= c'.items
  }

  /** In a sound catalog a digest is either free or names the bytes that hash to it. */
  lemma NamesItsBytes(w: World, c: Catalog, d: Digest, bytes: Bytes)
    requires Sound(w, c) && w.NoCollisions() && w.universe(bytes) && d == w.DigestOf(d.alg, bytes) && d in c.aliases
    ensures c.aliases[d] == bytes
  {
    assert d == w.DigestOf(d.alg, c.aliases[d]);
  }

  /** What was submitted is stored under its digest exactly when it was not refused. */
  lemma SubmittedIsStored(w: World, c: Catalog, kind: Kind, digest: Digest, bytes: Bytes)
    ensures var (c', answer) := Submit(w, c, kind, digest, bytes);
            && digest in c'.aliases && c'.aliases[digest] == bytes
            && (Stored(c', kind, digest) <==> !answer.Failed?)
  {
  }

  lemma {:induction false} MissingFromMembers(c: Catalog, artifacts: seq<Digest>)
    ensures forall d :: d in MissingFrom(c, artifacts) <==> d in artifacts && d !in c.aliases
    ensures |MissingFrom(c, artifacts)| <= |artifacts|
  {
    if artifacts != [] {
      var init, last := artifacts[..|artifacts| - 1], artifacts[|artifacts| - 1];
      MissingFromMembers(c, init);
      assert artifacts == init + [last];
    }
  }

  lemma MissingFromIff(c: Catalog, artifacts: seq<Digest>)
    ensures forall d :: d in MissingFrom(c, artifacts) <==> d in artifacts && d !in c.aliases
    ensures MissingFrom(c, artifacts) == [] <==> forall d | d in artifacts :: d in c.aliases
    ensures |MissingFrom(c, artifacts)| <= |artifacts|
  {
    MissingFromMembers(c, artifacts);
    if MissingFrom(c, artifacts) != [] {
      assert MissingFrom(c, artifacts)[0] in MissingFrom(c, artifacts);
    }
  }

  /** An object that is not refused now is not refused later. */
  lemma AcceptanceStable(w: World, c: Catalog, c': Catalog, kind: Kind, bytes: Bytes)
    requires Extends(c, c') && Refusal(w, c, kind, bytes) == None
    ensures Refusal(w, c', kind, bytes) == None
  {
    if kind == Bottle {
      MissingFromIff(c, w.parseBottle(bytes).doc.artifacts);
      MissingFromIff(c', w.parseBottle(bytes).doc.artifacts);
    }
  }

  lemma SubmitSound(w: World, c: Catalog, kind: Kind, digest: Digest, bytes: Bytes)
    requires Sound(w, c) && w.NoCollisions() && w.universe(bytes)
    requires digest.alg.Available() && digest == w.DigestOf(digest.alg, bytes)
    ensures var c' := Submit(w, c, kind, digest, bytes).0;
            Sound(w, c') && Extends(c, c') && digest in c'.aliases && c'.aliases[digest] == bytes
  {
    var c' := Submit(w, c, kind, digest, bytes).0;
    assert Extends(c, c');
    var named := c.(aliases := c.aliases[digest := bytes]);
    assert Extends(named, c');
    assert c'.aliases[digest] == bytes;
    forall k, b | (k, b) in c'.items
      ensures b in c'.aliases.Values && Refusal(w, c', k, b) == None
    {
      if (k, b) in c.items {
        AcceptanceStable(w, c, c', k, b);
        var d :| d in c.aliases && c.aliases[d] == b;
        assert c'.aliases[d] == b;
      } else {
        AcceptanceStable(w, named, c', k, b);
      }
    }
  }

  // ---------- the refinement ----------

  function Raw(data: seq<DataRow>, dataId: nat): Bytes {
    if dataId < |data| then data[dataId].raw else []
  }

  function Aliases(s: Store): map<Digest, Bytes> {
    map d | d in (set r | r in s.digests :: r.digest) && FindAlias(s.digests, d).Some?
      :: Raw(s.data, FindAlias(s.digests, d).value)
  }

  function Items(s: Store): set<(Kind, Bytes)> {
    set kind: Kind, i | 0 <= i < |s.tables[kind]| :: (kind, Raw(s.data, s.tables[kind][i].dataId))
  }

  function Abs(s: Store): Catalog {
    Catalog(Aliases(s), Items(s))
  }

  lemma AliasesExact(s: Store, digest: Digest)
    ensures digest in Aliases(s) <==> FindAlias(s.digests, digest).Some?
    ensures FindAlias(s.digests, digest).Some? ==>
              Aliases(s)[digest] == Raw(s.data, FindAlias(s.digests, digest).value)
  {
    var i := IndexOfDigest(s.digests, digest);
    if i.Some? {
      assert s.digests[i.value] in s.digests;
    }
  }

  /** A row is found by its data exactly when the table holds the bytes. */
  lemma RowFoundIff(w: World, s: Store, kind: Kind, dataId: nat)
    requires Valid(w, s) && dataId < |s.data|
    ensures IndexOfRow(s.tables[kind], dataId).Some? <==> (kind, s.data[dataId].raw) in Items(s)
  {
    assert ValidRows(w, s, kind);
    var found := IndexOfRow(s.tables[kind], dataId);
    if found.Some? {
      assert s.tables[kind][found.value].dataId == dataId;
    }
    if (kind, s.data[dataId].raw) in Items(s) {
      var i :| 0 <= i < |s.tables[kind]| && Raw(s.data, s.tables[kind][i].dataId) == s.data[dataId].raw;
      assert ValidRow(w, s, kind, s.tables[kind][i]);
      SameBytesSameRow(w, s.data, s.tables[kind][i].dataId, dataId);
    }
  }

  /** Looking a digest up through the join agrees with the catalog. */
  lemma LookupAgrees(w: World, s: Store, kind: Kind, digest: Digest)
    requires Valid(w, s)
    ensures FindByDigest(s, kind, digest).Some? <==> Stored(Abs(s), kind, digest)
    ensures FindByDigest(s, kind, digest).Some? ==>
              var row := s.tables[kind][FindByDigest(s, kind, digest).value];
              && ValidRow(w, s, kind, row)
              && s.data[row.dataId].raw == Abs(s).aliases[digest]
  {
    AliasesExact(s, digest);
    var id := FindAlias(s.digests, digest);
    if id.Some? {
      RowFoundIff(w, s, kind, id.value);
      assert ValidRows(w, s, kind);
    }
  }

  lemma {:induction false} MissingAgrees(s: Store, artifacts: seq<Digest>)
    ensures MissingArtifacts(s.digests, artifacts) == MissingFrom(Abs(s), artifacts)
  {
    if artifacts != [] {
      MissingAgrees(s, artifacts[..|artifacts| - 1]);
      AliasesExact(s, artifacts[|artifacts| - 1]);
    }
  }

  lemma ManifestResolveAgrees(w: World, s: Store, raw: Bytes)
    requires Valid(w, s)
    ensures SameAnswer(ResolveManifest(w, s, raw), Refusal(w, Abs(s), Manifest, raw))
  {
    if w.parseManifest(raw).Parsed? {
      LookupAgrees(w, s, Bottle, w.parseManifest(raw).doc.config);
    }
  }

  lemma EventResolveAgrees(w: World, s: Store, raw: Bytes)
    requires Valid(w, s)
    ensures SameAnswer(ResolveEvent(w, s, raw), Refusal(w, Abs(s), Event, raw))
  {
    if w.parseEvent(raw).Parsed? {
      var digest := w.parseEvent(raw).doc.manifest;
      LookupAgrees(w, s, Manifest, digest);
      FoundEvent(w, s, raw);
    }
  }

  lemma FoundEvent(w: World, s: Store, raw: Bytes)
    requires w.parseEvent(raw).Parsed?
    requires var digest := w.parseEvent(raw).doc.manifest;
             var m := FindByDigest(s, Manifest, digest);
             && (m.Some? <==> Stored(Abs(s), Manifest, digest))
             && (m.Some? ==> ValidRow(w, s, Manifest, s.tables[Manifest][m.value]))
    ensures SameAnswer(ResolveEvent(w, s, raw), Refusal(w, Abs(s), Event, raw))
  {
  }

  /** Both accept, or both refuse for the same reason. */
  predicate SameAnswer(r: Result<Detail>, refusal: Option<PutError>) {
    match r
    case Ok(_) => refusal.None?
    case Err(e) => refusal == Some(e)
  }

  /** Resolving against the tables refuses exactly what the catalog refuses, for the same reason. */
  lemma ResolveAgrees(w: World, s: Store, kind: Kind, raw: Bytes)
    requires Valid(w, s)
    ensures SameAnswer(Resolve(w, s, kind, raw), Refusal(w, Abs(s), kind, raw))
  {
    match kind
    case Blob =>
    case Bottle =>
      if w.parseBottle(raw).Parsed? {
        MissingAgrees(s, w.parseBottle(raw).doc.artifacts);
      }
    case Manifest => ManifestResolveAgrees(w, s, raw);
    case Event => EventResolveAgrees(w, s, raw);
  }

  lemma GrowthExtends(w: World, s: Store, s': Store)
    requires Valid(w, s) && Valid(w, s') && Grows(s, s')
    ensures Extends(Abs(s), Abs(s'))
  {
    forall d | d in Abs(s).aliases
      ensures d in Abs(s').aliases && Abs(s').aliases[d] == Abs(s).aliases[d]
    {
      AliasesExact(s, d);
      AliasesExact(s', d);
      FindAliasStable(s.digests, s'.digests, d);
    }
    forall item | item in Items(s) ensures item in Items(s') {
      var i :| 0 <= i < |s.tables[item.0]| && Raw(s.data, s.tables[item.0][i].dataId) == item.1;
      assert ValidRows(w, s, item.0) && GrowsRows(s.tables[item.0], s'.tables[item.0]);
      assert ValidRow(w, s, item.0, s.tables[item.0][i]);
      assert Raw(s'.data, s'.tables[item.0][i].dataId) == item.1;
    }
  }

  lemma RowSound(w: World, s: Store, kind: Kind, i: nat)
    requires Valid(w, s) && i < |s.tables[kind]|
    ensures var b := Raw(s.data, s.tables[kind][i].dataId);
            b in Aliases(s).Values && Refusal(w, Abs(s), kind, b) == None
  {
    assert ValidRows(w, s, kind);
    var row := s.tables[kind][i];
    assert ValidRow(w, s, kind, row);
    ResolveAgrees(w, s, kind, s.data[row.dataId].raw);
    var j :| 0 <= j < |s.digests| && s.digests[j].dataId == row.dataId;
    var d := s.digests[j].digest;
    AliasesExact(s, d);
    assert IndexOfDigest(s.digests, d) == Some(j);
    assert Aliases(s)[d] == s.data[row.dataId].raw;
  }

  lemma ValidIsSound(w: World, s: Store)
    requires Valid(w, s)
    ensures Sound(w, Abs(s))
  {
    var c := Abs(s);
    forall d | d in c.aliases
      ensures w.universe(c.aliases[d]) && d.alg.Available() && d == w.DigestOf(d.alg, c.aliases[d])
    {
      AliasesExact(s, d);
    }
    forall kind, b | (kind, b) in c.items
      ensures b in c.aliases.Values && Refusal(w, c, kind, b) == None
    {
      var i :| 0 <= i < |s.tables[kind]| && Raw(s.data, s.tables[kind][i].dataId) == b;
      RowSound(w, s, kind, i);
    }
  }

  lemma RowsInRange(w: World, s: Store, kind: Kind, i: nat)
    requires Valid(w, s) && i < |s.tables[kind]|
    ensures s.tables[kind][i].dataId < |s.data|
  {
    assert ValidRows(w, s, kind);
    assert ValidRow(w, s, kind, s.tables[kind][i]);
  }

  lemma ItemsKept(w: World, s: Store, s': Store)
    requires Valid(w, s) && s.data <= s'.data && s'.tables == s.tables
    ensures Items(s') == Items(s)
  {
    forall kind: Kind, i | 0 <= i < |s.tables[kind]|
      ensures Raw(s'.data, s.tables[kind][i].dataId) == Raw(s.data, s.tables[kind][i].dataId)
    {
      RowsInRange(w, s, kind, i);
    }
  }

  lemma OtherAliasFound(digests: seq<DigestRow>, row: DigestRow, d: Digest)
    requires d != row.digest
    ensures FindAlias(digests + [row], d) == FindAlias(digests, d)
  {
    var digests' := digests + [row];
    var i := IndexOfDigest(digests', d);
    if i.Some? {
      assert digests[i.value].digest == d;
    }
    if IndexOfDigest(digests, d).Some? {
      assert digests'[IndexOfDigest(digests, d).value].digest == d;
    }
  }

  lemma AliasAdded(s: Store, s': Store, digest: Digest, dataId: nat)
    requires forall i | 0 <= i < |s.digests| :: s.digests[i].dataId < |s.data|
    requires s.data <= s'.data && FindAlias(s'.digests, digest) == Some(dataId)
    requires s'.digests == (if FindAlias(s.digests, digest).Some? then s.digests
                            else s.digests + [DigestRow(dataId, digest)])
    ensures Aliases(s') == Aliases(s)[digest := Raw(s'.data, dataId)]
  {
    forall d | d != digest
      ensures d in Aliases(s') <==> d in Aliases(s)
      ensures d in Aliases(s) ==> Aliases(s')[d] == Aliases(s)[d]
    {
      OtherAliasFound(s.digests, DigestRow(dataId, digest), d);
      SameAlias(s, s', d);
    }
    AliasesExact(s', digest);
  }

  lemma SameAlias(s: Store, s': Store, d: Digest)
    requires forall i | 0 <= i < |s.digests| :: s.digests[i].dataId < |s.data|
    requires s.data <= s'.data && FindAlias(s'.digests, d) == FindAlias(s.digests, d)
    ensures d in Aliases(s') <==> d in Aliases(s)
    ensures d in Aliases(s) ==> Aliases(s')[d] == Aliases(s)[d]
  {
    AliasesExact(s', d);
    AliasesExact(s, d);
  }

  lemma RegisterAgrees(w: World, s: Store, digest: Digest, bytes: Bytes)
    requires Valid(w, s) && w.NoCollisions() && w.universe(bytes)
    requires digest.alg.Available() && digest == w.DigestOf(digest.alg, bytes)
    ensures Abs(Register(w, s, digest, bytes).0)
            == Catalog(Abs(s).aliases[digest := bytes], Abs(s).items)
  {
    RegisterValid(w, s, digest, bytes);
    var (s', id) := Register(w, s, digest, bytes);
    ItemsKept(w, s, s');
    AliasAdded(s, s', digest, id.value);
  }

  ghost predicate Holds(data: seq<DataRow>, rows: seq<Row>, bytes: Bytes) {
    exists i :: 0 <= i < |rows| && Raw(data, rows[i].dataId) == bytes
  }

  lemma ItemIff(s: Store, kind: Kind, bytes: Bytes)
    ensures (kind, bytes) in Items(s) <==> Holds(s.data, s.tables[kind], bytes)
  {
  }

  lemma SavedItems(s: Store, kind: Kind, at: Option<nat>, row: Row)
    requires row.dataId < |s.data| && Saves(s, kind, at, row)
    ensures Abs(SaveRow(s, kind, at, row)) == Catalog(Abs(s).aliases, Abs(s).items + {(kind, s.data[row.dataId].raw)})
  {
    var s' := SaveRow(s, kind, at, row);
    var rows, rows' := s.tables[kind], s'.tables[kind];
    var item := (kind, s.data[row.dataId].raw);
    var n := if at.Some? then at.value else |rows|;
    assert rows'[n] == row;
    assert forall i | 0 <= i < |rows'| && i != n :: rows'[i] == rows[i];
    assert at.Some? ==> rows[n].dataId == row.dataId;
    forall k: Kind, b: Bytes ensures (k, b) in Items(s') <==> (k, b) in Items(s) || (k, b) == item {
      ItemIff(s, k, b);
      ItemIff(s', k, b);
      if k == kind {
        SavedHolds(s.data, rows, rows', n, row, b);
      }
    }
    forall x ensures x in Items(s') <==> x in Items(s) + {item} {
      assert x == (x.0, x.1);
    }
    assert Items(s') == Items(s) + {item};
  }

  lemma SavedHolds(data: seq<DataRow>, rows: seq<Row>, rows': seq<Row>, n: nat, row: Row, bytes: Bytes)
    requires n < |rows'| && rows'[n] == row && |rows| <= |rows'| <= |rows| + 1
    requires forall i | 0 <= i < |rows'| && i != n :: i < |rows| && rows'[i] == rows[i]
    requires n < |rows| ==> rows[n].dataId == row.dataId
    ensures Holds(data, rows', bytes) <==> Holds(data, rows, bytes) || Raw(data, row.dataId) == bytes
  {
    if Holds(data, rows, bytes) {
      var i :| 0 <= i < |rows| && Raw(data, rows[i].dataId) == bytes;
      assert Raw(data, rows'[i].dataId) == bytes;
    }
  }

  lemma EnsureRowAgrees(w: World, s: Store, kind: Kind, dataId: nat, version: nat, now: Time)
    requires Valid(w, s) && dataId < |s.data| && HasAlias(s.digests, dataId)
    ensures var (s', answer) := EnsureRow(w, s, kind, dataId, version, now);
            var c, b := Abs(s), s.data[dataId].raw;
            if (kind, b) in c.items then Abs(s') == c && answer == NoContent
            else match Refusal(w, c, kind, b)
              case None => Abs(s') == c.(items := c.items + {(kind, b)}) && answer == Created
              case Some(e) => Abs(s') == c && answer == Failed(e)
  {
    var b := s.data[dataId].raw;
    RowFoundIff(w, s, kind, dataId);
    ResolveAgrees(w, s, kind, b);
    assert ValidRows(w, s, kind);
    match IndexOfRow(s.tables[kind], dataId)
    case Some(i) =>
      var row := s.tables[kind][i];
      assert ValidRow(w, s, kind, row);
      SavedItems(s, kind, Some(i), row.(version := version));
      assert Items(s) + {(kind, b)} == Items(s);
    case None =>
      if Resolve(w, s, kind, b).Ok? {
        SavedItems(s, kind, None, Row(now, version, dataId, Resolve(w, s, kind, b).value));
      }
  }

  /** The refinement: a PUT on the tables is a PUT on the catalog, with the same answer. */
  lemma PutRefines(w: World, s: Store, r: Request)
    requires Valid(w, s) && w.NoCollisions() && w.universe(r.bytes)
    ensures var (s', answer) := Put(w, s, r);
            CatalogPut(w, Abs(s), r) == (Abs(s'), answer)
  {
    if ParsePutParams(w, r.bytes, r.param).Ok? {
      var digest := ParsePutParams(w, r.bytes, r.param).value;
      RegisterValid(w, s, digest, r.bytes);
      RegisterAgrees(w, s, digest, r.bytes);
      var (s', id) := Register(w, s, digest, r.bytes);
      assert s'.digests[IndexOfDigest(s'.digests, digest).value].dataId == id.value;
      EnsureRowAgrees(w, s', r.kind, id.value, r.version, r.now);
    }
  }
}

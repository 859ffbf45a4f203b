/**
 The store invariant, and growth: what every PUT, accepted or failed, leaves in place.
*/
module Invariant {
  import opened Types
  import opened Store

  // ---------- the invariant ----------

  ghost predicate ValidData(w: World, data: seq<DataRow>) {
    && (forall i :: 0 <= i < |data| ==>
          w.universe(data[i].raw) && data[i].canonical == w.DigestOf(CANONICAL, data[i].raw))
    && (forall i, j :: 0 <= i < j < |data| ==> data[i].canonical != data[j].canonical)
  }

  ghost predicate ValidDigests(w: World, data: seq<DataRow>, digests: seq<DigestRow>) {
    && (forall i :: 0 <= i < |digests| ==>
          && digests[i].dataId < |data|
          && digests[i].digest.alg.Available()
          && digests[i].digest == w.DigestOf(digests[i].digest.alg, data[digests[i].dataId].raw))
    && (forall i, j :: 0 <= i < j < |digests| ==> digests[i].digest != digests[j].digest)
  }

  ghost predicate HasAlias(digests: seq<DigestRow>, dataId: nat) {
    exists j :: 0 <= j < |digests| && digests[j].dataId == dataId
  }

  /** A row is right when resolving its data again yields the very columns it holds. */
  ghost predicate ValidRow(w: World, s: Store, kind: Kind, row: Row) {
    && row.dataId < |s.data|
    && HasAlias(s.digests, row.dataId)
    && Resolve(w, s, kind, s.data[row.dataId].raw) == Ok(row.detail)
  }

  ghost predicate ValidRows(w: World, s: Store, kind: Kind) {
    var rows := s.tables[kind];
    && (forall i :: 0 <= i < |rows| ==> ValidRow(w, s, kind, rows[i]))
    && (forall i, j :: 0 <= i < j < |rows| ==> rows[i].dataId != rows[j].dataId)
  }

  ghost predicate Valid(w: World, s: Store) {
    match s
    case Store(data, digests, _) =>
      && ValidData(w, data)
      && ValidDigests(w, data, digests)
      && forall kind :: ValidRows(w, s, kind)
  }

  lemma EmptyIsValid(w: World)
    ensures Valid(w, EMPTY)
  {
  }

  // ---------- growth ----------

  /** Rows stay at their primary key; only the processor version of a row may change. */
  ghost predicate GrowsRows(rows: seq<Row>, rows': seq<Row>) {
    && |rows| <= |rows'|
    && forall i :: 0 <= i < |rows| ==> rows'[i] == rows[i].(version := rows'[i].version)
  }

  ghost predicate Grows(s: Store, s': Store) {
    match s
    case Store(data, digests, tables) =>
      && data <= s'.data
      && digests <= s'.digests
      && forall kind :: GrowsRows(tables[kind], s'.tables[kind])
  }

  lemma GrowsTransitive(s0: Store, s1: Store, s2: Store)
    requires Grows(s0, s1) && Grows(s1, s2)
    ensures Grows(s0, s2)
  {
    forall kind ensures GrowsRows(s0.tables[kind], s2.tables[kind]) {
      assert GrowsRows(s0.tables[kind], s1.tables[kind]) && GrowsRows(s1.tables[kind], s2.tables[kind]);
    }
  }

  lemma FindAliasStable(digests: seq<DigestRow>, digests': seq<DigestRow>, digest: Digest)
    requires digests <= digests'
    requires FindAlias(digests, digest).Some?
    ensures FindAlias(digests', digest) == FindAlias(digests, digest)
  {
    var i, i' := IndexOfDigest(digests, digest), IndexOfDigest(digests', digest);
    assert digests'[i.value] == digests[i.value];
  }

  lemma IndexOfRowStable(rows: seq<Row>, rows': seq<Row>, dataId: nat)
    requires GrowsRows(rows, rows')
    requires IndexOfRow(rows, dataId).Some?
    ensures IndexOfRow(rows', dataId) == IndexOfRow(rows, dataId)
  {
  }

  lemma FindByDigestStable(s: Store, s': Store, kind: Kind, digest: Digest)
    requires Grows(s, s')
    requires FindByDigest(s, kind, digest).Some?
    ensures FindByDigest(s', kind, digest) == FindByDigest(s, kind, digest)
    ensures var i := FindByDigest(s, kind, digest).value;
            s'.tables[kind][i].detail == s.tables[kind][i].detail
  {
    FindAliasStable(s.digests, s'.digests, digest);
    assert GrowsRows(s.tables[kind], s'.tables[kind]);
    IndexOfRowStable(s.tables[kind], s'.tables[kind], FindAlias(s.digests, digest).value);
  }

  lemma {:induction false} MissingIff(digests: seq<DigestRow>, artifacts: seq<Digest>)
    ensures forall d :: d in MissingArtifacts(digests, artifacts) <==> d in artifacts && FindAlias(digests, d).None?
    ensures MissingArtifacts(digests, artifacts) == [] <==> forall d | d in artifacts :: FindAlias(digests, d).Some?
  {
    if artifacts != [] {
      var init, last := artifacts[..|artifacts| - 1], artifacts[|artifacts| - 1];
      MissingIff(digests, init);
      assert artifacts == init + [last];
    }
  }

  lemma ArtifactsStable(digests: seq<DigestRow>, digests': seq<DigestRow>, artifacts: seq<Digest>)
    requires digests <= digests'
    requires MissingArtifacts(digests, artifacts) == []
    ensures MissingArtifacts(digests', artifacts) == []
    ensures ArtifactData(digests', artifacts) == ArtifactData(digests, artifacts)
  {
    MissingIff(digests, artifacts);
    MissingIff(digests', artifacts);
    forall d | d in artifacts
      ensures FindAlias(digests', d).Some? && FindAlias(digests', d) == FindAlias(digests, d)
    {
      assert d !in MissingArtifacts(digests, artifacts);
      FindAliasStable(digests, digests', d);
    }
  }

  /** What once resolved resolves the same in every grown store. */
  lemma ResolveStable(w: World, s: Store, s': Store, kind: Kind, raw: Bytes)
    requires Grows(s, s')
    requires Resolve(w, s, kind, raw).Ok?
    ensures Resolve(w, s', kind, raw) == Resolve(w, s, kind, raw)
  {
    match kind
    case Blob =>
    case Bottle =>
      ArtifactsStable(s.digests, s'.digests, w.parseBottle(raw).doc.artifacts);
    case Manifest =>
      FindByDigestStable(s, s', Bottle, w.parseManifest(raw).doc.config);
    case Event =>
      FindByDigestStable(s, s', Manifest, w.parseEvent(raw).doc.manifest);
  }

  lemma ValidRowStable(w: World, s: Store, s': Store, kind: Kind, row: Row, row': Row)
    requires Grows(s, s')
    requires ValidRow(w, s, kind, row)
    requires row' == row.(version := row'.version)
    ensures ValidRow(w, s', kind, row')
  {
    ResolveStable(w, s, s', kind, s.data[row.dataId].raw);
    var j :| 0 <= j < |s.digests| && s.digests[j].dataId == row.dataId;
    assert s'.digests[j].dataId == row.dataId;
  }

  // ---------- a PUT, step by step ----------

  lemma EnsureDataValid(w: World, s: Store, bytes: Bytes)
    requires Valid(w, s) && w.NoCollisions() && w.universe(bytes)
    ensures var (s', id) := EnsureData(s, w.DigestOf(CANONICAL, bytes), bytes);
            && ValidData(w, s'.data) && Grows(s, s')
            && s'.digests == s.digests && s'.tables == s.tables
            && id < |s'.data| && s'.data[id].raw == bytes
  {
    assert forall kind :: GrowsRows(s.tables[kind], s.tables[kind]);
  }

  /** Data rows with equal bytes are one row. */
  lemma SameBytesSameRow(w: World, data: seq<DataRow>, i: nat, j: nat)
    requires ValidData(w, data) && i < |data| && j < |data|
    requires data[i].raw == data[j].raw
    ensures i == j
  {
  }

  lemma EnsureDigestValid(w: World, s: Store, dataId: nat, digest: Digest)
    requires w.NoCollisions() && ValidData(w, s.data) && ValidDigests(w, s.data, s.digests)
    requires dataId < |s.data| && digest.alg.Available()
    requires digest == w.DigestOf(digest.alg, s.data[dataId].raw)
    ensures var r := EnsureDigest(s, dataId, digest);
            && r.Ok? && r.value.data == s.data && r.value.tables == s.tables
            && ValidDigests(w, s.data, r.value.digests)
            && FindAlias(r.value.digests, digest) == Some(dataId)
            && r.value.digests == (if FindAlias(s.digests, digest).Some? then s.digests
                                   else s.digests + [DigestRow(dataId, digest)])
  {
    var found := FindAlias(s.digests, digest);
    if found.Some? {
      SameBytesSameRow(w, s.data, found.value, dataId);
    } else {
      var digests' := s.digests + [DigestRow(dataId, digest)];
      assert digests'[|s.digests|].digest == digest;
    }
  }

  /** Steps 1 and 2 keep the invariant, and name the submitted bytes by the given digest. */
  lemma RegisterValid(w: World, s: Store, digest: Digest, bytes: Bytes)
    requires Valid(w, s) && w.NoCollisions() && w.universe(bytes)
    requires digest.alg.Available() && digest == w.DigestOf(digest.alg, bytes)
    ensures var (s', id) := Register(w, s, digest, bytes);
            && Valid(w, s') && Grows(s, s') && s'.tables == s.tables
            && id.Ok? && id.value < |s'.data| && s'.data[id.value].raw == bytes
            && FindAlias(s'.digests, digest) == Some(id.value)
            && s'.digests == (if FindAlias(s.digests, digest).Some? then s.digests
                              else s.digests + [DigestRow(id.value, digest)])
  {
    EnsureDataValid(w, s, bytes);
    var (s1, id) := EnsureData(s, w.DigestOf(CANONICAL, bytes), bytes);
    forall i | 0 <= i < |s.digests| ensures s1.data[s.digests[i].dataId] == s.data[s.digests[i].dataId] {
    }
    EnsureDigestValid(w, s1, id, digest);
    var s2 := EnsureDigest(s1, id, digest).value;
    assert Grows(s, s2);
    forall kind ensures ValidRows(w, s2, kind) {
      KeepsRows(w, s, s2, kind);
    }
  }

  lemma KeepsRows(w: World, s: Store, s': Store, kind: Kind)
    requires Grows(s, s') && ValidRows(w, s, kind)
    requires s'.tables[kind] == s.tables[kind]
    ensures ValidRows(w, s', kind)
  {
    forall i | 0 <= i < |s.tables[kind]| ensures ValidRow(w, s', kind, s'.tables[kind][i]) {
      ValidRowStable(w, s, s', kind, s.tables[kind][i], s'.tables[kind][i]);
    }
  }

  /** A row may be saved over itself with another version, or appended if its data has no row yet. */
  ghost predicate Saves(s: Store, kind: Kind, at: Option<nat>, row: Row) {
    match at
    case Some(i) => i < |s.tables[kind]| && row == s.tables[kind][i].(version := row.version)
    case None => IndexOfRow(s.tables[kind], row.dataId).None?
  }

  lemma SaveRowGrows(s: Store, kind: Kind, at: Option<nat>, row: Row)
    requires Saves(s, kind, at, row)
    ensures Grows(s, SaveRow(s, kind, at, row))
  {
    var s' := SaveRow(s, kind, at, row);
    forall k ensures GrowsRows(s.tables[k], s'.tables[k]) {
    }
  }

  lemma SavedRowsValid(w: World, s: Store, kind: Kind, at: Option<nat>, row: Row)
    requires ValidRows(w, s, kind) && ValidRow(w, s, kind, row)
    requires Saves(s, kind, at, row)
    ensures ValidRows(w, SaveRow(s, kind, at, row), kind)
  {
    var s' := SaveRow(s, kind, at, row);
    var rows, rows' := s.tables[kind], s'.tables[kind];
    SaveRowGrows(s, kind, at, row);
    forall i | 0 <= i < |rows'| ensures ValidRow(w, s', kind, rows'[i]) {
      ValidRowStable(w, s, s', kind, if i < |rows| then rows[i] else row, rows'[i]);
    }
  }

  /** Saving a resolved row keeps the invariant. */
  lemma SaveRowValid(w: World, s: Store, kind: Kind, at: Option<nat>, row: Row)
    requires Valid(w, s) && ValidRow(w, s, kind, row)
    requires Saves(s, kind, at, row)
    ensures Valid(w, SaveRow(s, kind, at, row)) && Grows(s, SaveRow(s, kind, at, row))
  {
    var s' := SaveRow(s, kind, at, row);
    SaveRowGrows(s, kind, at, row);
    forall k ensures ValidRows(w, s', k) {
      if k == kind {
        SavedRowsValid(w, s, kind, at, row);
      } else {
        KeepsRows(w, s, s', k);
      }
    }
  }

  lemma EnsureRowValid(w: World, s: Store, kind: Kind, dataId: nat, version: nat, now: Time)
    requires Valid(w, s) && dataId < |s.data| && HasAlias(s.digests, dataId)
    ensures var s' := EnsureRow(w, s, kind, dataId, version, now).0;
            Valid(w, s') && Grows(s, s')
  {
    var raw := s.data[dataId].raw;
    assert forall k :: GrowsRows(s.tables[k], s.tables[k]);
    assert ValidRows(w, s, kind);
    match IndexOfRow(s.tables[kind], dataId)
    case Some(i) =>
      var row := s.tables[kind][i];
      assert ValidRow(w, s, kind, row);
      SaveRowValid(w, s, kind, Some(i), row.(version := version));
    case None =>
      if Resolve(w, s, kind, raw).Ok? {
        SaveRowValid(w, s, kind, None, Row(now, version, dataId, Resolve(w, s, kind, raw).value));
      }
  }

  /** Every PUT, whatever its answer, keeps the invariant and every row there was. */
  lemma PutValid(w: World, s: Store, r: Request)
    requires Valid(w, s) && w.NoCollisions() && w.universe(r.bytes)
    ensures Valid(w, Put(w, s, r).0) && Grows(s, Put(w, s, r).0)
  {
    match ParsePutParams(w, r.bytes, r.param)
    case Err(e) =>
      assert forall k :: GrowsRows(s.tables[k], s.tables[k]);
    case Ok(digest) =>
      RegisterValid(w, s, digest, r.bytes);
      var (s', id) := Register(w, s, digest, r.bytes);
      assert s'.digests[IndexOfDigest(s'.digests, digest).value].dataId == id.value;
      EnsureRowValid(w, s', r.kind, id.value, r.version, r.now);
      GrowsTransitive(s, s', Put(w, s, r).0);
  }
}

/**
 The server: the PUT handler, the processors behind it, reprocessing and migration, changing the
 tables of one database step by step.
*/
module Server {
  import opened Types
  import opened Store
  import opened Invariant
  import opened Puts
  import opened Catalog
  import opened History

  class Database {
    var data: seq<DataRow>
    var digests: seq<DigestRow>
    var tables: Tables

    ghost function State(): Store
      reads this
    {
      Store(data, digests, tables)
    }

    constructor ()
      ensures State() == EMPTY
    {
      data, digests, tables := [], [], NO_ROWS;
    }

    // ---------- the processors ----------

    /** Saves a typed row under its primary key, or as a new row when it has none yet. */
    method Save(kind: Kind, at: Option<nat>, row: Row)
      requires at.Some? ==> at.value < |tables[kind]|
      modifies this`tables
      ensures State() == SaveRow(old(State()), kind, at, row)
    {
      var rows := tables[kind];
      if at.Some? {
        tables := tables[kind := rows[at.value := row]];
      } else {
        tables := tables[kind := rows + [row]];
      }
    }

    method ProcessBottle(w: World, at: Option<nat>, createdAt: Time, version: nat, dataId: nat)
      returns (error: Option<PutError>)
      requires at.Some? ==> at.value < |tables[Bottle]|
      requires dataId < |data|
      modifies this`tables
      ensures match Process(w, old(State()), Bottle, at, createdAt, version, dataId)
              case Ok(s) => error.None? && State() == s
              case Err(e) => error == Some(e) && State() == old(State())
    {
      var parsed := w.parseBottle(data[dataId].raw);
      if !parsed.Parsed? {
        return Some(BadRequest);
      }
      var missing, aliases := FindArtifacts(digests, parsed.doc.artifacts);
      if missing != [] {
        return Some(Missing(missing));
      }
      var artifactData := ConvertArtifacts(digests, parsed.doc.artifacts, aliases);
      Save(Bottle, at, Row(createdAt, version, dataId, BottleDetail(parsed.doc, artifactData)));
      error := None;
    }

    method ProcessManifest(w: World, at: Option<nat>, createdAt: Time, version: nat, dataId: nat)
      returns (error: Option<PutError>)
      requires at.Some? ==> at.value < |tables[Manifest]|
      requires dataId < |data|
      modifies this`tables
      ensures match Process(w, old(State()), Manifest, at, createdAt, version, dataId)
              case Ok(s) => error.None? && State() == s
              case Err(e) => error == Some(e) && State() == old(State())
    {
      var parsed := w.parseManifest(data[dataId].raw);
      if !parsed.Parsed? {
        return Some(BadRequest);
      }
      var bottleDigest := parsed.doc.config;
      var alias := FindAlias(digests, bottleDigest);
      var bottle := if alias.Some? then IndexOfRow(tables[Bottle], alias.value) else None;
      if bottle.None? {
        return Some(Missing([bottleDigest]));
      }
      if |parsed.doc.layers| != PartCount(tables[Bottle][bottle.value]) {
        return Some(BadRequest);
      }
      Save(Manifest, at, Row(createdAt, version, dataId,
                             ManifestDetail(bottle.value, bottleDigest, parsed.doc.layers)));
      error := None;
    }

    method ProcessEvent(w: World, at: Option<nat>, createdAt: Time, version: nat, dataId: nat)
      returns (error: Option<PutError>)
      requires at.Some? ==> at.value < |tables[Event]|
      requires dataId < |data|
      modifies this`tables
      ensures match Process(w, old(State()), Event, at, createdAt, version, dataId)
              case Ok(s) => error.None? && State() == s
              case Err(e) => error == Some(e) && State() == old(State())
    {
      var parsed := w.parseEvent(data[dataId].raw);
      if parsed.Malformed? {
        return Some(Conflict);
      }
      if parsed.Invalid? {
        return Some(BadRequest);
      }
      var alias := FindAlias(digests, parsed.doc.manifest);
      var found := if alias.Some? then IndexOfRow(tables[Manifest], alias.value) else None;
      if found.None? {
        return Some(Missing([parsed.doc.manifest]));
      }
      var manifest := tables[Manifest][found.value].detail;
      if !manifest.ManifestDetail? {
        return Some(DatabaseError);
      }
      Save(Event, at, Row(createdAt, version, dataId,
                          EventDetail(found.value, parsed.doc.manifest, manifest.bottleId,
                                       manifest.bottleDigest, parsed.doc)));
      error := None;
    }

    method RunProcessor(w: World, kind: Kind, at: Option<nat>, createdAt: Time, version: nat, dataId: nat)
      returns (error: Option<PutError>)
      requires at.Some? ==> at.value < |tables[kind]|
      requires dataId < |data|
      modifies this`tables
      ensures match Process(w, old(State()), kind, at, createdAt, version, dataId)
              case Ok(s) => error.None? && State() == s
              case Err(e) => error == Some(e) && State() == old(State())
    {
      match kind
      case Blob =>
        Save(Blob, at, Row(createdAt, version, dataId, BlobDetail));
        error := None;
      case Bottle => error := ProcessBottle(w, at, createdAt, version, dataId);
      case Manifest => error := ProcessManifest(w, at, createdAt, version, dataId);
      case Event => error := ProcessEvent(w, at, createdAt, version, dataId);
    }

    // ---------- the PUT handler ----------

    method PutData(w: World, r: Request) returns (answer: Response)
      modifies this
      ensures Put(w, old(State()), r) == (State(), answer)
      ensures AsksWrongly(w, r) ==> State() == old(State()) && answer == Failed(Conflict)
      ensures AsksUnclearly(r) ==> State() == old(State()) && answer == Failed(BadRequest)
      ensures Valid(w, old(State())) && w.NoCollisions() && w.universe(r.bytes) ==>
                forall d | Asks(w, r, d) :: PutWell(w, old(State()), State(), r, d, answer)
    {
      PutIsWell(w, State(), r);
      var digest := ParsePutParams(w, r.bytes, r.param);
      if digest.Err? {
        return Failed(digest.error);
      }
      var dataId := SaveData(w, digest.value, r.bytes);
      if dataId.Err? {
        return Failed(dataId.error);
      }
      answer := SaveObject(w, r, dataId.value);
    }

    method SaveData(w: World, digest: Digest, bytes: Bytes) returns (id: Result<nat>)
      modifies this`data, this`digests
      ensures Register(w, old(State()), digest, bytes) == (State(), id)
    {
      var canonical := digest;
      if digest.alg != CANONICAL {
        canonical := w.DigestOf(CANONICAL, bytes);
      }
      // make sure the data record exists
      var dataId: nat := |data|;
      var found := IndexOfData(data, canonical);
      if found.Some? {
        dataId := found.value;
      } else {
        data := data + [DataRow(bytes, canonical)];
      }
      // make sure the digest record exists
      var alias := FindAlias(digests, digest);
      if alias.None? {
        digests := digests + [DigestRow(dataId, digest)];
      } else if alias.value != dataId {
        return Err(DatabaseError);
      }
      id := Ok(dataId);
    }

    /** Makes sure the object record exists. */
    method SaveObject(w: World, r: Request, dataId: nat) returns (answer: Response)
      requires dataId < |data|
      modifies this`tables
      ensures EnsureRow(w, old(State()), r.kind, dataId, r.version, r.now) == (State(), answer)
    {
      var row := IndexOfRow(tables[r.kind], dataId);
      if row.Some? {
        var base := tables[r.kind][row.value];
        if base.version != r.version {
          var _ := RunProcessor(w, r.kind, row, base.createdAt, r.version, dataId);
        }
        return NoContent;
      }
      var error := RunProcessor(w, r.kind, None, r.now, r.version, dataId);
      answer := if error.None? then Created else Failed(error.value);
    }

    // ---------- reprocessing ----------

    method ReprocessRow(w: World, kind: Kind, i: nat, version: nat) returns (error: Option<PutError>)
      requires i < |tables[kind]|
      modifies this`tables
      ensures error.None? ==>
                exists row: Row :: row.version == version && State() == SaveRow(old(State()), kind, Some(i), row)
      ensures Valid(w, old(State())) ==>
                && error.None? && Valid(w, State())
                && State() == SaveRow(old(State()), kind, Some(i), old(tables)[kind][i].(version := version))
    {
      var base := tables[kind][i];
      StaleRowRefreshes(w, State(), kind, i, version);
      if base.dataId >= |data| {
        return Some(DatabaseError);
      }
      error := RunProcessor(w, kind, Some(i), base.createdAt, version, base.dataId);
    }

    /**
     Reprocesses stale rows, taken in any order, until none is left. On a valid database nothing is
     ever reported missing, no row moves and only versions change.
    */
    method Reprocess(w: World, kind: Kind, version: nat) returns (error: Option<PutError>, count: nat)
      modifies this`tables
      ensures Valid(w, old(State())) ==>
                && error.None? && count == |Stale(old(State()), kind, version)|
                && State() == Refreshed(old(State()), kind, version)
    {
      ghost var s0 := State();
      count := 0;
      while exists i :: 0 <= i < |tables[kind]| && tables[kind][i].version < version
        invariant Progress(w, s0, State(), kind, version, count)
        decreases Stale(State(), kind, version)
      {
        var i :| 0 <= i < |tables[kind]| && tables[kind][i].version < version;
        ghost var s := State();
        error := ReprocessRow(w, kind, i, version);
        if error.Some? {
          return error, count;
        }
        OneLessStale(s, State(), kind, i, version);
        MoreProgress(w, s0, s, State(), kind, version, count, i);
        count := count + 1;
      }
      error := None;
      NoMoreStale(w, s0, State(), kind, version, count);
    }

    /** Migration runs the processors over their tables, in the order of the types. */
    method MigrateDB(w: World, version: Kind -> nat) returns (error: Option<PutError>)
      modifies this`tables
      ensures Valid(w, old(State())) ==>
                error.None? && Migrated(w, old(State()), State(), version, [Blob, Bottle, Manifest, Event])
    {
      ghost var s0 := State();
      var processors := [Blob, Bottle, Manifest, Event];
      if Valid(w, s0) {
        assert Migrated(w, s0, s0, version, []);
      }
      for n := 0 to |processors|
        invariant Valid(w, s0) ==> Migrated(w, s0, State(), version, processors[..n])
      {
        ghost var s := State();
        if Valid(w, s0) {
          MigratesNext(w, s0, s, version, processors[..n], processors[n]);
          OneMore(processors, n);
        }
        var e, _ := Reprocess(w, processors[n], version(processors[n]));
        if e.Some? {
          return e;
        }
      }
      assert processors[..|processors|] == processors;
      error := None;
    }
  }

  // ---------- the artifacts of a bottle ----------

  /** Looks every artifact up among the aliases. */
  method FindArtifacts(digests: seq<DigestRow>, artifacts: seq<Digest>)
    returns (missing: seq<Digest>, aliases: map<Digest, nat>)
    ensures missing == MissingArtifacts(digests, artifacts)
    ensures FoundAliases(digests, artifacts, aliases)
  {
    missing, aliases := [], map[];
    for i := 0 to |artifacts|
      invariant missing == MissingArtifacts(digests, artifacts[..i])
      invariant forall j | 0 <= j < i && FindAlias(digests, artifacts[j]).Some? ::
                  artifacts[j] in aliases && aliases[artifacts[j]] == FindAlias(digests, artifacts[j]).value
    {
      assert artifacts[..i + 1][..i] == artifacts[..i];
      var alias := FindAlias(digests, artifacts[i]);
      if alias.None? {
        missing := missing + [artifacts[i]];
      } else {
        aliases := aliases[artifacts[i] := alias.value];
      }
    }
    assert artifacts[..|artifacts|] == artifacts;
  }

  /** The aliases that were found for the artifacts. */
  ghost predicate FoundAliases(digests: seq<DigestRow>, artifacts: seq<Digest>, aliases: map<Digest, nat>) {
    forall i | 0 <= i < |artifacts| && FindAlias(digests, artifacts[i]).Some? ::
      artifacts[i] in aliases && aliases[artifacts[i]] == FindAlias(digests, artifacts[i]).value
  }

  lemma FoundArtifact(digests: seq<DigestRow>, artifacts: seq<Digest>, aliases: map<Digest, nat>, i: nat)
    requires MissingArtifacts(digests, artifacts) == [] && FoundAliases(digests, artifacts, aliases) && i < |artifacts|
    ensures artifacts[i] in aliases && aliases[artifacts[i]] == ArtifactData(digests, artifacts)[i]
  {
    MissingIff(digests, artifacts);
    assert artifacts[i] in artifacts && FindAlias(digests, artifacts[i]).Some?;
  }

  /** The data rows of artifacts that were all found. */
  method ConvertArtifacts(digests: seq<DigestRow>, artifacts: seq<Digest>, aliases: map<Digest, nat>)
    returns (artifactData: seq<nat>)
    requires MissingArtifacts(digests, artifacts) == [] && FoundAliases(digests, artifacts, aliases)
    ensures artifactData == ArtifactData(digests, artifacts)
  {
    ghost var all := ArtifactData(digests, artifacts);
    artifactData := [];
    for i := 0 to |artifacts|
      invariant artifactData == all[..i]
    {
      FoundArtifact(digests, artifacts, aliases, i);
      artifactData := artifactData + [aliases[artifacts[i]]];
    }
  }

  // ---------- reprocessing: the measure and the invariant ----------

  ghost function Stale(s: Store, kind: Kind, version: nat): set<nat> {
    set i | 0 <= i < |s.tables[kind]| && s.tables[kind][i].version < version
  }

  ghost predicate PartlyRefreshed(s0: Store, s: Store, kind: Kind, version: nat) {
    && s.data == s0.data && s.digests == s0.digests
    && (forall k | k != kind :: s.tables[k] == s0.tables[k])
    && |s.tables[kind]| == |s0.tables[kind]|
    && forall i | 0 <= i < |s.tables[kind]| ::
         s.tables[kind][i] == s0.tables[kind][i] || s.tables[kind][i] == Refreshed(s0, kind, version).tables[kind][i]
  }

  ghost predicate Progress(w: World, s0: Store, s: Store, kind: Kind, version: nat, count: nat) {
    Valid(w, s0) ==>
      && Valid(w, s) && PartlyRefreshed(s0, s, kind, version)
      && count + |Stale(s, kind, version)| == |Stale(s0, kind, version)|
  }

  lemma MoreProgress(w: World, s0: Store, s: Store, s': Store, kind: Kind, version: nat, count: nat, i: nat)
    requires Progress(w, s0, s, kind, version, count)
    requires i < |s.tables[kind]| && s.tables[kind][i].version < version
    requires Valid(w, s) ==>
               Valid(w, s') && s' == SaveRow(s, kind, Some(i), s.tables[kind][i].(version := version))
    requires Stale(s', kind, version) == Stale(s, kind, version) - {i} && i in Stale(s, kind, version)
    ensures Progress(w, s0, s', kind, version, count + 1)
  {
    if Valid(w, s0) {
      forall j | 0 <= j < |s'.tables[kind]|
        ensures s'.tables[kind][j] == s0.tables[kind][j]
                || s'.tables[kind][j] == Refreshed(s0, kind, version).tables[kind][j]
      {
        assert s.tables[kind][j] == s0.tables[kind][j]
               || s.tables[kind][j] == Refreshed(s0, kind, version).tables[kind][j];
      }
    }
  }

  lemma NoMoreStale(w: World, s0: Store, s: Store, kind: Kind, version: nat, count: nat)
    requires Progress(w, s0, s, kind, version, count)
    requires forall i | 0 <= i < |s.tables[kind]| :: s.tables[kind][i].version >= version
    ensures Valid(w, s0) ==> s == Refreshed(s0, kind, version) && count == |Stale(s0, kind, version)|
  {
    assert Stale(s, kind, version) == {};
    if Valid(w, s0) {
      var s' := Refreshed(s0, kind, version);
      assert s.tables[kind] == s'.tables[kind];
      assert s.tables == s'.tables;
    }
  }

  /** Processing a stale row of a valid store succeeds and changes its version alone. */
  lemma StaleRowRefreshes(w: World, s: Store, kind: Kind, i: nat, version: nat)
    requires i < |s.tables[kind]|
    ensures var row := s.tables[kind][i];
            Valid(w, s) ==>
              && row.dataId < |s.data|
              && var r := Process(w, s, kind, Some(i), row.createdAt, version, row.dataId);
                 r.Ok? && r.value == SaveRow(s, kind, Some(i), row.(version := version)) && Valid(w, r.value)
  {
    if Valid(w, s) {
      assert ValidRows(w, s, kind);
      var row := s.tables[kind][i];
      assert ValidRow(w, s, kind, row);
      SaveRowValid(w, s, kind, Some(i), row.(version := version));
    }
  }

  lemma OneLessStale(s: Store, s': Store, kind: Kind, i: nat, version: nat)
    requires i < |s.tables[kind]| && s.tables[kind][i].version < version
    requires exists row: Row :: row.version == version && s' == SaveRow(s, kind, Some(i), row)
    ensures Stale(s', kind, version) == Stale(s, kind, version) - {i}
    ensures i in Stale(s, kind, version)
  {
  }

  // ---------- migration ----------

  /** The store after the processors of `kinds` ran: nothing but the versions of their rows moved. */
  ghost predicate Migrated(w: World, s0: Store, s: Store, version: Kind -> nat, kinds: seq<Kind>) {
    Valid(w, s) && Abs(s) == Abs(s0) && OnlyVersionsMoved(s0, s, version, kinds)
  }

  ghost predicate OnlyVersionsMoved(s0: Store, s: Store, version: Kind -> nat, kinds: seq<Kind>) {
    && s.data == s0.data && s.digests == s0.digests
    && forall kind :: s.tables[kind] == (if kind in kinds then Refreshed(s0, kind, version(kind)) else s0).tables[kind]
  }

  lemma OneMore<T>(items: seq<T>, n: nat)
    requires n < |items|
    ensures items[..n] + [items[n]] == items[..n + 1]
  {
  }

  lemma MigratesNext(w: World, s0: Store, s: Store, version: Kind -> nat, kinds: seq<Kind>, next: Kind)
    requires Migrated(w, s0, s, version, kinds) && next !in kinds
    ensures Migrated(w, s0, Refreshed(s, next, version(next)), version, kinds + [next])
  {
    RefreshedValid(w, s, next, version(next));
    var s' := Refreshed(s, next, version(next));
    forall kind
      ensures s'.tables[kind]
           == (if kind in kinds + [next] then Refreshed(s0, kind, version(kind)) else s0).tables[kind]
    {
      assert s.tables[kind] == (if kind in kinds then Refreshed(s0, kind, version(kind)) else s0).tables[kind];
    }
  }

  lemma RefreshedRows(s: Store, kind: Kind, version: nat)
    ensures var rows, rows' := s.tables[kind], Refreshed(s, kind, version).tables[kind];
            && |rows'| == |rows|
            && forall i | 0 <= i < |rows| ::
              rows'[i].version >= version && rows'[i] == rows[i].(version := rows'[i].version)
  {
  }

  /** After a migration no row of any table is stale, and every row is where it was, but for its version. */
  lemma MigrationLeavesNothingStale(s0: Store, s: Store, version: Kind -> nat, kind: Kind)
    requires OnlyVersionsMoved(s0, s, version, [Blob, Bottle, Manifest, Event])
    ensures Stale(s, kind, version(kind)) == {}
    ensures |s.tables[kind]| == |s0.tables[kind]|
    ensures forall i | 0 <= i < |s.tables[kind]| ::
              s.tables[kind][i] == s0.tables[kind][i].(version := s.tables[kind][i].version)
  {
    assert kind in [Blob, Bottle, Manifest, Event];
    RefreshedRows(s0, kind, version(kind));
  }
}

/**
 PUTs inside the server at the same time: every lookup and every write is a step of its own, and a schedule
 decides whose step is next. The typed tables have no unique index on their data.
*/
module Interleaving {
  import opened Types
  import opened Store
  import opened Invariant
  import opened Catalog

  /** How far a PUT has come: what it has found out, and what it has to do next. */
  datatype Phase =
    | Arrived
    | DataMissing
    | DataFound(id: nat)
    | AliasMissing(id: nat)
    | AliasFound(id: nat)
    | RowMissing(id: nat)
    | RowFound(id: nat, row: nat, createdAt: Time)
    | Resolved(id: nat, at: Option<nat>, createdAt: Time, detail: Detail)
    | Done(answer: Response)

  /** The tables, and how far each PUT has come. */
  datatype Serving = Serving(store: Store, phases: seq<Phase>)

  function CanonicalOf(w: World, digest: Digest, bytes: Bytes): Digest {
    if digest.alg == CANONICAL then digest else w.DigestOf(CANONICAL, bytes)
  }

  // ---------- the steps of one PUT ----------

  /** Steps 1 and 2. Creating what has been created meanwhile is refused by the unique index. */
  function RegisterStep(w: World, r: Request, digest: Digest, s: Store, p: Phase): (Store, Phase) {
    var canonical := CanonicalOf(w, digest, r.bytes);
    match p
    case Arrived => (
      match IndexOfData(s.data, canonical)
      case Some(id) => (s, DataFound(id))
      case None => (s, DataMissing))
    case DataMissing =>
      if IndexOfData(s.data, canonical).Some? then (s, Done(Failed(DatabaseError)))
      else (s.(data := s.data + [DataRow(r.bytes, canonical)]), DataFound(|s.data|))
    case DataFound(id) => (s, if DigestRow(id, digest) in s.digests then AliasFound(id) else AliasMissing(id))
    case AliasMissing(id) =>
      if FindAlias(s.digests, digest).Some? then (s, Done(Failed(DatabaseError)))
      else (s.(digests := s.digests + [DigestRow(id, digest)]), AliasFound(id))
    case _ => (s, p)
  }

  /** Step 3. Nothing refuses a row that has been created meanwhile. */
  function ObjectStep(w: World, r: Request, s: Store, p: Phase): (Store, Phase) {
    match p
    case AliasFound(id) => (
      match IndexOfRow(s.tables[r.kind], id)
      case None => (s, RowMissing(id))
      case Some(i) =>
        var row := s.tables[r.kind][i];
        (s, if row.version == r.version then Done(NoContent) else RowFound(id, i, row.createdAt)))
    case RowMissing(id) => (
      match Resolve(w, s, r.kind, Raw(s.data, id))
      case Err(e) => (s, Done(Failed(e)))
      case Ok(detail) => (s, Resolved(id, None, r.now, detail)))
    case RowFound(id, i, createdAt) => (
      match Resolve(w, s, r.kind, Raw(s.data, id))
      case Err(_) => (s, Done(NoContent))
      case Ok(detail) => (s, Resolved(id, Some(i), createdAt, detail)))
    case Resolved(id, at, createdAt, detail) =>
      if at.Some? && at.value >= |s.tables[r.kind]| then (s, Done(Failed(DatabaseError)))
      else
        var row := Row(createdAt, r.version, id, detail);
        (SaveRow(s, r.kind, at, row), Done(if at.Some? then NoContent else Created))
    case _ => (s, p)
  }

  function StepOne(w: World, r: Request, s: Store, p: Phase): (Store, Phase) {
    match ParsePutParams(w, r.bytes, r.param)
    case Err(e) => (s, Done(Failed(e)))
    case Ok(digest) =>
      match p
      case Arrived => RegisterStep(w, r, digest, s, p)
      case DataMissing => RegisterStep(w, r, digest, s, p)
      case DataFound(_) => RegisterStep(w, r, digest, s, p)
      case AliasMissing(_) => RegisterStep(w, r, digest, s, p)
      case _ => ObjectStep(w, r, s, p)
  }

  // ---------- one PUT alone ----------

  function Alone(w: World, r: Request, s: Store, p: Phase, n: nat): (Store, Phase)
    decreases n
  {
    if n == 0 then (s, p) else var (s', p') := StepOne(w, r, s, p); Alone(w, r, s', p', n - 1)
  }

  /** A PUT that meets nobody gets there in at most so many steps. */
  ghost predicate Leads(w: World, r: Request, s: Store, p: Phase, most: nat, s': Store, p': Phase) {
    exists n: nat :: n <= most && Alone(w, r, s, p, n) == (s', p')
  }

  lemma {:induction false} AloneInParts(w: World, r: Request, s: Store, p: Phase, m: nat, n: nat)
    ensures var (s', p') := Alone(w, r, s, p, m); Alone(w, r, s, p, m + n) == Alone(w, r, s', p', n)
    decreases m
  {
    if m > 0 {
      var (s', p') := StepOne(w, r, s, p);
      AloneInParts(w, r, s', p', m - 1, n);
    }
  }

  lemma LeadsOn(w: World, r: Request, s: Store, p: Phase, m: nat, s1: Store, p1: Phase, n: nat, s2: Store, p2: Phase)
    requires Leads(w, r, s, p, m, s1, p1) && Leads(w, r, s1, p1, n, s2, p2)
    ensures Leads(w, r, s, p, m + n, s2, p2)
  {
    var i: nat :| i <= m && Alone(w, r, s, p, i) == (s1, p1);
    var j: nat :| j <= n && Alone(w, r, s1, p1, j) == (s2, p2);
    AloneInParts(w, r, s, p, i, j);
  }

  lemma LeadsInOne(w: World, r: Request, s: Store, p: Phase)
    ensures var (s', p') := StepOne(w, r, s, p); Leads(w, r, s, p, 1, s', p')
  {
    var (s', p') := StepOne(w, r, s, p);
    assert Alone(w, r, s, p, 1) == Alone(w, r, s', p', 0);
  }

  lemma StaysThere(w: World, r: Request, s: Store, p: Phase)
    ensures Leads(w, r, s, p, 1, s, p)
  {
    assert Alone(w, r, s, p, 0) == (s, p);
  }

  lemma DataAlone(w: World, r: Request, s: Store, digest: Digest)
    requires ParsePutParams(w, r.bytes, r.param) == Ok(digest)
    ensures var (s', id) := EnsureData(s, CanonicalOf(w, digest, r.bytes), r.bytes);
            Leads(w, r, s, Arrived, 2, s', DataFound(id))
  {
    var (s1, p1) := StepOne(w, r, s, Arrived);
    LeadsInOne(w, r, s, Arrived);
    LeadsInOne(w, r, s1, p1);
    StaysThere(w, r, s1, p1);
    var (s', id) := EnsureData(s, CanonicalOf(w, digest, r.bytes), r.bytes);
    LeadsOn(w, r, s, Arrived, 1, s1, p1, 1, s', DataFound(id));
  }

  lemma AliasAlone(w: World, r: Request, s: Store, digest: Digest, id: nat)
    requires ParsePutParams(w, r.bytes, r.param) == Ok(digest) && ValidDigests(w, s.data, s.digests)
    ensures Leads(w, r, s, DataFound(id), 2,
                  match EnsureDigest(s, id, digest) case Ok(s') => s' case Err(_) => s,
                  match EnsureDigest(s, id, digest) case Ok(_) => AliasFound(id) case Err(e) => Done(Failed(e)))
  {
    var (s1, p1) := StepOne(w, r, s, DataFound(id));
    var (s2, p2) := StepOne(w, r, s1, p1);
    LeadsInOne(w, r, s, DataFound(id));
    LeadsInOne(w, r, s1, p1);
    StaysThere(w, r, s1, p1);
    AliasOfData(w, s, id, digest);
    if p1.AliasFound? {
      LeadsOn(w, r, s, DataFound(id), 1, s1, p1, 1, s1, p1);
    } else {
      LeadsOn(w, r, s, DataFound(id), 1, s1, p1, 1, s2, p2);
    }
  }

  lemma AliasOfData(w: World, s: Store, id: nat, digest: Digest)
    requires ValidDigests(w, s.data, s.digests)
    ensures DigestRow(id, digest) in s.digests <==> FindAlias(s.digests, digest) == Some(id)
  {
    if DigestRow(id, digest) in s.digests {
      var j :| 0 <= j < |s.digests| && s.digests[j] == DigestRow(id, digest);
      var i := IndexOfDigest(s.digests, digest);
      assert i.Some? && !(i.value < j) && !(j < i.value);
    }
  }

  lemma ObjectAlone(w: World, r: Request, s: Store, id: nat)
    requires ParsePutParams(w, r.bytes, r.param).Ok? && id < |s.data|
    ensures var (s', answer) := EnsureRow(w, s, r.kind, id, r.version, r.now);
            Leads(w, r, s, AliasFound(id), 3, s', Done(answer))
  {
    var (s1, p1) := StepOne(w, r, s, AliasFound(id));
    var (s2, p2) := StepOne(w, r, s1, p1);
    assert Alone(w, r, s, AliasFound(id), 3) == Alone(w, r, s1, p1, 2);
    assert Alone(w, r, s1, p1, 2) == Alone(w, r, s2, p2, 1);
    assert Alone(w, r, s2, p2, 1) == StepOne(w, r, s2, p2);
  }

  lemma RegisterAlone(w: World, r: Request, s: Store, digest: Digest)
    requires Valid(w, s) && w.NoCollisions() && w.universe(r.bytes) && ParsePutParams(w, r.bytes, r.param) == Ok(digest)
    ensures var (s', id) := Register(w, s, digest, r.bytes);
            id.Ok? && id.value < |s'.data| && Leads(w, r, s, Arrived, 4, s', AliasFound(id.value))
  {
    var (s1, id) := EnsureData(s, CanonicalOf(w, digest, r.bytes), r.bytes);
    RegisterValid(w, s, digest, r.bytes);
    EnsureDataValid(w, s, r.bytes);
    var s2 := Register(w, s, digest, r.bytes).0;
    assert EnsureDigest(s1, id, digest) == Ok(s2);
    DataAlone(w, r, s, digest);
    AliasAlone(w, r, s1, digest, id);
    LeadsOn(w, r, s, Arrived, 2, s1, DataFound(id), 2, s2, AliasFound(id));
  }

  /** A PUT that meets nobody has the effect and the answer of a PUT in one step. */
  lemma AloneIsPut(w: World, r: Request, s: Store)
    requires Valid(w, s) && w.NoCollisions() && w.universe(r.bytes)
    ensures Leads(w, r, s, Arrived, 7, Put(w, s, r).0, Done(Put(w, s, r).1))
  {
    match ParsePutParams(w, r.bytes, r.param)
    case Err(e) =>
      LeadsInOne(w, r, s, Arrived);
    case Ok(digest) =>
      var (s', id) := Register(w, s, digest, r.bytes);
      RegisterAlone(w, r, s, digest);
      ObjectAlone(w, r, s', id.value);
      LeadsOn(w, r, s, Arrived, 4, s', AliasFound(id.value), 3, Put(w, s, r).0, Done(Put(w, s, r).1));
  }

  // ---------- many PUTs ----------

  function Step(w: World, rs: seq<Request>, v: Serving, i: nat): Serving {
    if i < |rs| && i < |v.phases| then
      var (s, p) := StepOne(w, rs[i], v.store, v.phases[i]);
      Serving(s, v.phases[i := p])
    else v
  }

  function RunAll(w: World, rs: seq<Request>, v: Serving, schedule: seq<nat>): Serving
    decreases schedule
  {
    if schedule == [] then v else RunAll(w, rs, Step(w, rs, v, schedule[0]), schedule[1..])
  }

  lemma {:induction false} RunsOn(w: World, rs: seq<Request>, v: Serving, schedule: seq<nat>, i: nat)
    ensures RunAll(w, rs, v, schedule + [i]) == Step(w, rs, RunAll(w, rs, v, schedule), i)
    decreases schedule
  {
    if schedule == [] {
      assert ([] + [i])[1..] == [];
    } else {
      assert (schedule + [i])[1..] == schedule[1..] + [i];
      RunsOn(w, rs, Step(w, rs, v, schedule[0]), schedule[1..], i);
    }
  }

  // ---------- what every schedule keeps ----------

  /** All that holds of a store but that no data has two rows in one table. */
  ghost predicate Loose(w: World, s: Store) {
    && ValidData(w, s.data)
    && ValidDigests(w, s.data, s.digests)
    && forall kind, i | 0 <= i < |s.tables[kind]| :: ValidRow(w, s, kind, s.tables[kind][i])
  }

  ghost predicate OneRow(rows: seq<Row>) {
    forall i, j | 0 <= i < j < |rows| :: rows[i].dataId != rows[j].dataId
  }

  ghost predicate OneRowEach(s: Store) {
    forall kind :: OneRow(s.tables[kind])
  }

  lemma RowsAreValid(w: World, s: Store, kind: Kind)
    requires Loose(w, s) && OneRow(s.tables[kind])
    ensures ValidRows(w, s, kind)
  {
    forall i | 0 <= i < |s.tables[kind]| ensures ValidRow(w, s, kind, s.tables[kind][i]) {
    }
  }

  lemma ValidIffLoose(w: World, s: Store)
    ensures Valid(w, s) <==> Loose(w, s) && OneRowEach(s)
  {
    if Valid(w, s) {
      forall kind ensures OneRow(s.tables[kind]) {
        assert ValidRows(w, s, kind);
      }
      forall kind, i | 0 <= i < |s.tables[kind]| ensures ValidRow(w, s, kind, s.tables[kind][i]) {
        assert ValidRows(w, s, kind);
      }
    }
    if Loose(w, s) && OneRowEach(s) {
      forall kind ensures ValidRows(w, s, kind) {
        RowsAreValid(w, s, kind);
      }
    }
  }

  /** What a PUT has found out is so. */
  ghost predicate Knows(w: World, r: Request, s: Store, id: nat) {
    && ParsePutParams(w, r.bytes, r.param).Ok?
    && id < |s.data| && s.data[id].raw == r.bytes
  }

  ghost predicate KnowsAlias(w: World, r: Request, s: Store, id: nat) {
    Knows(w, r, s, id) && FindAlias(s.digests, ParsePutParams(w, r.bytes, r.param).value) == Some(id)
  }

  /** The object can be found under the digest. */
  ghost predicate Findable(w: World, r: Request, s: Store) {
    && ParsePutParams(w, r.bytes, r.param).Ok?
    && FindByDigest(s, r.kind, ParsePutParams(w, r.bytes, r.param).value).Some?
  }

  ghost predicate IsRow(s: Store, kind: Kind, i: nat, id: nat, createdAt: Time) {
    i < |s.tables[kind]| && s.tables[kind][i].dataId == id && s.tables[kind][i].createdAt == createdAt
  }

  ghost predicate Right(w: World, r: Request, s: Store, p: Phase) {
    match p
    case Arrived => true
    case DataMissing => ParsePutParams(w, r.bytes, r.param).Ok?
    case DataFound(id) => Knows(w, r, s, id)
    case AliasMissing(id) => Knows(w, r, s, id)
    case AliasFound(id) => KnowsAlias(w, r, s, id)
    case RowMissing(id) => KnowsAlias(w, r, s, id)
    case RowFound(id, i, createdAt) => KnowsAlias(w, r, s, id) && IsRow(s, r.kind, i, id, createdAt)
    case Resolved(id, at, createdAt, detail) =>
      && KnowsAlias(w, r, s, id)
      && (at.Some? ==> IsRow(s, r.kind, at.value, id, createdAt))
      && Resolve(w, s, r.kind, r.bytes) == Ok(detail)
    case Done(answer) => answer.Failed? || Findable(w, r, s)
  }

  ghost predicate Sane(w: World, rs: seq<Request>, v: Serving) {
    && Loose(w, v.store) && |v.phases| == |rs|
    && forall i | 0 <= i < |rs| :: w.universe(rs[i].bytes) && Right(w, rs[i], v.store, v.phases[i])
  }

  lemma IsStillFound(s: Store, s': Store, kind: Kind, digest: Digest)
    requires Grows(s, s') && FindByDigest(s, kind, digest).Some?
    ensures FindByDigest(s', kind, digest).Some?
  {
    FindByDigestStable(s, s', kind, digest);
  }

  lemma RightStays(w: World, r: Request, s: Store, s': Store, p: Phase)
    requires Right(w, r, s, p) && Grows(s, s')
    ensures Right(w, r, s', p)
  {
    assert GrowsRows(s.tables[r.kind], s'.tables[r.kind]);
    if p.AliasFound? || p.RowMissing? || p.RowFound? || p.Resolved? {
      FindAliasStable(s.digests, s'.digests, ParsePutParams(w, r.bytes, r.param).value);
    }
    if p.Resolved? {
      ResolveStable(w, s, s', r.kind, r.bytes);
    }
    if p.Done? && !p.answer.Failed? {
      IsStillFound(s, s', r.kind, ParsePutParams(w, r.bytes, r.param).value);
    }
  }

  lemma RowsStay(w: World, s: Store, s': Store)
    requires Loose(w, s) && Grows(s, s') && s'.tables == s.tables
    requires ValidData(w, s'.data) && ValidDigests(w, s'.data, s'.digests)
    ensures Loose(w, s')
  {
    forall kind, i | 0 <= i < |s'.tables[kind]| ensures ValidRow(w, s', kind, s'.tables[kind][i]) {
      ValidRowStable(w, s, s', kind, s.tables[kind][i], s'.tables[kind][i]);
    }
  }

  lemma SameTablesGrow(s: Store, s': Store)
    requires s.data <= s'.data && s.digests <= s'.digests && s'.tables == s.tables
    ensures Grows(s, s')
  {
    assert forall kind :: GrowsRows(s.tables[kind], s'.tables[kind]);
  }

  /** One step keeps the tables loosely valid, only adds to them, and what the PUT has found out is so. */
  ghost predicate StepsWell(w: World, r: Request, s: Store, s': Store, p': Phase) {
    Loose(w, s') && Grows(s, s') && Right(w, r, s', p')
  }

  lemma DigestOfRequest(w: World, r: Request)
    requires ParsePutParams(w, r.bytes, r.param).Ok?
    ensures var digest := ParsePutParams(w, r.bytes, r.param).value;
            && digest.alg.Available() && digest == w.DigestOf(digest.alg, r.bytes)
            && CanonicalOf(w, digest, r.bytes) == w.DigestOf(CANONICAL, r.bytes)
  {
  }

  lemma LooksUpData(w: World, r: Request, s: Store)
    requires w.NoCollisions() && w.universe(r.bytes) && Loose(w, s) && ParsePutParams(w, r.bytes, r.param).Ok?
    ensures var (s', p') := StepOne(w, r, s, Arrived); StepsWell(w, r, s, s', p')
  {
    DigestOfRequest(w, r);
    SameTablesGrow(s, s);
  }

  lemma CreatesData(w: World, r: Request, s: Store)
    requires w.NoCollisions() && w.universe(r.bytes) && Loose(w, s) && ParsePutParams(w, r.bytes, r.param).Ok?
    ensures var (s', p') := StepOne(w, r, s, DataMissing); StepsWell(w, r, s, s', p')
  {
    DigestOfRequest(w, r);
    var (s', p') := StepOne(w, r, s, DataMissing);
    SameTablesGrow(s, s');
    assert ValidData(w, s'.data) && ValidDigests(w, s'.data, s'.digests);
    RowsStay(w, s, s');
  }

  lemma LooksUpAlias(w: World, r: Request, s: Store, id: nat)
    requires w.NoCollisions() && w.universe(r.bytes) && Loose(w, s) && Knows(w, r, s, id)
    ensures var (s', p') := StepOne(w, r, s, DataFound(id)); StepsWell(w, r, s, s', p')
  {
    SameTablesGrow(s, s);
    AliasOfData(w, s, id, ParsePutParams(w, r.bytes, r.param).value);
  }

  lemma CreatesAlias(w: World, r: Request, s: Store, id: nat)
    requires w.NoCollisions() && w.universe(r.bytes) && Loose(w, s) && Knows(w, r, s, id)
    ensures var (s', p') := StepOne(w, r, s, AliasMissing(id)); StepsWell(w, r, s, s', p')
  {
    DigestOfRequest(w, r);
    var (s', p') := StepOne(w, r, s, AliasMissing(id));
    SameTablesGrow(s, s');
    EnsureDigestValid(w, s, id, ParsePutParams(w, r.bytes, r.param).value);
    RowsStay(w, s, s');
  }

  lemma LooksUpRow(w: World, r: Request, s: Store, id: nat)
    requires Loose(w, s) && KnowsAlias(w, r, s, id)
    ensures var (s', p') := StepOne(w, r, s, AliasFound(id)); StepsWell(w, r, s, s', p')
  {
    SameTablesGrow(s, s);
  }

  lemma ResolvesRow(w: World, r: Request, s: Store, p: Phase)
    requires Loose(w, s) && Right(w, r, s, p) && (p.RowMissing? || p.RowFound?)
    ensures var (s', p') := StepOne(w, r, s, p); StepsWell(w, r, s, s', p')
  {
    SameTablesGrow(s, s);
    if p.RowFound? {
      SavedIsFound(s, r.kind, p.id, p.row, ParsePutParams(w, r.bytes, r.param).value);
    }
  }

  lemma SavedIsFound(s: Store, kind: Kind, id: nat, i: nat, digest: Digest)
    requires FindAlias(s.digests, digest) == Some(id) && i < |s.tables[kind]| && s.tables[kind][i].dataId == id
    ensures FindByDigest(s, kind, digest).Some?
  {
  }

  /** The row that is saved is right, and changes no more than the version of one that is there. */
  lemma SavedRow(w: World, r: Request, s: Store, p: Phase) returns (row: Row)
    requires Loose(w, s) && Right(w, r, s, p) && p.Resolved?
    ensures row == Row(p.createdAt, r.version, p.id, p.detail) && ValidRow(w, s, r.kind, row)
    ensures p.at.Some? ==> row == s.tables[r.kind][p.at.value].(version := r.version)
  {
    row := Row(p.createdAt, r.version, p.id, p.detail);
    var digest := ParsePutParams(w, r.bytes, r.param).value;
    assert s.digests[IndexOfDigest(s.digests, digest).value].dataId == p.id;
    if p.at.Some? {
      assert ValidRow(w, s, r.kind, s.tables[r.kind][p.at.value]);
    }
  }

  lemma SavedRowsGrow(s: Store, kind: Kind, at: Option<nat>, row: Row)
    requires at.Some? ==> at.value < |s.tables[kind]| && row == s.tables[kind][at.value].(version := row.version)
    ensures Grows(s, SaveRow(s, kind, at, row))
  {
    var s' := SaveRow(s, kind, at, row);
    forall k ensures GrowsRows(s.tables[k], s'.tables[k]) {
    }
  }

  lemma OldRowRight(w: World, s: Store, s': Store, kind: Kind, i: nat)
    requires Loose(w, s) && Grows(s, s') && i < |s.tables[kind]|
    ensures i < |s'.tables[kind]| && ValidRow(w, s', kind, s'.tables[kind][i])
  {
    assert GrowsRows(s.tables[kind], s'.tables[kind]);
    ValidRowStable(w, s, s', kind, s.tables[kind][i], s'.tables[kind][i]);
  }

  lemma SavedRowsRight(w: World, s: Store, kind: Kind, at: Option<nat>, row: Row)
    requires Loose(w, s) && ValidRow(w, s, kind, row)
    requires at.Some? ==> at.value < |s.tables[kind]| && row == s.tables[kind][at.value].(version := row.version)
    ensures Loose(w, SaveRow(s, kind, at, row))
  {
    var s' := SaveRow(s, kind, at, row);
    SavedRowsGrow(s, kind, at, row);
    forall k, i: nat | i < |s'.tables[k]| ensures ValidRow(w, s', k, s'.tables[k][i]) {
      if i < |s.tables[k]| {
        OldRowRight(w, s, s', k, i);
      } else {
        ValidRowStable(w, s, s', k, row, s'.tables[k][i]);
      }
    }
  }

  lemma SavesRow(w: World, r: Request, s: Store, p: Phase)
    requires Loose(w, s) && Right(w, r, s, p) && p.Resolved?
    ensures var (s', p') := StepOne(w, r, s, p); StepsWell(w, r, s, s', p')
  {
    var row := SavedRow(w, r, s, p);
    SavedRowsGrow(s, r.kind, p.at, row);
    SavedRowsRight(w, s, r.kind, p.at, row);
    var s' := SaveRow(s, r.kind, p.at, row);
    var i := if p.at.Some? then p.at.value else |s.tables[r.kind]|;
    SavedIsFound(s', r.kind, p.id, i, ParsePutParams(w, r.bytes, r.param).value);
  }

  lemma StepIsWell(w: World, r: Request, s: Store, p: Phase)
    requires w.NoCollisions() && w.universe(r.bytes) && Loose(w, s) && Right(w, r, s, p)
    ensures var (s', p') := StepOne(w, r, s, p); StepsWell(w, r, s, s', p')
  {
    if ParsePutParams(w, r.bytes, r.param).Err? {
      SameTablesGrow(s, s);
    } else {
      match p
      case Arrived => LooksUpData(w, r, s);
      case DataMissing => CreatesData(w, r, s);
      case DataFound(id) => LooksUpAlias(w, r, s, id);
      case AliasMissing(id) => CreatesAlias(w, r, s, id);
      case Resolved(_, _, _, _) => SavesRow(w, r, s, p);
      case Done(_) => SameTablesGrow(s, s);
      case AliasFound(id) => LooksUpRow(w, r, s, id);
      case _ => ResolvesRow(w, r, s, p);
    }
  }

  /**
   A PUT is answered by a database error exactly when its data or its alias was not there at its lookup and is
   there when it comes to create it.
  */
  lemma OutrunIff(w: World, r: Request, s: Store, p: Phase, d: Digest)
    requires w.NoCollisions() && w.universe(r.bytes) && Loose(w, s) && Right(w, r, s, p) && !p.Done?
    requires ParsePutParams(w, r.bytes, r.param) == Ok(d)
    ensures StepOne(w, r, s, p).1 == Done(Failed(DatabaseError)) <==>
              || (p.DataMissing? && exists i :: 0 <= i < |s.data| && s.data[i].raw == r.bytes)
              || (p.AliasMissing? && exists i :: 0 <= i < |s.digests| && s.digests[i].digest == d)
  {
    if p.DataMissing? {
      DataOutrun(w, r, s, d);
    } else if p.RowMissing? {
      NoDatabaseError(w, s, r.kind, s.data[p.id].raw);
    }
  }

  lemma DataOutrun(w: World, r: Request, s: Store, d: Digest)
    requires w.NoCollisions() && w.universe(r.bytes) && Loose(w, s) && ParsePutParams(w, r.bytes, r.param) == Ok(d)
    ensures StepOne(w, r, s, DataMissing).1 == Done(Failed(DatabaseError)) <==>
              exists i :: 0 <= i < |s.data| && s.data[i].raw == r.bytes
  {
    DigestOfRequest(w, r);
    forall i | 0 <= i < |s.data|
      ensures s.data[i].raw == r.bytes <==> s.data[i].canonical == w.DigestOf(CANONICAL, r.bytes)
    {
    }
  }

  lemma NoDatabaseError(w: World, s: Store, kind: Kind, bytes: Bytes)
    requires Loose(w, s)
    ensures Resolve(w, s, kind, bytes) != Err(DatabaseError)
  {
    if kind == Event {
      EventRowsRight(w, s, bytes);
    }
  }

  lemma EventRowsRight(w: World, s: Store, bytes: Bytes)
    requires Loose(w, s)
    ensures Resolve(w, s, Event, bytes) != Err(DatabaseError)
  {
    if w.parseEvent(bytes).Parsed? {
      var m := FindByDigest(s, Manifest, w.parseEvent(bytes).doc.manifest);
      if m.Some? {
        assert ValidRow(w, s, Manifest, s.tables[Manifest][m.value]);
      }
    }
  }

  lemma StepKeepsSane(w: World, rs: seq<Request>, v: Serving, i: nat)
    requires w.NoCollisions() && Sane(w, rs, v)
    ensures Sane(w, rs, Step(w, rs, v, i)) && Grows(v.store, Step(w, rs, v, i).store)
  {
    if i < |rs| {
      var v' := Step(w, rs, v, i);
      StepIsWell(w, rs[i], v.store, v.phases[i]);
      forall j | 0 <= j < |rs| ensures Right(w, rs[j], v'.store, v'.phases[j]) {
        if j != i {
          RightStays(w, rs[j], v.store, v'.store, v.phases[j]);
        }
      }
    } else {
      SameTablesGrow(v.store, v.store);
    }
  }

  /**
   Under every schedule: data and aliases stay unique, every row is right, nothing is lost, and an object whose
   PUT was answered without an error is found under its digest.
  */
  lemma {:induction false} EverySchedule(w: World, rs: seq<Request>, v: Serving, schedule: seq<nat>)
    requires w.NoCollisions() && Sane(w, rs, v)
    ensures Sane(w, rs, RunAll(w, rs, v, schedule)) && Grows(v.store, RunAll(w, rs, v, schedule).store)
    decreases schedule
  {
    if schedule != [] {
      var v' := Step(w, rs, v, schedule[0]);
      StepKeepsSane(w, rs, v, schedule[0]);
      EverySchedule(w, rs, v', schedule[1..]);
      GrowsTransitive(v.store, v'.store, RunAll(w, rs, v, schedule).store);
    } else {
      SameTablesGrow(v.store, v.store);
    }
  }

  // ---------- two rows for the same data ----------

  /** The next step saves a new row. */
  predicate SavesNew(p: Phase) {
    p.Resolved? && p.at.None?
  }

  /** The PUT has looked for the row in vain, and not saved it yet. */
  predicate Inserting(p: Phase) {
    p.RowMissing? || SavesNew(p)
  }

  ghost predicate HasRow(rows: seq<Row>, id: nat) {
    exists i :: 0 <= i < |rows| && rows[i].dataId == id
  }

  /** Another PUT of the same object is between its lookup and its save. */
  ghost predicate Rival(rs: seq<Request>, v: Serving, i: nat, j: nat)
    requires i < |rs| == |v.phases|
  {
    && j < |rs| && j != i && rs[j].kind == rs[i].kind
    && Inserting(v.phases[j]) && Inserting(v.phases[i]) && v.phases[j].id == v.phases[i].id
  }

  /** The step saves a new row while another PUT of the same object is between its lookup and its save. */
  ghost predicate Overlaps(rs: seq<Request>, v: Serving, i: nat) {
    && i < |rs| == |v.phases| && SavesNew(v.phases[i])
    && exists j :: Rival(rs, v, i, j)
  }

  ghost predicate Overlapped(w: World, rs: seq<Request>, v: Serving, schedule: seq<nat>)
    decreases schedule
  {
    schedule != []
    && (Overlaps(rs, v, schedule[0]) || Overlapped(w, rs, Step(w, rs, v, schedule[0]), schedule[1..]))
  }

  /** The PUT is going to save a row that is there already. */
  ghost predicate AtRisk(rs: seq<Request>, v: Serving, j: nat) {
    j < |rs| == |v.phases| && Inserting(v.phases[j]) && HasRow(v.store.tables[rs[j].kind], v.phases[j].id)
  }

  ghost predicate Doubled(rs: seq<Request>, v: Serving) {
    !OneRowEach(v.store) || exists j :: AtRisk(rs, v, j)
  }

  /** The rows are of the same data. */
  ghost predicate SameIds(rows: seq<Row>, rows': seq<Row>) {
    |rows'| == |rows| && forall i | 0 <= i < |rows| :: rows'[i].dataId == rows[i].dataId
  }

  lemma SameIdsSame(rows: seq<Row>, rows': seq<Row>)
    requires SameIds(rows, rows')
    ensures OneRow(rows') <==> OneRow(rows)
    ensures forall id :: HasRow(rows', id) <==> HasRow(rows, id)
  {
    forall id ensures HasRow(rows', id) <==> HasRow(rows, id) {
      if i :| 0 <= i < |rows| && rows[i].dataId == id {
        assert rows'[i].dataId == id;
      }
      if i :| 0 <= i < |rows'| && rows'[i].dataId == id {
        assert rows[i].dataId == id;
      }
    }
  }

  lemma IdsStay(w: World, r: Request, s: Store, p: Phase, kind: Kind)
    requires Right(w, r, s, p) && !SavesNew(p)
    ensures SameIds(s.tables[kind], StepOne(w, r, s, p).0.tables[kind])
  {
  }

  /** A PUT whose object is there already is not refused, and one that looks for it in vain finds none. */
  lemma RiskStays(w: World, r: Request, s: Store, p: Phase)
    requires Loose(w, s) && Right(w, r, s, p) && !SavesNew(p)
    ensures var p' := StepOne(w, r, s, p).1;
            Inserting(p') && HasRow(s.tables[r.kind], p'.id) <==> Inserting(p) && HasRow(s.tables[r.kind], p.id)
  {
    if p.RowMissing? && HasRow(s.tables[r.kind], p.id) {
      var i :| 0 <= i < |s.tables[r.kind]| && s.tables[r.kind][i].dataId == p.id;
      assert ValidRow(w, s, r.kind, s.tables[r.kind][i]);
    }
  }

  /** A step that saves nothing new puts nobody at risk and saves nobody from it. */
  lemma RiskIsKept(w: World, rs: seq<Request>, v: Serving, i: nat, j: nat)
    requires Sane(w, rs, v) && i < |rs| && !SavesNew(v.phases[i])
    ensures AtRisk(rs, Step(w, rs, v, i), j) <==> AtRisk(rs, v, j)
  {
    if j < |rs| {
      assert Right(w, rs[i], v.store, v.phases[i]);
      IdsStay(w, rs[i], v.store, v.phases[i], rs[j].kind);
      SameIdsSame(v.store.tables[rs[j].kind], Step(w, rs, v, i).store.tables[rs[j].kind]);
      RiskStays(w, rs[i], v.store, v.phases[i]);
    }
  }

  lemma QuietStep(w: World, rs: seq<Request>, v: Serving, i: nat)
    requires Sane(w, rs, v) && i < |rs| && !SavesNew(v.phases[i])
    ensures Doubled(rs, Step(w, rs, v, i)) <==> Doubled(rs, v)
  {
    var v' := Step(w, rs, v, i);
    assert Right(w, rs[i], v.store, v.phases[i]);
    forall kind ensures OneRow(v'.store.tables[kind]) <==> OneRow(v.store.tables[kind]) {
      IdsStay(w, rs[i], v.store, v.phases[i], kind);
      SameIdsSame(v.store.tables[kind], v'.store.tables[kind]);
    }
    forall j ensures AtRisk(rs, v', j) <==> AtRisk(rs, v, j) {
      RiskIsKept(w, rs, v, i, j);
    }
  }

  lemma AppendedRow(rows: seq<Row>, row: Row)
    ensures OneRow(rows + [row]) <==> OneRow(rows) && !HasRow(rows, row.dataId)
    ensures forall id :: HasRow(rows + [row], id) <==> HasRow(rows, id) || id == row.dataId
  {
    var rows' := rows + [row];
    forall id ensures HasRow(rows', id) <==> HasRow(rows, id) || id == row.dataId {
      if i :| 0 <= i < |rows| && rows[i].dataId == id {
        assert rows'[i].dataId == id;
      }
      assert rows'[|rows|] == row;
    }
    if OneRow(rows') {
      forall i, j | 0 <= i < j < |rows| ensures rows[i].dataId != rows[j].dataId {
        assert rows'[i] == rows[i] && rows'[j] == rows[j];
      }
      forall i | 0 <= i < |rows| ensures rows[i].dataId != row.dataId {
        assert rows'[i] == rows[i] && rows'[|rows|] == row;
      }
    }
  }

  /** What a step that saves a new row does. */
  lemma SavingAppends(w: World, rs: seq<Request>, v: Serving, i: nat)
    requires Sane(w, rs, v) && i < |rs| && SavesNew(v.phases[i])
    ensures var v', p := Step(w, rs, v, i), v.phases[i];
            && v'.phases == v.phases[i := Done(Created)]
            && v'.store.tables == v.store.tables[rs[i].kind := v.store.tables[rs[i].kind]
                                                               + [Row(p.createdAt, rs[i].version, p.id, p.detail)]]
  {
    assert Right(w, rs[i], v.store, v.phases[i]);
  }

  /** After a new row was saved, whoever was at risk still is, and so are the rivals. */
  lemma RiskAfterSave(w: World, rs: seq<Request>, v: Serving, i: nat, j: nat)
    requires Sane(w, rs, v) && i < |rs| && SavesNew(v.phases[i]) && j != i
    ensures AtRisk(rs, Step(w, rs, v, i), j) <==> AtRisk(rs, v, j) || Rival(rs, v, i, j)
  {
    var p := v.phases[i];
    SavingAppends(w, rs, v, i);
    AppendedRow(v.store.tables[rs[i].kind], Row(p.createdAt, rs[i].version, p.id, p.detail));
    RivalOrRisk(rs, v, Step(w, rs, v, i), i, j);
  }

  lemma RivalOrRisk(rs: seq<Request>, v: Serving, v': Serving, i: nat, j: nat)
    requires i < |rs| == |v.phases| == |v'.phases| && SavesNew(v.phases[i]) && j != i
    requires j < |rs| ==> v'.phases[j] == v.phases[j]
    requires forall k | k != rs[i].kind :: v'.store.tables[k] == v.store.tables[k]
    requires forall id :: HasRow(v'.store.tables[rs[i].kind], id)
                          <==> HasRow(v.store.tables[rs[i].kind], id) || id == v.phases[i].id
    ensures AtRisk(rs, v', j) <==> AtRisk(rs, v, j) || Rival(rs, v, i, j)
  {
  }

  lemma SavingStep(w: World, rs: seq<Request>, v: Serving, i: nat)
    requires Sane(w, rs, v) && i < |rs| && SavesNew(v.phases[i])
    ensures Doubled(rs, Step(w, rs, v, i)) <==> Doubled(rs, v) || Overlaps(rs, v, i)
  {
    var v' := Step(w, rs, v, i);
    RowsAfterSave(w, rs, v, i);
    forall j | j != i ensures AtRisk(rs, v', j) <==> AtRisk(rs, v, j) || Rival(rs, v, i, j) {
      RiskAfterSave(w, rs, v, i, j);
    }
    assert !AtRisk(rs, v', i) && !Rival(rs, v, i, i);
  }

  lemma RowsAfterSave(w: World, rs: seq<Request>, v: Serving, i: nat)
    requires Sane(w, rs, v) && i < |rs| && SavesNew(v.phases[i])
    ensures OneRowEach(Step(w, rs, v, i).store) <==> OneRowEach(v.store) && !AtRisk(rs, v, i)
  {
    var v', p := Step(w, rs, v, i), v.phases[i];
    SavingAppends(w, rs, v, i);
    AppendedRow(v.store.tables[rs[i].kind], Row(p.createdAt, rs[i].version, p.id, p.detail));
    OneRowAfterSave(v.store, v'.store, rs[i].kind, p.id);
  }

  lemma OneRowAfterSave(s: Store, s': Store, kind: Kind, id: nat)
    requires forall k | k != kind :: s'.tables[k] == s.tables[k]
    requires OneRow(s'.tables[kind]) <==> OneRow(s.tables[kind]) && !HasRow(s.tables[kind], id)
    ensures OneRowEach(s') <==> OneRowEach(s) && !HasRow(s.tables[kind], id)
  {
    if OneRowEach(s') {
      forall k ensures OneRow(s.tables[k]) {
        assert OneRow(s'.tables[k]);
      }
    }
    if OneRowEach(s) && !HasRow(s.tables[kind], id) {
      forall k ensures OneRow(s'.tables[k]) {
        assert OneRow(s.tables[k]);
      }
    }
  }

  lemma {:induction false} DoubledIff(w: World, rs: seq<Request>, v: Serving, schedule: seq<nat>)
    requires w.NoCollisions() && Sane(w, rs, v)
    ensures Doubled(rs, RunAll(w, rs, v, schedule)) <==> Doubled(rs, v) || Overlapped(w, rs, v, schedule)
    decreases schedule
  {
    if schedule != [] {
      var i := schedule[0];
      StepKeepsSane(w, rs, v, i);
      DoubledIff(w, rs, Step(w, rs, v, i), schedule[1..]);
      if i < |rs| && SavesNew(v.phases[i]) {
        SavingStep(w, rs, v, i);
      } else if i < |rs| {
        QuietStep(w, rs, v, i);
      }
    }
  }

  ghost predicate AllArrived(v: Serving) {
    forall i | 0 <= i < |v.phases| :: v.phases[i].Arrived?
  }

  ghost predicate AllDone(v: Serving) {
    forall i | 0 <= i < |v.phases| :: v.phases[i].Done?
  }

  /**
   When all PUTs are answered, the store is valid, no data with two rows in one table included, exactly if no
   row was ever saved while another PUT of the same object was between its lookup and its save.
  */
  lemma ValidIffNoOverlap(w: World, rs: seq<Request>, v: Serving, schedule: seq<nat>)
    requires w.NoCollisions() && Valid(w, v.store) && |v.phases| == |rs| && AllArrived(v)
    requires forall i | 0 <= i < |rs| :: w.universe(rs[i].bytes)
    requires AllDone(RunAll(w, rs, v, schedule))
    ensures Valid(w, RunAll(w, rs, v, schedule).store) <==> !Overlapped(w, rs, v, schedule)
  {
    var v' := RunAll(w, rs, v, schedule);
    ValidIffLoose(w, v.store);
    assert Sane(w, rs, v);
    EverySchedule(w, rs, v, schedule);
    DoubledIff(w, rs, v, schedule);
    assert !(exists j :: AtRisk(rs, v, j)) && !(exists j :: AtRisk(rs, v', j));
    ValidIffLoose(w, v'.store);
  }
}

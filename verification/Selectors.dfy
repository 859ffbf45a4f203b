/**
 Label selectors as a database query: one LEFT JOIN of the labels per requirement, and a condition in
 three-valued logic. The compiled query returns the bottles whose labels satisfy the selectors.
*/
module Selectors {
  import opened Types

  // ---------- selectors and what they mean ----------

  datatype Operator = Equals | DoubleEquals | NotEquals | In | NotIn | Exists | DoesNotExist | GreaterThan | LessThan

  datatype Requirement = Requirement(key: string, op: Operator, values: seq<string>)

  datatype Selector = Unparsable | Selector(requirements: seq<Requirement>)

  type ParseFloat = string -> Option<real>

  /** The labels of some bottles. */
  type Docs = map<nat, map<string, string>>

  /** Whether a label set satisfies a requirement. A number that cannot be read compares with nothing. */
  predicate Matches(parse: ParseFloat, r: Requirement, labels: map<string, string>) {
    match r.op
    case Equals => r.key in labels && labels[r.key] in r.values
    case DoubleEquals => r.key in labels && labels[r.key] in r.values
    case In => r.key in labels && labels[r.key] in r.values
    case NotEquals => r.key !in labels || labels[r.key] !in r.values
    case NotIn => r.key !in labels || labels[r.key] !in r.values
    case Exists => r.key in labels
    case DoesNotExist => r.key !in labels
    case GreaterThan => r.key in labels && Compares(parse, labels[r.key], r.values, (x, y) => x > y)
    case LessThan => r.key in labels && Compares(parse, labels[r.key], r.values, (x, y) => x < y)
  }

  predicate Compares(parse: ParseFloat, value: string, values: seq<string>, order: (real, real) -> bool) {
    values != [] && parse(value).Some? && parse(values[0]).Some? && order(parse(value).value, parse(values[0]).value)
  }

  /** Selectors are alternatives, requirements of one selector are cumulative. */
  predicate Satisfies(parse: ParseFloat, selectors: seq<Selector>, labels: map<string, string>) {
    selectors == [] ||
    exists i :: 0 <= i < |selectors| && selectors[i].Selector?
                && forall j | 0 <= j < |selectors[i].requirements| ::
                  Matches(parse, selectors[i].requirements[j], labels)
  }

  /** What the selector parser guarantees of a requirement. */
  predicate WellFormed(parse: ParseFloat, r: Requirement) {
    match r.op
    case Exists => r.values == []
    case DoesNotExist => r.values == []
    case In => r.values != []
    case NotIn => r.values != []
    case GreaterThan => |r.values| == 1 && parse(r.values[0]).Some?
    case LessThan => |r.values| == 1 && parse(r.values[0]).Some?
    case _ => |r.values| == 1
  }

  /** The requirements that a selector string can contain can all be used. */
  lemma ParsedIsWellFormed(parse: ParseFloat, key: string, value: string, values: seq<string>)
    ensures WellFormed(parse, Requirement(key, Equals, [value]))
    ensures WellFormed(parse, Requirement(key, DoubleEquals, [value]))
    ensures WellFormed(parse, Requirement(key, NotEquals, [value]))
    ensures WellFormed(parse, Requirement(key, Exists, [])) && WellFormed(parse, Requirement(key, DoesNotExist, []))
    ensures values != [] ==> WellFormed(parse, Requirement(key, In, values))
    ensures values != [] ==> WellFormed(parse, Requirement(key, NotIn, values))
    ensures parse(value).Some? ==> WellFormed(parse, Requirement(key, GreaterThan, [value]))
    ensures parse(value).Some? ==> WellFormed(parse, Requirement(key, LessThan, [value]))
  {
  }

  /** How the operators hang together: one value and several, and each with its negation. */
  lemma OperatorLaws(parse: ParseFloat, key: string, value: string, values: seq<string>, labels: map<string, string>)
    ensures Matches(parse, Requirement(key, In, values), labels) <==> key in labels && labels[key] in values
    ensures Matches(parse, Requirement(key, NotIn, values), labels)
            <==> !Matches(parse, Requirement(key, In, values), labels)
    ensures Matches(parse, Requirement(key, Equals, [value]), labels) <==> key in labels && labels[key] == value
    ensures Matches(parse, Requirement(key, DoubleEquals, [value]), labels)
            <==> Matches(parse, Requirement(key, Equals, [value]), labels)
    ensures Matches(parse, Requirement(key, NotEquals, [value]), labels)
            <==> !Matches(parse, Requirement(key, Equals, [value]), labels)
    ensures Matches(parse, Requirement(key, Exists, []), labels) <==> key in labels
    ensures Matches(parse, Requirement(key, DoesNotExist, []), labels)
            <==> !Matches(parse, Requirement(key, Exists, []), labels)
    ensures parse(value).Some? && key in labels && parse(labels[key]).Some? ==>
              var (x, y) := (parse(labels[key]).value, parse(value).value);
              && (Matches(parse, Requirement(key, GreaterThan, [value]), labels) <==> x > y)
              && (Matches(parse, Requirement(key, LessThan, [value]), labels) <==> x < y)
    ensures key !in labels || parse(labels[key]).None? ==>
              && !Matches(parse, Requirement(key, GreaterThan, [value]), labels)
              && !Matches(parse, Requirement(key, LessThan, [value]), labels)
  {
  }

  // ---------- the query language ----------

  datatype LabelRow = LabelRow(bottleId: nat, key: string, value: string, numeric: Option<real>)

  /** One of the joined copies of the label table: `label<selector>x<requirement>`. */
  datatype Alias = Alias(selector: nat, requirement: nat)

  /** A subquery of bottle ids: those with a label of this key, and of one of the values if any are given. */
  datatype Subquery = AnyValue(key: string) | OneOf(key: string, values: seq<string>)

  datatype Atom =
    | KeyIs(alias: Alias, key: string)
    | ValueIs(alias: Alias, value: string)
    | ValueIn(alias: Alias, values: seq<string>)
    | NumericAbove(alias: Alias, bound: real)
    | NumericBelow(alias: Alias, bound: real)
    | BottleNotIn(subquery: Subquery)

  /** LEFT JOINs in order, and a disjunction of conjunctions; no disjunct means no WHERE clause. */
  datatype Query = Query(joins: seq<Alias>, where: seq<seq<Atom>>)

  /** A row of the join; a copy of the label table contributes NULLs when the bottle has no label. */
  datatype Joined = Joined(bottle: nat, tables: map<Alias, Option<LabelRow>>)

  datatype Truth = True | False | Unknown
  {
    function And(other: Truth): Truth {
      if this.False? || other.False? then False else if this.True? && other.True? then True else Unknown
    }

    function Or(other: Truth): Truth {
      if this.True? || other.True? then True else if this.False? && other.False? then False else Unknown
    }
  }

  function Known(b: bool): Truth {
    if b then True else False
  }

  function LeftJoin(rows: set<Joined>, alias: Alias, labels: set<LabelRow>): set<Joined> {
    (set r, l | r in rows && l in labels && l.bottleId == r.bottle :: Joined(r.bottle, r.tables[alias := Some(l)]))
    + (set r | r in rows && (forall l | l in labels :: l.bottleId != r.bottle)
             :: Joined(r.bottle, r.tables[alias := None]))
  }

  function JoinAll(bottles: set<nat>, joins: seq<Alias>, labels: set<LabelRow>): set<Joined> {
    if joins == [] then set b | b in bottles :: Joined(b, map[])
    else LeftJoin(JoinAll(bottles, joins[..|joins| - 1], labels), joins[|joins| - 1], labels)
  }

  predicate Selected(subquery: Subquery, l: LabelRow) {
    match subquery
    case AnyValue(key) => l.key == key
    case OneOf(key, values) => l.key == key && l.value in values
  }

  /** The label that a copy of the table contributes, or none for its NULLs. */
  function LabelOf(r: Joined, alias: Alias): Option<LabelRow> {
    if alias in r.tables then r.tables[alias] else None
  }

  /** A comparison with a NULL is unknown. */
  function EvalAtom(a: Atom, r: Joined, labels: set<LabelRow>): Truth {
    match a
    case KeyIs(alias, key) => (match LabelOf(r, alias) case None => Unknown case Some(l) => Known(l.key == key))
    case ValueIs(alias, value) => (match LabelOf(r, alias) case None => Unknown case Some(l) => Known(l.value == value))
    case ValueIn(alias, values) =>
      (match LabelOf(r, alias) case None => Unknown case Some(l) => Known(l.value in values))
    case NumericAbove(alias, bound) => Against(LabelOf(r, alias), x => x > bound)
    case NumericBelow(alias, bound) => Against(LabelOf(r, alias), x => x < bound)
    case BottleNotIn(q) => Known(forall l | l in labels && Selected(q, l) :: l.bottleId != r.bottle)
  }

  function Against(row: Option<LabelRow>, test: real -> bool): Truth {
    match row
    case None => Unknown
    case Some(l) => (match l.numeric case None => Unknown case Some(x) => Known(test(x)))
  }

  function EvalAnd(atoms: seq<Atom>, r: Joined, labels: set<LabelRow>): Truth {
    if atoms == [] then True
    else EvalAnd(atoms[..|atoms| - 1], r, labels).And(EvalAtom(atoms[|atoms| - 1], r, labels))
  }

  function EvalOr(clauses: seq<seq<Atom>>, r: Joined, labels: set<LabelRow>): Truth {
    if clauses == [] then False
    else EvalOr(clauses[..|clauses| - 1], r, labels).Or(EvalAnd(clauses[|clauses| - 1], r, labels))
  }

  /** The bottle ids of the rows for which the condition is true. */
  function Execute(q: Query, bottles: set<nat>, labels: set<LabelRow>): set<nat> {
    set r | r in JoinAll(bottles, q.joins, labels) && (q.where == [] || EvalOr(q.where, r, labels) == True) :: r.bottle
  }

  // ---------- the compiler ----------

  /** The condition for one requirement on its own copy of the label table, unless a value is unusable. */
  function ConditionForRequirement(parse: ParseFloat, alias: Alias, r: Requirement): Option<seq<Atom>> {
    match r.op
    case Equals => if r.values == [] then None else Some([KeyIs(alias, r.key), ValueIs(alias, r.values[0])])
    case DoubleEquals => if r.values == [] then None else Some([KeyIs(alias, r.key), ValueIs(alias, r.values[0])])
    case NotEquals => if r.values == [] then None else Some([BottleNotIn(OneOf(r.key, [r.values[0]]))])
    case In => Some([KeyIs(alias, r.key), ValueIn(alias, r.values)])
    case NotIn => Some([BottleNotIn(OneOf(r.key, r.values))])
    case Exists => Some([KeyIs(alias, r.key)])
    case DoesNotExist => Some([BottleNotIn(AnyValue(r.key))])
    case GreaterThan =>
      if r.values == [] || parse(r.values[0]).None? then None
      else Some([KeyIs(alias, r.key), NumericAbove(alias, parse(r.values[0]).value)])
    case LessThan =>
      if r.values == [] || parse(r.values[0]).None? then None
      else Some([KeyIs(alias, r.key), NumericBelow(alias, parse(r.values[0]).value)])
  }

  predicate UsableAt(parse: ParseFloat, selectors: seq<Selector>, i: nat)
    requires i < |selectors|
  {
    selectors[i].Selector? && forall j | 0 <= j < |selectors[i].requirements| ::
      WellFormed(parse, selectors[i].requirements[j])
  }

  /** Every selector can be used, unless an empty one comes before it. */
  predicate Usable(parse: ParseFloat, selectors: seq<Selector>) {
    forall i: nat | i < |selectors| && NoneEmpty(selectors, i) :: UsableAt(parse, selectors, i)
  }

  predicate AllUsable(parse: ParseFloat, selectors: seq<Selector>) {
    forall i | 0 <= i < |selectors| ::
      selectors[i].Selector? && forall j | 0 <= j < |selectors[i].requirements| ::
        WellFormed(parse, selectors[i].requirements[j])
  }

  /** The conditions of the first n requirements of the i-th selector. */
  function Clause(parse: ParseFloat, i: nat, requirements: seq<Requirement>, n: nat): seq<Atom>
    requires n <= |requirements|
  {
    if n == 0 then []
    else
      Clause(parse, i, requirements, n - 1) +
      match ConditionForRequirement(parse, Alias(i, n - 1), requirements[n - 1])
      case Some(atoms) => atoms
      case None => []
  }

  /** Some requirement has an unusable value. */
  predicate HasBadValue(parse: ParseFloat, qs: seq<Requirement>) {
    exists j :: 0 <= j < |qs| && ConditionForRequirement(parse, Alias(0, 0), qs[j]).None?
  }

  predicate IsEmpty(selector: Selector) {
    selector.Selector? && |selector.requirements| == 0
  }

  predicate NoneEmpty(selectors: seq<Selector>, n: nat)
    requires n <= |selectors|
  {
    forall k | 0 <= k < n :: !IsEmpty(selectors[k])
  }

  /** The selector is in error, and no selector up to it is empty. */
  predicate ErrorAt(parse: ParseFloat, selectors: seq<Selector>, k: nat)
    requires k < |selectors|
  {
    NoneEmpty(selectors, k + 1) && (selectors[k].Selector? ==> HasBadValue(parse, selectors[k].requirements))
  }

  /** One of the first n selectors is in error, and no selector before it is empty. */
  predicate Erroneous(parse: ParseFloat, selectors: seq<Selector>, n: nat)
    requires n <= |selectors|
  {
    exists k: nat :: k < n && ErrorAt(parse, selectors, k)
  }

  lemma OneMoreSelector(parse: ParseFloat, selectors: seq<Selector>, i: nat)
    requires i < |selectors| && selectors[i].Selector? && |selectors[i].requirements| > 0 && NoneEmpty(selectors, i)
    ensures NoneEmpty(selectors, i + 1)
    ensures Erroneous(parse, selectors, i + 1) <==>
              Erroneous(parse, selectors, i) || HasBadValue(parse, selectors[i].requirements)
  {
    assert ErrorAt(parse, selectors, i) <==> HasBadValue(parse, selectors[i].requirements);
    if Erroneous(parse, selectors, i) {
      var k: nat :| k < i && ErrorAt(parse, selectors, k);
      assert k < i + 1;
    }
  }

  /** Nothing is asked of what stands behind an empty selector. */
  lemma UsableUpToEmpty(parse: ParseFloat, selectors: seq<Selector>, k: nat)
    requires k <= |selectors| && (k < |selectors| ==> selectors[k] == Selector([]))
    requires forall i | 0 <= i < k :: selectors[i].Selector?
    requires forall i, j | 0 <= i < k && 0 <= j < |selectors[i].requirements| ::
               WellFormed(parse, selectors[i].requirements[j])
    ensures Usable(parse, selectors)
  {
    forall i: nat | i < |selectors| && NoneEmpty(selectors, i) ensures UsableAt(parse, selectors, i) {
      assert k < |selectors| ==> IsEmpty(selectors[k]);
    }
  }

  lemma UsableIsNotErroneous(parse: ParseFloat, selectors: seq<Selector>, n: nat)
    requires Usable(parse, selectors) && n <= |selectors|
    ensures !Erroneous(parse, selectors, n)
  {
    forall k: nat | k < n ensures !ErrorAt(parse, selectors, k) {
      if NoneEmpty(selectors, k + 1) {
        assert NoneEmpty(selectors, k) && UsableAt(parse, selectors, k);
      }
    }
  }

  lemma EmptyEndsErrors(parse: ParseFloat, selectors: seq<Selector>, i: nat)
    requires i < |selectors| && IsEmpty(selectors[i])
    ensures Erroneous(parse, selectors, |selectors|) <==> Erroneous(parse, selectors, i)
  {
    ErrorStays(parse, selectors, i, |selectors|);
    ErrorStays(parse, selectors, i + 1, |selectors|);
    if Erroneous(parse, selectors, i + 1) {
      var k: nat :| k < i + 1 && ErrorAt(parse, selectors, k);
      assert k < i;
    }
  }

  /** An error stays, and nothing after an empty selector matters. */
  lemma ErrorStays(parse: ParseFloat, selectors: seq<Selector>, m: nat, n: nat)
    requires m <= n <= |selectors|
    ensures Erroneous(parse, selectors, m) ==> Erroneous(parse, selectors, n)
    ensures m > 0 && IsEmpty(selectors[m - 1]) ==> (Erroneous(parse, selectors, n) <==> Erroneous(parse, selectors, m))
  {
    if Erroneous(parse, selectors, m) {
      var k: nat :| k < m && ErrorAt(parse, selectors, k);
      assert k < n;
    }
    if m > 0 && IsEmpty(selectors[m - 1]) && Erroneous(parse, selectors, n) {
      var k: nat :| k < n && ErrorAt(parse, selectors, k);
      assert k < m;
    }
  }

  /** The first n requirements are compiled. */
  ghost predicate CompiledUpTo(parse: ParseFloat, i: nat, requirements: seq<Requirement>, joins0: seq<Alias>, n: nat,
                               expr2: seq<Atom>, joins: seq<Alias>, failed: bool)
    requires n <= |requirements|
  {
    && expr2 == Clause(parse, i, requirements, n)
    && (failed <==> HasBadValue(parse, requirements[..n]))
    && (forall a :: a in joins <==> a in joins0 || (a.selector == i && a.requirement < n))
  }

  lemma OneMoreBadValue(parse: ParseFloat, qs: seq<Requirement>, n: nat, alias: Alias)
    requires n < |qs|
    ensures HasBadValue(parse, qs[..n + 1]) <==>
              HasBadValue(parse, qs[..n]) || ConditionForRequirement(parse, alias, qs[n]).None?
  {
    assert qs[..n + 1][n] == qs[n];
    assert ConditionForRequirement(parse, alias, qs[n]).None? <==>
             ConditionForRequirement(parse, Alias(0, 0), qs[n]).None?;
    if HasBadValue(parse, qs[..n]) {
      var j :| 0 <= j < n && ConditionForRequirement(parse, Alias(0, 0), qs[..n][j]).None?;
      assert qs[..n + 1][j] == qs[j];
    }
    if HasBadValue(parse, qs[..n + 1]) {
      var j :| 0 <= j < n + 1 && ConditionForRequirement(parse, Alias(0, 0), qs[..n + 1][j]).None?;
      assert j == n || qs[..n][j] == qs[j];
    }
  }

  lemma OneMoreJoin(joins: seq<Alias>, joins0: seq<Alias>, i: nat, n: nat)
    requires forall a :: a in joins <==> a in joins0 || (a.selector == i && a.requirement < n)
    ensures forall a :: a in joins + [Alias(i, n)] <==> a in joins0 || (a.selector == i && a.requirement < n + 1)
  {
    forall a ensures a in joins + [Alias(i, n)] <==> a in joins || a == Alias(i, n) {
    }
  }

  lemma OneMoreRequirement(parse: ParseFloat, i: nat, requirements: seq<Requirement>, joins0: seq<Alias>, n: nat,
                           expr2: seq<Atom>, joins: seq<Alias>, failed: bool)
    requires n < |requirements| && CompiledUpTo(parse, i, requirements, joins0, n, expr2, joins, failed)
    ensures var expr := ConditionForRequirement(parse, Alias(i, n), requirements[n]);
            CompiledUpTo(parse, i, requirements, joins0, n + 1, if expr.None? then expr2 else expr2 + expr.value,
                         joins + [Alias(i, n)], failed || expr.None?)
  {
    OneMoreBadValue(parse, requirements, n, Alias(i, n));
    OneMoreJoin(joins, joins0, i, n);
    var expr := ConditionForRequirement(parse, Alias(i, n), requirements[n]);
    assert expr2 + [] == expr2;
  }

  /** The condition of one selector, and the joins it needs behind those it is given. */
  method CompileSelector(parse: ParseFloat, i: nat, requirements: seq<Requirement>, joins0: seq<Alias>)
    returns (expr2: seq<Atom>, joins: seq<Alias>, failed: bool)
    ensures expr2 == Clause(parse, i, requirements, |requirements|)
    ensures failed <==> HasBadValue(parse, requirements)
    ensures forall a :: a in joins <==> a in joins0 || (a.selector == i && a.requirement < |requirements|)
  {
    expr2, joins, failed := [], joins0, false;
    for j := 0 to |requirements|
      invariant CompiledUpTo(parse, i, requirements, joins0, j, expr2, joins, failed)
    {
      OneMoreRequirement(parse, i, requirements, joins0, j, expr2, joins, failed);
      var expr := ConditionForRequirement(parse, Alias(i, j), requirements[j]);
      if expr.None? {
        failed := true;
      } else {
        expr2 := expr2 + expr.value;
      }
      joins := joins + [Alias(i, j)];
    }
    assert requirements[..|requirements|] == requirements;
  }

  /** On the labels of any bottles, the query returns exactly those whose labels satisfy the selectors. */
  ghost predicate Selects(parse: ParseFloat, selectors: seq<Selector>, q: Query) {
    forall docs: Docs ::
      Execute(q, docs.Keys, LabelTable(parse, docs)) == set b | b in docs && Satisfies(parse, selectors, docs[b])
  }

  /**
   Builds the query. The result is none when the query carries an error: a selector that does not parse,
   or a requirement with an unusable value. An empty selector ends the compilation without a condition.
  */
  method FilterBySelectors(parse: ParseFloat, selectors: seq<Selector>) returns (q: Option<Query>)
    ensures q.None? <==> Erroneous(parse, selectors, |selectors|)
    ensures Usable(parse, selectors) ==> q.Some? && Selects(parse, selectors, q.value)
  {
    var joins: seq<Alias> := [];
    var expr3: seq<seq<Atom>> := [];
    var failed := false;
    if Usable(parse, selectors) {
      UsableIsNotErroneous(parse, selectors, |selectors|);
    }
    for i := 0 to |selectors|
      invariant failed <==> Erroneous(parse, selectors, i)
      invariant |expr3| == i && NoneEmpty(selectors, i)
      invariant ClausesOf(parse, selectors, expr3)
      invariant Joins(joins, selectors, i)
    {
      if selectors[i].Unparsable? {
        assert ErrorAt(parse, selectors, i);
        return None;
      }
      var requirements := selectors[i].requirements;
      if |requirements| == 0 {
        EmptyEndsErrors(parse, selectors, i);
        EmptySelector(parse, joins, selectors, i);
        return if failed then None else Some(Query(joins, []));
      }
      var expr2, joins', bad := CompileSelector(parse, i, requirements, joins);
      failed := failed || bad;
      joins := joins';
      OneMoreSelector(parse, selectors, i);
      OneMoreClause(parse, selectors, expr3, expr2);
      expr3 := expr3 + [expr2];
    }
    CompiledToTheEnd(parse, joins, expr3, selectors);
    return if failed then None else Some(Query(joins, expr3));
  }

  /** The conditions of the first selectors, in order. */
  ghost predicate ClausesOf(parse: ParseFloat, selectors: seq<Selector>, where: seq<seq<Atom>>) {
    && |where| <= |selectors|
    && forall k | 0 <= k < |where| :: selectors[k].Selector?
         && where[k] == Clause(parse, k, selectors[k].requirements, |selectors[k].requirements|)
  }

  lemma OneMoreClause(parse: ParseFloat, selectors: seq<Selector>, where: seq<seq<Atom>>, clause: seq<Atom>)
    requires ClausesOf(parse, selectors, where) && |where| < |selectors|
    requires var selector := selectors[|where|];
             selector.Selector? && clause == Clause(parse, |where|, selector.requirements, |selector.requirements|)
    ensures ClausesOf(parse, selectors, where + [clause])
  {
  }

  /** The joined copies are those of the requirements of the first i selectors. */
  ghost predicate Joins(joins: seq<Alias>, selectors: seq<Selector>, i: nat) {
    forall a :: a in joins <==>
      a.selector < i && a.selector < |selectors| && selectors[a.selector].Selector?
      && a.requirement < |selectors[a.selector].requirements|
  }

  // ---------- the label table of some bottles ----------

  /** The row that saving a label writes. */
  function Saved(parse: ParseFloat, b: nat, key: string, value: string): LabelRow {
    LabelRow(b, key, value, parse(value))
  }

  function LabelTable(parse: ParseFloat, docs: Docs): set<LabelRow> {
    set b, key | b in docs && key in docs[b] :: Saved(parse, b, key, docs[b][key])
  }

  lemma TableExact(parse: ParseFloat, docs: Docs, b: nat, key: string)
    requires b in docs
    ensures forall l | l in LabelTable(parse, docs) && l.bottleId == b ::
              l.key in docs[b] && l == Saved(parse, b, l.key, docs[b][l.key])
    ensures key in docs[b] ==> Saved(parse, b, key, docs[b][key]) in LabelTable(parse, docs)
  {
  }

  /** What a joined copy of the label table may contribute to the row of a bottle. */
  ghost predicate Contributes(labels: set<LabelRow>, b: nat, o: Option<LabelRow>) {
    match o
    case Some(l) => l in labels && l.bottleId == b
    case None => forall l | l in labels :: l.bottleId != b
  }

  ghost predicate IsJoined(bottles: set<nat>, joins: seq<Alias>, labels: set<LabelRow>, r: Joined) {
    && r.bottle in bottles
    && (forall a :: a in r.tables <==> a in joins)
    && forall a | a in joins :: a in r.tables && Contributes(labels, r.bottle, r.tables[a])
  }

  /** The rows of a left join: any row before, extended by something the label table contributes. */
  lemma LeftJoinExact(rows: set<Joined>, alias: Alias, labels: set<LabelRow>, r: Joined)
    ensures r in LeftJoin(rows, alias, labels) <==>
              exists r0 :: r0 in rows && r0.bottle == r.bottle && alias in r.tables
                           && r.tables == r0.tables[alias := r.tables[alias]]
                           && Contributes(labels, r.bottle, r.tables[alias])
  {
    if r0 :| r0 in rows && r0.bottle == r.bottle && alias in r.tables
             && r.tables == r0.tables[alias := r.tables[alias]] && Contributes(labels, r.bottle, r.tables[alias]) {
      assert r == Joined(r0.bottle, r0.tables[alias := r.tables[alias]]);
      match r.tables[alias]
      case Some(l) => assert l in labels && l.bottleId == r0.bottle;
      case None =>
    }
  }

  lemma ExtendsJoined(bottles: set<nat>, init: seq<Alias>, alias: Alias, labels: set<LabelRow>, r0: Joined, r: Joined)
    requires r0.bottle == r.bottle && alias in r.tables && r.tables == r0.tables[alias := r.tables[alias]]
    requires IsJoined(bottles, init, labels, r0) && Contributes(labels, r.bottle, r.tables[alias])
    ensures IsJoined(bottles, init + [alias], labels, r)
  {
  }

  lemma {:induction false} JoinAllExact(bottles: set<nat>, joins: seq<Alias>, labels: set<LabelRow>, r: Joined)
    ensures r in JoinAll(bottles, joins, labels) <==> IsJoined(bottles, joins, labels, r)
  {
    if joins == [] {
      assert (forall a :: a in r.tables <==> a in joins) ==> r.tables == map[];
    } else {
      var init, alias := joins[..|joins| - 1], joins[|joins| - 1];
      assert joins == init + [alias];
      LeftJoinExact(JoinAll(bottles, init, labels), alias, labels, r);
      if r in JoinAll(bottles, joins, labels) {
        var r0 :| r0 in JoinAll(bottles, init, labels) && r0.bottle == r.bottle && alias in r.tables
                  && r.tables == r0.tables[alias := r.tables[alias]] && Contributes(labels, r.bottle, r.tables[alias]);
        JoinAllExact(bottles, init, labels, r0);
        ExtendsJoined(bottles, init, alias, labels, r0, r);
      } else if IsJoined(bottles, joins, labels, r) {
        var r0 := Before(r, init, alias);
        JoinAllExact(bottles, init, labels, r0);
      }
    }
  }

  /** A joined row before its last join. */
  lemma Before(r: Joined, init: seq<Alias>, alias: Alias) returns (r0: Joined)
    requires forall a :: a in r.tables <==> a in init || a == alias
    ensures r0.bottle == r.bottle && r.tables == r0.tables[alias := r.tables[alias]]
    ensures forall a :: a in r0.tables <==> a in init
    ensures forall a | a in r0.tables :: r0.tables[a] == r.tables[a]
  {
    r0 := if alias in init then r else Joined(r.bottle, r.tables - {alias});
  }

  lemma {:induction false} AndIsAll(atoms: seq<Atom>, r: Joined, labels: set<LabelRow>)
    ensures EvalAnd(atoms, r, labels) == True <==> forall a | a in atoms :: EvalAtom(a, r, labels) == True
  {
    if atoms != [] {
      AndIsAll(atoms[..|atoms| - 1], r, labels);
      assert atoms == atoms[..|atoms| - 1] + [atoms[|atoms| - 1]];
    }
  }

  lemma {:induction false} OrIsSome(clauses: seq<seq<Atom>>, r: Joined, labels: set<LabelRow>)
    ensures EvalOr(clauses, r, labels) == True <==>
              exists k :: 0 <= k < |clauses| && EvalAnd(clauses[k], r, labels) == True
  {
    if clauses != [] {
      var init := clauses[..|clauses| - 1];
      OrIsSome(init, r, labels);
      assert forall k | 0 <= k < |init| :: init[k] == clauses[k];
    }
  }

  // ---------- one requirement ----------

  /** A joined row for which the condition of a requirement is true belongs to a bottle that satisfies it. */
  lemma ConditionImplies(parse: ParseFloat, docs: Docs, alias: Alias, q: Requirement, r: Joined)
    requires WellFormed(parse, q) && r.bottle in docs
    requires alias in r.tables && Contributes(LabelTable(parse, docs), r.bottle, r.tables[alias])
    requires forall a | a in ConditionForRequirement(parse, alias, q).value ::
               EvalAtom(a, r, LabelTable(parse, docs)) == True
    ensures Matches(parse, q, docs[r.bottle])
  {
    TableExact(parse, docs, r.bottle, q.key);
    var atoms := ConditionForRequirement(parse, alias, q).value;
    assert atoms[0] in atoms && atoms[|atoms| - 1] in atoms;
  }

  /** On the row that joins the label of the required key, the condition is true for a bottle that satisfies it. */
  lemma ConditionHolds(parse: ParseFloat, docs: Docs, alias: Alias, q: Requirement, r: Joined)
    requires WellFormed(parse, q) && r.bottle in docs && Matches(parse, q, docs[r.bottle])
    requires alias in r.tables
    requires q.key in docs[r.bottle] ==> r.tables[alias] == Some(Saved(parse, r.bottle, q.key, docs[r.bottle][q.key]))
    ensures forall a | a in ConditionForRequirement(parse, alias, q).value ::
              EvalAtom(a, r, LabelTable(parse, docs)) == True
  {
    TableExact(parse, docs, r.bottle, q.key);
  }

  // ---------- one selector ----------

  /** The atom belongs to the condition of the j-th requirement. */
  ghost predicate Demands(parse: ParseFloat, i: nat, qs: seq<Requirement>, j: nat, a: Atom)
    requires j < |qs|
  {
    var condition := ConditionForRequirement(parse, Alias(i, j), qs[j]);
    condition.Some? && a in condition.value
  }

  lemma {:induction false} ClauseExact(parse: ParseFloat, i: nat, qs: seq<Requirement>, n: nat)
    requires n <= |qs|
    ensures forall a :: a in Clause(parse, i, qs, n) <==> exists j :: 0 <= j < n && Demands(parse, i, qs, j, a)
  {
    if n > 0 {
      ClauseExact(parse, i, qs, n - 1);
      forall a ensures a in Clause(parse, i, qs, n) <==>
        a in Clause(parse, i, qs, n - 1) || Demands(parse, i, qs, n - 1, a) {
      }
    }
  }

  /** The row that joins, for every requirement of every selector, the label of the required key. */
  ghost predicate Canonical(parse: ParseFloat, docs: Docs, selectors: seq<Selector>, r: Joined) {
    && r.bottle in docs
    && forall i, j | 0 <= i < |selectors| && selectors[i].Selector? && 0 <= j < |selectors[i].requirements| ::
         var key := selectors[i].requirements[j].key;
         key in docs[r.bottle] && Alias(i, j) in r.tables ==>
           r.tables[Alias(i, j)] == Some(Saved(parse, r.bottle, key, docs[r.bottle][key]))
  }

  lemma CanonicalExists(parse: ParseFloat, docs: Docs, selectors: seq<Selector>, joins: seq<Alias>, b: nat)
    returns (r: Joined)
    requires b in docs
    ensures r in JoinAll(docs.Keys, joins, LabelTable(parse, docs))
    ensures r.bottle == b && Canonical(parse, docs, selectors, r)
  {
    var labels := LabelTable(parse, docs);
    var any: Option<LabelRow> := None;
    if docs[b] != map[] {
      var key :| key in docs[b];
      TableExact(parse, docs, b, key);
      any := Some(Saved(parse, b, key, docs[b][key]));
    }
    r := Joined(b, map a | a in joins :: Pick(parse, docs[b], selectors, b, a, any));
    PickedIsCanonical(parse, docs, selectors, joins, b, any);
    forall a | a in joins ensures Contributes(labels, b, r.tables[a]) {
      if KeyOf(selectors, a).Some? {
        TableExact(parse, docs, b, KeyOf(selectors, a).value);
      }
    }
    JoinAllExact(docs.Keys, joins, labels, r);
  }

  lemma PickedIsCanonical(parse: ParseFloat, docs: Docs, selectors: seq<Selector>, joins: seq<Alias>, b: nat,
                          any: Option<LabelRow>)
    requires b in docs
    ensures Canonical(parse, docs, selectors,
                      Joined(b, map a | a in joins :: Pick(parse, docs[b], selectors, b, a, any)))
  {
  }

  function KeyOf(selectors: seq<Selector>, a: Alias): Option<string> {
    if a.selector < |selectors| && selectors[a.selector].Selector?
       && a.requirement < |selectors[a.selector].requirements|
    then Some(selectors[a.selector].requirements[a.requirement].key)
    else None
  }

  function Pick(parse: ParseFloat, labels: map<string, string>, selectors: seq<Selector>, b: nat, a: Alias,
                any: Option<LabelRow>)
    : Option<LabelRow>
  {
    match KeyOf(selectors, a)
    case Some(key) => if key in labels then Some(Saved(parse, b, key, labels[key])) else any
    case None => any
  }

  // ---------- the whole query ----------

  lemma AllDemandsHold(parse: ParseFloat, k: nat, qs: seq<Requirement>, r: Joined, labels: set<LabelRow>)
    requires EvalAnd(Clause(parse, k, qs, |qs|), r, labels) == True
    ensures forall j, a | 0 <= j < |qs| && Demands(parse, k, qs, j, a) :: EvalAtom(a, r, labels) == True
  {
    AndIsAll(Clause(parse, k, qs, |qs|), r, labels);
    ClauseExact(parse, k, qs, |qs|);
  }

  lemma RowImpliesSatisfies(parse: ParseFloat, docs: Docs, joins: seq<Alias>, selectors: seq<Selector>, k: nat,
                            r: Joined)
    requires AllUsable(parse, selectors) && Joins(joins, selectors, |selectors|) && k < |selectors|
    requires r in JoinAll(docs.Keys, joins, LabelTable(parse, docs))
    requires var clause := Clause(parse, k, selectors[k].requirements, |selectors[k].requirements|);
             EvalAnd(clause, r, LabelTable(parse, docs)) == True
    ensures r.bottle in docs && Satisfies(parse, selectors, docs[r.bottle])
  {
    var labels, qs := LabelTable(parse, docs), selectors[k].requirements;
    JoinAllExact(docs.Keys, joins, labels, r);
    AllDemandsHold(parse, k, qs, r, labels);
    forall j: nat | j < |qs| ensures Matches(parse, qs[j], docs[r.bottle]) {
      assert Alias(k, j) in joins;
      ClauseImplies(parse, docs, k, qs, j, r);
    }
  }

  lemma ClauseImplies(parse: ParseFloat, docs: Docs, k: nat, qs: seq<Requirement>, j: nat, r: Joined)
    requires j < |qs| && WellFormed(parse, qs[j]) && r.bottle in docs
    requires Alias(k, j) in r.tables && Contributes(LabelTable(parse, docs), r.bottle, r.tables[Alias(k, j)])
    requires forall a | Demands(parse, k, qs, j, a) :: EvalAtom(a, r, LabelTable(parse, docs)) == True
    ensures Matches(parse, qs[j], docs[r.bottle])
  {
    var condition := ConditionForRequirement(parse, Alias(k, j), qs[j]);
    assert forall a | a in condition.value :: Demands(parse, k, qs, j, a);
    ConditionImplies(parse, docs, Alias(k, j), qs[j], r);
  }

  lemma SatisfiesImpliesRow(parse: ParseFloat, docs: Docs, joins: seq<Alias>, selectors: seq<Selector>, k: nat,
                            r: Joined)
    requires AllUsable(parse, selectors) && Joins(joins, selectors, |selectors|) && k < |selectors|
    requires r in JoinAll(docs.Keys, joins, LabelTable(parse, docs)) && Canonical(parse, docs, selectors, r)
    requires forall j | 0 <= j < |selectors[k].requirements| ::
               Matches(parse, selectors[k].requirements[j], docs[r.bottle])
    ensures var clause := Clause(parse, k, selectors[k].requirements, |selectors[k].requirements|);
            EvalAnd(clause, r, LabelTable(parse, docs)) == True
  {
    var labels, qs := LabelTable(parse, docs), selectors[k].requirements;
    JoinAllExact(docs.Keys, joins, labels, r);
    ClauseExact(parse, k, qs, |qs|);
    forall a | a in Clause(parse, k, qs, |qs|) ensures EvalAtom(a, r, labels) == True {
      var j :| 0 <= j < |qs| && Demands(parse, k, qs, j, a);
      assert Alias(k, j) in joins;
      ConditionHolds(parse, docs, Alias(k, j), qs[j], r);
    }
    AndIsAll(Clause(parse, k, qs, |qs|), r, labels);
  }

  /** The compiled query returns exactly the bottles whose labels satisfy the selectors. */
  lemma CompiledFor(parse: ParseFloat, joins: seq<Alias>, where: seq<seq<Atom>>, selectors: seq<Selector>, docs: Docs,
                    b: nat)
    requires AllUsable(parse, selectors) && Joins(joins, selectors, |selectors|) && b in docs
    requires |where| == |selectors| && ClausesOf(parse, selectors, where)
    ensures b in Execute(Query(joins, where), docs.Keys, LabelTable(parse, docs)) <==>
              Satisfies(parse, selectors, docs[b])
  {
    var labels := LabelTable(parse, docs);
    var canonical := CanonicalExists(parse, docs, selectors, joins, b);
    if selectors != [] && Satisfies(parse, selectors, docs[b]) {
      var k :| 0 <= k < |selectors| && forall j | 0 <= j < |selectors[k].requirements| ::
        Matches(parse, selectors[k].requirements[j], docs[b]);
      SatisfiesImpliesRow(parse, docs, joins, selectors, k, canonical);
      OrIsSome(where, canonical, labels);
    }
    if selectors != [] && b in Execute(Query(joins, where), docs.Keys, labels) {
      var r :| r in JoinAll(docs.Keys, joins, labels) && EvalOr(where, r, labels) == True && r.bottle == b;
      OrIsSome(where, r, labels);
      var k :| 0 <= k < |where| && EvalAnd(where[k], r, labels) == True;
      RowImpliesSatisfies(parse, docs, joins, selectors, k, r);
    }
  }

  lemma ExecuteInRange(q: Query, parse: ParseFloat, docs: Docs)
    ensures forall b | b in Execute(q, docs.Keys, LabelTable(parse, docs)) :: b in docs
  {
    forall r | r in JoinAll(docs.Keys, q.joins, LabelTable(parse, docs)) ensures r.bottle in docs {
      JoinAllExact(docs.Keys, q.joins, LabelTable(parse, docs), r);
    }
  }

  lemma Compiled(parse: ParseFloat, joins: seq<Alias>, where: seq<seq<Atom>>, selectors: seq<Selector>)
    requires AllUsable(parse, selectors) && Joins(joins, selectors, |selectors|)
    requires |where| == |selectors| && ClausesOf(parse, selectors, where)
    ensures Selects(parse, selectors, Query(joins, where))
  {
    forall docs: Docs
      ensures Execute(Query(joins, where), docs.Keys, LabelTable(parse, docs))
              == set b | b in docs && Satisfies(parse, selectors, docs[b])
    {
      ExecuteInRange(Query(joins, where), parse, docs);
      forall b | b in docs
        ensures b in Execute(Query(joins, where), docs.Keys, LabelTable(parse, docs)) <==>
                  Satisfies(parse, selectors, docs[b])
      {
        CompiledFor(parse, joins, where, selectors, docs, b);
      }
    }
  }

  /** Where no selector is empty, all of them are compiled. */
  lemma CompiledToTheEnd(parse: ParseFloat, joins: seq<Alias>, where: seq<seq<Atom>>, selectors: seq<Selector>)
    requires Joins(joins, selectors, |selectors|) && |where| == |selectors| && ClausesOf(parse, selectors, where)
    requires NoneEmpty(selectors, |selectors|)
    ensures Usable(parse, selectors) ==> Selects(parse, selectors, Query(joins, where))
  {
    if Usable(parse, selectors) {
      forall i | 0 <= i < |selectors|
        ensures selectors[i].Selector?
        ensures forall j | 0 <= j < |selectors[i].requirements| :: WellFormed(parse, selectors[i].requirements[j])
      {
        assert NoneEmpty(selectors, i) && UsableAt(parse, selectors, i);
      }
      Compiled(parse, joins, where, selectors);
    }
  }

  /** An empty selector is satisfied by every bottle, and the query then has no condition. */
  lemma EmptySelector(parse: ParseFloat, joins: seq<Alias>, selectors: seq<Selector>, i: nat)
    requires i < |selectors| && IsEmpty(selectors[i])
    ensures Selects(parse, selectors, Query(joins, []))
  {
    forall docs: Docs
      ensures Execute(Query(joins, []), docs.Keys, LabelTable(parse, docs))
              == set b | b in docs && Satisfies(parse, selectors, docs[b])
    {
      ExecuteInRange(Query(joins, []), parse, docs);
      forall b | b in docs
        ensures b in Execute(Query(joins, []), docs.Keys, LabelTable(parse, docs))
        ensures Satisfies(parse, selectors, docs[b])
      {
        var r := CanonicalExists(parse, docs, selectors, joins, b);
      }
    }
  }
}

/**
 Lists of submissions to a catalog: what they add when none is refused, and that the order in which
 they are made does not matter.
*/
module Submissions {
  import opened Types
  import opened Store
  import opened Catalog

  /** One object to submit under one digest: a PUT without its time and processor version. */
  datatype Ask = Ask(kind: Kind, digest: Digest, bytes: Bytes)

  ghost predicate Honest(w: World, a: Ask) {
    w.universe(a.bytes) && a.digest.alg.Available() && a.digest == w.DigestOf(a.digest.alg, a.bytes)
  }

  ghost predicate AllHonest(w: World, asks: seq<Ask>) {
    forall i :: 0 <= i < |asks| ==> Honest(w, asks[i])
  }

  /** Submits in order and stops at the first refusal. */
  function SubmitAll(w: World, c: Catalog, asks: seq<Ask>): (Catalog, Option<PutError>)
    decreases asks
  {
    if asks == [] then (c, None)
    else
      var (c', answer) := Submit(w, c, asks[0].kind, asks[0].digest, asks[0].bytes);
      if answer.Failed? then (c', Some(answer.error)) else SubmitAll(w, c', asks[1..])
  }

  predicate Accepts(w: World, c: Catalog, asks: seq<Ask>) {
    SubmitAll(w, c, asks).1.None?
  }

  function Names(asks: seq<Ask>): set<Digest> {
    set a | a in asks :: a.digest
  }

  function Objects(asks: seq<Ask>): set<(Kind, Bytes)> {
    set a | a in asks :: (a.kind, a.bytes)
  }

  lemma {:induction false} SubmitAllSound(w: World, c: Catalog, asks: seq<Ask>)
    requires Sound(w, c) && w.NoCollisions() && AllHonest(w, asks)
    ensures Sound(w, SubmitAll(w, c, asks).0) && Extends(c, SubmitAll(w, c, asks).0)
    decreases asks
  {
    if asks != [] {
      var a := asks[0];
      assert Honest(w, a);
      SubmitSound(w, c, a.kind, a.digest, a.bytes);
      SubmitAllSound(w, Submit(w, c, a.kind, a.digest, a.bytes).0, asks[1..]);
    }
  }

  /** When nothing is refused, exactly the submitted names and objects are added. */
  lemma {:induction false} AcceptedAddsExactly(w: World, c: Catalog, asks: seq<Ask>)
    requires Accepts(w, c, asks)
    ensures SubmitAll(w, c, asks).0.aliases.Keys == c.aliases.Keys + Names(asks)
    ensures SubmitAll(w, c, asks).0.items == c.items + Objects(asks)
    decreases asks
  {
    if asks != [] {
      var a, rest := asks[0], asks[1..];
      AcceptedAddsExactly(w, Submit(w, c, a.kind, a.digest, a.bytes).0, rest);
      assert asks == [a] + rest;
      assert Names(asks) == {a.digest} + Names(rest);
      assert Objects(asks) == {(a.kind, a.bytes)} + Objects(rest);
    }
  }

  /** A list is accepted exactly when its first part is, and its second part is after that. */
  lemma {:induction false} SubmitAllSplits(w: World, c: Catalog, asks: seq<Ask>, more: seq<Ask>)
    ensures Accepts(w, c, asks) ==> SubmitAll(w, c, asks + more) == SubmitAll(w, SubmitAll(w, c, asks).0, more)
    ensures !Accepts(w, c, asks) ==> SubmitAll(w, c, asks + more) == SubmitAll(w, c, asks)
    decreases asks
  {
    if asks == [] {
      assert asks + more == more;
    } else {
      assert asks + more == [asks[0]] + (asks[1..] + more);
      SubmitAllSplits(w, Submit(w, c, asks[0].kind, asks[0].digest, asks[0].bytes).0, asks[1..], more);
    }
  }

  /** Names determine what they name. */
  lemma HashesDetermine(w: World, m: map<Digest, Bytes>, m': map<Digest, Bytes>)
    requires w.NoCollisions() && m.Keys == m'.Keys
    requires forall d | d in m :: w.universe(m[d]) && d == w.DigestOf(d.alg, m[d])
    requires forall d | d in m' :: w.universe(m'[d]) && d == w.DigestOf(d.alg, m'[d])
    ensures m == m'
  {
    forall d | d in m ensures m[d] == m'[d] {
      assert d in m';
      assert w.DigestOf(d.alg, m[d]) == w.DigestOf(d.alg, m'[d]);
    }
  }

  /** Any two accepted lists of the same submissions, in any order and multiplicity, lead to one catalog. */
  lemma OrderIsForgotten(w: World, c: Catalog, asks: seq<Ask>, asks': seq<Ask>)
    requires Sound(w, c) && w.NoCollisions() && AllHonest(w, asks) && AllHonest(w, asks')
    requires Accepts(w, c, asks) && Accepts(w, c, asks')
    requires forall a :: a in asks <==> a in asks'
    ensures SubmitAll(w, c, asks).0 == SubmitAll(w, c, asks').0
  {
    AcceptedAddsExactly(w, c, asks);
    AcceptedAddsExactly(w, c, asks');
    SubmitAllSound(w, c, asks);
    SubmitAllSound(w, c, asks');
    assert Names(asks) == Names(asks') && Objects(asks) == Objects(asks');
    HashesDetermine(w, SubmitAll(w, c, asks).0.aliases, SubmitAll(w, c, asks').0.aliases);
  }

  // ---------- skipping what misses something ----------

  /** Submits in order; with `skip` set, an object that is refused for missing digests does not stop the run. */
  function SubmitSkipping(w: World, c: Catalog, asks: seq<Ask>, skip: bool): (Catalog, Option<PutError>)
    decreases asks
  {
    if asks == [] then (c, None)
    else
      var (c', answer) := Submit(w, c, asks[0].kind, asks[0].digest, asks[0].bytes);
      if answer.Failed? && !(skip && answer.error.Missing?) then (c', Some(answer.error))
      else SubmitSkipping(w, c', asks[1..], skip)
  }

  lemma {:induction false} SkippingSplits(w: World, c: Catalog, asks: seq<Ask>, more: seq<Ask>, skip: bool)
    ensures var (c', error) := SubmitSkipping(w, c, asks, skip);
            SubmitSkipping(w, c, asks + more, skip)
            == if error.None? then SubmitSkipping(w, c', more, skip) else (c', error)
    decreases asks
  {
    if asks == [] {
      assert asks + more == more;
    } else {
      assert asks + more == [asks[0]] + (asks[1..] + more);
      SkippingSplits(w, Submit(w, c, asks[0].kind, asks[0].digest, asks[0].bytes).0, asks[1..], more, skip);
    }
  }

  /** Without skipping, and wherever nothing is refused, the two ways of submitting are one. */
  lemma {:induction false} SkippingNothing(w: World, c: Catalog, asks: seq<Ask>, skip: bool)
    requires !skip || Accepts(w, c, asks)
    ensures SubmitSkipping(w, c, asks, skip) == SubmitAll(w, c, asks)
    decreases asks
  {
    if asks != [] {
      var (c', answer) := Submit(w, c, asks[0].kind, asks[0].digest, asks[0].bytes);
      if !answer.Failed? {
        SkippingNothing(w, c', asks[1..], skip);
      }
    }
  }

  /** Every name was added, every blob, and no object but those submitted. */
  ghost predicate Added(c: Catalog, c': Catalog, asks: seq<Ask>) {
    && c'.aliases.Keys == c.aliases.Keys + Names(asks)
    && c.items <= c'.items <= c.items + Objects(asks)
    && forall a | a in asks && a.kind == Blob :: (a.kind, a.bytes) in c'.items
  }

  lemma OneAdded(w: World, c: Catalog, a: Ask)
    ensures Added(c, Submit(w, c, a.kind, a.digest, a.bytes).0, [a])
  {
    assert Names([a]) == {a.digest} && Objects([a]) == {(a.kind, a.bytes)};
  }

  lemma AddedBoth(c: Catalog, c1: Catalog, c2: Catalog, asks: seq<Ask>, more: seq<Ask>)
    requires Added(c, c1, asks) && Added(c1, c2, more)
    ensures Added(c, c2, asks + more)
  {
    assert Names(asks + more) == Names(asks) + Names(more);
    assert Objects(asks + more) == Objects(asks) + Objects(more);
  }

  /** A run that is not stopped adds every name, every blob, and no object but those submitted. */
  lemma {:induction false} SkippingAddsNames(w: World, c: Catalog, asks: seq<Ask>, skip: bool)
    requires SubmitSkipping(w, c, asks, skip).1.None?
    ensures Added(c, SubmitSkipping(w, c, asks, skip).0, asks)
    decreases asks
  {
    if asks != [] {
      var a, rest := asks[0], asks[1..];
      var c1 := Submit(w, c, a.kind, a.digest, a.bytes).0;
      OneAdded(w, c, a);
      SkippingAddsNames(w, c1, rest, skip);
      AddedBoth(c, c1, SubmitSkipping(w, c1, rest, skip).0, [a], rest);
      assert asks == [a] + rest;
    }
  }
}

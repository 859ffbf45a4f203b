/**
 Reconciling the child rows of an object with the items of its document: rows whose location is still in
 use keep their primary key, surplus rows go, and the save writes the rest.
*/
module Reconcile {
  import opened Types

  /** A child row of some owner; the location is a position or a key of the document. */
  datatype Row<K, C> = Row(owner: nat, location: K, content: C)

  /** An item to be saved: primary key 0 asks for a new row. */
  datatype Item<K, C> = Item(id: nat, location: K, content: C)

  type Rows<K, C> = map<nat, Row<K, C>>

  // ---------- what reconciliation means ----------

  ghost predicate At<K, C>(rows: Rows<K, C>, owner: nat, location: K, id: nat) {
    id in rows && rows[id].owner == owner && rows[id].location == location
  }

  ghost predicate UniqueLocations<K, C>(rows: Rows<K, C>, owner: nat) {
    forall id, id' | id in rows && id' in rows
                     && rows[id].owner == owner && rows[id'].owner == owner
                     && rows[id].location == rows[id'].location ::
      id == id'
  }

  /** The owner has exactly the wanted children, old locations keep their keys, and nobody else is touched. */
  ghost predicate Reconciled<K(!new), C>(rows: Rows<K, C>, rows': Rows<K, C>, owner: nat, want: map<K, C>) {
    && (forall id | id in rows' && rows'[id].owner == owner ::
         rows'[id].location in want && rows'[id].content == want[rows'[id].location])
    && (forall l | l in want :: exists id :: At(rows', owner, l, id))
    && UniqueLocations(rows', owner)
    && (forall l, id | l in want && At(rows, owner, l, id) :: At(rows', owner, l, id))
    && (forall id | id in rows && rows[id].owner != owner :: id in rows' && rows'[id] == rows[id])
    && (forall id | id in rows' && rows'[id].owner != owner :: id in rows && rows[id] == rows'[id])
  }

  /** Reconciling a second time with the same items changes nothing at all. */
  lemma ReconciledOnce<K(!new), C>(rows: Rows<K, C>, rows': Rows<K, C>, rows'': Rows<K, C>, owner: nat, want: map<K, C>)
    requires Reconciled(rows, rows', owner, want) && Reconciled(rows', rows'', owner, want)
    ensures rows'' == rows'
  {
    forall id | id in rows' ensures id in rows'' && rows''[id] == rows'[id] {
      if rows'[id].owner == owner {
        assert At(rows', owner, rows'[id].location, id);
        assert At(rows'', owner, rows'[id].location, id);
      }
    }
    forall id | id in rows'' ensures id in rows' {
      if rows''[id].owner == owner {
        var l := rows''[id].location;
        var old' :| At(rows', owner, l, old');
        assert At(rows'', owner, l, old');
      }
    }
  }

  // ---------- the table ----------

  class ChildTable<K(==, !new), C> {
    var rows: Rows<K, C>
    var nextId: nat

    ghost predicate Valid()
      reads this
    {
      nextId > 0 && forall id | id in rows :: 0 < id < nextId
    }

    constructor ()
      ensures Valid() && rows == map[]
    {
      rows, nextId := map[], 1;
    }

    method Delete(id: nat)
      requires Valid()
      modifies this
      ensures Valid() && rows == old(rows) - {id} && nextId == old(nextId)
    {
      rows := rows - {id};
    }

    /** Inserts the items without a primary key, overwrites the rows of the others, and tells all keys. */
    method Save(owner: nat, items: seq<Item<K, C>>) returns (ids: seq<nat>)
      requires Valid()
      requires forall i | 0 <= i < |items| :: items[i].id == 0 || items[i].id in rows
      requires forall i, j | 0 <= i < j < |items| && items[i].id != 0 :: items[i].id != items[j].id
      modifies this
      ensures Valid() && SavedAs(old(rows), rows, owner, items, ids)
    {
      ids := [];
      for n := 0 to |items|
        invariant Valid() && nextId >= old(nextId)
        invariant SavedAs(old(rows), rows, owner, items[..n], ids)
        invariant NewIds(items[..n], ids, old(nextId), nextId)
      {
        var id := items[n].id;
        if id == 0 {
          id := nextId;
          nextId := nextId + 1;
        }
        assert items[..n + 1] == items[..n] + [items[n]];
        OneMoreSaved(old(rows), rows, owner, items[..n], ids, old(nextId), items[n], id, nextId);
        rows := rows[id := Row(owner, items[n].location, items[n].content)];
        ids := ids + [id];
      }
      assert items[..|items|] == items;
    }
  }

  /** The items without a primary key got theirs from this range. */
  ghost predicate NewIds<K, C>(items: seq<Item<K, C>>, ids: seq<nat>, from: nat, to: nat) {
    |ids| == |items| && forall i | 0 <= i < |items| && items[i].id == 0 :: from <= ids[i] < to
  }

  lemma OneMoreSaved<K, C>(rows: Rows<K, C>, now: Rows<K, C>, owner: nat, items: seq<Item<K, C>>, ids: seq<nat>,
                           from: nat, item: Item<K, C>, id: nat, to: nat)
    requires SavedAs(rows, now, owner, items, ids) && (forall k | k in rows :: k < from)
    requires if item.id == 0 then from <= id < to && id !in now else id == item.id && id in rows
    requires forall i | 0 <= i < |items| && item.id != 0 :: items[i].id != item.id
    requires NewIds(items, ids, from, if item.id == 0 then id else to)
    ensures SavedAs(rows, now[id := Row(owner, item.location, item.content)], owner, items + [item], ids + [id])
    ensures NewIds(items + [item], ids + [id], from, to)
  {
    assert id !in ids;
    AppendSaved(rows, now, owner, items, ids, item, id);
  }

  lemma AppendSaved<K, C>(rows: Rows<K, C>, now: Rows<K, C>, owner: nat, items: seq<Item<K, C>>, ids: seq<nat>,
                          item: Item<K, C>, id: nat)
    requires SavedAs(rows, now, owner, items, ids) && id !in ids
    requires if item.id == 0 then id !in now && id !in rows else id == item.id && id in rows
    ensures SavedAs(rows, now[id := Row(owner, item.location, item.content)], owner, items + [item], ids + [id])
  {
    assert forall i | 0 <= i < |ids| :: ids[i] in ids && ids[i] != id;
    assert forall k :: k in ids + [id] <==> k in ids || k == id;
  }

  /** The rows after a save: each item in a row of its own, under its key or a new one, and nothing else changed. */
  ghost predicate SavedAs<K, C>(rows: Rows<K, C>, rows': Rows<K, C>, owner: nat, items: seq<Item<K, C>>,
                                ids: seq<nat>) {
    && |ids| == |items|
    && (forall i | 0 <= i < |items| :: if items[i].id == 0 then ids[i] !in rows else ids[i] == items[i].id)
    && (forall i, j | 0 <= i < j < |ids| :: ids[i] != ids[j])
    && (forall i | 0 <= i < |items| ::
         ids[i] in rows' && rows'[ids[i]] == Row(owner, items[i].location, items[i].content))
    && (forall id | id in rows && id !in ids :: id in rows' && rows'[id] == rows[id])
    && (forall id | id in rows' && id !in ids :: id in rows)
  }

  // ---------- finding out what to save ----------

  ghost predicate HasLocation<K, C>(items: seq<Item<K, C>>, l: K) {
    exists i :: 0 <= i < |items| && items[i].location == l
  }

  lemma AppendedLocations<K(!new), C>(items: seq<Item<K, C>>, item: Item<K, C>)
    ensures forall l :: HasLocation(items + [item], l) <==> HasLocation(items, l) || l == item.location
  {
    forall l ensures HasLocation(items + [item], l) <==> HasLocation(items, l) || l == item.location {
      if HasLocation(items, l) {
        var i :| 0 <= i < |items| && items[i].location == l;
        assert (items + [item])[i].location == l;
      }
      assert (items + [item])[|items|] == item;
    }
  }

  /** The item asks for a new row exactly when its location has none, and otherwise names that row. */
  ghost predicate Keyed<K, C>(rows: Rows<K, C>, owner: nat, item: Item<K, C>) {
    if item.id == 0 then forall id :: !At(rows, owner, item.location, id) else At(rows, owner, item.location, item.id)
  }

  /** The items to save for the wanted children: each with its content and the key that its location has. */
  ghost predicate Prepared<K, C>(rows: Rows<K, C>, owner: nat, want: map<K, C>, items: seq<Item<K, C>>) {
    && (forall i | 0 <= i < |items| :: items[i].location in want && items[i].content == want[items[i].location])
    && (forall i, j | 0 <= i < j < |items| :: items[i].location != items[j].location)
    && (forall l | l in want :: HasLocation(items, l))
    && (forall i | 0 <= i < |items| :: Keyed(rows, owner, items[i]))
  }

  /** The rows of the owner that are not wanted are gone, the others are there. */
  ghost predicate Pruned<K, C>(rows: Rows<K, C>, rows': Rows<K, C>, owner: nat, want: map<K, C>) {
    && (forall id | id in rows' :: id in rows && rows'[id] == rows[id])
    && (forall id | id in rows && (rows[id].owner != owner || rows[id].location in want) :: id in rows')
    && (forall id | id in rows' && rows'[id].owner == owner :: rows'[id].location in want)
  }

  lemma PreparedKeys<K, C>(rows: Rows<K, C>, owner: nat, want: map<K, C>, items: seq<Item<K, C>>)
    requires Prepared(rows, owner, want, items)
    ensures forall i, j | 0 <= i < j < |items| && items[i].id != 0 :: items[i].id != items[j].id
  {
    forall i, j | 0 <= i < j < |items| && items[i].id != 0 ensures items[i].id != items[j].id {
      assert Keyed(rows, owner, items[i]) && Keyed(rows, owner, items[j]);
      assert At(rows, owner, items[i].location, items[i].id);
      assert items[j].id != 0 ==> At(rows, owner, items[j].location, items[j].id);
    }
  }

  lemma ItemOfRow<K, C>(rows: Rows<K, C>, owner: nat, want: map<K, C>, items: seq<Item<K, C>>, l: K, id: nat)
    returns (i: nat)
    requires UniqueLocations(rows, owner) && Prepared(rows, owner, want, items)
    requires l in want && At(rows, owner, l, id)
    ensures i < |items| && items[i].location == l && (items[i].id == id || (id == 0 && items[i].id == 0))
  {
    assert HasLocation(items, l);
    i :| 0 <= i < |items| && items[i].location == l;
    assert Keyed(rows, owner, items[i]);
    assert items[i].id != 0 ==> At(rows, owner, l, items[i].id);
  }

  lemma OwnRowsAreSaved<K, C>(rows: Rows<K, C>, pruned: Rows<K, C>, rows': Rows<K, C>, owner: nat, want: map<K, C>,
                              items: seq<Item<K, C>>, ids: seq<nat>, id: nat) returns (i: nat)
    requires UniqueLocations(rows, owner) && 0 !in rows
    requires Prepared(rows, owner, want, items) && Pruned(rows, pruned, owner, want)
    requires SavedAs(pruned, rows', owner, items, ids)
    requires id in rows' && rows'[id].owner == owner
    ensures i < |ids| && ids[i] == id
  {
    if id in ids {
      i :| 0 <= i < |ids| && ids[i] == id;
    } else {
      assert At(rows, owner, rows'[id].location, id);
      i := ItemOfRow(rows, owner, want, items, rows'[id].location, id);
    }
  }

  lemma OldKeysAreKept<K, C>(rows: Rows<K, C>, pruned: Rows<K, C>, rows': Rows<K, C>, owner: nat, want: map<K, C>,
                             items: seq<Item<K, C>>, ids: seq<nat>, l: K, id: nat)
    requires UniqueLocations(rows, owner) && 0 !in rows
    requires Prepared(rows, owner, want, items) && Pruned(rows, pruned, owner, want)
    requires SavedAs(pruned, rows', owner, items, ids)
    requires l in want && At(rows, owner, l, id)
    ensures At(rows', owner, l, id)
  {
    var i := ItemOfRow(rows, owner, want, items, l, id);
    assert ids[i] == id;
  }

  lemma OthersAreKept<K, C>(rows: Rows<K, C>, pruned: Rows<K, C>, rows': Rows<K, C>, owner: nat, want: map<K, C>,
                            items: seq<Item<K, C>>, ids: seq<nat>, id: nat)
    requires Prepared(rows, owner, want, items) && Pruned(rows, pruned, owner, want)
    requires SavedAs(pruned, rows', owner, items, ids)
    requires id in rows && rows[id].owner != owner
    ensures id in rows' && rows'[id] == rows[id]
  {
    forall i | 0 <= i < |ids| ensures ids[i] != id {
      assert Keyed(rows, owner, items[i]);
      assert items[i].id == 0 || At(rows, owner, items[i].location, items[i].id);
    }
  }

  lemma OwnRowsAreWanted<K(!new), C>(rows: Rows<K, C>, pruned: Rows<K, C>, rows': Rows<K, C>, owner: nat,
                                     want: map<K, C>, items: seq<Item<K, C>>, ids: seq<nat>)
    requires UniqueLocations(rows, owner) && 0 !in rows
    requires Prepared(rows, owner, want, items) && Pruned(rows, pruned, owner, want)
    requires SavedAs(pruned, rows', owner, items, ids)
    ensures forall id | id in rows' && rows'[id].owner == owner ::
              rows'[id].location in want && rows'[id].content == want[rows'[id].location]
  {
    forall id | id in rows' && rows'[id].owner == owner
      ensures rows'[id].location in want && rows'[id].content == want[rows'[id].location]
    {
      var _ := OwnRowsAreSaved(rows, pruned, rows', owner, want, items, ids, id);
    }
  }

  lemma SavedOnce<K(!new), C>(rows: Rows<K, C>, pruned: Rows<K, C>, rows': Rows<K, C>, owner: nat, want: map<K, C>,
                              items: seq<Item<K, C>>, ids: seq<nat>, i: nat, j: nat)
    requires Prepared(rows, owner, want, items) && SavedAs(pruned, rows', owner, items, ids)
    requires i < |ids| && j < |ids| && rows'[ids[i]].location == rows'[ids[j]].location
    ensures i == j
  {
    assert items[i].location == items[j].location;
  }

  lemma OwnRowsAreDistinct<K(!new), C>(rows: Rows<K, C>, pruned: Rows<K, C>, rows': Rows<K, C>, owner: nat,
                                       want: map<K, C>, items: seq<Item<K, C>>, ids: seq<nat>)
    requires UniqueLocations(rows, owner) && 0 !in rows
    requires Prepared(rows, owner, want, items) && Pruned(rows, pruned, owner, want)
    requires SavedAs(pruned, rows', owner, items, ids)
    ensures UniqueLocations(rows', owner)
  {
    forall id, id' | id in rows' && id' in rows' && rows'[id].owner == owner && rows'[id'].owner == owner
                     && rows'[id].location == rows'[id'].location
      ensures id == id'
    {
      var i := OwnRowsAreSaved(rows, pruned, rows', owner, want, items, ids, id);
      var j := OwnRowsAreSaved(rows, pruned, rows', owner, want, items, ids, id');
      SavedOnce(rows, pruned, rows', owner, want, items, ids, i, j);
    }
  }

  lemma WantedAreThere<K(!new), C>(rows: Rows<K, C>, pruned: Rows<K, C>, rows': Rows<K, C>, owner: nat, want: map<K, C>,
                                   items: seq<Item<K, C>>, ids: seq<nat>)
    requires Prepared(rows, owner, want, items) && SavedAs(pruned, rows', owner, items, ids)
    ensures forall l | l in want :: exists id :: At(rows', owner, l, id)
  {
    forall l | l in want ensures exists id :: At(rows', owner, l, id) {
      assert HasLocation(items, l);
      var i :| 0 <= i < |items| && items[i].location == l;
      assert At(rows', owner, l, ids[i]);
    }
  }

  /** Pruning and then saving what was prepared reconciles. */
  lemma PrunedAndSaved<K(!new), C>(rows: Rows<K, C>, pruned: Rows<K, C>, rows': Rows<K, C>, owner: nat, want: map<K, C>,
                                   items: seq<Item<K, C>>, ids: seq<nat>)
    requires UniqueLocations(rows, owner) && 0 !in rows
    requires Prepared(rows, owner, want, items) && Pruned(rows, pruned, owner, want)
    requires SavedAs(pruned, rows', owner, items, ids)
    ensures Reconciled(rows, rows', owner, want)
  {
    OwnRowsAreWanted(rows, pruned, rows', owner, want, items, ids);
    OwnRowsAreDistinct(rows, pruned, rows', owner, want, items, ids);
    WantedAreThere(rows, pruned, rows', owner, want, items, ids);
    forall l, id | l in want && At(rows, owner, l, id) ensures At(rows', owner, l, id) {
      OldKeysAreKept(rows, pruned, rows', owner, want, items, ids, l, id);
    }
    forall id | id in rows && rows[id].owner != owner ensures id in rows' && rows'[id] == rows[id] {
      OthersAreKept(rows, pruned, rows', owner, want, items, ids, id);
    }
    forall id | id in rows' && rows'[id].owner != owner ensures id in rows && rows[id] == rows'[id] {
      assert id !in ids;
    }
  }

  // ---------- the two reconciling loops ----------

  /** The keys of the owner's rows by location. */
  method KeysByLocation<K(==, !new), C>(rows: Rows<K, C>, owner: nat) returns (ids: map<K, nat>)
    requires UniqueLocations(rows, owner) && 0 !in rows
    ensures forall l :: l in ids <==> exists id :: At(rows, owner, l, id)
    ensures forall l | l in ids :: At(rows, owner, l, ids[l])
  {
    ids := map[];
    var dbItems := set id | id in rows && rows[id].owner == owner;
    var todo := dbItems;
    while todo != {}
      invariant todo <= dbItems
      invariant forall id | id in dbItems && id !in todo :: rows[id].location in ids
      invariant forall l | l in ids :: At(rows, owner, l, ids[l])
      decreases todo
    {
      var id :| id in todo;
      ids := ids[rows[id].location := id];
      todo := todo - {id};
    }
  }

  function KeyOf<K>(ids: map<K, nat>, l: K): nat {
    if l in ids then ids[l] else 0
  }

  /** Deletes the rows whose locations are left over. */
  method DeleteSurplus<K(==, !new), C>(table: ChildTable<K, C>, owner: nat, ids: map<K, nat>, want: map<K, C>)
    requires table.Valid() && UniqueLocations(table.rows, owner)
    requires forall l :: l in ids <==> l !in want && exists id :: At(table.rows, owner, l, id)
    requires forall l | l in ids :: At(table.rows, owner, l, ids[l])
    modifies table
    ensures table.Valid() && Pruned(old(table.rows), table.rows, owner, want)
  {
    var todo := ids.Keys;
    while todo != {}
      invariant table.Valid() && todo <= ids.Keys
      invariant forall id | id in table.rows :: id in old(table.rows) && table.rows[id] == old(table.rows)[id]
      invariant forall id | id in old(table.rows) && id !in table.rows ::
                  old(table.rows)[id].owner == owner && old(table.rows)[id].location !in want
      invariant forall l | l in ids && l !in todo :: ids[l] !in table.rows
      decreases todo
    {
      var l :| l in todo;
      table.Delete(ids[l]);
      todo := todo - {l};
    }
    forall id | id in table.rows && table.rows[id].owner == owner ensures table.rows[id].location in want {
      assert At(old(table.rows), owner, table.rows[id].location, id);
    }
  }

  /**
   Reconciles rows located by position. A conversion error leaves the table as it was.
  */
  method ProcessByIndex<I, C>(table: ChildTable<nat, C>, owner: nat, items: seq<I>, convert: I -> Option<C>)
    returns (dbItems: Option<seq<Item<nat, C>>>)
    requires table.Valid() && UniqueLocations(table.rows, owner)
    modifies table
    ensures table.Valid()
    ensures dbItems.Some? <==> AllConvert(items, convert)
    ensures dbItems.None? ==> table.rows == old(table.rows)
    ensures dbItems.Some? ==>
              && Prepared(old(table.rows), owner, ByIndex(items, convert), dbItems.value)
              && Pruned(old(table.rows), table.rows, owner, ByIndex(items, convert))
  {
    var rows := table.rows;
    var ids := KeysByLocation(rows, owner);
    var dbItemsNew: seq<Item<nat, C>> := [];
    for i := 0 to |items|
      invariant table.rows == rows
      invariant |dbItemsNew| == i
      invariant forall j | 0 <= j < i :: dbItemsNew[j].location == j && convert(items[j]) == Some(dbItemsNew[j].content)
      invariant forall j | 0 <= j < i :: Keyed(rows, owner, dbItemsNew[j])
      invariant forall l :: l in ids <==> l >= i && exists id :: At(rows, owner, l, id)
      invariant forall l | l in ids :: At(rows, owner, l, ids[l])
    {
      var content := convert(items[i]);
      if content.None? {
        return None;
      }
      dbItemsNew := dbItemsNew + [Item(KeyOf(ids, i), i, content.value)];
      ids := ids - {i};
    }
    DeleteSurplus(table, owner, ids, ByIndex(items, convert));
    assert forall l | l in ByIndex(items, convert) :: dbItemsNew[l].location == l && HasLocation(dbItemsNew, l);
    return Some(dbItemsNew);
  }

  predicate AllConvert<I, C>(items: seq<I>, convert: I -> Option<C>) {
    forall i | 0 <= i < |items| :: convert(items[i]).Some?
  }

  function ByIndex<I, C>(items: seq<I>, convert: I -> Option<C>): map<nat, C> {
    map i: nat | 0 <= i < |items| && convert(items[i]).Some? :: convert(items[i]).value
  }

  /** The items for the keys that are no longer to do. */
  ghost predicate Collected<C>(rows: Rows<string, C>, owner: nat, items: map<string, string>,
                               convert: string -> Option<C>, todo: set<string>, dbItems: seq<Item<string, C>>) {
    && todo <= items.Keys
    && (forall k | k in items && k !in todo :: HasLocation(dbItems, k))
    && (forall j | 0 <= j < |dbItems| :: Keyed(rows, owner, dbItems[j]))
    && (forall j | 0 <= j < |dbItems| ::
          var k := dbItems[j].location; k in items && k !in todo && convert(items[k]) == Some(dbItems[j].content))
    && (forall i, j | 0 <= i < j < |dbItems| :: dbItems[i].location != dbItems[j].location)
  }

  lemma OneMoreItem<C>(rows: Rows<string, C>, owner: nat, items: map<string, string>, convert: string -> Option<C>,
                       todo: set<string>, dbItems: seq<Item<string, C>>, item: Item<string, C>)
    requires Collected(rows, owner, items, convert, todo, dbItems) && Keyed(rows, owner, item)
    requires item.location in todo && convert(items[item.location]) == Some(item.content)
    ensures Collected(rows, owner, items, convert, todo - {item.location}, dbItems + [item])
  {
    AppendedLocations(dbItems, item);
  }

  /** The keys of the rows whose locations are still to do or not wanted. */
  ghost predicate KeysLeft<C>(rows: Rows<string, C>, owner: nat, items: map<string, string>, todo: set<string>,
                              ids: map<string, nat>) {
    && (forall l :: l in ids <==> (l in items ==> l in todo) && exists id :: At(rows, owner, l, id))
    && (forall l | l in ids :: At(rows, owner, l, ids[l]))
  }

  lemma OneKeyLess<C>(rows: Rows<string, C>, owner: nat, items: map<string, string>, todo: set<string>,
                      ids: map<string, nat>, k: string)
    requires KeysLeft(rows, owner, items, todo, ids) && k in todo && todo <= items.Keys && 0 !in rows
    ensures KeysLeft(rows, owner, items, todo - {k}, ids - {k})
    ensures forall content :: Keyed(rows, owner, Item(KeyOf(ids, k), k, content))
  {
  }

  lemma AllCollected<C>(rows: Rows<string, C>, owner: nat, items: map<string, string>, convert: string -> Option<C>,
                        dbItems: seq<Item<string, C>>)
    requires Collected(rows, owner, items, convert, {}, dbItems)
    ensures forall k | k in items :: convert(items[k]).Some?
    ensures Prepared(rows, owner, ByKey(items, convert), dbItems)
  {
    forall k | k in items ensures convert(items[k]).Some? {
      assert HasLocation(dbItems, k);
    }
  }

  /**
   Reconciles rows located by key, taking the keys in any order. A conversion error leaves the table as it
   was.
  */
  method ProcessByKey<C>(table: ChildTable<string, C>, owner: nat, items: map<string, string>,
                         convert: string -> Option<C>)
    returns (dbItems: Option<seq<Item<string, C>>>)
    requires table.Valid() && UniqueLocations(table.rows, owner)
    modifies table
    ensures table.Valid()
    ensures dbItems.None? <==> exists k :: k in items && convert(items[k]).None?
    ensures dbItems.None? ==> table.rows == old(table.rows)
    ensures dbItems.Some? ==>
              && Prepared(old(table.rows), owner, ByKey(items, convert), dbItems.value)
              && Pruned(old(table.rows), table.rows, owner, ByKey(items, convert))
  {
    var rows := table.rows;
    var ids := KeysByLocation(rows, owner);
    var dbItemsNew: seq<Item<string, C>> := [];
    var todo := items.Keys;
    while todo != {}
      invariant table.Valid() && table.rows == rows
      invariant Collected(rows, owner, items, convert, todo, dbItemsNew)
      invariant KeysLeft(rows, owner, items, todo, ids)
      decreases todo
    {
      var k :| k in todo;
      var content := convert(items[k]);
      if content.None? {
        return None;
      }
      OneKeyLess(rows, owner, items, todo, ids, k);
      OneMoreItem(rows, owner, items, convert, todo, dbItemsNew, Item(KeyOf(ids, k), k, content.value));
      dbItemsNew := dbItemsNew + [Item(KeyOf(ids, k), k, content.value)];
      ids := ids - {k};
      todo := todo - {k};
    }
    AllCollected(rows, owner, items, convert, dbItemsNew);
    DeleteSurplus(table, owner, ids, ByKey(items, convert));
    dbItems := Some(dbItemsNew);
  }

  function ByKey<C>(items: map<string, string>, convert: string -> Option<C>): map<string, C> {
    map k | k in items && convert(items[k]).Some? :: convert(items[k]).value
  }

  /** The save that follows once every list of the document is prepared. */
  method SavePrepared<K(==, !new), C>(table: ChildTable<K, C>, ghost rows: Rows<K, C>, owner: nat,
                                      ghost want: map<K, C>, items: seq<Item<K, C>>)
    requires table.Valid() && UniqueLocations(rows, owner) && 0 !in rows
    requires Prepared(rows, owner, want, items) && Pruned(rows, table.rows, owner, want)
    modifies table
    ensures table.Valid() && Reconciled(rows, table.rows, owner, want)
  {
    ghost var pruned := table.rows;
    PreparedKeys(rows, owner, want, items);
    forall i | 0 <= i < |items| && items[i].id != 0 ensures items[i].id in pruned {
      assert Keyed(rows, owner, items[i]);
      assert At(rows, owner, items[i].location, items[i].id);
    }
    var ids := table.Save(owner, items);
    PrunedAndSaved(rows, pruned, table.rows, owner, want, items, ids);
  }

  /** A list that converts without fail, reconciled and saved. */
  method ReconcileList<I, C>(table: ChildTable<nat, C>, owner: nat, items: seq<I>, convert: I -> Option<C>)
    requires table.Valid() && UniqueLocations(table.rows, owner) && AllConvert(items, convert)
    modifies table
    ensures table.Valid() && Reconciled(old(table.rows), table.rows, owner, ByIndex(items, convert))
  {
    ghost var rows := table.rows;
    var dbItems := ProcessByIndex(table, owner, items, convert);
    SavePrepared(table, rows, owner, ByIndex(items, convert), dbItems.value);
  }

  /** Labels or annotations, reconciled and saved. */
  method ReconcileMap(table: ChildTable<string, string>, owner: nat, items: map<string, string>)
    requires table.Valid() && UniqueLocations(table.rows, owner)
    modifies table
    ensures table.Valid() && Reconciled(old(table.rows), table.rows, owner, ByKey(items, Text))
  {
    ghost var rows := table.rows;
    var dbItems := ProcessByKey(table, owner, items, Text);
    SavePrepared(table, rows, owner, ByKey(items, Text), dbItems.value);
  }

  // ---------- one table over many documents ----------

  lemma ReconciledKeepsUnique<K(!new), C>(rows: Rows<K, C>, rows': Rows<K, C>, owner: nat, want: map<K, C>, o: nat)
    requires Reconciled(rows, rows', owner, want) && UniqueLocations(rows, o)
    ensures UniqueLocations(rows', o)
  {
  }

  /** A document saved: its owner, and the wanted children. */
  datatype Saving<K, C> = Saving(owner: nat, want: map<K, C>)

  /** The states of a table in a history of documents, each reconciled in turn. */
  ghost predicate Savings<K(!new), C>(tables: seq<Rows<K, C>>, savings: seq<Saving<K, C>>) {
    && |tables| == |savings| + 1
    && forall n | 0 <= n < |savings| :: Reconciled(tables[n], tables[n + 1], savings[n].owner, savings[n].want)
  }

  /** The rows of an owner are one to one with the wanted children. */
  ghost predicate HasExactly<K(!new), C>(rows: Rows<K, C>, owner: nat, want: map<K, C>) {
    && UniqueLocations(rows, owner)
    && (forall id | id in rows && rows[id].owner == owner ::
         rows[id].location in want && rows[id].content == want[rows[id].location])
    && (forall l | l in want :: exists id :: At(rows, owner, l, id))
  }

  lemma HasExactlyKept<K(!new), C>(rows: Rows<K, C>, rows': Rows<K, C>, owner: nat, want: map<K, C>, o: nat,
                                   wanted: map<K, C>)
    requires Reconciled(rows, rows', owner, want) && o != owner && HasExactly(rows, o, wanted)
    ensures HasExactly(rows', o, wanted)
  {
    forall l | l in wanted ensures exists id :: At(rows', o, l, id) {
      var id :| At(rows, o, l, id);
      assert At(rows', o, l, id);
    }
  }

  /**
   Over any history of documents of many owners: the last document of an owner is what its rows are, whatever
   was saved for others since.
  */
  lemma {:induction false} LastDocumentStands<K(!new), C>(tables: seq<Rows<K, C>>, savings: seq<Saving<K, C>>, n: nat,
                                                          m: nat)
    requires Savings(tables, savings) && n < m <= |savings|
    requires forall i | n < i < m :: savings[i].owner != savings[n].owner
    ensures HasExactly(tables[m], savings[n].owner, savings[n].want)
    decreases m
  {
    assert Reconciled(tables[m - 1], tables[m], savings[m - 1].owner, savings[m - 1].want);
    if m > n + 1 {
      LastDocumentStands(tables, savings, n, m - 1);
      HasExactlyKept(tables[m - 1], tables[m], savings[m - 1].owner, savings[m - 1].want,
                     savings[n].owner, savings[n].want);
    }
  }

  /** A location keeps its row id for as long as every document of its owner wants it. */
  lemma {:induction false} KeysStand<K(!new), C>(tables: seq<Rows<K, C>>, savings: seq<Saving<K, C>>, n: nat, m: nat,
                                                 owner: nat, l: K, id: nat)
    requires Savings(tables, savings) && n <= m <= |savings| && At(tables[n], owner, l, id)
    requires forall i | n <= i < m && savings[i].owner == owner :: l in savings[i].want
    ensures At(tables[m], owner, l, id)
    decreases m
  {
    if m > n {
      KeysStand(tables, savings, n, m - 1, owner, l, id);
    }
  }

  // ---------- the child tables of a bottle ----------

  datatype Children = Children(
    sources: seq<string>,
    authors: seq<string>,
    metrics: seq<string>,
    artifacts: seq<Digest>,
    labels: map<string, string>,
    annotations: map<string, string>,
    deprecates: seq<Digest>,
    parts: seq<string>)

  /** The conversions that can fail: a source's URI and a metric's number. */
  datatype Conversions = Conversions(source: string -> Option<string>, metric: string -> Option<string>)

  /** The data rows of the artifacts, once every artifact has been found. */
  function ArtifactRow(aliases: map<Digest, nat>): Digest -> Option<(Digest, nat)> {
    a => Some((a, if a in aliases then aliases[a] else 0))
  }

  function Text(s: string): Option<string> {
    Some(s)
  }

  /** Everything in the document can be converted and every artifact is known. */
  predicate Convertible(doc: Children, convert: Conversions, aliases: map<Digest, nat>) {
    && AllConvert(doc.sources, convert.source)
    && AllConvert(doc.metrics, convert.metric)
    && (forall i | 0 <= i < |doc.artifacts| :: doc.artifacts[i] in aliases)
  }

  /** The rows of all child tables. */
  datatype Tables = Tables(
    sources: Rows<nat, string>,
    authors: Rows<nat, string>,
    metrics: Rows<nat, string>,
    artifacts: Rows<nat, (Digest, nat)>,
    labels: Rows<string, string>,
    annotations: Rows<string, string>,
    parts: Rows<nat, string>,
    deprecates: seq<(nat, Digest)>)

  ghost predicate Distinct(t: Tables, owner: nat) {
    && UniqueLocations(t.sources, owner) && UniqueLocations(t.authors, owner) && UniqueLocations(t.metrics, owner)
    && UniqueLocations(t.artifacts, owner) && UniqueLocations(t.labels, owner)
    && UniqueLocations(t.annotations, owner) && UniqueLocations(t.parts, owner)
  }

  function Deprecations(owner: nat, digests: seq<Digest>): seq<(nat, Digest)> {
    seq(|digests|, i requires 0 <= i < |digests| => (owner, digests[i]))
  }

  /** The run that succeeds: every list is reconciled, and the deprecations are added once more. */
  ghost predicate AllReconciled(t: Tables, t': Tables, owner: nat, doc: Children, convert: Conversions,
                                aliases: map<Digest, nat>) {
    && Reconciled(t.sources, t'.sources, owner, ByIndex(doc.sources, convert.source))
    && Reconciled(t.authors, t'.authors, owner, ByIndex(doc.authors, Text))
    && Reconciled(t.metrics, t'.metrics, owner, ByIndex(doc.metrics, convert.metric))
    && Reconciled(t.artifacts, t'.artifacts, owner, ByIndex(doc.artifacts, ArtifactRow(aliases)))
    && Reconciled(t.labels, t'.labels, owner, ByKey(doc.labels, Text))
    && Reconciled(t.annotations, t'.annotations, owner, ByKey(doc.annotations, Text))
    && Reconciled(t.parts, t'.parts, owner, ByIndex(doc.parts, Text))
    && t'.deprecates == t.deprecates + Deprecations(owner, doc.deprecates)
  }

  /** The rows of a list are its items at their positions. */
  ghost predicate HasList<C(!new)>(rows: Rows<nat, C>, owner: nat, items: seq<C>) {
    HasExactly(rows, owner, map i: nat | i < |items| :: items[i])
  }

  /** What the tables hold of a document that was processed, item by item. */
  ghost predicate HoldsDocument(t: Tables, owner: nat, doc: Children, convert: Conversions, aliases: map<Digest, nat>) {
    && HasExactly(t.labels, owner, doc.labels) && HasExactly(t.annotations, owner, doc.annotations)
    && HasList(t.authors, owner, doc.authors) && HasList(t.parts, owner, doc.parts)
    && HasExactly(t.artifacts, owner, map i: nat | i < |doc.artifacts| && doc.artifacts[i] in aliases ::
                    (doc.artifacts[i], aliases[doc.artifacts[i]]))
    && HasExactly(t.sources, owner, map i: nat | i < |doc.sources| && convert.source(doc.sources[i]).Some? ::
                    convert.source(doc.sources[i]).value)
    && HasExactly(t.metrics, owner, map i: nat | i < |doc.metrics| && convert.metric(doc.metrics[i]).Some? ::
                    convert.metric(doc.metrics[i]).value)
  }

  /** The deprecations of the document follow those that were there, each with its owner. */
  ghost predicate AddsDeprecations(t: Tables, t': Tables, owner: nat, doc: Children) {
    && |t'.deprecates| == |t.deprecates| + |doc.deprecates| && t.deprecates <= t'.deprecates
    && forall i | 0 <= i < |doc.deprecates| :: t'.deprecates[|t.deprecates| + i] == (owner, doc.deprecates[i])
  }

  lemma ReconciledHasExactly<K(!new), C>(rows: Rows<K, C>, rows': Rows<K, C>, owner: nat, want: map<K, C>,
                                         items: map<K, C>)
    requires Reconciled(rows, rows', owner, want) && want == items
    ensures HasExactly(rows', owner, items)
  {
  }

  lemma TextsAreItems(items: seq<string>, labels: map<string, string>)
    ensures ByIndex(items, Text) == map i: nat | i < |items| :: items[i]
    ensures ByKey(labels, Text) == labels
  {
  }

  lemma TextsHold(t: Tables, t': Tables, owner: nat, doc: Children, convert: Conversions, aliases: map<Digest, nat>)
    requires AllReconciled(t, t', owner, doc, convert, aliases)
    ensures HasExactly(t'.labels, owner, doc.labels) && HasExactly(t'.annotations, owner, doc.annotations)
    ensures HasList(t'.authors, owner, doc.authors) && HasList(t'.parts, owner, doc.parts)
  {
    TextsAreItems(doc.authors, doc.labels);
    TextsAreItems(doc.parts, doc.annotations);
    ReconciledHasExactly(t.labels, t'.labels, owner, ByKey(doc.labels, Text), doc.labels);
    ReconciledHasExactly(t.annotations, t'.annotations, owner, ByKey(doc.annotations, Text), doc.annotations);
    ReconciledHasExactly(t.authors, t'.authors, owner, ByIndex(doc.authors, Text),
                         map i: nat | i < |doc.authors| :: doc.authors[i]);
    ReconciledHasExactly(t.parts, t'.parts, owner, ByIndex(doc.parts, Text),
                         map i: nat | i < |doc.parts| :: doc.parts[i]);
  }

  lemma ConvertedHold(rows: Rows<nat, string>, rows': Rows<nat, string>, owner: nat, items: seq<string>,
                      convert: string -> Option<string>)
    requires Reconciled(rows, rows', owner, ByIndex(items, convert))
    ensures HasExactly(rows', owner, map i: nat | i < |items| && convert(items[i]).Some? :: convert(items[i]).value)
  {
    ReconciledHasExactly(rows, rows', owner, ByIndex(items, convert),
                         map i: nat | i < |items| && convert(items[i]).Some? :: convert(items[i]).value);
  }

  lemma ArtifactsHold(rows: Rows<nat, (Digest, nat)>, rows': Rows<nat, (Digest, nat)>, owner: nat, items: seq<Digest>,
                      aliases: map<Digest, nat>)
    requires Reconciled(rows, rows', owner, ByIndex(items, ArtifactRow(aliases)))
    requires forall i | 0 <= i < |items| :: items[i] in aliases
    ensures HasExactly(rows', owner, map i: nat | i < |items| && items[i] in aliases :: (items[i], aliases[items[i]]))
  {
    ReconciledHasExactly(rows, rows', owner, ByIndex(items, ArtifactRow(aliases)),
                         map i: nat | i < |items| && items[i] in aliases :: (items[i], aliases[items[i]]));
  }

  lemma AllReconciledHolds(t: Tables, t': Tables, owner: nat, doc: Children, convert: Conversions,
                           aliases: map<Digest, nat>)
    requires AllReconciled(t, t', owner, doc, convert, aliases) && Convertible(doc, convert, aliases)
    ensures HoldsDocument(t', owner, doc, convert, aliases) && AddsDeprecations(t, t', owner, doc)
  {
    TextsHold(t, t', owner, doc, convert, aliases);
    ConvertedHold(t.sources, t'.sources, owner, doc.sources, convert.source);
    ConvertedHold(t.metrics, t'.metrics, owner, doc.metrics, convert.metric);
    ArtifactsHold(t.artifacts, t'.artifacts, owner, doc.artifacts, aliases);
  }

  /** What a failed run leaves of a table: the rows still wanted, and those of the other owners. */
  ghost predicate Undone<K, C>(rows: Rows<K, C>, rows': Rows<K, C>, owner: nat, want: map<K, C>) {
    rows' == rows || Pruned(rows, rows', owner, want)
  }

  lemma UndoneKeepsUnique<K, C>(rows: Rows<K, C>, rows': Rows<K, C>, owner: nat, want: map<K, C>, o: nat)
    requires Undone(rows, rows', owner, want) && UniqueLocations(rows, o)
    ensures UniqueLocations(rows', o)
  {
  }

  /** The list was come to, and pruned, or it was not and is as before. */
  ghost predicate PrunedIf<K, C>(pruned: bool, rows: Rows<K, C>, rows': Rows<K, C>, owner: nat, want: map<K, C>) {
    if pruned then Pruned(rows, rows', owner, want) else rows' == rows
  }

  /**
   The run that fails: nothing was saved, and exactly the lists ahead of the failing one are pruned. The
   artifacts are looked up behind the metrics.
  */
  ghost predicate OnlyPruned(t: Tables, t': Tables, owner: nat, doc: Children, convert: Conversions) {
    var sourcesOk, metricsOk := AllConvert(doc.sources, convert.source), AllConvert(doc.metrics, convert.metric);
    && PrunedIf(sourcesOk, t.sources, t'.sources, owner, ByIndex(doc.sources, convert.source))
    && PrunedIf(sourcesOk, t.authors, t'.authors, owner, ByIndex(doc.authors, Text))
    && PrunedIf(sourcesOk && metricsOk, t.metrics, t'.metrics, owner, ByIndex(doc.metrics, convert.metric))
    && t' == t.(sources := t'.sources, authors := t'.authors, metrics := t'.metrics)
  }

  /** Whatever a run does, every owner's locations stay unique. */
  lemma RunKeepsDistinct(t: Tables, t': Tables, owner: nat, doc: Children, convert: Conversions,
                         aliases: map<Digest, nat>, o: nat)
    requires AllReconciled(t, t', owner, doc, convert, aliases) || OnlyPruned(t, t', owner, doc, convert)
    requires Distinct(t, o)
    ensures Distinct(t', o)
  {
    if AllReconciled(t, t', owner, doc, convert, aliases) {
      ReconciledKeepsUnique(t.sources, t'.sources, owner, ByIndex(doc.sources, convert.source), o);
      ReconciledKeepsUnique(t.authors, t'.authors, owner, ByIndex(doc.authors, Text), o);
      ReconciledKeepsUnique(t.metrics, t'.metrics, owner, ByIndex(doc.metrics, convert.metric), o);
      ReconciledKeepsUnique(t.artifacts, t'.artifacts, owner, ByIndex(doc.artifacts, ArtifactRow(aliases)), o);
      ReconciledKeepsUnique(t.labels, t'.labels, owner, ByKey(doc.labels, Text), o);
      ReconciledKeepsUnique(t.annotations, t'.annotations, owner, ByKey(doc.annotations, Text), o);
      ReconciledKeepsUnique(t.parts, t'.parts, owner, ByIndex(doc.parts, Text), o);
    } else {
      UndoneKeepsUnique(t.sources, t'.sources, owner, ByIndex(doc.sources, convert.source), o);
      UndoneKeepsUnique(t.authors, t'.authors, owner, ByIndex(doc.authors, Text), o);
      UndoneKeepsUnique(t.metrics, t'.metrics, owner, ByIndex(doc.metrics, convert.metric), o);
    }
  }

  /** Which digests are deprecated does not change when a document is processed again. */
  lemma DeprecatedAgain(t: Tables, t': Tables, t'': Tables, owner: nat, doc: Children, convert: Conversions,
                        aliases: map<Digest, nat>, aliases': map<Digest, nat>, d: (nat, Digest))
    requires AllReconciled(t, t', owner, doc, convert, aliases) && AllReconciled(t', t'', owner, doc, convert, aliases')
    ensures d in t''.deprecates <==> d in t'.deprecates
  {
  }

  class BottleTables {
    const sources: ChildTable<nat, string>
    const authors: ChildTable<nat, string>
    const metrics: ChildTable<nat, string>
    const artifacts: ChildTable<nat, (Digest, nat)>
    const labels: ChildTable<string, string>
    const annotations: ChildTable<string, string>
    const parts: ChildTable<nat, string>
    var deprecates: seq<(nat, Digest)>

    constructor ()
      ensures Valid() && fresh(Repr())
      ensures forall owner :: Distinct(State(), owner)
    {
      sources := new ChildTable();
      authors := new ChildTable();
      metrics := new ChildTable();
      artifacts := new ChildTable();
      labels := new ChildTable();
      annotations := new ChildTable();
      parts := new ChildTable();
      deprecates := [];
    }

    ghost function Repr(): set<object> {
      {this, sources, authors, metrics, artifacts, labels, annotations, parts}
    }

    ghost function State(): Tables
      reads Repr()
    {
      Tables(sources.rows, authors.rows, metrics.rows, artifacts.rows,
             labels.rows, annotations.rows, parts.rows, deprecates)
    }

    ghost predicate Valid()
      reads Repr()
    {
      && sources != authors && sources != metrics && sources != parts
      && authors != metrics && authors != parts && metrics != parts && labels != annotations
      && sources.Valid() && authors.Valid() && metrics.Valid() && artifacts.Valid()
      && labels.Valid() && annotations.Valid() && parts.Valid()
    }

    /**
     Reconciles the children of one bottle. Nothing is saved before everything was converted, but the
     surplus rows of the lists ahead of the failing one are already gone by then.
    */
    method Process(owner: nat, doc: Children, convert: Conversions, aliases: map<Digest, nat>) returns (ok: bool)
      requires Valid() && Distinct(State(), owner)
      modifies Repr()
      ensures Valid() && (ok <==> Convertible(doc, convert, aliases))
      ensures if ok then AllReconciled(old(State()), State(), owner, doc, convert, aliases)
              else OnlyPruned(old(State()), State(), owner, doc, convert)
      ensures ok ==> HoldsDocument(State(), owner, doc, convert, aliases)
      ensures ok ==> AddsDeprecations(old(State()), State(), owner, doc)
      ensures forall o: nat | old(Distinct(State(), o)) :: Distinct(State(), o)
    {
      ok := Run(owner, doc, convert, aliases);
      if ok {
        AllReconciledHolds(old(State()), State(), owner, doc, convert, aliases);
      }
      forall o: nat | old(Distinct(State(), o)) ensures Distinct(State(), o) {
        RunKeepsDistinct(old(State()), State(), owner, doc, convert, aliases, o);
      }
    }

    method Run(owner: nat, doc: Children, convert: Conversions, aliases: map<Digest, nat>) returns (ok: bool)
      requires Valid() && Distinct(State(), owner)
      modifies Repr()
      ensures Valid() && (ok <==> Convertible(doc, convert, aliases))
      ensures if ok then AllReconciled(old(State()), State(), owner, doc, convert, aliases)
              else OnlyPruned(old(State()), State(), owner, doc, convert)
    {
      var known := forall i | 0 <= i < |doc.artifacts| :: doc.artifacts[i] in aliases;
      ok := ProcessFirst(owner, doc, convert, known);
      if ok {
        ProcessRest(owner, doc, aliases);
        deprecates := deprecates + Deprecations(owner, doc.deprecates);
      }
    }

    /** The lists up to the check of the artifacts; they are saved only if nothing fails. */
    method ProcessFirst(owner: nat, doc: Children, convert: Conversions, known: bool) returns (ok: bool)
      requires Valid() && Distinct(State(), owner)
      modifies sources, authors, metrics
      ensures Valid()
      ensures (ok <==> AllConvert(doc.sources, convert.source) && AllConvert(doc.metrics, convert.metric) && known)
      ensures ok ==>
                && Reconciled(old(sources.rows), sources.rows, owner, ByIndex(doc.sources, convert.source))
                && Reconciled(old(authors.rows), authors.rows, owner, ByIndex(doc.authors, Text))
                && Reconciled(old(metrics.rows), metrics.rows, owner, ByIndex(doc.metrics, convert.metric))
      ensures !ok ==>
                var sourcesOk := AllConvert(doc.sources, convert.source);
                var metricsOk := AllConvert(doc.metrics, convert.metric);
                && PrunedIf(sourcesOk, old(sources.rows), sources.rows, owner, ByIndex(doc.sources, convert.source))
                && PrunedIf(sourcesOk, old(authors.rows), authors.rows, owner, ByIndex(doc.authors, Text))
                && PrunedIf(sourcesOk && metricsOk, old(metrics.rows), metrics.rows, owner,
                            ByIndex(doc.metrics, convert.metric))
    {
      ok := false;
      var dbSources := ProcessByIndex(sources, owner, doc.sources, convert.source);
      if dbSources.Some? {
        ok := ProcessSecond(owner, doc, convert, known);
        if ok {
          SavePrepared(sources, old(sources.rows), owner, ByIndex(doc.sources, convert.source), dbSources.value);
        }
      }
    }

    method ProcessSecond(owner: nat, doc: Children, convert: Conversions, known: bool) returns (ok: bool)
      requires Valid() && Distinct(State(), owner)
      modifies authors, metrics
      ensures Valid() && (ok <==> AllConvert(doc.metrics, convert.metric) && known)
      ensures ok ==>
                && Reconciled(old(authors.rows), authors.rows, owner, ByIndex(doc.authors, Text))
                && Reconciled(old(metrics.rows), metrics.rows, owner, ByIndex(doc.metrics, convert.metric))
      ensures !ok ==>
                && Pruned(old(authors.rows), authors.rows, owner, ByIndex(doc.authors, Text))
                && PrunedIf(AllConvert(doc.metrics, convert.metric), old(metrics.rows), metrics.rows, owner,
                            ByIndex(doc.metrics, convert.metric))
    {
      var dbAuthors := ProcessByIndex(authors, owner, doc.authors, Text);
      var dbMetrics := ProcessByIndex(metrics, owner, doc.metrics, convert.metric);
      ok := dbMetrics.Some? && known;
      if ok {
        SavePrepared(authors, old(authors.rows), owner, ByIndex(doc.authors, Text), dbAuthors.value);
        SavePrepared(metrics, old(metrics.rows), owner, ByIndex(doc.metrics, convert.metric), dbMetrics.value);
      }
    }

    /** The lists that cannot fail any more. */
    method ProcessRest(owner: nat, doc: Children, aliases: map<Digest, nat>)
      requires Valid() && Distinct(State(), owner)
      modifies artifacts, labels, annotations, parts
      ensures Valid()
      ensures Reconciled(old(artifacts.rows), artifacts.rows, owner, ByIndex(doc.artifacts, ArtifactRow(aliases)))
      ensures Reconciled(old(labels.rows), labels.rows, owner, ByKey(doc.labels, Text))
      ensures Reconciled(old(annotations.rows), annotations.rows, owner, ByKey(doc.annotations, Text))
      ensures Reconciled(old(parts.rows), parts.rows, owner, ByIndex(doc.parts, Text))
    {
      ReconcileList(artifacts, owner, doc.artifacts, ArtifactRow(aliases));
      ReconcileMap(labels, owner, doc.labels);
      ReconcileMap(annotations, owner, doc.annotations);
      ReconcileList(parts, owner, doc.parts, Text);
    }
  }

  /** A failed run over children already reconciled with the same document therefore changes nothing. */
  lemma FailureIsHarmless<K(!new), C>(before: Rows<K, C>, rows: Rows<K, C>, rows': Rows<K, C>, owner: nat,
                                      want: map<K, C>)
    requires Reconciled(before, rows, owner, want) && Undone(rows, rows', owner, want)
    ensures rows' == rows
  {
    forall id | id in rows ensures id in rows' && rows'[id] == rows[id] {
      assert rows[id].owner == owner ==> rows[id].location in want;
    }
  }
}

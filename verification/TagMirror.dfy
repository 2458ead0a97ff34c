/**
 The strings of the store are the places they stand for: whatever is done to the one is done to the other,
 so the store itself answers as a map of items in which flushing a tag deletes.
 */
module TagMirrors {
  import opened Wrappers
  import opened Keys
  import opened TagKeys
  import opened Tags
  import opened TagRuns

  /** Every key of the store is the rendering of a place of the table, with the same value. */
  ghost predicate Mirrors(render: Slot -> string, store: map<string, string>, table: Table) {
    && (forall s :: s in table ==> render(s) in store && store[render(s)] == table[s])
    && (forall k :: k in store ==> exists s :: s in table && render(s) == k)
  }

  ghost predicate Good(digest: string -> string, joins: set<string>, slot: Slot) {
    slot.Sound() && Apart(digest, joins, slot) && Digested(joins, slot)
  }

  /** Places that do not clash, and generations that are ids. */
  ghost predicate AllGood(digest: string -> string, joins: set<string>, table: Table) {
    forall s :: s in table ==> Good(digest, joins, s) && (s.Generation? ==> Plain(table[s]))
  }

  function Renderer(digest: string -> string): Slot -> string {
    slot => Render(digest, slot)
  }

  ghost predicate Faithful(digest: string -> string, joins: set<string>, store: map<string, string>, table: Table) {
    CollisionFree(digest, joins) && AllGood(digest, joins, table) && Mirrors(Renderer(digest), store, table)
  }

  // ------------------------------------------------------------- one change

  lemma RendersElsewhere(digest: string -> string, joins: set<string>, table: Table, slot: Slot)
    requires CollisionFree(digest, joins) && Good(digest, joins, slot) && AllGood(digest, joins, table)
    ensures forall s :: s in table && s != slot ==> Renderer(digest)(s) != Renderer(digest)(slot)
  {
    forall s | s in table && Renderer(digest)(s) == Renderer(digest)(slot) ensures s == slot {
      RenderInjective(digest, joins, s, slot);
    }
  }

  lemma MirrorsSaved(render: Slot -> string, store: map<string, string>, table: Table, slot: Slot, value: string)
    requires Mirrors(render, store, table) && forall s :: s in table && s != slot ==> render(s) != render(slot)
    ensures Mirrors(render, store[render(slot) := value], table[slot := value])
  {
    var store', table' := store[render(slot) := value], table[slot := value];
    forall j | j in store' ensures exists s :: s in table' && render(s) == j {
      if j == render(slot) {
        assert slot in table';
      } else {
        var s :| s in table && render(s) == j;
        assert s in table';
      }
    }
  }

  lemma MirrorsRemoved(render: Slot -> string, store: map<string, string>, table: Table, slot: Slot)
    requires Mirrors(render, store, table) && forall s :: s in table && s != slot ==> render(s) != render(slot)
    ensures Mirrors(render, store - {render(slot)}, table - {slot})
  {
    var store', table' := store - {render(slot)}, table - {slot};
    forall j | j in store' ensures exists s :: s in table' && render(s) == j {
      var s :| s in table && render(s) == j;
      assert s in table';
    }
  }

  lemma Saved(digest: string -> string, joins: set<string>, store: map<string, string>, table: Table, slot: Slot,
              value: string)
    requires Faithful(digest, joins, store, table) && Good(digest, joins, slot) && (slot.Generation? ==> Plain(value))
    ensures Faithful(digest, joins, store[Render(digest, slot) := value], table[slot := value])
  {
    RendersElsewhere(digest, joins, table, slot);
    MirrorsSaved(Renderer(digest), store, table, slot, value);
  }

  lemma Removed(digest: string -> string, joins: set<string>, store: map<string, string>, table: Table, slot: Slot)
    requires Faithful(digest, joins, store, table) && Good(digest, joins, slot)
    ensures Faithful(digest, joins, store - {Render(digest, slot)}, table - {slot})
  {
    RendersElsewhere(digest, joins, table, slot);
    MirrorsRemoved(Renderer(digest), store, table, slot);
  }

  lemma Fetched(digest: string -> string, joins: set<string>, store: map<string, string>, table: Table, slot: Slot)
    requires Faithful(digest, joins, store, table) && Good(digest, joins, slot)
    ensures slot in table <==> Render(digest, slot) in store
    ensures slot in table ==> table[slot] == store[Render(digest, slot)]
  {
    var k := Render(digest, slot);
    if k in store {
      var s :| s in table && Renderer(digest)(s) == k;
      RenderInjective(digest, joins, s, slot);
    }
    assert Renderer(digest)(slot) == k;
  }

  lemma MirrorsFiltered(render: Slot -> string, store: map<string, string>, table: Table, store': map<string, string>,
                        table': Table)
    requires Mirrors(render, store, table)
    requires forall s :: s in table ==> (s in table' <==> render(s) in store')
    requires (forall k :: k in store' ==> k in store && store'[k] == store[k])
    requires (forall s :: s in table' ==> s in table && table'[s] == table[s])
    ensures Mirrors(render, store', table')
  {
    forall k | k in store' ensures exists s :: s in table' && render(s) == k {
      var s :| s in table && render(s) == k;
      assert s in table';
    }
  }

  lemma UnderAlike(digest: string -> string, s: Slot, tenant: string, namespace: string)
    requires s.Sound() && Prefix(tenant, namespace).Ok?
    ensures Strings(digest).under(Render(digest, s), tenant, namespace) <==> SLOTS.under(s, tenant, namespace)
  {
    FlushReaches(digest, s, tenant, namespace);
  }

  lemma SpaceRemoved(digest: string -> string, joins: set<string>, store: map<string, string>, table: Table,
                     tenant: string,
                     namespace: string)
    requires Faithful(digest, joins, store, table) && Prefix(tenant, namespace).Ok?
    ensures Faithful(digest, joins, Strings(digest).Cleared(store, tenant, namespace),
                     SLOTS.Cleared(table, tenant, namespace))
  {
    var store', table' := Strings(digest).Cleared(store, tenant, namespace), SLOTS.Cleared(table, tenant, namespace);
    forall s | s in table ensures s in table' <==> Renderer(digest)(s) in store' {
      UnderAlike(digest, s, tenant, namespace);
    }
    MirrorsFiltered(Renderer(digest), store, table, store', table');
  }

  // ---------------------------------------------------------- one operation

  lemma IdentifiedAlike(digest: string -> string, joins: set<string>, store: map<string, string>, table: Table,
                        tenant: string,
                        writable: bool, name: string, drawn: string)
    requires Faithful(digest, joins, store, table) && Plain(drawn)
    ensures var (store', id) := Strings(digest).Identified(store, tenant, writable, name, drawn);
            var (table', id') := SLOTS.Identified(table, tenant, writable, name, drawn);
            id == id' && Faithful(digest, joins, store', table') && (id.Some? ==> Plain(id.value))
  {
    if ValidTenant(tenant) && ValidTag(name) {
      Fetched(digest, joins, store, table, Generation(tenant, name));
      Saved(digest, joins, store, table, Generation(tenant, name), drawn);
    }
  }

  lemma {:induction false} IdsAlike(digest: string -> string, joins: set<string>, store: map<string, string>,
                                    table: Table, tenant: string,
                                    writable: bool, names: seq<string>, drawn: seq<string>)
    requires Faithful(digest, joins, store, table) && |drawn| == |names| && forall id :: id in drawn ==> Plain(id)
    ensures var (store', got) := Strings(digest).Ids(store, tenant, writable, names, drawn);
            var (table', got') := SLOTS.Ids(table, tenant, writable, names, drawn);
            && got == got' && Faithful(digest, joins, store', table')
            && (got.Some? ==> |got.value| == |names| && forall id :: id in got.value ==> Plain(id))
    decreases |names|
  {
    if names != [] {
      var n := |names| - 1;
      assert drawn[n] in drawn && forall id :: id in drawn[..n] ==> id in drawn;
      IdsAlike(digest, joins, store, table, tenant, writable, names[..n], drawn[..n]);
      IdentifiedAlike(digest, joins, Strings(digest).Ids(store, tenant, writable, names[..n], drawn[..n]).0,
                      SLOTS.Ids(table, tenant, writable, names[..n], drawn[..n]).0, tenant, writable, names[n],
                      drawn[n]);
    }
  }

  lemma {:induction false} ResetAlike(digest: string -> string, joins: set<string>, store: map<string, string>,
                                      table: Table,
                                      tenant: string, writable: bool, names: seq<string>, drawn: seq<string>)
    requires Faithful(digest, joins, store, table) && |drawn| == |names| && forall id :: id in drawn ==> Plain(id)
    ensures var (store', ok) := Strings(digest).Reset(store, tenant, writable, names, drawn);
            var (table', ok') := SLOTS.Reset(table, tenant, writable, names, drawn);
            ok == ok' && Faithful(digest, joins, store', table')
    decreases |names|
  {
    if names != [] {
      var n := |names| - 1;
      assert drawn[n] in drawn && forall id :: id in drawn[..n] ==> id in drawn;
      ResetAlike(digest, joins, store, table, tenant, writable, names[..n], drawn[..n]);
      if ValidTenant(tenant) && ValidTag(names[n]) {
        Saved(digest, joins, Strings(digest).Reset(store, tenant, writable, names[..n], drawn[..n]).0,
              SLOTS.Reset(table, tenant, writable, names[..n], drawn[..n]).0, Generation(tenant, names[n]), drawn[n]);
      }
    }
  }

  lemma {:induction false} DroppedAlike(digest: string -> string, joins: set<string>, store: map<string, string>,
                                        table: Table,
                                        tenant: string, writable: bool, names: seq<string>)
    requires Faithful(digest, joins, store, table)
    ensures var (store', ok) := Strings(digest).Dropped(store, tenant, writable, names);
            var (table', ok') := SLOTS.Dropped(table, tenant, writable, names);
            ok == ok' && Faithful(digest, joins, store', table')
    decreases |names|
  {
    if names != [] {
      var n := |names| - 1;
      DroppedAlike(digest, joins, store, table, tenant, writable, names[..n]);
      if ValidTenant(tenant) && ValidTag(names[n]) {
        Removed(digest, joins, Strings(digest).Dropped(store, tenant, writable, names[..n]).0,
                SLOTS.Dropped(table, tenant, writable, names[..n]).0, Generation(tenant, names[n]));
      }
    }
  }

  /** An item that shares no key with a place of another kind. */
  ghost predicate Harmless(digest: string -> string, joins: set<string>, i: Item) {
    if i.names == [] then Apart(digest, joins, Untagged(i.tenant, i.namespace, i.key))
    else i.namespace != "tag" || i.key != "key"
  }

  ghost predicate HarmlessOp(digest: string -> string, joins: set<string>, op: Op) {
    op.Put? || op.Get? || op.Forget? ==> Harmless(digest, joins, op.item)
  }

  /** What a call on an item digests to find its place. */
  ghost function JoinOf(table: Table, op: Op): set<string>
    requires op.Sized()
  {
    if !op.Put? && !op.Get? && !op.Forget? then {}
    else
      var slot := SLOTS.Place(table, op.item, op.Get? ==> op.writable, op.ids).1;
      if slot.Some? && slot.value.Tagged? then {Join(slot.value.ids)} else {}
  }

  lemma TaggedIsGood(digest: string -> string, joins: set<string>, i: Item, ids: seq<string>)
    requires ValidTenant(i.tenant) && ValidTenant(i.namespace) && i.key != "" && i.names != []
    requires Harmless(digest, joins, i) && Join(ids) in joins
    requires |ids| == |i.names| && forall id :: id in ids ==> Plain(id)
    ensures Good(digest, joins, Tagged(i.tenant, i.namespace, ids, i.key))
  {
  }

  lemma PlaceAlike(digest: string -> string, joins: set<string>, store: map<string, string>, table: Table, i: Item,
                   writable: bool,
                   drawn: seq<string>)
    requires Faithful(digest, joins, store, table) && |drawn| == |i.names| && Harmless(digest, joins, i)
    requires forall id :: id in drawn ==> Plain(id)
    requires var slot := SLOTS.Place(table, i, writable, drawn).1; slot.Some? ==> Digested(joins, slot.value)
    ensures var (store', slot) := Strings(digest).Place(store, i, writable, drawn);
            var (table', slot') := SLOTS.Place(table, i, writable, drawn);
            && slot == slot' && Faithful(digest, joins, store', table')
            && (slot.Some? ==> Good(digest, joins, slot.value) && !slot.value.Generation?)
  {
    if ValidTenant(i.tenant) && ValidTenant(i.namespace) && i.key != "" && i.names != [] {
      IdsAlike(digest, joins, store, table, i.tenant, writable, i.names, drawn);
      var got := Strings(digest).Ids(store, i.tenant, writable, i.names, drawn).1;
      if got.Some? { TaggedIsGood(digest, joins, i, got.value); }
    }
  }

  lemma DoAlike(digest: string -> string, joins: set<string>, store: map<string, string>, table: Table, op: Op)
    requires Faithful(digest, joins, store, table) && op.Sized() && HarmlessOp(digest, joins, op)
    requires JoinOf(table, op) <= joins
    requires forall id :: id in op.ids ==> Plain(id)
    ensures Strings(digest).Do(store, op).1 == SLOTS.Do(table, op).1
    ensures Faithful(digest, joins, Strings(digest).Do(store, op).0, SLOTS.Do(table, op).0)
  {
    if op.Put? || op.Get? || op.Forget? {
      ItemAlike(digest, joins, store, table, op);
    } else {
      FlushAlike(digest, joins, store, table, op);
    }
  }

  lemma FlushAlike(digest: string -> string, joins: set<string>, store: map<string, string>, table: Table, op: Op)
    requires Faithful(digest, joins, store, table) && op.Sized() && (op.Flush? || op.FlushTags? || op.FlushSpace?)
    requires forall id :: id in op.ids ==> Plain(id)
    ensures Strings(digest).Do(store, op).1 == SLOTS.Do(table, op).1
    ensures Faithful(digest, joins, Strings(digest).Do(store, op).0, SLOTS.Do(table, op).0)
  {
    match op {
      case Flush(tenant, tags, writable, ids) => ResetAlike(digest, joins, store, table, tenant, writable, tags, ids);
      case FlushTags(tenant, tags, writable, _) => DroppedAlike(digest, joins, store, table, tenant, writable, tags);
      case FlushSpace(tenant, namespace, _, _) =>
        if ValidTenant(tenant) && ValidTenant(namespace) {
          SpaceRemoved(digest, joins, store, table, tenant, namespace);
        }
    }
  }

  /** What an operation does once it has its place. */
  function Landed<K>(layout: Layout<K>, t: map<K, string>, slot: Slot, op: Op): (map<K, string>, Answer) {
    match op
    case Put(_, value, _, _) => (t[layout.at(slot) := value], Done)
    case Get(_, _, _) => (t, Found(if layout.at(slot) in t then Some(t[layout.at(slot)]) else None))
    case _ => (t - {layout.at(slot)}, Done)
  }

  lemma DoLands<K>(layout: Layout<K>, t: map<K, string>, op: Op)
    requires op.Sized() && (op.Put? || op.Get? || op.Forget?) && (op.Get? || op.writable)
    ensures var (t', slot) := layout.Place(t, op.item, op.Get? ==> op.writable, op.ids);
            layout.Do(t, op) == if slot.None? then (t', Failed) else Landed(layout, t', slot.value, op)
  {
  }

  lemma LandedAlike(digest: string -> string, joins: set<string>, store: map<string, string>, table: Table, slot: Slot,
                    op: Op)
    requires Faithful(digest, joins, store, table) && Good(digest, joins, slot) && !slot.Generation?
    requires op.Put? || op.Get? || op.Forget?
    ensures Landed(Strings(digest), store, slot, op).1 == Landed(SLOTS, table, slot, op).1
    ensures Faithful(digest, joins, Landed(Strings(digest), store, slot, op).0, Landed(SLOTS, table, slot, op).0)
  {
    match op {
      case Put(_, value, _, _) => Saved(digest, joins, store, table, slot, value);
      case Get(_, _, _) => Fetched(digest, joins, store, table, slot);
      case Forget(_, _, _) => Removed(digest, joins, store, table, slot);
    }
  }

  lemma ItemAlike(digest: string -> string, joins: set<string>, store: map<string, string>, table: Table, op: Op)
    requires Faithful(digest, joins, store, table) && op.Sized() && (op.Put? || op.Get? || op.Forget?)
    requires Harmless(digest, joins, op.item)
    requires JoinOf(table, op) <= joins
    requires forall id :: id in op.ids ==> Plain(id)
    ensures Strings(digest).Do(store, op).1 == SLOTS.Do(table, op).1
    ensures Faithful(digest, joins, Strings(digest).Do(store, op).0, SLOTS.Do(table, op).0)
  {
    if op.Get? || op.writable {
      var writable := op.Get? ==> op.writable;
      DoLands(Strings(digest), store, op);
      DoLands(SLOTS, table, op);
      PlaceAlike(digest, joins, store, table, op.item, writable, op.ids);
      var (store', slot) := Strings(digest).Place(store, op.item, writable, op.ids);
      var table' := SLOTS.Place(table, op.item, writable, op.ids).0;
      if slot.Some? { LandedAlike(digest, joins, store', table', slot.value, op); }
    }
  }

  // ------------------------------------------------------------------- runs

  /** What a run digests. */
  ghost function JoinsOf(ops: seq<Op>): set<string>
    requires forall op: Op :: op in ops ==> op.Sized()
  {
    if ops == [] then {} else JoinsOf(ops[..|ops| - 1]) + JoinOf(After(SLOTS, ops[..|ops| - 1]), ops[|ops| - 1])
  }

  lemma {:induction false} RunAlike(digest: string -> string, joins: set<string>, ops: seq<Op>)
    requires CollisionFree(digest, joins) && AlwaysFresh(ops) && JoinsOf(ops) <= joins
    requires forall op :: op in ops ==> HarmlessOp(digest, joins, op)
    ensures Faithful(digest, joins, After(Strings(digest), ops), After(SLOTS, ops))
  {
    if ops != [] {
      var init, last := ops[..|ops| - 1], ops[|ops| - 1];
      FreshInit(ops);
      assert last in ops && forall op :: op in init ==> op in ops;
      RunAlike(digest, joins, init);
      FreshIsPlain(last.ids, Drawn(init));
      DoAlike(digest, joins, After(Strings(digest), init), After(SLOTS, init), last);
    }
  }

  lemma FreshIsPlain(ids: seq<string>, drawn: set<string>)
    requires Fresh(ids, drawn)
    ensures forall id :: id in ids ==> Plain(id)
  {
  }

  /**
   After any run on the store, every further call answers what it would answer if items were in a map and
   flushing a tag deleted, in that tenant alone, exactly the items whose tag list has a flushed tag. The digest
   is without collisions on what the run and the call digest.
   */
  lemma FlushIsDeletion(digest: string -> string, ops: seq<Op>, op: Op)
    requires (forall o: Op :: o in ops ==> o.Sized()) && op.Sized() && AlwaysFresh(ops + [op])
    requires CollisionFree(digest, JoinsOf(ops + [op]))
    requires forall o :: o in ops + [op] ==> HarmlessOp(digest, JoinsOf(ops + [op]), o)
    ensures Strings(digest).Do(After(Strings(digest), ops), op).1 == Meant(MeantAfter(ops), op).1
  {
    var all := ops + [op];
    var joins := JoinsOf(all);
    assert all[..|all| - 1] == ops && all[|ops|] == op && op in all && forall o :: o in ops ==> o in all;
    FreshInit(all);
    FreshIsPlain(op.ids, Drawn(ops));
    RunAlike(digest, joins, ops);
    DoAlike(digest, joins, After(Strings(digest), ops), After(SLOTS, ops), op);
    RunStands(ops);
    Simulates(After(SLOTS, ops), Drawn(ops), MeantAfter(ops), op);
  }

  // ------------------------------------------------------- a run that collides

  /** A tagged item is put, then an untagged one whose key is that of the tag's generation. */
  function Colliding(item: Item, value: string, id: string, other: string): seq<Op>
    requires |item.names| == 1
  {
    [Put(item, value, true, [id]), Put(Item(item.tenant, "tag", [], item.names[0] + [':'] + "key"), other, true, [])]
  }

  lemma AfterTwo<K>(layout: Layout<K>, a: Op, b: Op)
    requires a.Sized() && b.Sized()
    ensures After(layout, [a, b]) == layout.Do(layout.Do(map[], a).0, b).0
  {
    assert [a, b][..|[a, b]| - 1] == [a] && [a][..|[a]| - 1] == [];
    assert After(layout, [a]) == layout.Do(After(layout, []), a).0;
  }

  lemma MeantTwo(a: Op, b: Op)
    ensures MeantAfter([a, b]) == Meant(Meant(map[], a).0, b).0
  {
    assert [a, b][..|[a, b]| - 1] == [a] && [a][..|[a]| - 1] == [];
    assert MeantAfter([a]) == Meant(MeantAfter([]), a).0;
  }

  /** One tag's generation, as the item's call reads or mints it. */
  lemma OneId<K>(layout: Layout<K>, t: map<K, string>, tenant: string, name: string, drawn: string)
    requires ValidTenant(tenant) && ValidTag(name)
    ensures layout.Ids(t, tenant, true, [name], [drawn])
         == (layout.Identified(t, tenant, true, name, drawn).0,
             Some([layout.Identified(t, tenant, true, name, drawn).1.value]))
  {
    assert [name][..|[name]| - 1] == [] && [drawn][..|[name]| - 1] == [];
    var none: seq<string>, id := [], layout.Identified(t, tenant, true, name, drawn).1;
    assert layout.Ids(t, tenant, true, [], []) == (t, Some(none)) && none + [id.value] == [id.value];
  }

  /** Where the tag's generation is, and where the item is under this one. */
  function GenerationKey(digest: string -> string, item: Item): string
    requires |item.names| == 1
  {
    Render(digest, Generation(item.tenant, item.names[0]))
  }

  function ItemKey(digest: string -> string, item: Item, id: string): string {
    Render(digest, Tagged(item.tenant, item.namespace, [id], item.key))
  }

  /** The places in question, three strings. */
  lemma ThreeStrings(digest: string -> string, item: Item, id: string, other: string)
    requires item.Proper() && |item.names| == 1 && item.namespace != "tag"
    requires Plain(id) && Plain(other) && other != id && CollisionFree(digest, {id, other})
    ensures GenerationKey(digest, item) != ItemKey(digest, item, id)
    ensures GenerationKey(digest, item) != ItemKey(digest, item, other)
    ensures ItemKey(digest, item, id) != ItemKey(digest, item, other)
  {
    assert item.names[0] in item.names;
    var g := Generation(item.tenant, item.names[0]);
    var was := Tagged(item.tenant, item.namespace, [id], item.key);
    var now := Tagged(item.tenant, item.namespace, [other], item.key);
    CollidesExactly(digest, {id, other}, g, was);
    CollidesExactly(digest, {id, other}, g, now);
    CollidesExactly(digest, {id, other}, was, now);
  }

  lemma TaggedPut(digest: string -> string, item: Item, value: string, id: string)
    requires item.Proper() && |item.names| == 1
    ensures Strings(digest).Do(map[], Put(item, value, true, [id])).0
         == map[GenerationKey(digest, item) := id][ItemKey(digest, item, id) := value]
  {
    assert item.names[0] in item.names && item.names == [item.names[0]];
    OneId(Strings(digest), map[], item.tenant, item.names[0], id);
  }

  lemma UntaggedPut(digest: string -> string, store: map<string, string>, item: Item, other: string)
    requires item.Proper() && |item.names| == 1
    ensures var over := Item(item.tenant, "tag", [], item.names[0] + [':'] + "key");
            Strings(digest).Do(store, Put(over, other, true, [])).0 == store[GenerationKey(digest, item) := other]
  {
    assert item.names[0] in item.names && ValidTenant("tag");
  }

  lemma LookUnder(digest: string -> string, store: map<string, string>, item: Item, other: string, spare: string)
    requires item.Proper() && |item.names| == 1 && other != ""
    requires GenerationKey(digest, item) in store && store[GenerationKey(digest, item)] == other
    requires ItemKey(digest, item, other) !in store
    ensures Strings(digest).Do(store, Get(item, true, [spare])).1 == Found(None)
  {
    assert item.names[0] in item.names && item.names == [item.names[0]];
    OneId(Strings(digest), store, item.tenant, item.names[0], spare);
  }

  /** What the store holds after the two. */
  lemma AfterColliding(digest: string -> string, item: Item, value: string, id: string, other: string)
    requires item.Proper() && |item.names| == 1
    ensures var first := map[GenerationKey(digest, item) := id][ItemKey(digest, item, id) := value];
            After(Strings(digest), Colliding(item, value, id, other)) == first[GenerationKey(digest, item) := other]
  {
    var ops := Colliding(item, value, id, other);
    AfterTwo(Strings(digest), ops[0], ops[1]);
    TaggedPut(digest, item, value, id);
    UntaggedPut(digest, map[GenerationKey(digest, item) := id][ItemKey(digest, item, id) := value], item, other);
  }

  lemma StoreHides(digest: string -> string, item: Item, value: string, id: string, other: string, spare: string)
    requires item.Proper() && |item.names| == 1 && item.namespace != "tag"
    requires Plain(id) && Plain(other) && other != id && CollisionFree(digest, {id, other})
    ensures var after := After(Strings(digest), Colliding(item, value, id, other));
            Strings(digest).Do(after, Get(item, true, [spare])).1 == Found(None)
  {
    ThreeStrings(digest, item, id, other);
    AfterColliding(digest, item, value, id, other);
    LookUnder(digest, After(Strings(digest), Colliding(item, value, id, other)), item, other, spare);
  }

  lemma MapHolds(item: Item, value: string, id: string, other: string, spare: string)
    requires item.Proper() && |item.names| == 1
    ensures Meant(MeantAfter(Colliding(item, value, id, other)), Get(item, true, [spare])).1 == Found(Some(value))
  {
    var ops := Colliding(item, value, id, other);
    MeantTwo(ops[0], ops[1]);
  }

  /** Putting the second puts the first out of reach, where a map would still hold it. */
  lemma CollidingItemHides(digest: string -> string, item: Item, value: string, id: string, other: string,
                           spare: string)
    requires item.Proper() && |item.names| == 1 && item.namespace != "tag"
    requires Plain(id) && Plain(other) && other != id && CollisionFree(digest, {id, other})
    ensures var ops := Colliding(item, value, id, other);
            && Strings(digest).Do(After(Strings(digest), ops), Get(item, true, [spare])).1 == Found(None)
            && Meant(MeantAfter(ops), Get(item, true, [spare])).1 == Found(Some(value))
  {
    StoreHides(digest, item, value, id, other, spare);
    MapHolds(item, value, id, other, spare);
  }
}

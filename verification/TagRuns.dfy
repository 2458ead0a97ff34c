/**
 Flushing by generation refines deletion: call by call, and over every run from an empty store.
 */
module TagRuns {
  import opened Wrappers
  import opened Keys
  import opened TagKeys
  import opened Tags

  /** Every item reads the same in both tables. */
  ghost predicate Same(t: Table, t': Table) {
    forall item :: Lookup(t', item) == Lookup(t, item)
  }

  lemma FreshPrefix(ids: seq<string>, drawn: set<string>)
    requires Fresh(ids, drawn) && ids != []
    ensures var n := |ids| - 1;
            && Fresh(ids[..n], drawn) && Plain(ids[n]) && ids[n] !in drawn + Elements(ids[..n])
            && Elements(ids) == Elements(ids[..n]) + {ids[n]}
  {
    var n := |ids| - 1;
    assert ids == ids[..n] + [ids[n]];
  }

  lemma InvGrows(t: Table, drawn: set<string>, more: set<string>)
    requires Inv(t, drawn) && drawn <= more
    ensures Inv(t, more)
  {
  }

  /** Minting a generation a tag did not have shows and hides nothing. */
  lemma MintedUnseen(t: Table, drawn: set<string>, tenant: string, name: string, id: string)
    requires Inv(t, drawn) && Plain(id) && id !in drawn && SLOTS.Current(t, tenant, name).None?
    ensures Inv(t[Generation(tenant, name) := id], drawn + {id}) && Same(t, t[Generation(tenant, name) := id])
  {
    GenerationSet(t, drawn, tenant, name, id);
    forall item: Item | item.tenant == tenant && name in item.names ensures Lookup(t, item).None? {
      var i :| 0 <= i < |item.names| && item.names[i] == name;
      assert SLOTS.Current(t, tenant, item.names[i]).None?;
    }
  }

  predicate Tagging(tenant: string, names: seq<string>) {
    names == [] || (ValidTenant(tenant) && forall n :: n in names ==> ValidTag(n))
  }

  lemma TaggingPrefix(tenant: string, names: seq<string>)
    requires names != []
    ensures var n := |names| - 1;
            Tagging(tenant, names) <==> Tagging(tenant, names[..n]) && ValidTenant(tenant) && ValidTag(names[n])
  {
    var n := |names| - 1;
    assert names == names[..n] + [names[n]];
  }

  /** For a grant that may write: every tag ends with a generation, and no item reads otherwise. */
  lemma {:induction false} IdsForWriting(t: Table, drawn: set<string>, tenant: string, names: seq<string>,
                                         ids: seq<string>)
    requires |ids| == |names| && Inv(t, drawn) && Fresh(ids, drawn)
    ensures var (t', got) := SLOTS.Ids(t, tenant, true, names, ids);
            && Inv(t', drawn + Elements(ids)) && Same(t, t')
            && (got.Some? <==> Tagging(tenant, names))
            && (got.Some? ==> HasAll(t', tenant, names) && got.value == Generations(t', tenant, names))
  {
    if names == [] {
      InvGrows(t, drawn, drawn + Elements(ids));
    } else {
      var n := |names| - 1;
      FreshPrefix(ids, drawn);
      TaggingPrefix(tenant, names);
      IdsForWriting(t, drawn, tenant, names[..n], ids[..n]);
      var (t', got) := SLOTS.Ids(t, tenant, true, names[..n], ids[..n]);
      InvGrows(t', drawn + Elements(ids[..n]), drawn + Elements(ids));
      if got.Some? && ValidTenant(tenant) && ValidTag(names[n]) {
        OneMoreId(t', drawn + Elements(ids[..n]), tenant, names, ids[n]);
        assert drawn + Elements(ids[..n]) + {ids[n]} == drawn + Elements(ids);
      }
    }
  }

  lemma OneMoreId(t: Table, drawn: set<string>, tenant: string, names: seq<string>, id: string)
    requires Inv(t, drawn) && Plain(id) && id !in drawn
    requires names != [] && ValidTenant(tenant) && ValidTag(names[|names| - 1])
    requires HasAll(t, tenant, names[..|names| - 1])
    ensures var n := |names| - 1;
            var (t', got) := SLOTS.Identified(t, tenant, true, names[n], id);
            && Inv(t', drawn + {id}) && Same(t, t') && got.Some? && HasAll(t', tenant, names)
            && Generations(t', tenant, names) == Generations(t, tenant, names[..n]) + [got.value]
  {
    var n := |names| - 1;
    var (t', got) := SLOTS.Identified(t, tenant, true, names[n], id);
    if SLOTS.Current(t, tenant, names[n]).Some? {
      InvGrows(t, drawn, drawn + {id});
    } else {
      MintedUnseen(t, drawn, tenant, names[n], id);
    }
    forall i | 0 <= i < n ensures SLOTS.Current(t', tenant, names[i]) == SLOTS.Current(t, tenant, names[i]) {
      assert names[..n][i] == names[i] && SLOTS.Current(t, tenant, names[..n][i]).Some?;
    }
  }

  /** For a read-only grant: nothing is stored, and a tag without a generation is answered with a drawn one. */
  lemma {:induction false} IdsForReading(t: Table, tenant: string, names: seq<string>, ids: seq<string>)
    requires |ids| == |names|
    ensures var (t', got) := SLOTS.Ids(t, tenant, false, names, ids);
            && t' == t && (got.Some? <==> Tagging(tenant, names))
            && (got.Some? && HasAll(t, tenant, names) ==> got.value == Generations(t, tenant, names))
            && (got.Some? && !HasAll(t, tenant, names) ==> exists id :: id in got.value && id in ids)
  {
    if names != [] {
      var n := |names| - 1;
      TaggingPrefix(tenant, names);
      IdsForReading(t, tenant, names[..n], ids[..n]);
      assert names == names[..n] + [names[n]] && ids == ids[..n] + [ids[n]];
      var (_, before) := SLOTS.Ids(t, tenant, false, names[..n], ids[..n]);
      var (_, got) := SLOTS.Ids(t, tenant, false, names, ids);
      if got.Some? {
        if HasAll(t, tenant, names[..n]) && SLOTS.Current(t, tenant, names[n]).Some? {
          assert Generations(t, tenant, names)
              == Generations(t, tenant, names[..n]) + [SLOTS.Current(t, tenant, names[n]).value];
        } else if HasAll(t, tenant, names[..n]) {
          assert got.value[n] == ids[n] && ids[n] in got.value && ids[n] in ids;
        } else {
          var id :| id in before.value && id in ids[..n];
          assert id in got.value;
        }
      }
    }
  }

  // ---------------------------------------------------------------- flushes

  lemma ReachedPrefix(tenant: string, writable: bool, names: seq<string>)
    ensures |Reached(tenant, writable, names)| <= |names|
  {
  }

  /** Lookup once every entry that carries one of these tags is deleted. */
  ghost function Pruned(t: Table, tenant: string, tags: seq<string>, item: Item): Option<string> {
    if Carries(item, tenant, tags) then None else Lookup(t, item)
  }

  lemma PrunedOneMore(t: Table, tenant: string, tags: seq<string>, tag: string, item: Item)
    ensures Pruned(t, tenant, tags + [tag], item)
         == if item.tenant == tenant && tag in item.names then None else Pruned(t, tenant, tags, item)
  {
    assert tag in tags + [tag];
    assert Carries(item, tenant, tags + [tag])
      <==> Carries(item, tenant, tags) || (item.tenant == tenant && tag in item.names);
  }

  /** Resetting tags deletes exactly the entries that carry one of the tags reached. */
  lemma {:induction false} ResetPrunes(t: Table, drawn: set<string>, tenant: string, writable: bool,
                                       names: seq<string>, ids: seq<string>)
    requires |ids| == |names| && Inv(t, drawn) && Fresh(ids, drawn)
    ensures var (t', ok) := SLOTS.Reset(t, tenant, writable, names, ids);
            var reached := Reached(tenant, writable, names);
            && Inv(t', drawn + Elements(ids)) && (ok <==> |reached| == |names|)
            && (forall item :: Lookup(t', item) == Pruned(t, tenant, reached, item))
  {
    if names == [] {
      InvGrows(t, drawn, drawn + Elements(ids));
    } else {
      var n := |names| - 1;
      FreshPrefix(ids, drawn);
      ResetPrunes(t, drawn, tenant, writable, names[..n], ids[..n]);
      var (t', ok) := SLOTS.Reset(t, tenant, writable, names[..n], ids[..n]);
      var reached := Reached(tenant, writable, names[..n]);
      InvGrows(t', drawn + Elements(ids[..n]), drawn + Elements(ids));
      ReachedPrefix(tenant, writable, names[..n]);
      if ok && writable && ValidTenant(tenant) && ValidTag(names[n]) {
        GenerationSet(t', drawn + Elements(ids[..n]), tenant, names[n], ids[n]);
        assert drawn + Elements(ids[..n]) + {ids[n]} == drawn + Elements(ids);
        forall item { PrunedOneMore(t, tenant, reached, names[n], item); }
      }
    }
  }

  lemma {:induction false} DroppedPrunes(t: Table, drawn: set<string>, tenant: string, writable: bool,
                                         names: seq<string>)
    requires Inv(t, drawn)
    ensures var (t', ok) := SLOTS.Dropped(t, tenant, writable, names);
            var reached := Reached(tenant, writable, names);
            && Inv(t', drawn) && (ok <==> |reached| == |names|)
            && (forall item :: Lookup(t', item) == Pruned(t, tenant, reached, item))
  {
    if names != [] {
      var n := |names| - 1;
      DroppedPrunes(t, drawn, tenant, writable, names[..n]);
      var (t', ok) := SLOTS.Dropped(t, tenant, writable, names[..n]);
      var reached := Reached(tenant, writable, names[..n]);
      ReachedPrefix(tenant, writable, names[..n]);
      if ok && writable && ValidTenant(tenant) && ValidTag(names[n]) {
        GenerationDropped(t', drawn, tenant, names[n]);
        forall item { PrunedOneMore(t, tenant, reached, names[n], item); }
      }
    }
  }

  // ------------------------------------------------------------- simulation

  ghost predicate Stands(t: Table, m: Plainly) {
    forall item: Item :: item.Proper() ==> Lookup(t, item) == Read(m, item)
  }

  predicate WellPlaced(item: Item) {
    ValidTenant(item.tenant) && ValidTenant(item.namespace) && item.key != ""
  }

  lemma ProperExactly(item: Item)
    ensures item.Proper() <==> WellPlaced(item) && Tagging(item.tenant, item.names)
  {
  }

  /** For a grant that may write, a proper item ends at its entry and no item reads otherwise. */
  lemma PlacedForWriting(t: Table, drawn: set<string>, item: Item, ids: seq<string>)
    requires |ids| == |item.names| && Inv(t, drawn) && Fresh(ids, drawn)
    ensures var (t', slot) := SLOTS.Place(t, item, true, ids);
            && Inv(t', drawn + Elements(ids)) && Same(t, t') && (slot.Some? <==> item.Proper())
            && (slot.Some? ==> HasAll(t', item.tenant, item.names) && slot.value == EntryOf(t', item))
  {
    ProperExactly(item);
    InvGrows(t, drawn, drawn + Elements(ids));
    if WellPlaced(item) { IdsForWriting(t, drawn, item.tenant, item.names, ids); }
  }

  lemma PutSimulates(t: Table, drawn: set<string>, m: Plainly, op: Op)
    requires op.Put? && op.Sized() && Inv(t, drawn) && Fresh(op.ids, drawn) && Stands(t, m)
    ensures var (t', answer) := SLOTS.Do(t, op);
            var (m', meant) := Meant(m, op);
            Inv(t', drawn + Elements(op.ids)) && Stands(t', m') && answer == meant
  {
    InvGrows(t, drawn, drawn + Elements(op.ids));
    PlacedForWriting(t, drawn, op.item, op.ids);
    var (t', slot) := SLOTS.Place(t, op.item, true, op.ids);
    if slot.Some? { EntrySet(t', drawn + Elements(op.ids), op.item, op.value); }
  }

  lemma ForgetSimulates(t: Table, drawn: set<string>, m: Plainly, op: Op)
    requires op.Forget? && op.Sized() && Inv(t, drawn) && Fresh(op.ids, drawn) && Stands(t, m)
    ensures var (t', answer) := SLOTS.Do(t, op);
            var (m', meant) := Meant(m, op);
            Inv(t', drawn + Elements(op.ids)) && Stands(t', m') && answer == meant
  {
    InvGrows(t, drawn, drawn + Elements(op.ids));
    PlacedForWriting(t, drawn, op.item, op.ids);
    var (t', slot) := SLOTS.Place(t, op.item, true, op.ids);
    if slot.Some? { EntryDropped(t', drawn + Elements(op.ids), op.item); }
  }

  lemma ReadSimulates(t: Table, drawn: set<string>, m: Plainly, op: Op)
    requires op.Get? && op.Sized() && Inv(t, drawn) && Fresh(op.ids, drawn) && Stands(t, m)
    ensures var (t', answer) := SLOTS.Do(t, op);
            Inv(t', drawn + Elements(op.ids)) && Stands(t', m) && answer == Meant(m, op).1
  {
    var item := op.item;
    ProperExactly(item);
    InvGrows(t, drawn, drawn + Elements(op.ids));
    if WellPlaced(item) {
      if op.writable {
        PlacedForWriting(t, drawn, item, op.ids);
      } else {
        IdsForReading(t, item.tenant, item.names, op.ids);
        var (_, got) := SLOTS.Ids(t, item.tenant, false, item.names, op.ids);
        if got.Some? && !HasAll(t, item.tenant, item.names) {
          var id :| id in got.value && id in op.ids;
          assert Tagged(item.tenant, item.namespace, got.value, item.key) !in t;
        }
      }
    }
  }

  lemma FlushSimulates(t: Table, drawn: set<string>, m: Plainly, op: Op)
    requires (op.Flush? || op.FlushTags?) && op.Sized() && Inv(t, drawn) && Fresh(op.ids, drawn) && Stands(t, m)
    ensures var (t', answer) := SLOTS.Do(t, op);
            var (m', meant) := Meant(m, op);
            Inv(t', drawn + Elements(op.ids)) && Stands(t', m') && answer == meant
  {
    if op.Flush? {
      ResetPrunes(t, drawn, op.tenant, op.writable, op.tags, op.ids);
    } else {
      DroppedPrunes(t, drawn, op.tenant, op.writable, op.tags);
      InvGrows(SLOTS.Do(t, op).0, drawn, drawn + Elements(op.ids));
    }
  }

  /** Flushing a namespace takes its items; flushing "tag" takes every generation, and with it all that is tagged. */
  lemma SpaceFlushed(t: Table, op: Op, item: Item)
    requires op.FlushSpace? && op.Sized() && SLOTS.Do(t, op).1 == Done
    ensures Lookup(SLOTS.Do(t, op).0, item) == if InSpace(item, op.tenant, op.namespace) then None else Lookup(t, item)
  {
    var t' := SLOTS.Do(t, op).0;
    if item.tenant == op.tenant && op.namespace == "tag" {
      if item.names != [] { assert SLOTS.Current(t', item.tenant, item.names[0]).None?; }
    } else {
      forall n ensures SLOTS.Current(t', item.tenant, n) == SLOTS.Current(t, item.tenant, n) {}
      if HasAll(t, item.tenant, item.names) {
        assert Generations(t', item.tenant, item.names) == Generations(t, item.tenant, item.names);
      }
    }
  }

  lemma SpaceFlushSimulates(t: Table, drawn: set<string>, m: Plainly, op: Op)
    requires op.FlushSpace? && op.Sized() && Inv(t, drawn) && Stands(t, m)
    ensures var (t', answer) := SLOTS.Do(t, op);
            var (m', meant) := Meant(m, op);
            Inv(t', drawn + Elements(op.ids)) && Stands(t', m') && answer == meant
  {
    InvGrows(SLOTS.Do(t, op).0, drawn, drawn + Elements(op.ids));
    if SLOTS.Do(t, op).1 == Done {
      forall item { SpaceFlushed(t, op, item); }
    }
  }

  lemma Simulates(t: Table, drawn: set<string>, m: Plainly, op: Op)
    requires op.Sized() && Inv(t, drawn) && Fresh(op.ids, drawn) && Stands(t, m)
    ensures var (t', answer) := SLOTS.Do(t, op);
            var (m', meant) := Meant(m, op);
            Inv(t', drawn + Elements(op.ids)) && Stands(t', m') && answer == meant
  {
    match op {
      case Put(_, _, _, _) => PutSimulates(t, drawn, m, op);
      case Forget(_, _, _) => ForgetSimulates(t, drawn, m, op);
      case Get(_, _, _) => ReadSimulates(t, drawn, m, op);
      case FlushSpace(_, _, _, _) => SpaceFlushSimulates(t, drawn, m, op);
      case _ => FlushSimulates(t, drawn, m, op);
    }
  }

  // ------------------------------------------------------------------- runs

  function After<K(==)>(layout: Layout<K>, ops: seq<Op>): map<K, string>
    requires forall op: Op :: op in ops ==> op.Sized()
  {
    if ops == [] then map[] else layout.Do(After(layout, ops[..|ops| - 1]), ops[|ops| - 1]).0
  }

  function MeantAfter(ops: seq<Op>): Plainly {
    if ops == [] then map[] else Meant(MeantAfter(ops[..|ops| - 1]), ops[|ops| - 1]).0
  }

  ghost function Drawn(ops: seq<Op>): set<string> {
    if ops == [] then {} else Drawn(ops[..|ops| - 1]) + Elements(ops[|ops| - 1].ids)
  }

  /** Every generation drawn in the run is new when it is drawn. */
  ghost predicate AlwaysFresh(ops: seq<Op>) {
    forall i :: 0 <= i < |ops| ==> ops[i].Sized() && Fresh(ops[i].ids, Drawn(ops[..i]))
  }

  lemma FreshInit(ops: seq<Op>)
    requires AlwaysFresh(ops) && ops != []
    ensures var init, last := ops[..|ops| - 1], ops[|ops| - 1];
            AlwaysFresh(init) && last.Sized() && Fresh(last.ids, Drawn(init))
  {
    var init := ops[..|ops| - 1];
    assert forall i :: 0 <= i < |init| ==> init[..i] == ops[..i];
  }

  /** After any run the places stand for the plain map. */
  lemma {:induction false} RunStands(ops: seq<Op>)
    requires AlwaysFresh(ops)
    ensures Inv(After(SLOTS, ops), Drawn(ops)) && Stands(After(SLOTS, ops), MeantAfter(ops))
  {
    if ops != [] {
      var init, last := ops[..|ops| - 1], ops[|ops| - 1];
      FreshInit(ops);
      RunStands(init);
      Simulates(After(SLOTS, init), Drawn(init), MeantAfter(init), last);
    }
  }
}

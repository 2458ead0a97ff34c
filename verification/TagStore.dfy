/**
 The tagged cache over a store whose keys are strings, and what its strings stand for.
 */
module TagStores {
  import opened Wrappers
  import opened Keys
  import opened TagKeys
  import opened Tags

  /** TagSet, TaggedCache and the untagged repository over one store. `drawn` is what newTagID would answer. */
  class TagStore {
    const digest: string -> string
    var store: map<string, string>

    constructor (digest: string -> string)
      ensures this.digest == digest && store == map[]
    {
      this.digest := digest;
      store := map[];
    }

    method TagID(tenant: string, writable: bool, name: string, drawn: string) returns (id: Option<string>)
      modifies this
      ensures (store, id) == Strings(digest).Identified(old(store), tenant, writable, name, drawn)
    {
      if !ValidTenant(tenant) || !ValidTag(name) {
        return None;
      }
      var key := "cache:" + tenant + ":" + "tag" + ":" + (name + [':'] + "key");
      assert key == Render(digest, Generation(tenant, name));
      if key in store && store[key] != "" {
        return Some(store[key]);
      }
      if writable {
        store := store[key := drawn];
      }
      id := Some(drawn);
    }

    method GetNamespace(tenant: string, writable: bool, names: seq<string>, drawn: seq<string>)
      returns (ids: Option<seq<string>>)
      requires |drawn| == |names|
      modifies this
      ensures (store, ids) == Strings(digest).Ids(old(store), tenant, writable, names, drawn)
    {
      var got: seq<string> := [];
      var i := 0;
      while i < |names|
        invariant 0 <= i <= |names|
        invariant (store, Some(got)) == Strings(digest).Ids(old(store), tenant, writable, names[..i], drawn[..i])
      {
        IdsStep(Strings(digest), old(store), tenant, writable, names, drawn, i);
        var id := TagID(tenant, writable, names[i], drawn[i]);
        if id.None? {
          IdsStop(Strings(digest), old(store), tenant, writable, names, drawn, i + 1);
          return None;
        }
        got := got + [id.value];
        i := i + 1;
      }
      assert names[..i] == names && drawn[..i] == drawn;
      ids := Some(got);
    }

    method ResetTag(tenant: string, writable: bool, name: string, drawn: string) returns (ok: bool)
      modifies this
      ensures ok == (writable && ValidTenant(tenant) && ValidTag(name))
      ensures store == if ok then old(store)[Render(digest, Generation(tenant, name)) := drawn] else old(store)
    {
      if !writable || !ValidTenant(tenant) || !ValidTag(name) {
        return false;
      }
      store := store[Render(digest, Generation(tenant, name)) := drawn];
      ok := true;
    }

    /** TagSet.Reset, which is also TaggedCache.Flush. */
    method ResetAll(tenant: string, writable: bool, names: seq<string>, drawn: seq<string>) returns (ok: bool)
      requires |drawn| == |names|
      modifies this
      ensures (store, ok) == Strings(digest).Reset(old(store), tenant, writable, names, drawn)
    {
      var i := 0;
      while i < |names|
        invariant 0 <= i <= |names|
        invariant (store, true) == Strings(digest).Reset(old(store), tenant, writable, names[..i], drawn[..i])
      {
        ResetOneMore(Strings(digest), old(store), tenant, writable, names, drawn, i);
        var done := ResetTag(tenant, writable, names[i], drawn[i]);
        if !done {
          ResetStop(Strings(digest), old(store), tenant, writable, names, drawn, i + 1);
          return false;
        }
        i := i + 1;
      }
      assert names[..i] == names && drawn[..i] == drawn;
      ok := true;
    }

    method FlushTag(tenant: string, writable: bool, name: string) returns (ok: bool)
      modifies this
      ensures ok == (writable && ValidTenant(tenant) && ValidTag(name))
      ensures store == if ok then old(store) - {Render(digest, Generation(tenant, name))} else old(store)
    {
      if !writable || !ValidTenant(tenant) || !ValidTag(name) {
        return false;
      }
      store := store - {Render(digest, Generation(tenant, name))};
      ok := true;
    }

    /** TagSet.Flush. */
    method FlushAll(tenant: string, writable: bool, names: seq<string>) returns (ok: bool)
      modifies this
      ensures (store, ok) == Strings(digest).Dropped(old(store), tenant, writable, names)
    {
      var i := 0;
      while i < |names|
        invariant 0 <= i <= |names|
        invariant (store, true) == Strings(digest).Dropped(old(store), tenant, writable, names[..i])
      {
        assert names[..i + 1][..i] == names[..i];
        var done := FlushTag(tenant, writable, names[i]);
        if !done {
          DroppedStop(Strings(digest), old(store), tenant, writable, names, i + 1);
          return false;
        }
        i := i + 1;
      }
      assert names[..i] == names;
      ok := true;
    }

    /** Repository.key. */
    method ItemKey(item: Item, writable: bool, drawn: seq<string>) returns (key: Option<string>)
      requires |drawn| == |item.names|
      modifies this
      ensures var (after, slot) := Strings(digest).Place(old(store), item, writable, drawn);
              store == after && key == if slot.None? then None else Some(Render(digest, slot.value))
    {
      if !ValidTenant(item.tenant) || !ValidTenant(item.namespace) || item.key == "" {
        return None;
      }
      var prefix := "cache:" + item.tenant + ":" + item.namespace + ":";
      if item.names == [] {
        return Some(prefix + item.key);
      }
      var ids := GetNamespace(item.tenant, writable, item.names, drawn);
      if ids.None? {
        return None;
      }
      key := Some(prefix + (digest(Join(ids.value)) + [':'] + item.key));
    }

    method Put(item: Item, value: string, writable: bool, drawn: seq<string>) returns (ok: bool)
      requires |drawn| == |item.names|
      modifies this
      ensures (store, if ok then Done else Failed)
           == Strings(digest).Do(old(store), Op.Put(item, value, writable, drawn))
    {
      if !writable {
        return false;
      }
      var key := ItemKey(item, true, drawn);
      if key.None? {
        return false;
      }
      store := store[key.value := value];
      ok := true;
    }

    method Get(item: Item, writable: bool, drawn: seq<string>) returns (value: Result<Option<string>, ()>)
      requires |drawn| == |item.names|
      modifies this
      ensures (store, if value.Ok? then Found(value.value) else Failed)
           == Strings(digest).Do(old(store), Op.Get(item, writable, drawn))
    {
      var key := ItemKey(item, writable, drawn);
      if key.None? {
        return Err(());
      }
      value := Ok(if key.value in store then Some(store[key.value]) else None);
    }

    method Forget(item: Item, writable: bool, drawn: seq<string>) returns (ok: bool)
      requires |drawn| == |item.names|
      modifies this
      ensures (store, if ok then Done else Failed) == Strings(digest).Do(old(store), Op.Forget(item, writable, drawn))
    {
      if !writable {
        return false;
      }
      var key := ItemKey(item, true, drawn);
      if key.None? {
        return false;
      }
      store := store - {key.value};
      ok := true;
    }

    /** Repository.Flush. */
    method FlushSpace(tenant: string, namespace: string, writable: bool) returns (ok: bool)
      modifies this
      ensures (store, if ok then Done else Failed)
           == Strings(digest).Do(old(store), Op.FlushSpace(tenant, namespace, writable, []))
    {
      var prefix := Prefix(tenant, namespace);
      if !writable || prefix.Err? {
        return false;
      }
      store := map k | k in store && !(prefix.value <= k) :: store[k];
      assert store == Strings(digest).Cleared(old(store), tenant, namespace);
      ok := true;
    }
  }

  lemma IdsStep<K>(layout: Layout<K>, t: map<K, string>, tenant: string, writable: bool, names: seq<string>,
                   drawn: seq<string>, i: nat)
    requires |drawn| == |names| && i < |names| && layout.Ids(t, tenant, writable, names[..i], drawn[..i]).1.Some?
    ensures var (t', got) := layout.Ids(t, tenant, writable, names[..i], drawn[..i]);
            var (t'', id) := layout.Identified(t', tenant, writable, names[i], drawn[i]);
            layout.Ids(t, tenant, writable, names[..i + 1], drawn[..i + 1])
            == (t'', if id.None? then None else Some(got.value + [id.value]))
  {
    assert names[..i + 1][..i] == names[..i] && drawn[..i + 1][..i] == drawn[..i];
  }

  // A loop that stops at the first name it cannot use leaves what the whole list would have left.

  lemma {:induction false} IdsStop<K>(layout: Layout<K>, t: map<K, string>, tenant: string, writable: bool,
                                      names: seq<string>, drawn: seq<string>, n: nat)
    requires |drawn| == |names| && n <= |names| && layout.Ids(t, tenant, writable, names[..n], drawn[..n]).1.None?
    ensures layout.Ids(t, tenant, writable, names, drawn) == layout.Ids(t, tenant, writable, names[..n], drawn[..n])
    decreases |names|
  {
    if n == |names| {
      assert names[..n] == names && drawn[..n] == drawn;
    } else {
      var k := |names| - 1;
      assert names[..k][..n] == names[..n] && drawn[..k][..n] == drawn[..n];
      IdsStop(layout, t, tenant, writable, names[..k], drawn[..k], n);
    }
  }

  lemma ResetOneMore<K>(layout: Layout<K>, t: map<K, string>, tenant: string, writable: bool, names: seq<string>,
                        drawn: seq<string>, i: nat)
    requires |drawn| == |names| && i < |names|
    ensures layout.Reset(t, tenant, writable, names[..i + 1], drawn[..i + 1])
         == var (t', ok) := layout.Reset(t, tenant, writable, names[..i], drawn[..i]);
            if !ok || !writable || !ValidTenant(tenant) || !ValidTag(names[i]) then (t', false)
            else (t'[layout.at(Generation(tenant, names[i])) := drawn[i]], true)
  {
    assert names[..i + 1][..i] == names[..i] && drawn[..i + 1][..i] == drawn[..i];
  }

  lemma {:induction false} ResetStop<K>(layout: Layout<K>, t: map<K, string>, tenant: string, writable: bool,
                                        names: seq<string>, drawn: seq<string>, n: nat)
    requires |drawn| == |names| && n <= |names| && !layout.Reset(t, tenant, writable, names[..n], drawn[..n]).1
    ensures layout.Reset(t, tenant, writable, names, drawn) == layout.Reset(t, tenant, writable, names[..n], drawn[..n])
    decreases |names|
  {
    if n == |names| {
      assert names[..n] == names && drawn[..n] == drawn;
    } else {
      var k := |names| - 1;
      assert names[..k][..n] == names[..n] && drawn[..k][..n] == drawn[..n];
      ResetStop(layout, t, tenant, writable, names[..k], drawn[..k], n);
    }
  }

  lemma {:induction false} DroppedStop<K>(layout: Layout<K>, t: map<K, string>, tenant: string, writable: bool,
                                          names: seq<string>, n: nat)
    requires n <= |names| && !layout.Dropped(t, tenant, writable, names[..n]).1
    ensures layout.Dropped(t, tenant, writable, names) == layout.Dropped(t, tenant, writable, names[..n])
    decreases |names|
  {
    if n == |names| {
      assert names[..n] == names;
    } else {
      var k := |names| - 1;
      assert names[..k][..n] == names[..n];
      DroppedStop(layout, t, tenant, writable, names[..k], n);
    }
  }
}

/**
 Tag generations: flushing a tag writes one id, and every entry that carried the old one is out of
 reach. What the operations do to a store, whether its keys are strings or the places they stand for.
 */
module Tags {
  import opened Wrappers
  import opened Keys
  import opened TagKeys

  // ------------------------------------------------------------- operations

  /** What a caller names; no tags is an item of an untagged repository. */
  datatype Item = Item(tenant: string, namespace: string, names: seq<string>, key: string) {
    predicate Proper() {
      ValidTenant(tenant) && ValidTenant(namespace) && key != "" && forall n :: n in names ==> ValidTag(n)
    }
  }

  /** `ids` are the generations drawn for the call, one a name, used or not. */
  datatype Op =
    | Put(item: Item, value: string, writable: bool, ids: seq<string>)
    | Get(item: Item, writable: bool, ids: seq<string>)
    | Forget(item: Item, writable: bool, ids: seq<string>)
    | Flush(tenant: string, tags: seq<string>, writable: bool, ids: seq<string>)
    | FlushTags(tenant: string, tags: seq<string>, writable: bool, ids: seq<string>)
    | FlushSpace(tenant: string, namespace: string, writable: bool, ids: seq<string>)
  {
    predicate Sized() {
      |ids| == if Flush? || FlushTags? then |tags| else if FlushSpace? then 0 else |item.names|
    }
  }

  datatype Answer = Failed | Done | Found(value: Option<string>)

  /** How places become keys, and which keys a flush of a namespace reaches. */
  datatype Layout<!K(==)> = Layout(at: Slot -> K, under: (K, string, string) -> bool) {

    /** What is stored for a tag; an empty value counts as none. */
    function Current(t: map<K, string>, tenant: string, name: string): Option<string> {
      var k := at(Generation(tenant, name));
      if k in t && t[k] != "" then Some(t[k]) else None
    }

    /** TagID: a tag without a generation gets the drawn one, kept only by a grant that may write. */
    function Identified(t: map<K, string>, tenant: string, writable: bool, name: string, drawn: string)
      : (map<K, string>, Option<string>)
    {
      if !ValidTenant(tenant) || !ValidTag(name) then (t, None)
      else if Current(t, tenant, name).Some? then (t, Current(t, tenant, name))
      else if writable then (t[at(Generation(tenant, name)) := drawn], Some(drawn))
      else (t, Some(drawn))
    }

    /** GetNamespace: one id a name, in order, up to the first name that is not a tag. */
    function Ids(t: map<K, string>, tenant: string, writable: bool, names: seq<string>, drawn: seq<string>)
      : (map<K, string>, Option<seq<string>>)
      requires |drawn| == |names|
      decreases |names|
    {
      if names == [] then (t, Some([]))
      else
        var n := |names| - 1;
        var (t', got) := Ids(t, tenant, writable, names[..n], drawn[..n]);
        if got.None? then (t', None)
        else
          var (t'', id) := Identified(t', tenant, writable, names[n], drawn[n]);
          (t'', if id.None? then None else Some(got.value + [id.value]))
    }

    /** Reset: a new generation a name, up to the first that cannot have one. */
    function Reset(t: map<K, string>, tenant: string, writable: bool, names: seq<string>, drawn: seq<string>)
      : (map<K, string>, bool)
      requires |drawn| == |names|
      decreases |names|
    {
      if names == [] then (t, true)
      else
        var n := |names| - 1;
        var (t', ok) := Reset(t, tenant, writable, names[..n], drawn[..n]);
        if !ok || !writable || !ValidTenant(tenant) || !ValidTag(names[n]) then (t', false)
        else (t'[at(Generation(tenant, names[n])) := drawn[n]], true)
    }

    /** Flush of the set: no generation left for any name, up to the first that cannot have one. */
    function Dropped(t: map<K, string>, tenant: string, writable: bool, names: seq<string>): (map<K, string>, bool)
      decreases |names|
    {
      if names == [] then (t, true)
      else
        var n := |names| - 1;
        var (t', ok) := Dropped(t, tenant, writable, names[..n]);
        if !ok || !writable || !ValidTenant(tenant) || !ValidTag(names[n]) then (t', false)
        else (t' - {at(Generation(tenant, names[n]))}, true)
    }

    /** The place of an item: the prefix and the key are looked at before any generation is. */
    function Place(t: map<K, string>, item: Item, writable: bool, drawn: seq<string>): (map<K, string>, Option<Slot>)
      requires |drawn| == |item.names|
    {
      if !ValidTenant(item.tenant) || !ValidTenant(item.namespace) || item.key == "" then (t, None)
      else if item.names == [] then (t, Some(Untagged(item.tenant, item.namespace, item.key)))
      else
        var (t', got) := Ids(t, item.tenant, writable, item.names, drawn);
        (t', if got.None? then None else Some(Tagged(item.tenant, item.namespace, got.value, item.key)))
    }

    /** Everything but what is under a namespace. */
    function Cleared(t: map<K, string>, tenant: string, namespace: string): map<K, string> {
      map k | k in t && !under(k, tenant, namespace) :: t[k]
    }

    function Do(t: map<K, string>, op: Op): (map<K, string>, Answer)
      requires op.Sized()
    {
      match op
      case Put(item, value, writable, ids) =>
        if !writable then (t, Failed)
        else
          var (t', slot) := Place(t, item, true, ids);
          if slot.None? then (t', Failed) else (t'[at(slot.value) := value], Done)
      case Get(item, writable, ids) =>
        var (t', slot) := Place(t, item, writable, ids);
        if slot.None? then (t', Failed)
        else (t', Found(if at(slot.value) in t' then Some(t'[at(slot.value)]) else None))
      case Forget(item, writable, ids) =>
        if !writable then (t, Failed)
        else
          var (t', slot) := Place(t, item, true, ids);
          if slot.None? then (t', Failed) else (t' - {at(slot.value)}, Done)
      case Flush(tenant, tags, writable, ids) =>
        var (t', ok) := Reset(t, tenant, writable, tags, ids);
        (t', if ok then Done else Failed)
      case FlushTags(tenant, tags, writable, _) =>
        var (t', ok) := Dropped(t, tenant, writable, tags);
        (t', if ok then Done else Failed)
      case FlushSpace(tenant, namespace, writable, _) =>
        if !writable || !ValidTenant(tenant) || !ValidTenant(namespace) then (t, Failed)
        else (Cleared(t, tenant, namespace), Done)
    }
  }

  /** The store itself: keys are strings, and a flush goes by their prefix. */
  function Strings(digest: string -> string): Layout<string> {
    Layout(slot => Render(digest, slot),
           (k: string, tenant: string, namespace: string) => "cache:" + tenant + ":" + namespace + ":" <= k)
  }

  /** What the strings stand for. */
  type Table = map<Slot, string>

  const SLOTS: Layout<Slot> :=
    Layout(slot => slot, (slot: Slot, tenant, namespace) => slot.tenant == tenant && slot.Space() == namespace)

  // ---------------------------------------------------- what it stands for

  /** The plain form: items in a map, and a flush that deletes. */
  type Plainly = map<Item, string>

  /** The names a flush gets to: all up to the first it must refuse. */
  function Reached(tenant: string, writable: bool, names: seq<string>): seq<string> {
    if names == [] || !writable || !ValidTenant(tenant) then []
    else
      var n := |names| - 1;
      var before := Reached(tenant, writable, names[..n]);
      if |before| == n && ValidTag(names[n]) then before + [names[n]] else before
  }

  predicate Carries(item: Item, tenant: string, tags: seq<string>) {
    item.tenant == tenant && exists n :: n in item.names && n in tags
  }

  /** What a flush of a namespace takes: the items in it, and with the namespace "tag" all that carry a tag. */
  predicate InSpace(item: Item, tenant: string, namespace: string) {
    item.tenant == tenant && (item.namespace == namespace || (namespace == "tag" && item.names != []))
  }

  function Meant(m: Plainly, op: Op): (Plainly, Answer) {
    match op
    case Put(item, value, writable, _) =>
      if writable && item.Proper() then (m[item := value], Done) else (m, Failed)
    case Get(item, _, _) =>
      if item.Proper() then (m, Found(if item in m then Some(m[item]) else None)) else (m, Failed)
    case Forget(item, writable, _) =>
      if writable && item.Proper() then (m - {item}, Done) else (m, Failed)
    case FlushSpace(tenant, namespace, writable, _) =>
      if !writable || !ValidTenant(tenant) || !ValidTenant(namespace) then (m, Failed)
      else (map i | i in m && !InSpace(i, tenant, namespace) :: m[i], Done)
    case _ =>
      var reached := Reached(op.tenant, op.writable, op.tags);
      (map i | i in m && !Carries(i, op.tenant, reached) :: m[i], if |reached| == |op.tags| then Done else Failed)
  }

  // ---------------------------------------------------------------- reading

  ghost predicate HasAll(t: Table, tenant: string, names: seq<string>) {
    forall i :: 0 <= i < |names| ==> SLOTS.Current(t, tenant, names[i]).Some?
  }

  ghost function Generations(t: Table, tenant: string, names: seq<string>): seq<string>
    requires HasAll(t, tenant, names)
  {
    seq(|names|, i requires 0 <= i < |names| => SLOTS.Current(t, tenant, names[i]).value)
  }

  /** What the table stands for: an item is there when all its tags have generations and its entry carries them. */
  ghost function Lookup(t: Table, item: Item): Option<string> {
    if !HasAll(t, item.tenant, item.names) then None
    else
      var slot := EntryOf(t, item);
      if slot in t then Some(t[slot]) else None
  }

  ghost function EntryOf(t: Table, item: Item): Slot
    requires HasAll(t, item.tenant, item.names)
  {
    if item.names == [] then Untagged(item.tenant, item.namespace, item.key)
    else Tagged(item.tenant, item.namespace, Generations(t, item.tenant, item.names), item.key)
  }

  ghost function Read(m: Plainly, item: Item): Option<string> {
    if item in m then Some(m[item]) else None
  }

  /** Generations were drawn, no two tags share one, and entries carry only drawn ones. */
  ghost predicate Inv(t: Table, drawn: set<string>) {
    && (forall s :: s in t && s.Generation? ==> Plain(t[s]) && t[s] in drawn)
    && (forall s, r :: s in t && r in t && s.Generation? && r.Generation? && t[s] == t[r] ==> s == r)
    && (forall s, id :: s in t && s.Tagged? && id in s.ids ==> id in drawn)
  }

  ghost predicate Fresh(ids: seq<string>, drawn: set<string>) {
    && (forall i :: 0 <= i < |ids| ==> Plain(ids[i]) && ids[i] !in drawn)
    && (forall i, j :: 0 <= i < j < |ids| ==> ids[i] != ids[j])
  }

  ghost function Elements(ids: seq<string>): set<string> {
    set id | id in ids
  }

  // -------------------------------------------------- the four table changes

  /** A new generation hides every entry of the tag, and only those. */
  lemma GenerationSet(t: Table, drawn: set<string>, tenant: string, name: string, id: string)
    requires Inv(t, drawn) && Plain(id) && id !in drawn
    ensures Inv(t[Generation(tenant, name) := id], drawn + {id})
    ensures forall item :: Lookup(t[Generation(tenant, name) := id], item)
                        == if item.tenant == tenant && name in item.names then None else Lookup(t, item)
  {
    var t' := t[Generation(tenant, name) := id];
    forall item: Item
      ensures Lookup(t', item) == if item.tenant == tenant && name in item.names then None else Lookup(t, item)
    {
      if item.tenant == tenant && name in item.names {
        HiddenByFresh(t, drawn, item, name, id);
      } else {
        SameGenerations(t, t', item);
      }
    }
  }

  lemma HiddenByFresh(t: Table, drawn: set<string>, item: Item, name: string, id: string)
    requires Inv(t, drawn) && id !in drawn && name in item.names
    ensures Lookup(t[Generation(item.tenant, name) := id], item) == None
  {
    var t' := t[Generation(item.tenant, name) := id];
    if HasAll(t', item.tenant, item.names) {
      var i :| 0 <= i < |item.names| && item.names[i] == name;
      assert Generations(t', item.tenant, item.names)[i] == id;
    }
  }

  /** With the same generations and the same entry, an item reads the same. */
  lemma SameGenerations(t: Table, t': Table, item: Item)
    requires forall n :: n in item.names ==> SLOTS.Current(t, item.tenant, n) == SLOTS.Current(t', item.tenant, n)
    requires forall s: Slot :: !s.Generation? ==> (s in t <==> s in t') && (s in t ==> t[s] == t'[s])
    ensures Lookup(t', item) == Lookup(t, item)
  {
    assert forall i :: 0 <= i < |item.names| ==> item.names[i] in item.names;
    if HasAll(t, item.tenant, item.names) {
      assert Generations(t, item.tenant, item.names) == Generations(t', item.tenant, item.names);
    }
  }

  lemma GenerationDropped(t: Table, drawn: set<string>, tenant: string, name: string)
    requires Inv(t, drawn)
    ensures Inv(t - {Generation(tenant, name)}, drawn)
    ensures forall item :: Lookup(t - {Generation(tenant, name)}, item)
                        == if item.tenant == tenant && name in item.names then None else Lookup(t, item)
  {
    var t' := t - {Generation(tenant, name)};
    forall item: Item
      ensures Lookup(t', item) == if item.tenant == tenant && name in item.names then None else Lookup(t, item)
    {
      if item.tenant == tenant && name in item.names {
        var i :| 0 <= i < |item.names| && item.names[i] == name;
        assert SLOTS.Current(t', tenant, item.names[i]).None?;
      } else {
        SameGenerations(t, t', item);
      }
    }
  }

  /** Two items at one entry are one item, because no two tags share a generation. */
  lemma EntryTellsItem(t: Table, drawn: set<string>, a: Item, b: Item)
    requires Inv(t, drawn) && HasAll(t, a.tenant, a.names) && HasAll(t, b.tenant, b.names)
    requires EntryOf(t, a) == EntryOf(t, b)
    ensures a == b
  {
    var x, y := Generations(t, a.tenant, a.names), Generations(t, b.tenant, b.names);
    assert |x| == |a.names| && |y| == |b.names|;
    forall i | 0 <= i < |a.names| ensures a.names[i] == b.names[i] {
      assert x[i] == y[i];
      assert t[Generation(a.tenant, a.names[i])] == t[Generation(b.tenant, b.names[i])];
    }
  }

  lemma EntrySet(t: Table, drawn: set<string>, item: Item, value: string)
    requires Inv(t, drawn) && HasAll(t, item.tenant, item.names)
    ensures Inv(t[EntryOf(t, item) := value], drawn)
    ensures forall j :: Lookup(t[EntryOf(t, item) := value], j) == if j == item then Some(value) else Lookup(t, j)
  {
    var t' := t[EntryOf(t, item) := value];
    assert forall n, k :: SLOTS.Current(t', n, k) == SLOTS.Current(t, n, k);
    forall j: Item ensures Lookup(t', j) == if j == item then Some(value) else Lookup(t, j) {
      if HasAll(t, j.tenant, j.names) {
        assert Generations(t', j.tenant, j.names) == Generations(t, j.tenant, j.names);
        if EntryOf(t, j) == EntryOf(t, item) { EntryTellsItem(t, drawn, j, item); }
      }
    }
  }

  lemma EntryDropped(t: Table, drawn: set<string>, item: Item)
    requires Inv(t, drawn) && HasAll(t, item.tenant, item.names)
    ensures Inv(t - {EntryOf(t, item)}, drawn)
    ensures forall j :: Lookup(t - {EntryOf(t, item)}, j) == if j == item then None else Lookup(t, j)
  {
    var t' := t - {EntryOf(t, item)};
    assert forall n, k :: SLOTS.Current(t', n, k) == SLOTS.Current(t, n, k);
    forall j: Item ensures Lookup(t', j) == if j == item then None else Lookup(t, j) {
      if HasAll(t, j.tenant, j.names) {
        assert Generations(t', j.tenant, j.names) == Generations(t, j.tenant, j.names);
        if EntryOf(t, j) == EntryOf(t, item) { EntryTellsItem(t, drawn, j, item); }
      }
    }
  }
}

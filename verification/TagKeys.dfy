/**
 The three kinds of key a cache uses under one tenant: where a tag's generation is kept, where a tagged
 item is, whose key carries a digest of the generations of its tags, and where an untagged item is.
 */
module TagKeys {
  import opened Keys

  /** A tag name TagKey accepts. */
  predicate ValidTag(name: string) {
    name != "" && ':' !in name
  }

  /** A generation id: base 36 and hexadecimal digits, at least sixteen of them. */
  predicate Plain(id: string) {
    id != "" && '|' !in id
  }

  function Join(ids: seq<string>): string {
    if ids == [] then ""
    else if |ids| == 1 then ids[0]
    else ids[0] + ['|'] + Join(ids[1..])
  }

  /** A place in the store, before it is rendered as a string. */
  datatype Slot =
    | Generation(tenant: string, name: string)
    | Tagged(tenant: string, namespace: string, ids: seq<string>, key: string)
    | Untagged(tenant: string, namespace: string, key: string)
  {
    predicate Sound() {
      match this
      case Generation(tenant, name) => ValidTenant(tenant) && ValidTag(name)
      case Tagged(tenant, namespace, ids, key) =>
        ValidTenant(tenant) && ValidTenant(namespace) && key != "" && ids != [] && forall id :: id in ids ==> Plain(id)
      case Untagged(tenant, namespace, key) => ValidTenant(tenant) && ValidTenant(namespace) && key != ""
    }

    /** Generations live in the namespace "tag". */
    function Space(): string {
      if Generation? then "tag" else namespace
    }

    /** What follows tenant and namespace in the key. */
    function Rest(digest: string -> string): string {
      match this
      case Generation(_, name) => name + [':'] + "key"
      case Tagged(_, _, ids, key) => digest(Join(ids)) + [':'] + key
      case Untagged(_, _, key) => key
    }
  }

  function Render(digest: string -> string, slot: Slot): string {
    "cache:" + slot.tenant + ":" + slot.Space() + ":" + slot.Rest(digest)
  }

  const DIGEST: nat := 40

  /** On these strings the digest has no collision; being hexadecimal, it has its width and holds no separator. */
  ghost predicate CollisionFree(digest: string -> string, joins: set<string>) {
    && (forall x, y :: x in joins && y in joins && digest(x) == digest(y) ==> x == y)
    && (forall x :: x in joins ==> ':' !in digest(x) && |digest(x)| == DIGEST)
  }

  /** What the place digests, if it does, is one of these. */
  predicate Digested(joins: set<string>, slot: Slot) {
    slot.Tagged? ==> Join(slot.ids) in joins
  }

  lemma {:induction false} JoinInjective(a: seq<string>, b: seq<string>)
    requires a != [] && b != [] && Join(a) == Join(b)
    requires (forall id :: id in a ==> Plain(id)) && (forall id :: id in b ==> Plain(id))
    ensures a == b
  {
    assert a[0] in a && b[0] in b;
    BarBetween(a);
    BarBetween(b);
    if |a| > 1 && |b| > 1 {
      CutAtFirst(a[0], Join(a[1..]), b[0], Join(b[1..]), '|');
      JoinInjective(a[1..], b[1..]);
      assert a == [a[0]] + a[1..] && b == [b[0]] + b[1..];
    }
  }

  lemma BarBetween(ids: seq<string>)
    requires ids != [] && forall id :: id in ids ==> Plain(id)
    ensures '|' in Join(ids) <==> |ids| > 1
  {
    assert ids[0] in ids;
    if |ids| > 1 { assert Join(ids)[|ids[0]|] == '|'; }
  }

  /** Tenant, namespace and what follows are all in the key. */
  lemma SamePlace(digest: string -> string, a: Slot, b: Slot)
    requires a.Sound() && b.Sound()
    ensures Render(digest, a) == Render(digest, b) <==>
            a.tenant == b.tenant && a.Space() == b.Space() && a.Rest(digest) == b.Rest(digest)
  {
    if Render(digest, a) == Render(digest, b) {
      FullKeyInjective(a.tenant, a.Space(), a.Rest(digest), b.tenant, b.Space(), b.Rest(digest));
    }
  }

  /** Two places of different kinds that share a key, the first being the one with the simpler key. */
  predicate Clash(digest: string -> string, a: Slot, b: Slot) {
    && a.tenant == b.tenant && a.Space() == b.Space()
    && if a.Untagged? && b.Generation? then a.key == b.name + [':'] + "key"
       else if a.Untagged? && b.Tagged? then a.key == digest(Join(b.ids)) + [':'] + b.key
       else a.Generation? && b.Tagged? && b.key == "key" && a.name == digest(Join(b.ids))
  }

  lemma SameRest(digest: string -> string, joins: set<string>, a: Slot, b: Slot)
    requires CollisionFree(digest, joins) && a.Sound() && b.Sound() && Digested(joins, a) && Digested(joins, b)
    requires a.tenant == b.tenant && a.Space() == b.Space() && a.Rest(digest) == b.Rest(digest)
    ensures a == b || Clash(digest, a, b) || Clash(digest, b, a)
  {
    if a.Generation? && b.Generation? {
      CutAtFirst(a.name, "key", b.name, "key", ':');
    } else if a.Tagged? && b.Tagged? {
      CutAtFirst(digest(Join(a.ids)), a.key, digest(Join(b.ids)), b.key, ':');
      JoinInjective(a.ids, b.ids);
    } else if a.Generation? && b.Tagged? {
      CutAtFirst(a.name, "key", digest(Join(b.ids)), b.key, ':');
    } else if a.Tagged? && b.Generation? {
      CutAtFirst(b.name, "key", digest(Join(a.ids)), a.key, ':');
    }
  }

  /**
   Two places share a key exactly when they are one place, or an untagged key spells a generation or a
   tagged item, or a tagged item called "key" in the namespace "tag" spells a generation; where the digest
   does not collide on what the two places digest.
   */
  lemma CollidesExactly(digest: string -> string, joins: set<string>, a: Slot, b: Slot)
    requires CollisionFree(digest, joins) && a.Sound() && b.Sound() && Digested(joins, a) && Digested(joins, b)
    ensures Render(digest, a) == Render(digest, b) <==> a == b || Clash(digest, a, b) || Clash(digest, b, a)
  {
    SamePlace(digest, a, b);
    if a.tenant == b.tenant && a.Space() == b.Space() && a.Rest(digest) == b.Rest(digest) {
      SameRest(digest, joins, a, b);
    }
  }

  /** A place that shares its key with none of another kind. */
  ghost predicate Apart(digest: string -> string, joins: set<string>, slot: Slot) {
    match slot
    case Generation(_, _) => true
    case Tagged(_, namespace, _, key) => namespace != "tag" || key != "key"
    case Untagged(_, namespace, key) =>
      && (namespace == "tag" ==> forall name :: ValidTag(name) ==> key != name + [':'] + "key")
      && forall x, rest :: x in joins ==> key != digest(x) + [':'] + rest
  }

  /** Away from those, the string says which place it is. */
  lemma RenderInjective(digest: string -> string, joins: set<string>, a: Slot, b: Slot)
    requires CollisionFree(digest, joins) && a.Sound() && b.Sound() && Digested(joins, a) && Digested(joins, b)
    requires Apart(digest, joins, a) && Apart(digest, joins, b) && Render(digest, a) == Render(digest, b)
    ensures a == b
  {
    CollidesExactly(digest, joins, a, b);
  }

  /** A key that begins as a tagged item's does: so many characters without a colon, then one. */
  predicate LooksTagged(key: string) {
    DIGEST < |key| && key[DIGEST] == ':' && ':' !in key[..DIGEST]
  }

  lemma TaggedLooksTagged(key: string, d: string, rest: string)
    requires ':' !in d && |d| == DIGEST
    ensures key == d + [':'] + rest ==> LooksTagged(key)
  {
    assert (d + [':'] + rest)[..DIGEST] == d && (d + [':'] + rest)[DIGEST] == ':';
  }

  /** Outside the namespace "tag" every other untagged key is apart from everything, a colon in it or not. */
  lemma OtherKeysAreApart(digest: string -> string, joins: set<string>, slot: Slot)
    requires CollisionFree(digest, joins) && slot.Untagged? && slot.namespace != "tag" && !LooksTagged(slot.key)
    ensures Apart(digest, joins, slot)
  {
    forall x, rest | x in joins ensures slot.key != digest(x) + [':'] + rest {
      TaggedLooksTagged(slot.key, digest(x), rest);
    }
  }

  /** An untagged key without a colon is apart from everything. */
  lemma PlainKeysAreApart(digest: string -> string, joins: set<string>, slot: Slot)
    requires slot.Untagged? && ':' !in slot.key
    ensures Apart(digest, joins, slot)
  {
    forall name: string ensures slot.key != name + [':'] + "key" {
      assert (name + [':'] + "key")[|name|] == ':';
    }
    forall x, rest ensures slot.key != digest(x) + [':'] + rest {
      assert (digest(x) + [':'] + rest)[|digest(x)|] == ':';
    }
  }

  /** A flush of a namespace takes exactly what is in it; of the namespace "tag", every generation of the tenant. */
  lemma FlushReaches(digest: string -> string, slot: Slot, tenant: string, namespace: string)
    requires slot.Sound() && Prefix(tenant, namespace).Ok?
    ensures Prefix(tenant, namespace).value <= Render(digest, slot) <==>
            slot.tenant == tenant && slot.Space() == namespace
  {
    PrefixSeparates(tenant, namespace, slot.tenant, slot.Space(), slot.Rest(digest));
  }
}

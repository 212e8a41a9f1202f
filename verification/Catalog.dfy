// The tensor catalog: physical tensors by name, and aliases resolved to their storage
// (compute_image.rs).
module Catalog {
  import opened Common
  import opened ImageBuilder

  datatype Binding = Binding(
    tensorId: nat, name: string, segment: string, offset: nat, byteLength: nat, info: TensorInfo, aliasOf: Option<nat>)
  {
    predicate SharesStorage(t: TensorEntry) {
      segment == t.segment && offset == t.offset && byteLength == t.byteLength && info == t.info
    }
  }

  function PhysicalBinding(t: TensorEntry): Binding {
    Binding(t.id, t.info.name, t.segment, t.offset, t.byteLength, t.info, None)
  }

  function AliasBinding(a: AliasEntry, physical: Binding): Binding {
    physical.(tensorId := a.physicalId, name := a.logicalName, aliasOf := Some(a.physicalId))
  }

  /** `resolve_tensor_name`: the empty string when no tensor has the id. */
  function ResolveTensorName(id: nat, tensors: seq<TensorEntry>): string {
    match FindTensor(tensors, id)
    case None => ""
    case Some(t) => t.info.name
  }

  function Insert(catalog: map<string, Binding>, b: Binding): map<string, Binding> {
    catalog[b.name := b]
  }

  function Physical(tensors: seq<TensorEntry>): map<string, Binding> {
    if tensors == [] then map[] else Insert(Physical(Front(tensors)), PhysicalBinding(Last(tensors)))
  }

  /** One turn of the second pass: the lookup is in the catalog as it has grown so far. */
  function ResolveAlias(catalog: map<string, Binding>, tensors: seq<TensorEntry>, a: AliasEntry): map<string, Binding> {
    var name := ResolveTensorName(a.physicalId, tensors);
    if name in catalog then Insert(catalog, AliasBinding(a, catalog[name])) else catalog
  }

  function CatalogOf(tensors: seq<TensorEntry>, aliases: seq<AliasEntry>): map<string, Binding> {
    if aliases == [] then Physical(tensors)
    else ResolveAlias(CatalogOf(tensors, Front(aliases)), tensors, Last(aliases))
  }

  method BuildTensorCatalog(tensors: seq<TensorEntry>, aliases: seq<AliasEntry>)
    returns (catalog: map<string, Binding>)
    ensures catalog == CatalogOf(tensors, aliases)
  {
    catalog := map[];
    for i := 0 to |tensors|
      invariant catalog == Physical(tensors[..i])
    {
      AppendFrontLast(tensors[..i], tensors[i]);
      assert tensors[..i + 1] == tensors[..i] + [tensors[i]];
      catalog := catalog[tensors[i].info.name := PhysicalBinding(tensors[i])];
    }
    assert tensors[..|tensors|] == tensors;
    for j := 0 to |aliases|
      invariant catalog == CatalogOf(tensors, aliases[..j])
    {
      AppendFrontLast(aliases[..j], aliases[j]);
      assert aliases[..j + 1] == aliases[..j] + [aliases[j]];
      var name := ResolveTensorName(aliases[j].physicalId, tensors);
      if name in catalog {
        var binding := AliasBinding(aliases[j], catalog[name]);
        catalog := catalog[aliases[j].logicalName := binding];
      }
    }
    assert aliases[..|aliases|] == aliases;
  }

  // ---------------------------------------------------------------------
  // Alias resolution preserves storage
  // ---------------------------------------------------------------------

  /** Ids and names are unique and no name is empty. */
  ghost predicate WellNamed(tensors: seq<TensorEntry>) {
    && (forall i, j :: 0 <= i < j < |tensors| ==>
         tensors[i].id != tensors[j].id && tensors[i].info.name != tensors[j].info.name)
    && forall t :: t in tensors ==> t.info.name != ""
  }

  ghost predicate IsPhysical(tensors: seq<TensorEntry>, name: string) {
    exists t :: t in tensors && t.info.name == name
  }

  /** No alias takes a physical tensor's name, and none is empty. */
  ghost predicate NoShadowing(tensors: seq<TensorEntry>, aliases: seq<AliasEntry>) {
    forall a :: a in aliases ==> !IsPhysical(tensors, a.logicalName) && a.logicalName != ""
  }

  /** `a` names the id of a physical tensor. */
  predicate Resolvable(tensors: seq<TensorEntry>, a: AliasEntry) {
    FindTensor(tensors, a.physicalId).Some?
  }

  /** `aliases[j]` is the last resolvable alias of its name. */
  ghost predicate Decides(tensors: seq<TensorEntry>, aliases: seq<AliasEntry>, j: int, name: string) {
    && 0 <= j < |aliases| && aliases[j].logicalName == name && Resolvable(tensors, aliases[j])
    && forall l :: j < l < |aliases| && aliases[l].logicalName == name ==> !Resolvable(tensors, aliases[l])
  }

  /** The entry is that of the tensor itself: its id, its name and its storage, and no alias. */
  predicate Stands(b: Binding, t: TensorEntry) {
    b.tensorId == t.id && b.name == t.info.name && b.SharesStorage(t) && b.aliasOf.None?
  }

  /** What a catalog should say: every physical name keeps its own entry, which is no alias, and
      every other name stands for the tensor of the alias that decides it. */
  ghost predicate Faithful(tensors: seq<TensorEntry>, aliases: seq<AliasEntry>, catalog: map<string, Binding>) {
    && (forall t :: t in tensors ==> t.info.name in catalog && Stands(catalog[t.info.name], t))
    && (forall a :: a in aliases && Resolvable(tensors, a) ==> a.logicalName in catalog)
    && (forall name :: name in catalog && !IsPhysical(tensors, name) ==>
         exists j :: Denotes(tensors, aliases, j, name, catalog[name]))
  }

  /** The binding is that of an alias of a physical tensor. */
  ghost predicate Denotes(tensors: seq<TensorEntry>, aliases: seq<AliasEntry>, j: int, name: string, b: Binding) {
    && Decides(tensors, aliases, j, name)
    && var t := FindTensor(tensors, aliases[j].physicalId).value;
      && b.SharesStorage(t) && b.name == name && b.tensorId == t.id && b.aliasOf == Some(t.id)
  }

  /** The catalog maps each name to its tensor and holds no other name. */
  ghost predicate Lists(tensors: seq<TensorEntry>, catalog: map<string, Binding>) {
    && (forall t :: t in tensors ==> t.info.name in catalog && catalog[t.info.name] == PhysicalBinding(t))
    && (forall name :: name in catalog ==> IsPhysical(tensors, name))
  }

  lemma ListsMore(tensors: seq<TensorEntry>, catalog: map<string, Binding>, t: TensorEntry)
    requires Lists(tensors, catalog) && !IsPhysical(tensors, t.info.name)
    ensures Lists(tensors + [t], Insert(catalog, PhysicalBinding(t)))
  {
    var all, next := tensors + [t], Insert(catalog, PhysicalBinding(t));
    assert t in all;
    forall name | name in next
      ensures IsPhysical(all, name)
    {
      if name != t.info.name {
        var u :| u in tensors && u.info.name == name;
        assert u in all;
      }
    }
  }

  lemma LastNameNew(tensors: seq<TensorEntry>)
    requires tensors != [] && WellNamed(tensors)
    ensures WellNamed(Front(tensors)) && !IsPhysical(Front(tensors), Last(tensors).info.name)
  {
    forall t | t in Front(tensors)
      ensures t.info.name != Last(tensors).info.name && t in tensors
    {
      var i :| 0 <= i < |tensors| - 1 && tensors[i] == t;
    }
  }

  lemma {:induction false} PhysicalFaithful(tensors: seq<TensorEntry>)
    requires WellNamed(tensors)
    ensures Lists(tensors, Physical(tensors))
  {
    if tensors != [] {
      hide WellNamed, Lists, IsPhysical;
      LastNameNew(tensors);
      PhysicalFaithful(Front(tensors));
      ListsMore(Front(tensors), Physical(Front(tensors)), Last(tensors));
      FrontLast(tensors);
    }
  }

  // ---------------------------------------------------------------------
  // The exact condition
  // ---------------------------------------------------------------------

  /** An earlier alias has a tensor and an empty name: from then on even unknown ids resolve. */
  ghost predicate EmptyNameBefore(tensors: seq<TensorEntry>, aliases: seq<AliasEntry>, j: int) {
    exists i :: 0 <= i < j && i < |aliases| && Resolvable(tensors, aliases[i]) && aliases[i].logicalName == ""
  }

  /** `aliases[j]` writes an entry when its turn comes. */
  ghost predicate Inserts(tensors: seq<TensorEntry>, aliases: seq<AliasEntry>, j: int) {
    0 <= j < |aliases| && (Resolvable(tensors, aliases[j]) || EmptyNameBefore(tensors, aliases, j))
  }

  ghost predicate Writes(tensors: seq<TensorEntry>, aliases: seq<AliasEntry>, j: int, name: string) {
    Inserts(tensors, aliases, j) && aliases[j].logicalName == name
  }

  ghost predicate Taken(tensors: seq<TensorEntry>, aliases: seq<AliasEntry>, name: string) {
    exists j :: Writes(tensors, aliases, j, name)
  }

  ghost predicate WritesLast(tensors: seq<TensorEntry>, aliases: seq<AliasEntry>, j: int, name: string) {
    Writes(tensors, aliases, j, name) && forall l :: j < l ==> !Writes(tensors, aliases, l, name)
  }

  /** What is known of the entry that `aliases[j]` wrote. */
  ghost predicate Written(tensors: seq<TensorEntry>, aliases: seq<AliasEntry>, j: int, b: Binding)
    requires 0 <= j < |aliases|
  {
    var found := FindTensor(tensors, aliases[j].physicalId);
    && b.name == aliases[j].logicalName && b.tensorId == aliases[j].physicalId && b.aliasOf == Some(aliases[j].physicalId)
    && (found.Some? && !Taken(tensors, aliases, found.value.info.name) ==> b.SharesStorage(found.value))
  }

  /** The catalog of any alias table, clean or not. */
  ghost predicate Holds(tensors: seq<TensorEntry>, aliases: seq<AliasEntry>, catalog: map<string, Binding>) {
    && (forall name :: name in catalog <==> IsPhysical(tensors, name) || Taken(tensors, aliases, name))
    && (forall t :: t in tensors && !Taken(tensors, aliases, t.info.name) ==>
         t.info.name in catalog && catalog[t.info.name] == PhysicalBinding(t))
    && (forall name :: name in catalog && Taken(tensors, aliases, name) ==>
         exists j :: WritesLast(tensors, aliases, j, name) && Written(tensors, aliases, j, catalog[name]))
  }

  lemma WritesMore(tensors: seq<TensorEntry>, aliases: seq<AliasEntry>, a: AliasEntry, j: int, name: string)
    requires j != |aliases|
    ensures Writes(tensors, aliases + [a], j, name) <==> Writes(tensors, aliases, j, name)
  {
    var all := aliases + [a];
    assert forall i :: 0 <= i < |aliases| ==> all[i] == aliases[i];
    if 0 <= j < |aliases| {
      assert EmptyNameBefore(tensors, all, j) <==> EmptyNameBefore(tensors, aliases, j);
    }
  }

  /** The new alias writes exactly if its lookup finds something. */
  lemma LookupFinds(tensors: seq<TensorEntry>, aliases: seq<AliasEntry>, catalog: map<string, Binding>, a: AliasEntry)
    requires WellNamed(tensors) && Holds(tensors, aliases, catalog)
    ensures ResolveTensorName(a.physicalId, tensors) in catalog <==> Inserts(tensors, aliases + [a], |aliases|)
  {
    var all := aliases + [a];
    assert forall i :: 0 <= i < |aliases| ==> all[i] == aliases[i];
    assert !IsPhysical(tensors, "");
    if FindTensor(tensors, a.physicalId).None? {
      if Taken(tensors, aliases, "") {
        var j :| Writes(tensors, aliases, j, "");
        if !Resolvable(tensors, aliases[j]) {
          var i :| 0 <= i < j && i < |aliases| && Resolvable(tensors, aliases[i]) && aliases[i].logicalName == "";
          assert Resolvable(tensors, all[i]) && all[i].logicalName == "";
        }
        assert EmptyNameBefore(tensors, all, |aliases|);
      }
      if EmptyNameBefore(tensors, all, |aliases|) {
        var i :| 0 <= i < |aliases| && Resolvable(tensors, all[i]) && all[i].logicalName == "";
        assert Writes(tensors, aliases, i, "");
      }
    }
  }

  lemma TakenMore(tensors: seq<TensorEntry>, aliases: seq<AliasEntry>, a: AliasEntry, name: string)
    ensures var all := aliases + [a];
      Taken(tensors, all, name) <==> Taken(tensors, aliases, name) || Writes(tensors, all, |aliases|, name)
  {
    var all := aliases + [a];
    hide Writes;
    if Taken(tensors, all, name) {
      var j :| Writes(tensors, all, j, name);
      if j != |aliases| {
        WritesMore(tensors, aliases, a, j, name);
      }
    }
    if Taken(tensors, aliases, name) {
      var j :| Writes(tensors, aliases, j, name);
      InRange(tensors, aliases, j, name);
      WritesMore(tensors, aliases, a, j, name);
    }
  }

  lemma InRange(tensors: seq<TensorEntry>, aliases: seq<AliasEntry>, j: int, name: string)
    requires Writes(tensors, aliases, j, name)
    ensures 0 <= j < |aliases|
  {
  }

  /** An entry that the new alias does not touch. */
  lemma WrittenKeeps(tensors: seq<TensorEntry>, aliases: seq<AliasEntry>, a: AliasEntry, j: int, name: string, b: Binding)
    requires WritesLast(tensors, aliases, j, name) && 0 <= j < |aliases| && Written(tensors, aliases, j, b)
    requires !Writes(tensors, aliases + [a], |aliases|, name)
    ensures WritesLast(tensors, aliases + [a], j, name) && Written(tensors, aliases + [a], j, b)
  {
    var all := aliases + [a];
    WritesMore(tensors, aliases, a, j, name);
    forall l | j < l
      ensures !Writes(tensors, all, l, name)
    {
      if l != |aliases| {
        WritesMore(tensors, aliases, a, l, name);
      }
    }
    assert all[j] == aliases[j];
    var own := FindTensor(tensors, aliases[j].physicalId);
    if own.Some? {
      TakenMore(tensors, aliases, a, own.value.info.name);
    }
  }

  /** The entry that the new alias writes. */
  lemma WrittenNow(tensors: seq<TensorEntry>, aliases: seq<AliasEntry>, catalog: map<string, Binding>, a: AliasEntry)
    requires Holds(tensors, aliases, catalog) && Writes(tensors, aliases + [a], |aliases|, a.logicalName)
    requires ResolveTensorName(a.physicalId, tensors) in catalog
    ensures var b := AliasBinding(a, catalog[ResolveTensorName(a.physicalId, tensors)]);
      WritesLast(tensors, aliases + [a], |aliases|, a.logicalName) && Written(tensors, aliases + [a], |aliases|, b)
  {
    var all, found := aliases + [a], FindTensor(tensors, a.physicalId);
    forall l | |aliases| < l
      ensures !Writes(tensors, all, l, a.logicalName)
    {
    }
    if found.Some? {
      TakenMore(tensors, aliases, a, found.value.info.name);
    }
    hide Writes;
  }

  lemma HoldsStep(tensors: seq<TensorEntry>, aliases: seq<AliasEntry>, catalog: map<string, Binding>, a: AliasEntry)
    requires WellNamed(tensors) && Holds(tensors, aliases, catalog)
    ensures Holds(tensors, aliases + [a], ResolveAlias(catalog, tensors, a))
  {
    var all, next, key := aliases + [a], ResolveAlias(catalog, tensors, a), ResolveTensorName(a.physicalId, tensors);
    LookupFinds(tensors, aliases, catalog, a);
    assert forall name :: Writes(tensors, all, |aliases|, name) <==> key in catalog && name == a.logicalName;
    if key in catalog {
      WrittenNow(tensors, aliases, catalog, a);
    }
    hide Writes, Written, WritesLast, Inserts, IsPhysical, WellNamed, Taken;
    forall name
      ensures name in next <==> IsPhysical(tensors, name) || Taken(tensors, all, name)
    {
      TakenMore(tensors, aliases, a, name);
    }
    forall t | t in tensors && !Taken(tensors, all, t.info.name)
      ensures t.info.name in next && next[t.info.name] == PhysicalBinding(t)
    {
      TakenMore(tensors, aliases, a, t.info.name);
    }
    forall name | name in next && Taken(tensors, all, name)
      ensures exists j :: WritesLast(tensors, all, j, name) && Written(tensors, all, j, next[name])
    {
      TakenMore(tensors, aliases, a, name);
      if !(key in catalog && name == a.logicalName) {
        var j :| WritesLast(tensors, aliases, j, name) && Written(tensors, aliases, j, catalog[name]);
        WrittenKeeps(tensors, aliases, a, j, name, catalog[name]);
      }
    }
  }

  lemma {:induction false} CatalogHolds(tensors: seq<TensorEntry>, aliases: seq<AliasEntry>)
    requires WellNamed(tensors)
    ensures Holds(tensors, aliases, CatalogOf(tensors, aliases))
  {
    if aliases == [] {
      PhysicalFaithful(tensors);
    } else {
      CatalogHolds(tensors, Front(aliases));
      FrontLast(aliases);
      HoldsStep(tensors, Front(aliases), CatalogOf(tensors, Front(aliases)), Last(aliases));
    }
  }

  /** No alias that writes takes a physical name, and what an alias of an unknown id writes is
      written over by a later alias of a tensor. */
  ghost predicate Clean(tensors: seq<TensorEntry>, aliases: seq<AliasEntry>) {
    forall j :: Inserts(tensors, aliases, j) ==>
      && !IsPhysical(tensors, aliases[j].logicalName)
      && (Resolvable(tensors, aliases[j]) || exists k :: j < k && ResolvableAs(tensors, aliases, k, aliases[j].logicalName))
  }

  ghost predicate ResolvableAs(tensors: seq<TensorEntry>, aliases: seq<AliasEntry>, k: int, name: string) {
    0 <= k < |aliases| && Resolvable(tensors, aliases[k]) && aliases[k].logicalName == name
  }

  lemma CleanIsFaithful(tensors: seq<TensorEntry>, aliases: seq<AliasEntry>, catalog: map<string, Binding>)
    requires Holds(tensors, aliases, catalog) && Clean(tensors, aliases)
    ensures Faithful(tensors, aliases, catalog)
  {
    forall t | t in tensors
      ensures !Taken(tensors, aliases, t.info.name)
    {
      assert IsPhysical(tensors, t.info.name);
    }
    forall a | a in aliases && Resolvable(tensors, a)
      ensures a.logicalName in catalog
    {
      var j :| 0 <= j < |aliases| && aliases[j] == a;
      assert Writes(tensors, aliases, j, a.logicalName);
    }
    forall name | name in catalog && !IsPhysical(tensors, name)
      ensures exists j :: Denotes(tensors, aliases, j, name, catalog[name])
    {
      var j :| WritesLast(tensors, aliases, j, name) && Written(tensors, aliases, j, catalog[name]);
      LastIsResolvable(tensors, aliases, j, name);
      var found := FindTensor(tensors, aliases[j].physicalId);
      assert found.value in tensors;
      assert Denotes(tensors, aliases, j, name, catalog[name]);
    }
  }

  lemma LastIsResolvable(tensors: seq<TensorEntry>, aliases: seq<AliasEntry>, j: int, name: string)
    requires WritesLast(tensors, aliases, j, name) && Clean(tensors, aliases)
    ensures 0 <= j < |aliases| && Resolvable(tensors, aliases[j]) && Decides(tensors, aliases, j, name)
  {
    forall l | j < l < |aliases| && aliases[l].logicalName == name
      ensures !Resolvable(tensors, aliases[l])
    {
      assert !Writes(tensors, aliases, l, name);
    }
    assert forall k :: ResolvableAs(tensors, aliases, k, name) ==> Writes(tensors, aliases, k, name);
  }

  lemma FaithfulIsClean(tensors: seq<TensorEntry>, aliases: seq<AliasEntry>, catalog: map<string, Binding>)
    requires Holds(tensors, aliases, catalog) && Faithful(tensors, aliases, catalog)
    ensures Clean(tensors, aliases)
  {
    hide Holds, Faithful, Inserts, IsPhysical, Resolvable, ResolvableAs;
    forall j | Inserts(tensors, aliases, j)
      ensures 0 <= j < |aliases| && !IsPhysical(tensors, aliases[j].logicalName)
      ensures Resolvable(tensors, aliases[j]) || exists k :: j < k && ResolvableAs(tensors, aliases, k, aliases[j].logicalName)
    {
      WriterIsClean(tensors, aliases, catalog, j);
    }
  }

  lemma WriterIsClean(tensors: seq<TensorEntry>, aliases: seq<AliasEntry>, catalog: map<string, Binding>, j: int)
    requires Holds(tensors, aliases, catalog) && Faithful(tensors, aliases, catalog) && Inserts(tensors, aliases, j)
    ensures 0 <= j < |aliases| && !IsPhysical(tensors, aliases[j].logicalName)
    ensures Resolvable(tensors, aliases[j]) || exists k :: j < k && ResolvableAs(tensors, aliases, k, aliases[j].logicalName)
  {
    var name := aliases[j].logicalName;
    assert Writes(tensors, aliases, j, name);
    var last := LastWriter(tensors, aliases, catalog, j, name);
    hide Holds, Inserts, Writes, Resolvable;
    if !IsPhysical(tensors, name) && !Resolvable(tensors, aliases[j]) {
      var d :| Denotes(tensors, aliases, d, name, catalog[name]);
      assert ResolvableAs(tensors, aliases, last, name);
    }
  }

  /** The alias whose entry is in the catalog. */
  lemma LastWriter(tensors: seq<TensorEntry>, aliases: seq<AliasEntry>, catalog: map<string, Binding>, j: int, name: string)
    returns (last: int)
    requires Holds(tensors, aliases, catalog) && Writes(tensors, aliases, j, name)
    ensures name in catalog && j <= last < |aliases| && aliases[last].logicalName == name
    ensures catalog[name].aliasOf == Some(aliases[last].physicalId)
  {
    assert Taken(tensors, aliases, name);
    last :| WritesLast(tensors, aliases, last, name) && Written(tensors, aliases, last, catalog[name]);
  }

  /** Alias resolution is faithful for exactly the clean alias tables. */
  lemma {:induction false} CatalogFaithfulIff(tensors: seq<TensorEntry>, aliases: seq<AliasEntry>)
    requires WellNamed(tensors)
    ensures Faithful(tensors, aliases, CatalogOf(tensors, aliases)) <==> Clean(tensors, aliases)
  {
    CatalogHolds(tensors, aliases);
    hide *;
    var catalog := CatalogOf(tensors, aliases);
    if Clean(tensors, aliases) {
      CleanIsFaithful(tensors, aliases, catalog);
    }
    if Faithful(tensors, aliases, catalog) {
      FaithfulIsClean(tensors, aliases, catalog);
    }
  }

  lemma NoShadowingIsClean(tensors: seq<TensorEntry>, aliases: seq<AliasEntry>)
    requires NoShadowing(tensors, aliases)
    ensures Clean(tensors, aliases)
  {
    forall j | Inserts(tensors, aliases, j)
      ensures Resolvable(tensors, aliases[j]) && !IsPhysical(tensors, aliases[j].logicalName)
    {
      assert aliases[j] in aliases;
      assert forall i :: 0 <= i < |aliases| ==> aliases[i] in aliases;
    }
  }

  /** In particular with aliases that are not empty and take no physical name; then the keys are
      the physical names and the resolvable aliases. */
  lemma {:induction false} CatalogFaithful(tensors: seq<TensorEntry>, aliases: seq<AliasEntry>)
    requires WellNamed(tensors) && NoShadowing(tensors, aliases)
    ensures Faithful(tensors, aliases, CatalogOf(tensors, aliases))
    ensures forall name :: name in CatalogOf(tensors, aliases) <==>
              IsPhysical(tensors, name) || exists j :: Decides(tensors, aliases, j, name)
  {
    NoShadowingIsClean(tensors, aliases);
    CatalogFaithfulIff(tensors, aliases);
    FaithfulKeys(tensors, aliases, CatalogOf(tensors, aliases));
  }

  lemma FaithfulKeys(tensors: seq<TensorEntry>, aliases: seq<AliasEntry>, catalog: map<string, Binding>)
    requires Faithful(tensors, aliases, catalog)
    ensures forall name :: name in catalog <==> IsPhysical(tensors, name) || exists j :: Decides(tensors, aliases, j, name)
  {
    forall name
      ensures name in catalog ==> IsPhysical(tensors, name) || exists j :: Decides(tensors, aliases, j, name)
    {
      if name in catalog && !IsPhysical(tensors, name) {
        var j :| Denotes(tensors, aliases, j, name, catalog[name]);
        assert Decides(tensors, aliases, j, name);
      }
    }
  }

  /** Storage does not depend on the order of the alias table, when alias names are unique. */
  lemma {:induction false} AliasOrderIrrelevant(tensors: seq<TensorEntry>, aliases: seq<AliasEntry>, other: seq<AliasEntry>)
    requires WellNamed(tensors) && NoShadowing(tensors, aliases) && multiset(aliases) == multiset(other)
    requires UniqueAliases(aliases) && UniqueAliases(other)
    ensures CatalogOf(tensors, aliases) == CatalogOf(tensors, other)
  {
    assert forall a :: a in aliases <==> a in multiset(aliases);
    assert forall a :: a in other <==> a in multiset(other);
    CatalogWithin(tensors, aliases, other);
    CatalogWithin(tensors, other, aliases);
  }

  ghost predicate UniqueAliases(aliases: seq<AliasEntry>) {
    forall i, j :: 0 <= i < j < |aliases| ==> aliases[i].logicalName != aliases[j].logicalName
  }

  lemma {:induction false} CatalogWithin(tensors: seq<TensorEntry>, aliases: seq<AliasEntry>, other: seq<AliasEntry>)
    requires WellNamed(tensors) && NoShadowing(tensors, aliases) && UniqueAliases(other)
    requires forall a :: a in aliases <==> a in other
    ensures forall name :: name in CatalogOf(tensors, aliases) ==>
              name in CatalogOf(tensors, other) && CatalogOf(tensors, other)[name] == CatalogOf(tensors, aliases)[name]
  {
    var one, two := CatalogOf(tensors, aliases), CatalogOf(tensors, other);
    CatalogFaithful(tensors, aliases);
    CatalogFaithful(tensors, other);
    hide *;
    forall name | name in one
      ensures name in two && two[name] == one[name]
    {
      SameBinding(tensors, aliases, other, one, two, name);
    }
  }

  lemma SameBinding(tensors: seq<TensorEntry>, aliases: seq<AliasEntry>, other: seq<AliasEntry>,
                    one: map<string, Binding>, two: map<string, Binding>, name: string)
    requires Faithful(tensors, aliases, one) && Faithful(tensors, other, two) && name in one
    requires UniqueAliases(other) && forall a :: a in aliases <==> a in other
    ensures name in two && two[name] == one[name]
  {
    if !IsPhysical(tensors, name) {
      var j :| Denotes(tensors, aliases, j, name, one[name]);
      assert aliases[j] in aliases && aliases[j] in other;
      assert name in two;
      var k :| Denotes(tensors, other, k, name, two[name]);
      var l :| 0 <= l < |other| && other[l] == aliases[j];
      assert other[k].logicalName == other[l].logicalName;
      assert l == k;
    }
  }

  /** An alias that takes a physical name captures the aliases after it: the last one here says
      it is an alias of tensor 0 but has the storage of tensor 1. */
  lemma ShadowingCaptures(info: TensorInfo) returns (tensors: seq<TensorEntry>, aliases: seq<AliasEntry>)
    ensures WellNamed(tensors) && |tensors| == 2 && "c" in CatalogOf(tensors, aliases)
    ensures var b := CatalogOf(tensors, aliases)["c"];
      b.aliasOf == Some(tensors[0].id) && b.offset == tensors[1].offset != tensors[0].offset
  {
    var t0 := TensorEntry(0, info.(name := "a"), "persistent", 0, 64);
    var t1 := TensorEntry(1, info.(name := "b"), "persistent", 64, 64);
    tensors := [t0, t1];
    var a0, a1 := AliasEntry("a", 1), AliasEntry("c", 0);
    aliases := [a0, a1];
    assert Front(tensors) == [t0] && Front([t0]) == [] && Front(aliases) == [a0] && Front([a0]) == [];
    assert FindTensor([t1], 1) == Some(t1) && tensors[1..] == [t1];
    assert ResolveTensorName(1, tensors) == "b" && ResolveTensorName(0, tensors) == "a";
    var c0 := Physical(tensors);
    assert Physical([t0]) == Insert(map[], PhysicalBinding(t0));
    assert c0 == Insert(Physical([t0]), PhysicalBinding(t1));
    assert "b" in c0 && c0["b"] == PhysicalBinding(t1);
    var c1 := CatalogOf(tensors, [a0]);
    assert CatalogOf(tensors, []) == c0;
    assert c1 == ResolveAlias(c0, tensors, a0);
    assert c1["a"].offset == 64;
    assert CatalogOf(tensors, aliases) == ResolveAlias(c1, tensors, a1);
  }

  /** An alias of a tensor under that tensor's own name keeps the storage, but the entry turns from
      a physical one into an alias of itself: such a table is not clean. */
  lemma SelfAliasUnclean(info: TensorInfo) returns (tensors: seq<TensorEntry>, aliases: seq<AliasEntry>)
    ensures WellNamed(tensors) && |tensors| == 1 && "a" in CatalogOf(tensors, aliases)
    ensures var b := CatalogOf(tensors, aliases)["a"];
      b.SharesStorage(tensors[0]) && b.aliasOf == Some(tensors[0].id)
    ensures !Clean(tensors, aliases) && !Faithful(tensors, aliases, CatalogOf(tensors, aliases))
  {
    var t := TensorEntry(0, info.(name := "a"), "persistent", 0, 64);
    tensors, aliases := [t], [AliasEntry("a", 0)];
    assert Front(tensors) == [] && Front(aliases) == [] && Physical([]) == map[];
    assert Physical(tensors) == Insert(map[], PhysicalBinding(t));
    assert ResolveTensorName(0, tensors) == "a";
    assert CatalogOf(tensors, []) == Physical(tensors);
    assert CatalogOf(tensors, aliases) == ResolveAlias(Physical(tensors), tensors, aliases[0]);
    assert Inserts(tensors, aliases, 0) && t in tensors && IsPhysical(tensors, "a");
  }

  /** An alias with an empty name gives every alias of an unknown id something to resolve to. */
  lemma EmptyNameCatchesUnknownIds(info: TensorInfo) returns (tensors: seq<TensorEntry>, aliases: seq<AliasEntry>)
    ensures WellNamed(tensors) && (forall a :: a in aliases ==> !IsPhysical(tensors, a.logicalName))
    ensures "c" in CatalogOf(tensors, aliases)
    ensures var id := CatalogOf(tensors, aliases)["c"].aliasOf;
      id.Some? && FindTensor(tensors, id.value).None?
  {
    var t0 := TensorEntry(0, info.(name := "a"), "persistent", 0, 64);
    tensors := [t0];
    var a0, a1 := AliasEntry("", 0), AliasEntry("c", 7);
    aliases := [a0, a1];
    assert Front(tensors) == [] && Front(aliases) == [a0] && Front([a0]) == [];
    assert ResolveTensorName(0, tensors) == "a";
    assert FindTensor(tensors[1..], 7) == None && ResolveTensorName(7, tensors) == "";
    var c0 := Physical(tensors);
    assert Physical([]) == map[] && Last(tensors) == t0;
    assert c0 == Insert(map[], PhysicalBinding(t0));
    var c1 := CatalogOf(tensors, [a0]);
    assert CatalogOf(tensors, []) == c0;
    assert c1 == ResolveAlias(c0, tensors, a0);
    assert "" in c1;
    assert CatalogOf(tensors, aliases) == ResolveAlias(c1, tensors, a1);
  }
}

/** The taxonomy of a first Amazon import: the protected group and categories, and a copy of another profile's
groups and categories when the user asked for one. */
module AmazonTaxonomy {
  import opened Wrappers
  import opened Ranking
  import opened Text
  import opened MergeChains
  import opened AmazonProfile

  type Id = string

  /** The groups and categories of the profile that is copied. */
  datatype Taxonomy = Taxonomy(groups: Table, categories: Table, groupOf: map<Id, Id>, protected: set<Id>)

  function OpenGroups(t: Taxonomy): set<Id> {
    set id | id in t.groups && id !in t.protected && !t.groups[id].retired
  }

  function OpenCategories(t: Taxonomy): set<Id> {
    set id | id in t.categories && id !in t.protected && !t.categories[id].retired
  }

  /** The category's group is copied, or is the protected one. */
  predicate GroupIsCopied(t: Taxonomy, id: Id) {
    id in t.groupOf && (t.groupOf[id] == UNCATEGORIZED_GROUP || t.groupOf[id] in OpenGroups(t))
  }

  function Copy(e: Entity): Entity {
    Entity(e.text, e.key, false, None)
  }

  /** New identifiers: distinct, and none of the protected ones. */
  ghost predicate Unused(ids: seq<Id>) {
    && (forall i, j :: 0 <= i < j < |ids| ==> ids[i] != ids[j])
    && forall i :: 0 <= i < |ids| ==> ids[i] != UNCATEGORIZED_GROUP && ids[i] != UNCATEGORIZED && ids[i] != SPLIT
  }

  /** The table holds the protected entities, and under the first identifiers copies of the listed ones. */
  ghost predicate Copies(source: Table, listed: seq<Id>, ids: seq<Id>, protected: Table, copy: Table) {
    && |listed| <= |ids|
    && copy.Keys == protected.Keys + (set i | 0 <= i < |listed| :: ids[i])
    && (forall id :: id in protected ==> copy[id] == protected[id])
    && forall i :: 0 <= i < |listed| ==> listed[i] in source && copy[ids[i]] == Copy(source[listed[i]])
  }

  const PROTECTED_GROUPS: Table := map[UNCATEGORIZED_GROUP := UNCATEGORIZED_ENTITY]
  const PROTECTED_CATEGORIES: Table := map[UNCATEGORIZED := UNCATEGORIZED_ENTITY, SPLIT := SPLIT_ENTITY]

  /** Every copied category is in the copy of its group. */
  ghost predicate GroupsFollow(
    t: Taxonomy, groups: seq<Id>, categories: seq<Id>, groupIds: seq<Id>, categoryIds: seq<Id>, groupOf: map<Id, Id>)
    requires |groups| <= |groupIds| && |categories| <= |categoryIds|
  {
    && groupOf.Keys == PROTECTED_CATEGORIES.Keys + (set j | 0 <= j < |categories| :: categoryIds[j])
    && groupOf[UNCATEGORIZED] == UNCATEGORIZED_GROUP && groupOf[SPLIT] == UNCATEGORIZED_GROUP
    && forall j :: 0 <= j < |categories| ==>
         && categories[j] in t.groupOf
         && CopyOfGroup(groups, groupIds, t.groupOf[categories[j]], groupOf[categoryIds[j]])
  }

  ghost predicate CopyOfGroup(groups: seq<Id>, groupIds: seq<Id>, group: Id, copy: Id)
    requires |groups| <= |groupIds|
  {
    || (group == UNCATEGORIZED_GROUP && copy == UNCATEGORIZED_GROUP)
    || exists i :: 0 <= i < |groups| && groups[i] == group && copy == groupIds[i]
  }

  /** Adds copies of the listed entities under the first identifiers. */
  method CopyEntities(source: Table, listed: seq<Id>, ids: seq<Id>, protected: Table) returns (copy: Table)
    requires |listed| <= |ids| && Unused(ids)
    requires forall i :: 0 <= i < |listed| ==> listed[i] in source
    requires forall i :: 0 <= i < |ids| ==> ids[i] !in protected
    ensures Copies(source, listed, ids, protected, copy)
  {
    copy := protected;
    for i := 0 to |listed|
      invariant Copies(source, listed[..i], ids, protected, copy)
    {
      assert listed[..i + 1] == listed[..i] + [listed[i]];
      copy := copy[ids[i] := Copy(source[listed[i]])];
    }
    assert listed[..|listed|] == listed;
  }

  // The copy of every group a category may name.
  method MapGroups(listed: seq<Id>, ids: seq<Id>) returns (copyOf: map<Id, Id>)
    requires |listed| <= |ids|
    ensures copyOf.Keys == {UNCATEGORIZED_GROUP} + Elements(listed)
    ensures forall g :: g in copyOf ==> CopyOfGroup(listed, ids, g, copyOf[g])
  {
    copyOf := map[UNCATEGORIZED_GROUP := UNCATEGORIZED_GROUP];
    for i := 0 to |listed|
      invariant copyOf.Keys == {UNCATEGORIZED_GROUP} + Elements(listed[..i])
      invariant forall g :: g in copyOf ==> CopyOfGroup(listed, ids, g, copyOf[g])
    {
      assert listed[..i + 1] == listed[..i] + [listed[i]];
      copyOf := copyOf[listed[i] := ids[i]];
    }
    assert listed[..|listed|] == listed;
  }

  /** Puts every copied category into the copy of its group; it fails exactly when one's group is not copied. */
  method CopyMemberships(t: Taxonomy, groups: seq<Id>, categories: seq<Id>, groupIds: seq<Id>, categoryIds: seq<Id>)
    returns (r: Option<map<Id, Id>>)
    requires |groups| <= |groupIds| && |categories| <= |categoryIds| && Unused(categoryIds)
    requires Elements(groups) == OpenGroups(t)
    ensures r.None? <==> exists j :: 0 <= j < |categories| && !GroupIsCopied(t, categories[j])
    ensures r.Some? ==> GroupsFollow(t, groups, categories, groupIds, categoryIds, r.value)
  {
    hide OpenGroups, CopyOfGroup;
    var copyOf := MapGroups(groups, groupIds);
    var groupOf := map[UNCATEGORIZED := UNCATEGORIZED_GROUP, SPLIT := UNCATEGORIZED_GROUP];
    assert categories[..0] == [];
    NothingFollows(t, groups, groupIds, categoryIds);
    hide GroupsFollow;
    for j := 0 to |categories|
      invariant forall k :: 0 <= k < j ==> GroupIsCopied(t, categories[k])
      invariant GroupsFollow(t, groups, categories[..j], groupIds, categoryIds, groupOf)
    {
      var category := categories[j];
      if category !in t.groupOf || t.groupOf[category] !in copyOf {
        assert !GroupIsCopied(t, category);
        return None;
      }
      GroupsFollowOn(t, groups, categories, groupIds, categoryIds, groupOf, j, copyOf[t.groupOf[category]]);
      groupOf := groupOf[categoryIds[j] := copyOf[t.groupOf[category]]];
    }
    assert categories[..|categories|] == categories;
    return Some(groupOf);
  }

  lemma NothingFollows(t: Taxonomy, groups: seq<Id>, groupIds: seq<Id>, categoryIds: seq<Id>)
    requires |groups| <= |groupIds|
    ensures GroupsFollow(t, groups, [], groupIds, categoryIds,
        map[UNCATEGORIZED := UNCATEGORIZED_GROUP, SPLIT := UNCATEGORIZED_GROUP])
  {
  }

  /** The copy fails: too few identifiers were proposed, or a category's group cannot be copied. */
  ghost predicate CopyFails(clone: Option<Taxonomy>, groupIds: seq<Id>, categoryIds: seq<Id>) {
    && clone.Some?
    && (|OpenGroups(clone.value)| > |groupIds| || |OpenCategories(clone.value)| > |categoryIds|
        || exists id :: id in OpenCategories(clone.value) && !GroupIsCopied(clone.value, id))
  }

  /** The groups and categories of a first import: the protected ones, and copies under the proposed identifiers. */
  ghost predicate Initialized(
    p: Profile, clone: Option<Taxonomy>, groupIds: seq<Id>, categoryIds: seq<Id>, groups: seq<Id>, categories: seq<Id>,
    p': Profile)
  {
    && p' == p.(groups := p'.groups, categories := p'.categories, groupOf := p'.groupOf)
    && if clone.None? then
         && p'.groups == PROTECTED_GROUPS && p'.categories == PROTECTED_CATEGORIES
         && p'.groupOf == map[UNCATEGORIZED := UNCATEGORIZED_GROUP, SPLIT := UNCATEGORIZED_GROUP]
       else
         && Elements(groups) == OpenGroups(clone.value) && Elements(categories) == OpenCategories(clone.value)
         && Sorted(groups, TextBefore) && Sorted(categories, TextBefore)
         && Copies(clone.value.groups, groups, groupIds, PROTECTED_GROUPS, p'.groups)
         && Copies(clone.value.categories, categories, categoryIds, PROTECTED_CATEGORIES, p'.categories)
         && GroupsFollow(clone.value, groups, categories, groupIds, categoryIds, p'.groupOf)
  }

  /** Sets up the groups and categories of a profile without Amazon settings. */
  method InitializeTaxonomy(p: Profile, clone: Option<Taxonomy>, groupIds: seq<Id>, categoryIds: seq<Id>)
    returns (r: Option<Profile>, ghost groups: seq<Id>, ghost categories: seq<Id>)
    requires Unused(groupIds) && Unused(categoryIds)
    ensures r.None? <==> CopyFails(clone, groupIds, categoryIds)
    ensures r.Some? ==> Initialized(p, clone, groupIds, categoryIds, groups, categories, r.value)
  {
    hide Copies, TextBefore, Sorted, TotalOn, GroupsFollow, OpenGroups, OpenCategories, GroupIsCopied;
    groups, categories := [], [];
    if clone.None? {
      var groupOf := map[UNCATEGORIZED := UNCATEGORIZED_GROUP, SPLIT := UNCATEGORIZED_GROUP];
      return Some(p.(groups := PROTECTED_GROUPS, categories := PROTECTED_CATEGORIES, groupOf := groupOf)), groups,
          categories;
    }
    var t := clone.value;
    NamesTotal(OpenGroups(t));
    NamesTotal(OpenCategories(t));
    var gs := Sort(OpenGroups(t), TextBefore);
    groups := gs;
    if |gs| > |groupIds| {
      return None, groups, categories;
    }
    OpenAreKnown(t);
    ListedIn(gs, OpenGroups(t));
    var copied := CopyEntities(t.groups, gs, groupIds, PROTECTED_GROUPS);
    var cs := Sort(OpenCategories(t), TextBefore);
    categories := cs;
    if |cs| > |categoryIds| {
      return None, groups, categories;
    }
    ListedIn(cs, OpenCategories(t));
    var groupOf := CopyMemberships(t, gs, cs, groupIds, categoryIds);
    AllOrSome(t, cs);
    if groupOf.None? {
      return None, groups, categories;
    }
    var members := CopyEntities(t.categories, cs, categoryIds, PROTECTED_CATEGORIES);
    return Some(p.(groups := copied, categories := members, groupOf := groupOf.value)), groups, categories;
  }

  lemma OpenAreKnown(t: Taxonomy)
    ensures OpenGroups(t) <= t.groups.Keys && OpenCategories(t) <= t.categories.Keys
  {
  }

  lemma AllOrSome(t: Taxonomy, categories: seq<Id>)
    requires Elements(categories) == OpenCategories(t)
    ensures (exists j :: 0 <= j < |categories| && !GroupIsCopied(t, categories[j])) <==>
            exists id :: id in OpenCategories(t) && !GroupIsCopied(t, id)
  {
    hide GroupIsCopied, OpenCategories;
    ListedIn(categories, OpenCategories(t));
    if id :| id in OpenCategories(t) && !GroupIsCopied(t, id) {
      assert id in Elements(categories);
    }
  }

  lemma ListedIn(q: seq<Id>, s: set<Id>)
    requires Elements(q) == s
    ensures forall i :: 0 <= i < |q| ==> q[i] in s
  {
    forall i | 0 <= i < |q| ensures q[i] in s {
      assert q[i] in Elements(q);
    }
  }

  lemma GroupsFollowOn(
    t: Taxonomy, gs: seq<Id>, cs: seq<Id>, groupIds: seq<Id>, categoryIds: seq<Id>, groupOf: map<Id, Id>, j: nat,
    copy: Id)
    requires |gs| <= |groupIds| && j < |cs| <= |categoryIds| && Unused(categoryIds)
    requires GroupsFollow(t, gs, cs[..j], groupIds, categoryIds, groupOf)
    requires cs[j] in t.groupOf && CopyOfGroup(gs, groupIds, t.groupOf[cs[j]], copy)
    ensures GroupsFollow(t, gs, cs[..j + 1], groupIds, categoryIds, groupOf[categoryIds[j] := copy])
  {
    hide CopyOfGroup;
    assert cs[..j + 1] == cs[..j] + [cs[j]];
  }

  // What a copy is worth -------------------------------------------------------------------------------------

  /** The copied profile passed its own validation. */
  ghost predicate ValidTaxonomy(t: Taxonomy, collisionKey: string -> Option<string>) {
    && LabelsFit(t.groups, collisionKey) && LabelsFit(t.categories, collisionKey)
    && DistinctKeys(t.groups) && DistinctKeys(t.categories)
    && t.protected == {UNCATEGORIZED_GROUP, UNCATEGORIZED, SPLIT}
    && UNCATEGORIZED_GROUP in t.groups && t.groups[UNCATEGORIZED_GROUP] == UNCATEGORIZED_ENTITY
    && UNCATEGORIZED in t.categories && t.categories[UNCATEGORIZED] == UNCATEGORIZED_ENTITY
    && SPLIT in t.categories && t.categories[SPLIT] == SPLIT_ENTITY
    && UNCATEGORIZED !in t.groups && SPLIT !in t.groups && UNCATEGORIZED_GROUP !in t.categories
    && forall id :: id in t.categories ==>
       id in t.groupOf && t.groupOf[id] in t.groups && !t.groups[t.groupOf[id]].retired
  }

  /** A valid taxonomy can be copied whenever enough identifiers were proposed. */
  lemma ValidTaxonomyIsCopied(t: Taxonomy, collisionKey: string -> Option<string>)
    requires ValidTaxonomy(t, collisionKey)
    ensures forall id :: id in OpenCategories(t) ==> GroupIsCopied(t, id)
  {
  }

  lemma CopiedTableFits(
    source: Table, listed: seq<Id>, ids: seq<Id>, protected: Table, copy: Table, collisionKey: string -> Option<string>)
    requires Copies(source, listed, ids, protected, copy) && Unused(ids) && LabelsFit(source, collisionKey)
        && DistinctKeys(source)
    requires forall i, j :: 0 <= i < j < |listed| ==> listed[i] != listed[j]
    requires forall i :: 0 <= i < |listed| ==> listed[i] !in protected && !source[listed[i]].retired
    requires forall id :: id in protected ==>
               id in source && source[id] == protected[id] && !protected[id].retired && protected[id].destination.None?
    ensures LabelsFit(copy, collisionKey) && DistinctKeys(copy) && MergesFit(copy)
    ensures forall id :: id in copy ==> !copy[id].retired && copy[id].destination.None?
  {
    forall a | a in copy ensures !copy[a].retired && copy[a].destination.None?
        && collisionKey(copy[a].text) == Some(copy[a].key)
    {
      var s := OriginOf(source, listed, ids, protected, copy, a);
    }
    forall a, b | a in copy && b in copy && a != b ensures copy[a].key != copy[b].key {
      var s := OriginOf(source, listed, ids, protected, copy, a);
      var u := OriginOf(source, listed, ids, protected, copy, b);
    }
  }

  // The entity a copy comes from; different copies come from different entities.
  lemma OriginOf(source: Table, listed: seq<Id>, ids: seq<Id>, protected: Table, copy: Table, a: Id) returns (s: Id)
    requires Copies(source, listed, ids, protected, copy) && a in copy
    requires forall id :: id in protected ==>
               id in source && source[id] == protected[id] && !protected[id].retired && protected[id].destination.None?
    ensures s in source && copy[a] == Copy(source[s])
    ensures (a in protected && s == a) || exists i :: 0 <= i < |listed| && listed[i] == s && ids[i] == a
  {
    if a in protected {
      s := a;
    } else {
      var i :| 0 <= i < |listed| && ids[i] == a;
      s := listed[i];
    }
  }

  /** The taxonomy of a first import is valid: labels, collision keys, protected categories and every category's
  group; the copied profile's own validity is all it needs. */
  lemma InitializedIsValid(
    p: Profile, clone: Option<Taxonomy>, groupIds: seq<Id>, categoryIds: seq<Id>, groups: seq<Id>, categories: seq<Id>,
    p': Profile,
    collisionKey: string -> Option<string>)
    requires Initialized(p, clone, groupIds, categoryIds, groups, categories, p') && Unused(groupIds)
        && Unused(categoryIds)
    requires if clone.Some? then ValidTaxonomy(clone.value, collisionKey)
             else collisionKey("Uncategorized") == Some("uncategorized") && collisionKey("Split") == Some("split")
    ensures LabelsFit(p'.groups, collisionKey) && LabelsFit(p'.categories, collisionKey)
    ensures DistinctKeys(p'.groups) && DistinctKeys(p'.categories) && MergesFit(p'.groups) && MergesFit(p'.categories)
    ensures TaxonomyFits(p')
  {
    hide TextBefore, Sorted, Copies, GroupsFollow, LabelsFit, DistinctKeys, MergesFit, Unused, TaxonomyFits, OpenGroups,
         OpenCategories;
    if clone.None? {
      ProtectedAreValid(p', collisionKey);
    } else {
      var t := clone.value;
      OpenOnes(t, groups, categories, collisionKey);
      SourceHolds(t, collisionKey);
      hide ValidTaxonomy;
      CopiedTableFits(t.groups, groups, groupIds, PROTECTED_GROUPS, p'.groups, collisionKey);
      CopiedTableFits(t.categories, categories, categoryIds, PROTECTED_CATEGORIES, p'.categories, collisionKey);
      CopiedGroups(t, groups, categories, groupIds, categoryIds, p');
    }
  }

  lemma ProtectedAreValid(p: Profile, collisionKey: string -> Option<string>)
    requires p.groups == PROTECTED_GROUPS && p.categories == PROTECTED_CATEGORIES
    requires p.groupOf == map[UNCATEGORIZED := UNCATEGORIZED_GROUP, SPLIT := UNCATEGORIZED_GROUP]
    requires collisionKey("Uncategorized") == Some("uncategorized") && collisionKey("Split") == Some("split")
    ensures LabelsFit(p.groups, collisionKey) && LabelsFit(p.categories, collisionKey)
    ensures DistinctKeys(p.groups) && DistinctKeys(p.categories) && MergesFit(p.groups) && MergesFit(p.categories)
    ensures TaxonomyFits(p)
  {
    assert |UNCATEGORIZED| != |SPLIT| && |UNCATEGORIZED_ENTITY.key| != |SPLIT_ENTITY.key|;
    assert TaxonomyFits(p) by {
      hide LabelsFit, DistinctKeys, MergesFit;
    }
    hide TaxonomyFits;
    TwoEntitiesFit(p.groups, UNCATEGORIZED_GROUP, UNCATEGORIZED_ENTITY, UNCATEGORIZED_GROUP, UNCATEGORIZED_ENTITY,
        collisionKey);
    TwoEntitiesFit(p.categories, UNCATEGORIZED, UNCATEGORIZED_ENTITY, SPLIT, SPLIT_ENTITY, collisionKey);
  }

  lemma TwoEntitiesFit(t: Table, a: Id, e: Entity, b: Id, f: Entity, collisionKey: string -> Option<string>)
    requires t == map[a := e, b := f] && (a == b ==> e == f) && (a != b ==> e.key != f.key)
    requires e.destination.None? && f.destination.None?
    requires collisionKey(e.text) == Some(e.key) && collisionKey(f.text) == Some(f.key)
    ensures LabelsFit(t, collisionKey) && DistinctKeys(t) && MergesFit(t)
  {
  }

  // The same after one of the two was merged into the other.
  lemma MergedPairFits(a: Id, e: Entity, b: Id, f: Entity, collisionKey: string -> Option<string>)
    requires a != b && !f.retired && e.destination.None? && f.destination.None?
    requires collisionKey(e.text) == Some(e.key) && collisionKey(f.text) == Some(f.key)
    ensures
      var t := Merged(map[a := e, b := f], a, b);
      && LabelsFit(t, collisionKey) && DistinctKeys(t) && MergesFit(t)
      && t.Keys == {a, b} && t[b] == f && t[a].retired
  {
  }

  lemma SourceHolds(t: Taxonomy, collisionKey: string -> Option<string>)
    requires ValidTaxonomy(t, collisionKey)
    ensures LabelsFit(t.groups, collisionKey) && LabelsFit(t.categories, collisionKey)
    ensures DistinctKeys(t.groups) && DistinctKeys(t.categories)
    ensures forall id :: id in PROTECTED_GROUPS ==>
              id in t.groups && t.groups[id] == PROTECTED_GROUPS[id] && !PROTECTED_GROUPS[id].retired
              && PROTECTED_GROUPS[id].destination.None?
    ensures forall id :: id in PROTECTED_CATEGORIES ==>
              id in t.categories && t.categories[id] == PROTECTED_CATEGORIES[id] && !PROTECTED_CATEGORIES[id].retired
              && PROTECTED_CATEGORIES[id].destination.None?
  {
    hide LabelsFit, DistinctKeys;
  }

  lemma OpenOnes(t: Taxonomy, groups: seq<Id>, categories: seq<Id>, collisionKey: string -> Option<string>)
    requires ValidTaxonomy(t, collisionKey)
    requires Elements(groups) == OpenGroups(t) && Elements(categories) == OpenCategories(t)
    requires Sorted(groups, TextBefore) && Sorted(categories, TextBefore)
    ensures forall i, j :: 0 <= i < j < |groups| ==> groups[i] != groups[j]
    ensures forall i, j :: 0 <= i < j < |categories| ==> categories[i] != categories[j]
    ensures forall i :: 0 <= i < |groups| ==>
              groups[i] in t.groups && groups[i] !in PROTECTED_GROUPS && !t.groups[groups[i]].retired
    ensures forall i :: 0 <= i < |categories| ==>
              categories[i] in t.categories && categories[i] !in PROTECTED_CATEGORIES &&
              !t.categories[categories[i]].retired
  {
    hide LabelsFit, DistinctKeys, TextBefore;
    DistinctListing(groups);
    DistinctListing(categories);
    ListedIn(groups, OpenGroups(t));
    ListedIn(categories, OpenCategories(t));
  }

  lemma DistinctListing(q: seq<Id>)
    requires Sorted(q, TextBefore)
    ensures forall i, j :: 0 <= i < j < |q| ==> q[i] != q[j]
  {
    NamesTotal(Elements(q));
    hide TextBefore;
    SortedDistinct(q, TextBefore);
  }

  lemma CopyIsKnown(t: Taxonomy, groups: seq<Id>, groupIds: seq<Id>, group: Id, copy: Id, table: Table)
    requires Copies(t.groups, groups, groupIds, PROTECTED_GROUPS, table) && CopyOfGroup(groups, groupIds, group, copy)
    ensures copy in table
  {
  }

  lemma CopiedGroups(
    t: Taxonomy, groups: seq<Id>, categories: seq<Id>, groupIds: seq<Id>, categoryIds: seq<Id>, p: Profile)
    requires Copies(t.groups, groups, groupIds, PROTECTED_GROUPS, p.groups)
    requires Copies(t.categories, categories, categoryIds, PROTECTED_CATEGORIES, p.categories)
    requires GroupsFollow(t, groups, categories, groupIds, categoryIds, p.groupOf)
    requires forall id :: id in p.groups ==> !p.groups[id].retired
    ensures TaxonomyFits(p)
  {
    assert UNCATEGORIZED in PROTECTED_CATEGORIES && SPLIT in PROTECTED_CATEGORIES
        && UNCATEGORIZED_GROUP in PROTECTED_GROUPS;
    hide CopyOfGroup;
    forall id | id in p.categories ensures id in p.groupOf && p.groupOf[id] in p.groups {
      if id in PROTECTED_CATEGORIES {
        assert id == UNCATEGORIZED || id == SPLIT;
      } else {
        var j :| 0 <= j < |categories| && categoryIds[j] == id;
        assert CopyOfGroup(groups, groupIds, t.groupOf[categories[j]], p.groupOf[id]);
        CopyIsKnown(t, groups, groupIds, t.groupOf[categories[j]], p.groupOf[id], p.groups);
      }
    }
  }
}

/**
 * The two-level item-class hierarchy built at boot: item classes by class id,
 * and inside each one its subclasses by subclass id.
 */
module ItemClasses {
  import opened Keyed
  import opened MainTypes

  /** The stored form of one item class: its own fields plus its subclasses indexed by id. */
  function Entry(c: ItemClass): (e: ItemClassEntry)
    ensures e.itemClass == c.itemClass && e.name == c.name && e.subClasses == c.subClasses
    ensures e.subClassesMap.Keys == KeysOf(c.subClasses, SubclassId)
    ensures forall j :: LastWithKey(c.subClasses, SubclassId, j) ==>
      e.subClassesMap[c.subClasses[j].subclass] == c.subClasses[j]
  {
    ItemClassEntry(c.itemClass, c.name, c.subClasses, Index(c.subClasses, SubclassId))
  }

  /** Entry applied to every item class, in order. */
  function Entries(cs: seq<ItemClass>): (es: seq<ItemClassEntry>)
    ensures |es| == |cs|
    ensures forall i :: 0 <= i < |cs| ==> es[i] == Entry(cs[i])
  {
    if |cs| == 0 then [] else Entries(cs[..|cs| - 1]) + [Entry(cs[|cs| - 1])]
  }

  /** The entries of one more item class. */
  lemma EntriesPrefixStep(cs: seq<ItemClass>, i: int)
    requires 0 <= i < |cs|
    ensures Entries(cs[..i + 1]) == Entries(cs[..i]) + [Entry(cs[i])]
  {
    assert cs[..i + 1][..i] == cs[..i];
  }

  /** Building the hierarchy of one more item class stores its entry over whatever its id held. */
  lemma HierarchyPrefixStep(cs: seq<ItemClass>, i: int)
    requires 0 <= i < |cs|
    ensures Index(Entries(cs[..i + 1]), EntryClassId) ==
            Index(Entries(cs[..i]), EntryClassId)[cs[i].itemClass := Entry(cs[i])]
  {
    var es := Entries(cs[..i + 1]);
    EntriesPrefixStep(cs, i);
    assert es[..i] == Entries(cs[..i]) && es[i] == Entry(cs[i]);
    IndexPrefixStep(es, EntryClassId, i);
    assert es[..i + 1] == es;
  }

  /** The entries carry exactly the class ids of the item classes. */
  lemma EntriesKeys(cs: seq<ItemClass>)
    ensures KeysOf(Entries(cs), EntryClassId) == KeysOf(cs, ItemClassId)
  {
    var es := Entries(cs);
    forall k | k in KeysOf(cs, ItemClassId) ensures k in KeysOf(es, EntryClassId) {
      var i :| 0 <= i < |cs| && ItemClassId(cs[i]) == k;
      assert EntryClassId(es[i]) == k;
    }
  }

  /**
   * The hierarchy as the index of the entries by class id: its keys are the
   * class ids of the item classes, and each id holds an entry for that id.
   */
  function ItemClassHierarchy(cs: seq<ItemClass>): (r: map<int, ItemClassEntry>)
    ensures r.Keys == KeysOf(cs, ItemClassId)
    ensures forall id :: id in r ==> r[id].itemClass == id
  {
    EntriesKeys(cs);
    Index(Entries(cs), EntryClassId)
  }

  /**
   * Every item class is stored under its id, the last one winning for a
   * repeated id; the stored entry keeps the class, its name and its original
   * subclass list, and maps each subclass id to the last subclass with it.
   */
  lemma ItemClassHierarchyShape(cs: seq<ItemClass>)
    ensures ItemClassHierarchy(cs).Keys == KeysOf(cs, ItemClassId)
    ensures forall i :: LastWithKey(cs, ItemClassId, i) ==>
      var e := ItemClassHierarchy(cs)[cs[i].itemClass];
      && e.itemClass == cs[i].itemClass && e.name == cs[i].name && e.subClasses == cs[i].subClasses
      && e.subClassesMap.Keys == KeysOf(cs[i].subClasses, SubclassId)
      && forall j :: LastWithKey(cs[i].subClasses, SubclassId, j) ==>
           e.subClassesMap[cs[i].subClasses[j].subclass] == cs[i].subClasses[j]
  {
    var es := Entries(cs);
    forall i | LastWithKey(cs, ItemClassId, i) ensures ItemClassHierarchy(cs)[cs[i].itemClass] == Entry(cs[i]) {
      assert LastWithKey(es, EntryClassId, i) by {
        forall j | i < j < |es| ensures EntryClassId(es[j]) != EntryClassId(es[i]) {
          assert ItemClassId(cs[j]) != ItemClassId(cs[i]);
        }
      }
    }
  }

  /**
   * The boot loop: for every item class, fill a fresh subclass dictionary one
   * subclass at a time, then store the entry under the class id, overwriting
   * any earlier entry with that id.
   */
  method BuildItemClasses(itemClasses: seq<ItemClass>) returns (bootItemClasses: map<int, ItemClassEntry>)
    ensures bootItemClasses == ItemClassHierarchy(itemClasses)
  {
    bootItemClasses := map[];
    for i := 0 to |itemClasses|
      invariant bootItemClasses == Index(Entries(itemClasses[..i]), EntryClassId)
    {
      var itemClass := itemClasses[i];
      var subClasses: map<int, SubItemClass> := map[];
      for j := 0 to |itemClass.subClasses|
        invariant subClasses == Index(itemClass.subClasses[..j], SubclassId)
      {
        var subItemClass := itemClass.subClasses[j];
        IndexPrefixStep(itemClass.subClasses, SubclassId, j);
        subClasses := subClasses[subItemClass.subclass := subItemClass];
      }
      assert itemClass.subClasses[..|itemClass.subClasses|] == itemClass.subClasses;
      HierarchyPrefixStep(itemClasses, i);
      bootItemClasses := bootItemClasses[itemClass.itemClass := ItemClassEntry(
        itemClass.itemClass, itemClass.name, itemClass.subClasses, subClasses)];
    }
    assert itemClasses[..|itemClasses|] == itemClasses;
  }
}

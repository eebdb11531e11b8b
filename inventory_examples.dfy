/** The expectations of the inventory tests (test/inventory_test.cpp),
    stated on the model of `getInventory`. */
module InventoryExamples {
  import opened Wrappers
  import opened Decimal
  import opened InventoryTypes
  import opened PathNames
  import opened HumanOrder
  import opened Inventory

  // ---------------------------------------------------------------------
  // Order of a sorted inventory.

  /** Every item sorts strictly before each later one. */
  predicate StrictlyOrdered(e: seq<Item>) {
    forall i, j :: 0 <= i < j < |e| ==> HumanLess(e[i].name, e[j].name)
  }

  /** Adjacent strict order extends to every pair. */
  lemma {:induction false} StrictlyAscending(e: seq<Item>)
    requires forall i :: 0 <= i < |e| - 1 ==> HumanLess(e[i].name, e[i + 1].name)
    ensures StrictlyOrdered(e)
  {
    if |e| > 1 {
      StrictlyAscending(e[1..]);
      forall j | 1 < j < |e| ensures HumanLess(e[0].name, e[j].name) {
        assert e[j] == e[1..][j - 1];
        HumanLessTransitive(e[0].name, e[1].name, e[j].name);
      }
    }
  }

  lemma SortedPermutationHead(r: seq<Item>, e: seq<Item>)
    requires Sorted(r) && multiset(r) == multiset(e) && r != []
    requires StrictlyOrdered(e)
    ensures e != [] && r[0] == e[0]
  {
    assert r[0] in multiset(e);
    assert e[0] in multiset(r);
    var k :| 0 <= k < |e| && e[k] == r[0];
    var m :| 0 <= m < |r| && r[m] == e[0];
    if k != 0 && m == 0 {
      HumanLessIrreflexive(e[0].name);
    }
  }

  /** When no two items are equivalent, the sorted permutation is unique,
      whatever algorithm `std::sort` uses. */
  lemma {:induction false} SortedPermutationUnique(r: seq<Item>, e: seq<Item>)
    requires Sorted(r) && multiset(r) == multiset(e)
    requires StrictlyOrdered(e)
    ensures r == e
  {
    if r == [] {
      assert |multiset(e)| == 0;
    } else {
      SortedPermutationHead(r, e);
      TailPermutation(r, e);
      SortedTail(r);
      StrictTail(e);
      SortedPermutationUnique(r[1..], e[1..]);
      assert r == [r[0]] + r[1..] && e == [e[0]] + e[1..];
    }
  }

  lemma TailPermutation(r: seq<Item>, e: seq<Item>)
    requires r != [] && e != [] && r[0] == e[0] && multiset(r) == multiset(e)
    ensures multiset(r[1..]) == multiset(e[1..])
  {
    assert r == [r[0]] + r[1..] && e == [e[0]] + e[1..];
    assert multiset(r[1..]) == multiset(r) - multiset{r[0]};
    assert multiset(e[1..]) == multiset(e) - multiset{e[0]};
  }

  lemma SortedTail(r: seq<Item>)
    requires Sorted(r) && r != []
    ensures Sorted(r[1..])
  {
    forall i, j | 0 <= i < j < |r| - 1 ensures !HumanLess(r[1..][j].name, r[1..][i].name) {
      assert r[1..][j] == r[j + 1] && r[1..][i] == r[i + 1];
    }
  }

  lemma StrictTail(e: seq<Item>)
    requires e != [] && StrictlyOrdered(e)
    ensures StrictlyOrdered(e[1..])
  {
    forall i, j | 0 <= i < j < |e| - 1 ensures HumanLess(e[1..][i].name, e[1..][j].name) {
      assert e[1..][j] == e[j + 1] && e[1..][i] == e[i + 1];
    }
  }

  // ---------------------------------------------------------------------
  // FullList: seven objects of a chassis, in the order the std::map of
  // paths holds them, sort to cpu0, cpu0/core0, cpu0/core1, cpu0/core5,
  // cpu0/core10, cpu5, cpu10.

  const TestChassis: string := "/xyz/openbmc_project/inventory/system/chassis/"

  predicate IsChassis(chassis: string) {
    chassis != [] && chassis[|chassis| - 1] == '/'
  }

  /** The object ".../cpuN" without properties. */
  function CpuObject(chassis: string, cpu: string): InventoryObject {
    InventoryObject(chassis + CpuName(cpu), [])
  }

  /** The object ".../cpuN/coreM" without properties. */
  function CoreObject(chassis: string, cpu: string, core: string): InventoryObject {
    InventoryObject(chassis + CoreName(cpu, core), [])
  }

  /** The numbers of the test, 0 < 1 < 5 < 10, as any four increasing
      decimal numbers z < o < f < t. */
  predicate Increasing(z: string, o: string, f: string, t: string) {
    Number(z) && Number(o) && Number(f) && Number(t) &&
    DigitsValue(z) < DigitsValue(o) < DigitsValue(f) < DigitsValue(t)
  }

  /** cpuZ, cpuZ/coreZ, cpuZ/coreO, cpuZ/coreT, cpuZ/coreF, cpuT, cpuF: the
      order of a std::map of paths when T sorts before F as a string, as
      "10" does before "5". */
  function ObjectsOf(chassis: string, z: string, o: string, f: string, t: string): seq<InventoryObject> {
    [CpuObject(chassis, z), CoreObject(chassis, z, z), CoreObject(chassis, z, o),
     CoreObject(chassis, z, t), CoreObject(chassis, z, f),
     CpuObject(chassis, t), CpuObject(chassis, f)]
  }

  function UnsortedOf(z: string, o: string, f: string, t: string): seq<Item> {
    [Item(CpuName(z), []), Item(CoreName(z, z), []), Item(CoreName(z, o), []),
     Item(CoreName(z, t), []), Item(CoreName(z, f), []),
     Item(CpuName(t), []), Item(CpuName(f), [])]
  }

  function OrderedOf(z: string, o: string, f: string, t: string): seq<Item> {
    [Item(CpuName(z), []), Item(CoreName(z, z), []), Item(CoreName(z, o), []),
     Item(CoreName(z, f), []), Item(CoreName(z, t), []),
     Item(CpuName(f), []), Item(CpuName(t), [])]
  }

  /** The seven objects of the FullList test. */
  function FullListObjects(chassis: string): seq<InventoryObject> {
    ObjectsOf(chassis, "0", "1", "5", "10")
  }

  /** The expected inventory order. */
  function FullListOrdered(): seq<Item> {
    OrderedOf("0", "1", "5", "10")
  }

  /** ".../cpuN" is named "cpuN". */
  lemma CpuItem(chassis: string, cpu: string)
    requires IsChassis(chassis) && Number(cpu)
    ensures MakeItem(CpuObject(chassis, cpu)) == Item(CpuName(cpu), [])
  {
    var name := CpuName(cpu);
    assert name[1] == 'p';
    assert forall k :: 3 <= k < |name| ==> name[k] == cpu[k - 3];
    NameUnderPrefix(chassis, name);
  }

  /** ".../cpuN/coreM" is named "cpuN/coreM". */
  lemma CoreItem(chassis: string, cpu: string, core: string)
    requires IsChassis(chassis) && Number(cpu) && Number(core)
    ensures MakeItem(CoreObject(chassis, cpu, core)) == Item(CoreName(cpu, core), [])
  {
    var name, i := CoreName(cpu, core), 3 + |cpu|;
    var leaf := name[i + 1..];
    assert name[..i] == CpuName(cpu);
    assert leaf == "core" + core;
    assert name[i] == '/';
    assert forall k :: 3 <= k < i ==> name[k] == cpu[k - 3];
    assert forall k :: 4 <= k < |leaf| ==> leaf[k] == core[k - 4];
    NameUnderPrefixOfCore(chassis, name, i);
  }

  lemma CollectCpuAt(objects: seq<InventoryObject>, k: nat, chassis: string, cpu: string)
    requires IsChassis(chassis) && Number(cpu)
    requires k < |objects| && objects[k] == CpuObject(chassis, cpu)
    ensures Collect(objects)[k] == Item(CpuName(cpu), [])
  {
    CpuItem(chassis, cpu);
  }

  lemma CollectCoreAt(objects: seq<InventoryObject>, k: nat, chassis: string, cpu: string, core: string)
    requires IsChassis(chassis) && Number(cpu) && Number(core)
    requires k < |objects| && objects[k] == CoreObject(chassis, cpu, core)
    ensures Collect(objects)[k] == Item(CoreName(cpu, core), [])
  {
    CoreItem(chassis, cpu, core);
  }

  lemma CollectedAt0(chassis: string, z: string, o: string, f: string, t: string)
    requires IsChassis(chassis) && Increasing(z, o, f, t)
    ensures Collect(ObjectsOf(chassis, z, o, f, t))[0] == UnsortedOf(z, o, f, t)[0]
  {
    var objects := ObjectsOf(chassis, z, o, f, t);
    CollectCpuAt(objects, 0, chassis, z);
  }

  lemma CollectedAt1(chassis: string, z: string, o: string, f: string, t: string)
    requires IsChassis(chassis) && Increasing(z, o, f, t)
    ensures Collect(ObjectsOf(chassis, z, o, f, t))[1] == UnsortedOf(z, o, f, t)[1]
  {
    var objects := ObjectsOf(chassis, z, o, f, t);
    CollectCoreAt(objects, 1, chassis, z, z);
  }

  lemma CollectedAt2(chassis: string, z: string, o: string, f: string, t: string)
    requires IsChassis(chassis) && Increasing(z, o, f, t)
    ensures Collect(ObjectsOf(chassis, z, o, f, t))[2] == UnsortedOf(z, o, f, t)[2]
  {
    var objects := ObjectsOf(chassis, z, o, f, t);
    CollectCoreAt(objects, 2, chassis, z, o);
  }

  lemma CollectedAt3(chassis: string, z: string, o: string, f: string, t: string)
    requires IsChassis(chassis) && Increasing(z, o, f, t)
    ensures Collect(ObjectsOf(chassis, z, o, f, t))[3] == UnsortedOf(z, o, f, t)[3]
  {
    var objects := ObjectsOf(chassis, z, o, f, t);
    CollectCoreAt(objects, 3, chassis, z, t);
  }

  lemma CollectedAt4(chassis: string, z: string, o: string, f: string, t: string)
    requires IsChassis(chassis) && Increasing(z, o, f, t)
    ensures Collect(ObjectsOf(chassis, z, o, f, t))[4] == UnsortedOf(z, o, f, t)[4]
  {
    var objects := ObjectsOf(chassis, z, o, f, t);
    CollectCoreAt(objects, 4, chassis, z, f);
  }

  lemma CollectedAt5(chassis: string, z: string, o: string, f: string, t: string)
    requires IsChassis(chassis) && Increasing(z, o, f, t)
    ensures Collect(ObjectsOf(chassis, z, o, f, t))[5] == UnsortedOf(z, o, f, t)[5]
  {
    var objects := ObjectsOf(chassis, z, o, f, t);
    CollectCpuAt(objects, 5, chassis, t);
  }

  lemma CollectedAt6(chassis: string, z: string, o: string, f: string, t: string)
    requires IsChassis(chassis) && Increasing(z, o, f, t)
    ensures Collect(ObjectsOf(chassis, z, o, f, t))[6] == UnsortedOf(z, o, f, t)[6]
  {
    var objects := ObjectsOf(chassis, z, o, f, t);
    CollectCpuAt(objects, 6, chassis, f);
  }

  /** The seven objects give the seven items, in the same order. */
  lemma CollectedOf(chassis: string, z: string, o: string, f: string, t: string)
    requires IsChassis(chassis) && Increasing(z, o, f, t)
    ensures Collect(ObjectsOf(chassis, z, o, f, t)) == UnsortedOf(z, o, f, t)
  {
    CollectedAt0(chassis, z, o, f, t);
    CollectedAt1(chassis, z, o, f, t);
    CollectedAt2(chassis, z, o, f, t);
    CollectedAt3(chassis, z, o, f, t);
    CollectedAt4(chassis, z, o, f, t);
    CollectedAt5(chassis, z, o, f, t);
    CollectedAt6(chassis, z, o, f, t);
    SevenEqual(Collect(ObjectsOf(chassis, z, o, f, t)), UnsortedOf(z, o, f, t));
  }

  lemma SevenEqual<T>(a: seq<T>, b: seq<T>)
    requires |a| == 7 && |b| == 7
    requires a[0] == b[0] && a[1] == b[1] && a[2] == b[2] && a[3] == b[3]
    requires a[4] == b[4] && a[5] == b[5] && a[6] == b[6]
    ensures a == b
  {
    assert forall k | 0 <= k < 7 :: a[k] == b[k];
  }

  lemma SwapPair<T>(x: T, y: T)
    ensures multiset([x, y]) == multiset([y, x])
  {
  }

  lemma PermuteParts<T>(p: seq<T>, q: seq<T>, q': seq<T>, r: seq<T>, r': seq<T>)
    requires multiset(q) == multiset(q') && multiset(r) == multiset(r')
    ensures multiset(p + q + r) == multiset(p + q' + r')
  {
  }

  lemma SplitSeven<T>(x0: T, x1: T, x2: T, x3: T, x4: T, x5: T, x6: T)
    ensures [x0, x1, x2, x3, x4, x5, x6] == [x0, x1, x2] + [x3, x4] + [x5, x6]
  {
  }

  lemma SwapTwoPairs<T>(x0: T, x1: T, x2: T, x3: T, x4: T, x5: T, x6: T)
    ensures multiset([x0, x1, x2, x3, x4, x5, x6]) == multiset([x0, x1, x2, x4, x3, x6, x5])
  {
    SwapPair(x3, x4);
    SwapPair(x5, x6);
    PermuteParts([x0, x1, x2], [x3, x4], [x4, x3], [x5, x6], [x6, x5]);
    SplitSeven(x0, x1, x2, x3, x4, x5, x6);
    SplitSeven(x0, x1, x2, x4, x3, x6, x5);
  }

  lemma PermutationOf(z: string, o: string, f: string, t: string)
    ensures multiset(UnsortedOf(z, o, f, t)) == multiset(OrderedOf(z, o, f, t))
  {
    var u := UnsortedOf(z, o, f, t);
    SwapTwoPairs(u[0], u[1], u[2], u[3], u[4], u[5], u[6]);
  }

  lemma AscendingOf(z: string, o: string, f: string, t: string)
    requires Increasing(z, o, f, t)
    ensures StrictlyOrdered(OrderedOf(z, o, f, t))
  {
    CpuBeforeItsCores(z, z);
    CoresByNumber(z, z, o);
    CoresByNumber(z, o, f);
    CoresByNumber(z, f, t);
    CoreBeforeLaterCpu(z, t, f);
    CpusByNumber(f, t);
    SevenAscending(OrderedOf(z, o, f, t));
  }

  lemma SevenAscending(e: seq<Item>)
    requires |e| == 7
    requires HumanLess(e[0].name, e[1].name) && HumanLess(e[1].name, e[2].name) && HumanLess(e[2].name, e[3].name)
    requires HumanLess(e[3].name, e[4].name) && HumanLess(e[4].name, e[5].name) && HumanLess(e[5].name, e[6].name)
    ensures StrictlyOrdered(e)
  {
    StrictlyAscending(e);
  }

  /** Any sorted permutation of the items built from the seven objects is
      the expected order. */
  lemma SortedOf(items: seq<Item>, chassis: string, z: string, o: string, f: string, t: string)
    requires IsChassis(chassis) && Increasing(z, o, f, t)
    requires Sorted(items) && multiset(items) == multiset(Collect(ObjectsOf(chassis, z, o, f, t)))
    ensures items == OrderedOf(z, o, f, t)
  {
    CollectedOf(chassis, z, o, f, t);
    PermutationOf(z, o, f, t);
    AscendingOf(z, o, f, t);
    SortedPermutationUnique(items, OrderedOf(z, o, f, t));
  }

  /** An item without properties is present and has no pretty name. */
  lemma BareItem(x: Item)
    requires x.properties == []
    ensures PresentIsBool(x) && IsPresent(x)
    ensures PrettyNameIsString(x) && PrettyName(x) == ""
  {
  }

  /** The FullList test: whatever sorted permutation `getInventory` returns
      for the seven objects, it is cpu0, cpu0/core0, cpu0/core1, cpu0/core5,
      cpu0/core10, cpu5, cpu10. */
  lemma FullListExample(items: seq<Item>)
    requires Sorted(items) && multiset(items) == multiset(Collect(FullListObjects(TestChassis)))
    ensures items == FullListOrdered()
  {
    assert Increasing("0", "1", "5", "10");
    SortedOf(items, TestChassis, "0", "1", "5", "10");
  }

  /** Objects without properties give items without properties, whatever
      order they are returned in. */
  lemma BareObjectsGiveBareItems(objects: seq<InventoryObject>, items: seq<Item>)
    requires forall k :: 0 <= k < |objects| ==> objects[k].properties == []
    requires multiset(items) == multiset(Collect(objects))
    ensures forall i :: 0 <= i < |items| ==> items[i].properties == []
  {
    forall i | 0 <= i < |items|
      ensures items[i].properties == []
    {
      assert items[i] in multiset(Collect(objects));
      var k :| 0 <= k < |objects| && Collect(objects)[k] == items[i];
    }
  }

  /** The rest of the FullList test: every item has no properties, is
      present and has an empty pretty name. */
  lemma FullListItemsBare(items: seq<Item>, chassis: string)
    requires multiset(items) == multiset(Collect(ObjectsOf(chassis, "0", "1", "5", "10")))
    ensures forall i :: 0 <= i < |items| ==>
              items[i].properties == [] && PresentIsBool(items[i]) && IsPresent(items[i]) &&
              PrettyNameIsString(items[i]) && PrettyName(items[i]) == ""
  {
    BareObjectsGiveBareItems(ObjectsOf(chassis, "0", "1", "5", "10"), items);
    forall i | 0 <= i < |items|
      ensures PresentIsBool(items[i]) && IsPresent(items[i])
      ensures PrettyNameIsString(items[i]) && PrettyName(items[i]) == ""
    {
      BareItem(items[i]);
    }
  }

  /** The EmptyList test: no objects, no items. */
  lemma EmptyListExample(items: seq<Item>)
    requires multiset(items) == multiset(Collect([]))
    ensures items == []
  {
    assert |multiset(items)| == 0;
  }

  /** One object with one property gives one item holding that property,
      stripped if it is a string. */
  lemma SingleObject(items: seq<Item>, path: string, p: Property)
    requires multiset(items) == multiset(Collect([InventoryObject(path, [p])]))
    ensures |items| == 1 && items[0].properties == [Property(p.key, StripValue(p.value))]
  {
    var obj := InventoryObject(path, [p]);
    CollectOne(obj);
    NormalizeOne(p);
    SingletonPermutation(items, MakeItem(obj));
  }

  lemma CollectOne(obj: InventoryObject)
    ensures Collect([obj]) == [MakeItem(obj)]
  {
  }

  lemma NormalizeOne(p: Property)
    ensures NormalizeProperties([p]) == [Property(p.key, StripValue(p.value))]
  {
  }

  lemma SingletonPermutation(items: seq<Item>, x: Item)
    requires multiset(items) == multiset([x])
    ensures items == [x]
  {
    assert |items| == 1;
    assert items[0] in multiset([x]);
  }

  lemma PrettyNameOfOne(x: Item, name: string)
    requires x.properties == [Property("PrettyName", Str(name))]
    ensures PrettyNameIsString(x) && PrettyName(x) == name
  {
  }

  /** The StringProperty test: one object whose "PrettyName" has trailing
      white space gives one item whose pretty name is the stripped text. */
  lemma StringPropertyExample(items: seq<Item>, path: string)
    requires multiset(items) ==
             multiset(Collect([InventoryObject(path, [Property("PrettyName", Str("Object pretty name \t \r\n  "))])]))
    ensures |items| == 1 && |items[0].properties| == 1
    ensures PrettyNameIsString(items[0]) && PrettyName(items[0]) == "Object pretty name"
  {
    SingleObject(items, path, Property("PrettyName", Str("Object pretty name \t \r\n  ")));
    RightStripExample();
    PrettyNameOfOne(items[0], "Object pretty name");
  }

  /** The BooleanProperty and NumericProperty tests: one object with one
      non-string property gives one item holding that property as it is. */
  lemma NonStringPropertyExample(items: seq<Item>, path: string, key: string, v: PropVal)
    requires !v.Str?
    requires multiset(items) == multiset(Collect([InventoryObject(path, [Property(key, v)])]))
    ensures |items| == 1 && items[0].properties == [Property(key, v)]
    ensures Lookup(items[0].properties, key) == Some(v)
  {
    SingleObject(items, path, Property(key, v));
  }
}

/** `getInventory` (inventory.cpp) without its D-Bus calls: every object of
    the inventory subtree becomes one item, named by `nameFromPath`, whose
    string properties lose their trailing white space; the items are then
    sorted with `humanCompare`. */
module Inventory {
  import opened Decimal
  import opened InventoryTypes
  import opened PathNames
  import opened HumanOrder

  /** An object of the `GetSubTree` reply with the properties `GetAll`
      returned for it. */
  datatype InventoryObject = InventoryObject(path: string, properties: Properties)

  /** `std::map` keys: object paths are distinct and ascending. */
  predicate PathsAscending(objects: seq<InventoryObject>) {
    forall i, j :: 0 <= i < j < |objects| ==> StrLess(objects[i].path, objects[j].path)
  }

  // ---------------------------------------------------------------------
  // Trailing white space.

  /** `std::isspace` in the C locale: space, \t, \n, \v, \f and \r. */
  predicate IsSpace(c: char) {
    c == ' ' || '\t' <= c <= '\r'
  }

  /** The string does not end in white space. */
  predicate NoTrailingSpace(s: string) {
    s == [] || !IsSpace(s[|s| - 1])
  }

  /** The string without its trailing white space. */
  function RightStrip(s: string): (r: string)
    ensures |r| <= |s| && r == s[..|r|]
    ensures NoTrailingSpace(r)
    ensures forall k :: |r| <= k < |s| ==> IsSpace(s[k])
  {
    if s != [] && IsSpace(s[|s| - 1]) then RightStrip(s[..|s| - 1]) else s
  }

  /** Whatever strips to `r` by the three facts above strips to exactly `r`. */
  lemma RightStripUnique(s: string, r: string)
    requires |r| <= |s| && r == s[..|r|]
    requires NoTrailingSpace(r)
    requires forall k :: |r| <= k < |s| ==> IsSpace(s[k])
    ensures RightStrip(s) == r
  {

  }

  lemma RightStripIdempotent(s: string)
    ensures RightStrip(RightStrip(s)) == RightStrip(s)
  {
    var r := RightStrip(s);
    RightStripUnique(r, r);
  }

  /** The string property of the inventory test loses only its trailing
      white space. */
  lemma RightStripExample()
    ensures RightStrip("Object pretty name \t \r\n  ") == "Object pretty name"
  {
    var s := "Object pretty name \t \r\n  ";
    assert s[..18] == "Object pretty name";
    RightStripUnique(s, "Object pretty name");
  }

  /** Only string values are stripped. */
  function StripValue(v: PropVal): (r: PropVal)
    ensures r.Str? <==> v.Str?
    ensures !v.Str? ==> r == v
    ensures v.Str? ==> |r.s| <= |v.s| && r.s == v.s[..|r.s|] && NoTrailingSpace(r.s)
    ensures v.Str? ==> forall k :: |r.s| <= k < |v.s| ==> IsSpace(v.s[k])
  {
    match v
    case Str(s) => Str(RightStrip(s))
    case _ => v
  }

  /** Every property after stripping: same keys in the same order, the
      same non-string values, and each string value without its trailing
      white space and nothing else removed. */
  function NormalizeProperties(ps: Properties): (r: Properties)
    ensures |r| == |ps|
    ensures forall k :: 0 <= k < |r| ==> r[k].key == ps[k].key && r[k].value.Str? == ps[k].value.Str?
    ensures forall k :: 0 <= k < |r| && !ps[k].value.Str? ==> r[k].value == ps[k].value
    ensures forall k :: 0 <= k < |r| && r[k].value.Str? ==> NoTrailingSpace(r[k].value.s)
    ensures forall k :: 0 <= k < |r| && ps[k].value.Str? ==> r[k].value == Str(RightStrip(ps[k].value.s))
  {
    seq(|ps|, k requires 0 <= k < |ps| => Property(ps[k].key, StripValue(ps[k].value)))
  }

  lemma NormalizeIdempotent(ps: Properties)
    ensures NormalizeProperties(NormalizeProperties(ps)) == NormalizeProperties(ps)
  {
    var r := NormalizeProperties(ps);
    forall k | 0 <= k < |r| && r[k].value.Str?
      ensures RightStrip(r[k].value.s) == r[k].value.s
    {
      RightStripUnique(r[k].value.s, r[k].value.s);
    }
  }

  /** The item `getInventory` builds for one object. */
  function MakeItem(obj: InventoryObject): Item {
    Item(NameFromPath(obj.path), NormalizeProperties(obj.properties))
  }

  /** The items for all objects, in the order of the objects. */
  function Collect(objects: seq<InventoryObject>): (items: seq<Item>)
    ensures |items| == |objects|
  {
    seq(|objects|, k requires 0 <= k < |objects| => MakeItem(objects[k]))
  }

  // ---------------------------------------------------------------------
  // Sorting.

  /** No item comes after one that `humanCompare` puts behind it. */
  predicate Sorted(items: seq<Item>) {
    forall i, j :: 0 <= i < j < |items| ==> !HumanLess(items[j].name, items[i].name)
  }

  function Insert(x: Item, s: seq<Item>): (r: seq<Item>)
    requires Sorted(s)
    ensures Sorted(r)
    ensures multiset(r) == multiset(s) + multiset{x}
  {
    if s == [] then [x]
    else if !HumanLess(s[0].name, x.name) then
      assert forall k :: 0 <= k < |s| ==> !HumanLess(s[k].name, x.name) by {
        forall k | 0 <= k < |s| ensures !HumanLess(s[k].name, x.name) {
          if k == 0 {
            HumanLessIrreflexive(s[0].name);
          }
          HumanNotLessTransitive(x.name, s[0].name, s[k].name);
        }
      }
      [x] + s
    else
      var t := Insert(x, s[1..]);
      assert s == [s[0]] + s[1..];
      assert forall k :: 0 <= k < |t| ==> !HumanLess(t[k].name, s[0].name) by {
        forall k | 0 <= k < |t| ensures !HumanLess(t[k].name, s[0].name) {
          assert t[k] in multiset(t);
          if t[k] == x {
            HumanLessAsymmetric(s[0].name, x.name);
          } else {
            assert t[k] in s[1..];
          }
        }
      }
      [s[0]] + t
  }

  /** What `std::sort` with `humanCompare` promises: a sorted permutation. */
  function SortByName(items: seq<Item>): (r: seq<Item>)
    ensures Sorted(r)
    ensures multiset(r) == multiset(items)
  {
    if items == [] then []
    else
      assert items == [items[0]] + items[1..];
      Insert(items[0], SortByName(items[1..]))
  }

  // ---------------------------------------------------------------------
  // getInventory.

  /** `getInventory`: one item per object, string properties stripped,
      sorted in human order. */
  method GetInventory(objects: seq<InventoryObject>) returns (items: seq<Item>)
    requires PathsAscending(objects)
    ensures Sorted(items)
    ensures multiset(items) == multiset(Collect(objects))
  {
    items := [];
    for i := 0 to |objects|
      invariant items == Collect(objects[..i])
    {
      var obj := objects[i];
      var name := NameFromPath(obj.path);
      // replace each string value by its right-stripped form
      var props: seq<Property> := obj.properties;
      for j := 0 to |props|
        invariant |props| == |obj.properties|
        invariant forall k :: 0 <= k < j ==> props[k] == Property(obj.properties[k].key, StripValue(obj.properties[k].value))
        invariant forall k :: j <= k < |props| ==> props[k] == obj.properties[k]
      {
        var property := props[j];
        if property.value.Str? {
          props := props[j := Property(property.key, Str(RightStrip(property.value.s)))];
        }
      }
      assert props == NormalizeProperties(obj.properties);
      items := items + [Item(name, props)];
      assert objects[..i + 1][..i] == objects[..i];
    }
    assert objects[..|objects|] == objects;
    // order the items by HumanLess on their names
    items := SortByName(items);
  }
}

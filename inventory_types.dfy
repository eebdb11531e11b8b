/** The inventory item of `inventory.hpp`: a derived name and a property map
    whose values are exactly one of `int64_t`, `std::string` or `bool`, with
    the two lookups `isPresent` and `prettyName`. */
module InventoryTypes {
  import opened Wrappers
  import opened Decimal

  /** `std::variant<int64_t, std::string, bool>`. */
  datatype PropVal = Int(i: int64) | Str(s: string) | Bool(b: bool)

  datatype Property = Property(key: string, value: PropVal)

  /** `std::string` ordering (`operator<`): the first differing character
      decides, and a proper prefix comes first. */
  predicate StrLess(a: string, b: string) {
    if a == [] then b != []
    else if b == [] then false
    else if a[0] != b[0] then a[0] < b[0]
    else StrLess(a[1..], b[1..])
  }

  lemma {:induction false} StrLessIrreflexive(a: string)
    ensures !StrLess(a, a)
  {
    if a != [] {
      StrLessIrreflexive(a[1..]);
    }
  }

  /** A `std::map` keeps its keys unique and iterates them in ascending
      order; its contents are modelled as the entries in that order. */
  predicate KeysAscending(ps: seq<Property>) {
    forall i, j :: 0 <= i < j < |ps| ==> StrLess(ps[i].key, ps[j].key)
  }

  type Properties = ps: seq<Property> | KeysAscending(ps)

  lemma AscendingKeysDistinct(ps: Properties, i: nat, j: nat)
    requires i < |ps| && j < |ps| && i != j
    ensures ps[i].key != ps[j].key
  {
    if ps[i].key == ps[j].key {
      StrLessIrreflexive(ps[i].key);
      assert false;
    }
  }

  /** `InventoryItem`: the item name and its property map. */
  datatype Item = Item(name: string, properties: Properties)

  /** `std::map::find`. */
  function Lookup(ps: Properties, key: string): (r: Option<PropVal>)
    ensures r.None? <==> forall k :: 0 <= k < |ps| ==> ps[k].key != key
    ensures forall k :: 0 <= k < |ps| && ps[k].key == key ==> r == Some(ps[k].value)
  {
    if ps == [] then None
    else if ps[0].key == key then
      assert forall k :: 0 < k < |ps| ==> ps[k].key != key by {
        forall k | 0 < k < |ps| { AscendingKeysDistinct(ps, 0, k); }
      }
      Some(ps[0].value)
    else
      var r := Lookup(ps[1..], key);
      assert forall k :: 1 <= k < |ps| ==> ps[k] == ps[1..][k - 1];
      r
  }

  /** `std::get<bool>` on "Present" throws unless the value is a bool. */
  predicate PresentIsBool(item: Item) {
    match Lookup(item.properties, "Present")
    case Some(v) => v.Bool?
    case None => true
  }

  /** `std::get<std::string>` on "PrettyName" throws unless the value is a string. */
  predicate PrettyNameIsString(item: Item) {
    match Lookup(item.properties, "PrettyName")
    case Some(v) => v.Str?
    case None => true
  }

  /** `InventoryItem::isPresent`: an item without a "Present" property is
      present; otherwise that property's flag decides. */
  function IsPresent(item: Item): (present: bool)
    requires PresentIsBool(item)
    ensures present <==> forall k :: 0 <= k < |item.properties| && item.properties[k].key == "Present" ==>
                                 item.properties[k].value == Bool(true)
  {
    match Lookup(item.properties, "Present")
    case Some(v) => v.b
    case None => true
  }

  /** `InventoryItem::prettyName`: the "PrettyName" string, or the empty string. */
  function PrettyName(item: Item): (name: string)
    requires PrettyNameIsString(item)
    ensures (forall k :: 0 <= k < |item.properties| ==> item.properties[k].key != "PrettyName") ==> name == ""
    ensures forall k :: 0 <= k < |item.properties| && item.properties[k].key == "PrettyName" ==>
                   item.properties[k].value == Str(name)
  {
    match Lookup(item.properties, "PrettyName")
    case Some(v) => v.s
    case None => ""
  }
}

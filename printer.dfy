/** `Printer` (printer.hpp, printer.cpp): which inventory items and which of
    their properties are emitted, and how each property value is rendered,
    as formatted text or as JSON. The output stream itself is not modelled:
    each printing method returns the sequence of entries it would write. */
module Printing {
  import opened Wrappers
  import opened Decimal
  import opened InventoryTypes

  // ---------------------------------------------------------------------
  // What the two printers emit.

  /** One property line of the text output: "  key: value". */
  datatype TextLine = TextLine(key: string, value: string)

  /** One item of the text output: the title "name: pretty name" and the
      property lines below it. */
  datatype TextBlock = TextBlock(name: string, prettyName: string, lines: seq<TextLine>)

  /** A json-c value: `JNull` is the null pointer added for a property
      without a value. */
  datatype JsonValue = JBool(b: bool) | JInt(i: int64) | JString(s: string) | JNull

  datatype JsonMember = JsonMember(key: string, value: JsonValue)

  /** One member of the top-level JSON object: the item name and the object
      of its properties. */
  datatype JsonItem = JsonItem(name: string, members: seq<JsonMember>)

  // ---------------------------------------------------------------------
  // Item filter, shared by both modes.

  /** An empty filter lets every name through; otherwise only that name. */
  predicate NameMatches(filter: string, item: Item) {
    filter == [] || filter == item.name
  }

  /** `isPresent` is consulted only for an item the name filter lets
      through, and only when non-present items are not allowed. */
  predicate CanFilter(filter: string, allowNonexistent: bool, item: Item) {
    NameMatches(filter, item) && !allowNonexistent ==> PresentIsBool(item)
  }

  predicate AllCanFilter(filter: string, allowNonexistent: bool, items: seq<Item>) {
    forall i :: 0 <= i < |items| ==> CanFilter(filter, allowNonexistent, items[i])
  }

  /** The item passes both `continue` filters of the item loop. */
  predicate Emitted(filter: string, allowNonexistent: bool, item: Item)
    requires CanFilter(filter, allowNonexistent, item)
  {
    NameMatches(filter, item) && (allowNonexistent || IsPresent(item))
  }

  lemma AllCanFilterPrefix(filter: string, allowNonexistent: bool, items: seq<Item>, n: nat)
    requires AllCanFilter(filter, allowNonexistent, items) && n <= |items|
    ensures AllCanFilter(filter, allowNonexistent, items[..n])
  {
    assert forall i :: 0 <= i < n ==> items[..n][i] == items[i];
  }

  /** The items that are emitted, in input order. */
  function Select(filter: string, allowNonexistent: bool, items: seq<Item>): (r: seq<Item>)
    requires AllCanFilter(filter, allowNonexistent, items)
    ensures |r| <= |items|
    ensures forall x :: x in r ==> x in items && CanFilter(filter, allowNonexistent, x) &&
                                   Emitted(filter, allowNonexistent, x)
    ensures forall i :: 0 <= i < |items| && Emitted(filter, allowNonexistent, items[i]) ==> items[i] in r
  {
    if items == [] then []
    else
      var n := |items| - 1;
      AllCanFilterPrefix(filter, allowNonexistent, items, n);
      var prefix := Select(filter, allowNonexistent, items[..n]);
      assert forall i :: 0 <= i < n ==> items[..n][i] == items[i];
      assert forall x :: x in items[..n] ==> x in items;
      if Emitted(filter, allowNonexistent, items[n]) then prefix + [items[n]] else prefix
  }

  lemma AllCanFilterConcat(filter: string, allowNonexistent: bool, a: seq<Item>, b: seq<Item>)
    requires AllCanFilter(filter, allowNonexistent, a) && AllCanFilter(filter, allowNonexistent, b)
    ensures AllCanFilter(filter, allowNonexistent, a + b)
  {
    forall i | 0 <= i < |a + b| ensures CanFilter(filter, allowNonexistent, (a + b)[i]) {
      if i >= |a| {
        assert (a + b)[i] == b[i - |a|];
      }
    }
  }

  /** Selecting after one more item. */
  lemma SelectSnoc(filter: string, allowNonexistent: bool, items: seq<Item>, x: Item)
    requires AllCanFilter(filter, allowNonexistent, items + [x])
    ensures AllCanFilter(filter, allowNonexistent, items) && CanFilter(filter, allowNonexistent, x)
    ensures Select(filter, allowNonexistent, items + [x]) ==
            Select(filter, allowNonexistent, items) + if Emitted(filter, allowNonexistent, x) then [x] else []
  {
    var s := items + [x];
    assert s[..|items|] == items && s[|items|] == x;
    AllCanFilterPrefix(filter, allowNonexistent, s, |items|);
  }

  /** Selection distributes over concatenation: emitted items keep their
      relative order. */
  lemma {:induction false} SelectAppend(filter: string, allowNonexistent: bool, a: seq<Item>, b: seq<Item>)
    requires AllCanFilter(filter, allowNonexistent, a) && AllCanFilter(filter, allowNonexistent, b)
    ensures AllCanFilter(filter, allowNonexistent, a + b)
    ensures Select(filter, allowNonexistent, a + b) ==
            Select(filter, allowNonexistent, a) + Select(filter, allowNonexistent, b)
    decreases |b|
  {
    AllCanFilterConcat(filter, allowNonexistent, a, b);
    if b == [] {
      assert a + b == a;
    } else {
      var n := |b| - 1;
      var init, x := b[..n], b[n];
      assert b == init + [x];
      assert a + b == (a + init) + [x];
      AllCanFilterPrefix(filter, allowNonexistent, b, n);
      SelectAppend(filter, allowNonexistent, a, init);
      SelectSnoc(filter, allowNonexistent, a + init, x);
      SelectSnoc(filter, allowNonexistent, init, x);
      var sa, sb := Select(filter, allowNonexistent, a), Select(filter, allowNonexistent, init);
      var sx := if Emitted(filter, allowNonexistent, x) then [x] else [];
      assert (sa + sb) + sx == sa + (sb + sx);
    }
  }

  /** With an empty filter and non-present items allowed, every item is emitted. */
  lemma {:induction false} SelectEverything(items: seq<Item>)
    ensures AllCanFilter([], true, items)
    ensures Select([], true, items) == items
  {
    if items != [] {
      var n := |items| - 1;
      SelectEverything(items[..n]);
      assert items[..n] + [items[n]] == items;
    }
  }

  /** With a name filter, only items of that name are emitted. */
  lemma SelectByName(filter: string, allowNonexistent: bool, items: seq<Item>)
    requires filter != [] && AllCanFilter(filter, allowNonexistent, items)
    ensures forall x :: x in Select(filter, allowNonexistent, items) ==> x.name == filter
  {
  }

  // ---------------------------------------------------------------------
  // Text mode.

  /** The text rendering of a property value: "Yes"/"No" for a bool, the
      decimal `std::to_string` form of an integer (no leading zeros, which
      with its value determines it: `Int64ToStringUnique`), a string as it
      is. */
  function RenderText(v: PropVal): (s: string)
    ensures s == [] <==> v == Str([])
    ensures v.Str? ==> s == v.s
    ensures v.Bool? ==> s == if v.b then "Yes" else "No"
    ensures v.Int? && v.i >= 0 ==> Canonical(s) && DigitsValue(s) == v.i as int
    ensures v.Int? && v.i < 0 ==> s[0] == '-' && Canonical(s[1..]) && DigitsValue(s[1..]) == -(v.i as int)
  {
    match v
    case Bool(b) => if b then "Yes" else "No"
    case Int(i) => Int64ToString(i)
    case Str(s) => s
  }

  /** A property is written in text mode unless empty properties are
      disallowed and its rendering is empty. */
  predicate KeptInText(allowEmpty: bool, p: Property) {
    allowEmpty || RenderText(p.value) != []
  }

  /** The property lines of one item, in map order. */
  function TextLines(allowEmpty: bool, ps: seq<Property>): (r: seq<TextLine>)
    ensures |r| <= |ps|
    ensures forall l :: l in r ==> allowEmpty || l.value != []
    ensures forall k :: 0 <= k < |ps| && KeptInText(allowEmpty, ps[k]) ==>
              TextLine(ps[k].key, RenderText(ps[k].value)) in r
  {
    if ps == [] then []
    else
      var n := |ps| - 1;
      var prefix := TextLines(allowEmpty, ps[..n]);
      assert forall k :: 0 <= k < n ==> ps[..n][k] == ps[k];
      var p := ps[n];
      if KeptInText(allowEmpty, p) then prefix + [TextLine(p.key, RenderText(p.value))] else prefix
  }

  /** Every line renders one of the properties. */
  lemma {:induction false} TextLinesFromProperties(allowEmpty: bool, ps: seq<Property>)
    ensures forall l :: l in TextLines(allowEmpty, ps) ==>
              exists k :: 0 <= k < |ps| && l == TextLine(ps[k].key, RenderText(ps[k].value))
  {
    if ps != [] {
      var n := |ps| - 1;
      TextLinesFromProperties(allowEmpty, ps[..n]);
      assert forall k :: 0 <= k < n ==> ps[..n][k] == ps[k];
    }
  }

  /** A property whose line is absent was filtered out: the line set is
      exactly the kept properties, since map keys are unique. */
  lemma TextLineAbsent(allowEmpty: bool, ps: Properties, k: nat)
    requires k < |ps| && !KeptInText(allowEmpty, ps[k])
    ensures forall l :: l in TextLines(allowEmpty, ps) ==> l.key != ps[k].key
  {
    TextLinesFromProperties(allowEmpty, ps);
    forall l | l in TextLines(allowEmpty, ps)
      ensures l.key != ps[k].key
    {
      var j :| 0 <= j < |ps| && l == TextLine(ps[j].key, RenderText(ps[j].value));
      if j != k {
        AscendingKeysDistinct(ps, j, k);
      }
    }
  }

  /** The line written for one property, if any. */
  lemma TextLinesOne(allowEmpty: bool, p: Property)
    ensures TextLines(allowEmpty, [p]) ==
            if KeptInText(allowEmpty, p) then [TextLine(p.key, RenderText(p.value))] else []
  {
    assert [p][..0] == [];
  }

  /** Writing after one more property. */
  lemma TextLinesSnoc(allowEmpty: bool, ps: seq<Property>, p: Property)
    ensures TextLines(allowEmpty, ps + [p]) ==
            TextLines(allowEmpty, ps) +
            if KeptInText(allowEmpty, p) then [TextLine(p.key, RenderText(p.value))] else []
  {
    assert (ps + [p])[..|ps|] == ps && (ps + [p])[|ps|] == p;
  }

  /** Property lines distribute over concatenation: one line per kept
      property, in map order. */
  lemma {:induction false} TextLinesAppend(allowEmpty: bool, ps: seq<Property>, qs: seq<Property>)
    ensures TextLines(allowEmpty, ps + qs) == TextLines(allowEmpty, ps) + TextLines(allowEmpty, qs)
    decreases |qs|
  {
    if qs == [] {
      assert ps + qs == ps;
    } else {
      var n := |qs| - 1;
      var init, q := qs[..n], qs[n];
      assert qs == init + [q];
      assert ps + qs == (ps + init) + [q];
      TextLinesAppend(allowEmpty, ps, init);
      TextLinesSnoc(allowEmpty, ps + init, q);
      TextLinesSnoc(allowEmpty, init, q);
      var a, b := TextLines(allowEmpty, ps), TextLines(allowEmpty, init);
      var c := if KeptInText(allowEmpty, q) then [TextLine(q.key, RenderText(q.value))] else [];
      assert (a + b) + c == a + (b + c);
    }
  }

  /** The title and property lines of one emitted item. */
  function TextBlockOf(allowEmpty: bool, item: Item): TextBlock
    requires PrettyNameIsString(item)
  {
    TextBlock(item.name, PrettyName(item), TextLines(allowEmpty, item.properties))
  }

  /** Text mode additionally reads the pretty name of each emitted item. */
  predicate CanPrintText(filter: string, allowNonexistent: bool, items: seq<Item>) {
    AllCanFilter(filter, allowNonexistent, items) &&
    forall i :: 0 <= i < |items| && Emitted(filter, allowNonexistent, items[i]) ==> PrettyNameIsString(items[i])
  }

  lemma CanPrintTextPrefix(filter: string, allowNonexistent: bool, items: seq<Item>, n: nat)
    requires CanPrintText(filter, allowNonexistent, items) && n <= |items|
    ensures CanPrintText(filter, allowNonexistent, items[..n])
  {
    assert forall i :: 0 <= i < n ==> items[..n][i] == items[i];
  }

  /** Everything `printText` writes, item by item. */
  function TextOutput(filter: string, allowNonexistent: bool, allowEmpty: bool, items: seq<Item>): seq<TextBlock>
    requires CanPrintText(filter, allowNonexistent, items)
  {
    if items == [] then []
    else
      var n := |items| - 1;
      CanPrintTextPrefix(filter, allowNonexistent, items, n);
      var prefix := TextOutput(filter, allowNonexistent, allowEmpty, items[..n]);
      if Emitted(filter, allowNonexistent, items[n]) then prefix + [TextBlockOf(allowEmpty, items[n])] else prefix
  }

  /** The text output has one block per emitted item, in order, titled by
      the item's name and pretty name. */
  lemma {:induction false} TextOutputIsSelection(filter: string, allowNonexistent: bool, allowEmpty: bool, items: seq<Item>)
    requires CanPrintText(filter, allowNonexistent, items)
    ensures var out, sel := TextOutput(filter, allowNonexistent, allowEmpty, items), Select(filter, allowNonexistent, items);
            |out| == |sel| &&
            forall i :: 0 <= i < |sel| ==> PrettyNameIsString(sel[i]) && out[i] == TextBlockOf(allowEmpty, sel[i])
  {
    if items != [] {
      var n := |items| - 1;
      CanPrintTextPrefix(filter, allowNonexistent, items, n);
      TextOutputIsSelection(filter, allowNonexistent, allowEmpty, items[..n]);
    }
  }

  // ---------------------------------------------------------------------
  // JSON mode.

  /** The json-c value created for a property, or none for an empty string. */
  function JsonValueOf(v: PropVal): (r: Option<JsonValue>)
    ensures r == None <==> v == Str([])
    ensures r != None ==> r.value != JNull
    ensures v.Bool? ==> r == Some(JBool(v.b))
    ensures v.Int? ==> r == Some(JInt(v.i))
    ensures v.Str? && v.s != [] ==> r == Some(JString(v.s))
  {
    match v
    case Bool(b) => Some(JBool(b))
    case Int(i) => Some(JInt(i))
    case Str(s) => if s == [] then None else Some(JString(s))
  }

  /** A property is added in JSON mode when it has a value or empty
      properties are allowed; without a value it is added as null. */
  predicate KeptInJson(allowEmpty: bool, p: Property) {
    JsonValueOf(p.value).Some? || allowEmpty
  }

  function JsonMemberOf(p: Property): JsonMember {
    match JsonValueOf(p.value)
    case Some(j) => JsonMember(p.key, j)
    case None => JsonMember(p.key, JNull)
  }

  /** The members of one item's JSON object, in map order. */
  function JsonMembers(allowEmpty: bool, ps: seq<Property>): (r: seq<JsonMember>)
    ensures |r| <= |ps|
    ensures forall m :: m in r ==> allowEmpty || m.value != JNull
    ensures forall k :: 0 <= k < |ps| && KeptInJson(allowEmpty, ps[k]) ==> JsonMemberOf(ps[k]) in r
  {
    if ps == [] then []
    else
      var n := |ps| - 1;
      var prefix := JsonMembers(allowEmpty, ps[..n]);
      assert forall k :: 0 <= k < n ==> ps[..n][k] == ps[k];
      var p := ps[n];
      if KeptInJson(allowEmpty, p) then prefix + [JsonMemberOf(p)] else prefix
  }

  /** Every member comes from one of the properties. */
  lemma {:induction false} JsonMembersFromProperties(allowEmpty: bool, ps: seq<Property>)
    ensures forall m :: m in JsonMembers(allowEmpty, ps) ==> exists k :: 0 <= k < |ps| && m == JsonMemberOf(ps[k])
  {
    if ps != [] {
      var n := |ps| - 1;
      JsonMembersFromProperties(allowEmpty, ps[..n]);
      assert forall k :: 0 <= k < n ==> ps[..n][k] == ps[k];
    }
  }

  /** A property whose member is absent was filtered out, since map keys
      are unique. */
  lemma JsonMemberAbsent(allowEmpty: bool, ps: Properties, k: nat)
    requires k < |ps| && !KeptInJson(allowEmpty, ps[k])
    ensures forall m :: m in JsonMembers(allowEmpty, ps) ==> m.key != ps[k].key
  {
    JsonMembersFromProperties(allowEmpty, ps);
    forall m | m in JsonMembers(allowEmpty, ps)
      ensures m.key != ps[k].key
    {
      var j :| 0 <= j < |ps| && m == JsonMemberOf(ps[j]);
      if j != k {
        AscendingKeysDistinct(ps, j, k);
      }
    }
  }

  /** The member added for one property, if any. */
  lemma JsonMembersOne(allowEmpty: bool, p: Property)
    ensures JsonMembers(allowEmpty, [p]) == if KeptInJson(allowEmpty, p) then [JsonMemberOf(p)] else []
  {
    assert [p][..0] == [];
  }

  /** Adding after one more property. */
  lemma JsonMembersSnoc(allowEmpty: bool, ps: seq<Property>, p: Property)
    ensures JsonMembers(allowEmpty, ps + [p]) ==
            JsonMembers(allowEmpty, ps) + if KeptInJson(allowEmpty, p) then [JsonMemberOf(p)] else []
  {
    assert (ps + [p])[..|ps|] == ps && (ps + [p])[|ps|] == p;
  }

  /** Members distribute over concatenation: one member per kept property,
      in map order. */
  lemma {:induction false} JsonMembersAppend(allowEmpty: bool, ps: seq<Property>, qs: seq<Property>)
    ensures JsonMembers(allowEmpty, ps + qs) == JsonMembers(allowEmpty, ps) + JsonMembers(allowEmpty, qs)
    decreases |qs|
  {
    if qs == [] {
      assert ps + qs == ps;
    } else {
      var n := |qs| - 1;
      var init, q := qs[..n], qs[n];
      assert qs == init + [q];
      assert ps + qs == (ps + init) + [q];
      JsonMembersAppend(allowEmpty, ps, init);
      JsonMembersSnoc(allowEmpty, ps + init, q);
      JsonMembersSnoc(allowEmpty, init, q);
      var a, b := JsonMembers(allowEmpty, ps), JsonMembers(allowEmpty, init);
      var c := if KeptInJson(allowEmpty, q) then [JsonMemberOf(q)] else [];
      assert (a + b) + c == a + (b + c);
    }
  }

  /** Everything `printJson` adds to the top-level object, item by item. */
  function JsonOutput(filter: string, allowNonexistent: bool, allowEmpty: bool, items: seq<Item>): seq<JsonItem>
    requires AllCanFilter(filter, allowNonexistent, items)
  {
    if items == [] then []
    else
      var n := |items| - 1;
      AllCanFilterPrefix(filter, allowNonexistent, items, n);
      var prefix := JsonOutput(filter, allowNonexistent, allowEmpty, items[..n]);
      if Emitted(filter, allowNonexistent, items[n])
      then prefix + [JsonItem(items[n].name, JsonMembers(allowEmpty, items[n].properties))]
      else prefix
  }

  /** The JSON output has one member per emitted item, in order, named by
      the item, even when none of its properties is kept. */
  lemma {:induction false} JsonOutputIsSelection(filter: string, allowNonexistent: bool, allowEmpty: bool, items: seq<Item>)
    requires AllCanFilter(filter, allowNonexistent, items)
    ensures var out, sel := JsonOutput(filter, allowNonexistent, allowEmpty, items), Select(filter, allowNonexistent, items);
            |out| == |sel| &&
            forall i :: 0 <= i < |sel| ==> out[i] == JsonItem(sel[i].name, JsonMembers(allowEmpty, sel[i].properties))
  {
    if items != [] {
      var n := |items| - 1;
      AllCanFilterPrefix(filter, allowNonexistent, items, n);
      JsonOutputIsSelection(filter, allowNonexistent, allowEmpty, items[..n]);
    }
  }

  // ---------------------------------------------------------------------
  // The two modes agree.

  /** A value renders as empty text exactly when it has no JSON value. */
  lemma EmptyInBothModes(v: PropVal)
    ensures RenderText(v) == [] <==> JsonValueOf(v) == None
  {
  }

  /** Both modes write the same properties, with the same keys, in the same order. */
  lemma {:induction false} ModesKeepSameKeys(allowEmpty: bool, ps: seq<Property>)
    ensures var t, j := TextLines(allowEmpty, ps), JsonMembers(allowEmpty, ps);
            |t| == |j| && forall i :: 0 <= i < |t| ==> t[i].key == j[i].key
  {
    if ps != [] {
      var n := |ps| - 1;
      var init, p := ps[..n], ps[n];
      assert ps == init + [p];
      ModesKeepSameKeys(allowEmpty, init);
      EmptyInBothModes(p.value);
      TextLinesSnoc(allowEmpty, init, p);
      JsonMembersSnoc(allowEmpty, init, p);
    }
  }

  /** Both modes emit the same items in the same order. */
  lemma ModesEmitSameItems(filter: string, allowNonexistent: bool, allowEmpty: bool, items: seq<Item>)
    requires CanPrintText(filter, allowNonexistent, items)
    ensures var t, j := TextOutput(filter, allowNonexistent, allowEmpty, items),
                        JsonOutput(filter, allowNonexistent, allowEmpty, items);
            |t| == |j| && forall i :: 0 <= i < |t| ==> t[i].name == j[i].name
  {
    TextOutputIsSelection(filter, allowNonexistent, allowEmpty, items);
    JsonOutputIsSelection(filter, allowNonexistent, allowEmpty, items);
  }

  // ---------------------------------------------------------------------
  // The printer object.

  class Printer {
    /** The only name to emit, or empty to emit every name. */
    var nameFilter: string
    /** Whether items whose "Present" flag is false are emitted. */
    var printNonexistent: bool
    /** Whether properties with an empty rendering are emitted. */
    var printEmptyProperties: bool

    constructor()
      ensures nameFilter == [] && !printNonexistent && !printEmptyProperties
    {
      nameFilter := [];
      printNonexistent := false;
      printEmptyProperties := false;
    }

    /** `setNameFilter`: store the name. */
    method SetNameFilter(name: string)
      modifies this
      ensures nameFilter == name
      ensures printNonexistent == old(printNonexistent) && printEmptyProperties == old(printEmptyProperties)
    {
      nameFilter := name;
    }

    /** `allowNonexitent`: set its own flag. */
    method AllowNonexistent()
      modifies this
      ensures printNonexistent
      ensures nameFilter == old(nameFilter) && printEmptyProperties == old(printEmptyProperties)
    {
      printNonexistent := true;
    }

    /** `allowEmptyProperties`: set its own flag. */
    method AllowEmptyProperties()
      modifies this
      ensures printEmptyProperties
      ensures nameFilter == old(nameFilter) && printNonexistent == old(printNonexistent)
    {
      printEmptyProperties := true;
    }

    /** `printText`: the blocks written for the items, in order. */
    method PrintText(items: seq<Item>) returns (out: seq<TextBlock>)
      requires CanPrintText(nameFilter, printNonexistent, items)
      ensures out == TextOutput(nameFilter, printNonexistent, printEmptyProperties, items)
    {
      out := [];
      for i := 0 to |items|
        invariant CanPrintText(nameFilter, printNonexistent, items[..i])
        invariant out == TextOutput(nameFilter, printNonexistent, printEmptyProperties, items[..i])
      {
        CanPrintTextPrefix(nameFilter, printNonexistent, items, i + 1);
        assert items[..i + 1][..i] == items[..i];
        var item := items[i];
        // skip an item whose name differs from a non-empty filter
        if nameFilter != [] && nameFilter != item.name {
          continue;
        }
        // skip an absent item unless absent items are allowed
        if !printNonexistent && !IsPresent(item) {
          continue;
        }
        var lines := PrintProperties(item.properties);
        out := out + [TextBlock(item.name, PrettyName(item), lines)];
      }
      assert items[..|items|] == items;
    }

    /** The property loop of `printText` for one item. */
    method PrintProperties(ps: seq<Property>) returns (lines: seq<TextLine>)
      ensures lines == TextLines(printEmptyProperties, ps)
    {
      lines := [];
      for j := 0 to |ps|
        invariant lines == TextLines(printEmptyProperties, ps[..j])
      {
        assert ps[..j + 1][..j] == ps[..j];
        var property := ps[j];
        var val := RenderText(property.value);
        // skip a property rendered as "" unless empties are allowed
        if !printEmptyProperties && val == [] {
          continue;
        }
        lines := lines + [TextLine(property.key, val)];
      }
      assert ps[..|ps|] == ps;
    }

    /** `printJson`: the members added to the top-level object, in order. */
    method PrintJson(items: seq<Item>) returns (out: seq<JsonItem>)
      requires AllCanFilter(nameFilter, printNonexistent, items)
      ensures out == JsonOutput(nameFilter, printNonexistent, printEmptyProperties, items)
    {
      out := [];
      for i := 0 to |items|
        invariant AllCanFilter(nameFilter, printNonexistent, items[..i])
        invariant out == JsonOutput(nameFilter, printNonexistent, printEmptyProperties, items[..i])
      {
        AllCanFilterPrefix(nameFilter, printNonexistent, items, i + 1);
        assert items[..i + 1][..i] == items[..i];
        var item := items[i];
        // skip an item whose name differs from a non-empty filter
        if nameFilter != [] && nameFilter != item.name {
          continue;
        }
        // skip an absent item unless absent items are allowed
        if !printNonexistent && !IsPresent(item) {
          continue;
        }
        var members := JsonProperties(item.properties);
        out := out + [JsonItem(item.name, members)];
      }
      assert items[..|items|] == items;
    }

    /** The property loop of `printJson` for one item. */
    method JsonProperties(ps: seq<Property>) returns (members: seq<JsonMember>)
      ensures members == JsonMembers(printEmptyProperties, ps)
    {
      members := [];
      for j := 0 to |ps|
        invariant members == JsonMembers(printEmptyProperties, ps[..j])
      {
        assert ps[..j + 1][..j] == ps[..j];
        var property := ps[j];
        var jsonProp := JsonValueOf(property.value);
        // add a member when there is a value, or a null when empties are allowed
        if jsonProp.Some? || printEmptyProperties {
          var value := if jsonProp.Some? then jsonProp.value else JNull;
          members := members + [JsonMember(property.key, value)];
        }
      }
      assert ps[..|ps|] == ps;
    }
  }
}

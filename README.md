# lsinventory core in Dafny

This project models two parts of the `lsinventory` tool, which lists the
inventory objects of an OpenBMC system:

- **Inventory construction** (`src/inventory.cpp`). Each D-Bus object path
  gets a display name (`nameFromPath`). String properties lose their
  trailing white space. The items are then sorted in natural ("human")
  order by `humanCompare`. `isPresent` and `prettyName` are the two
  lookups on an item's property map.
- **Output selection** (`src/printer.cpp`). The `Printer` object holds three
  settings: a name filter, "print non-present items" and "print empty
  properties". This part decides which items and which properties are
  written, and how each value is rendered as text or as JSON.

Modules:

- `Wrappers` — `Option`.
- `Decimal` — digits, the value of a digit run as `strtoul` reads it, and
  `std::to_string` for `int64_t`.
- `InventoryTypes` — `InventoryItem`. The `std::map` becomes a sequence of
  entries with strictly ascending keys. Also `isPresent` and `prettyName`.
- `PathNames` — `nameFromPath`.
- `HumanOrder` — the comparator's specification and the comparator itself
  as a two-cursor loop. The specification reads a name as tokens (one per
  non-digit character, one per maximal digit run) and orders names
  lexicographically by them: end < character < number.
- `Inventory` — `getInventory` without its D-Bus calls. It takes the
  (path, properties) pairs of the subtree in `std::map` order and returns
  the sorted items.
- `InventoryExamples` — what `test/inventory_test.cpp` expects, stated for
  every sorted permutation the sort may return.
- `Printing` — the `Printer` class.
  - `PrintText` returns the blocks that `printText` writes.
  - `PrintJson` returns the members that `printJson` adds to its
    top-level object.
  - The specification functions `Select`, `TextLines` and `JsonMembers`
    state which items and properties are emitted.

Where the sources disagree, the model follows the code: `printer.hpp` declares
the fields `nameFilter`, `printNonexitent` and `printEmptyProperties`, while
`printer.cpp` uses `nameFilter_`, `allowNonexitent_` and
`allowEmptyProperties_`. The model keeps the header's names (spelling
corrected) with the roles `printer.cpp` gives them.

Two further facts about the model:
- A property value is a boolean, a signed 64-bit integer or a string, the three
  alternatives of `std::variant<int64_t, std::string, bool>` (`inventory.hpp:17`).
- `getInventory` makes one item per path and never merges items, even when
  their names collide.

## Model

| member | source | states |
|---|---|---|
| Decimal.IsDigit | src/inventory.cpp:64-65 | the `chr >= '0' && chr <= '9'` test: exactly the ten ASCII digits |
| Decimal.DigitRunLength | src/inventory.cpp:72-73 | the digit run `strtoul` consumes: a prefix of digits followed by the end or a non-digit |
| Decimal.DigitsValue | src/inventory.cpp:72-73 | the value `strtoul` returns for a run of decimal digits, most significant first (unbounded; see Left out) |
| Decimal.NatToDigits | src/printer.cpp:54 | a canonical numeral (digits, no leading zero unless it is "0") whose value is the number |
| Decimal.CanonicalUnique | src/printer.cpp:54 | two canonical numerals with the same value are the same string |
| Decimal.Int64ToString | src/printer.cpp:53-54 | `std::to_string` of an int64: a canonical numeral whose value is the number, behind a '-' for a negative number, so never a leading zero |
| Decimal.Int64ToStringUnique | src/printer.cpp:53-54 | any string meeting that contract is the text of the number, so the contract fixes the text |
| InventoryTypes.AscendingKeysDistinct | src/inventory.hpp:23 | the keys of a property map are distinct |
| InventoryTypes.StrLess | src/inventory.hpp:23 | the key order of `std::map<std::string, …>`: the first differing character decides and a proper prefix comes first |
| InventoryTypes.Lookup | src/inventory.cpp:97 | `find` is none exactly when no entry has the key, and otherwise that entry's value |
| InventoryTypes.IsPresent | src/inventory.cpp:95-99 | present exactly when every "Present" entry is `true`, so an item without one is present |
| InventoryTypes.PrettyName | src/inventory.cpp:101-107 | the "PrettyName" string, or "" when there is no such entry |
| PathNames.HasCorePrefix | src/inventory.cpp:27 | `path.compare(lastSlash + 1, 4, "core") == 0`: the text after the slash starts with exactly "core" (a shorter tail fails) |
| PathNames.NameFromPath | src/inventory.cpp:17-38 | the name is a suffix of the path; which suffix is stated case by case in the `NameAfter…` and `NameOf…` rows: the whole path without '/', the last segment, the parent and "core..." segments, the whole path for a top-level core, "" after a trailing '/' |
| PathNames.LastSlashBefore | src/inventory.cpp:19-30 | `find_last_of('/')`: a '/' before the bound, with no '/' between it and the bound; none when there is none |
| PathNames.LastSlashAt | src/inventory.cpp:19 | the last '/' before a bound is the one no '/' follows |
| PathNames.NoSlashBefore | src/inventory.cpp:34 | `find_last_of` finds nothing when there is no '/' |
| PathNames.NameAfterLastSlash | src/inventory.cpp:23-37 | when the last segment does not start with "core", or its '/' is at index 0, the name follows the last '/' |
| PathNames.NameAfterParentSlash | src/inventory.cpp:27-37 | for a "core" segment the name follows the '/' before the last one |
| PathNames.NameWithoutParentSlash | src/inventory.cpp:27-35 | for a "core" segment with no earlier '/' the name is the whole path |
| PathNames.NameOfSlashlessPath | src/inventory.cpp:34-35 | a path without '/' is its own name |
| PathNames.NameOfLastSegment | src/inventory.cpp:19-37 | the name is the last segment when it does not start with "core", or when its '/' is at index 0 ("/core1" gives "core1") |
| PathNames.NameOfTrailingSlash | src/inventory.cpp:36-37 | a path ending in '/' gives "" |
| PathNames.NameOfCoreSegment | src/inventory.cpp:23-31 | a last segment starting with "core" keeps its parent segment: ".../cpu0/core1" gives "cpu0/core1" |
| PathNames.NameOfTopCoreSegment | src/inventory.cpp:27-35 | a "core" segment with no earlier '/' gives the whole path |
| PathNames.NameUnderPrefix | test/inventory_test.cpp:50 | an object directly under a '/'-terminated prefix is named by its segment |
| PathNames.NameUnderPrefixOfCore | test/inventory_test.cpp:49 | a core under a parent segment is named "parent/core..." |
| HumanOrder.Tokenize | src/inventory.cpp:64-91 | how the walk reads a name: each non-digit character as itself, each maximal digit run as its `strtoul` value |
| HumanOrder.HumanLess | src/inventory.cpp:51-93 | the reference order of the comparator: names compared token by token, the end before a character, a character before a number, characters by code, numbers by value; `HumanCompare` is proved equal to it |
| HumanOrder.TokensLessIrreflexive | src/inventory.cpp:51-93 | the token order is irreflexive |
| HumanOrder.TokensLessTransitive | src/inventory.cpp:51-93 | the token order is transitive |
| HumanOrder.TokensLessTotal | src/inventory.cpp:51-93 | different token sequences are ordered one way or the other |
| HumanOrder.HumanLessIrreflexive | src/inventory.cpp:61-62 | no name sorts before itself |
| HumanOrder.HumanLessAsymmetric | src/inventory.cpp:51-93 | of two names at most one sorts before the other |
| HumanOrder.HumanLessTransitive | src/inventory.cpp:51-93 | the comparator is transitive |
| HumanOrder.HumanIncomparableIffSameTokens | src/inventory.cpp:67-78 | two names are incomparable exactly when they have the same tokens, an equivalence, so the comparator is a strict weak order as `std::sort` requires |
| HumanOrder.HumanNotLessTransitive | src/inventory.cpp:153 | "not after" is transitive |
| HumanOrder.HumanLessAtEnd | src/inventory.cpp:61-62 | when one name has ended, `a` sorts first exactly when `b` has characters left |
| HumanOrder.HumanLessChars | src/inventory.cpp:84-91 | on two non-digits, unequal characters decide by value and equal ones move on by one |
| HumanOrder.TokenizeDigitRun | src/inventory.cpp:72-73 | a maximal digit run is one token holding its value |
| HumanOrder.HumanLessDigitRuns | src/inventory.cpp:67-78 | on two digits, the maximal runs compare by value and equal values move past both runs |
| HumanOrder.HumanLessDigitAgainstChar | src/inventory.cpp:79-83 | when exactly one side is on a digit, the non-digit side sorts first |
| HumanOrder.HumanLessExtension | src/inventory.cpp:61-62 | a name sorts before `a + s` whenever `s` is non-empty and does not start a digit continuing the name's final digit run (a sufficient condition: "1" before "12" also holds, "0" and "00" are incomparable) |
| HumanOrder.TokenizeConcat | src/inventory.cpp:67-91 | the tokens of a concatenation that joins no digit runs are the concatenated tokens |
| HumanOrder.HumanLessCommonPrefix | src/inventory.cpp:84-91 | names sharing a prefix that ends in a non-digit compare by what follows it |
| HumanOrder.CpuBeforeItsCores | test/inventory_test.cpp:39-40 | "cpuN" sorts before "cpuN/coreM" |
| HumanOrder.CoresByNumber | src/inventory.cpp:44 | cores of one processor sort by core number |
| HumanOrder.CpusByNumberFirst | src/inventory.cpp:67-78 | names "cpuN..." sort by N first |
| HumanOrder.CoresByCpuNumber | src/inventory.cpp:44 | a core of processor N sorts before every core of a later processor |
| HumanOrder.CoreBeforeLaterCpu | test/inventory_test.cpp:43-44 | "cpuN/coreM" sorts before a later "cpuK" |
| HumanOrder.CpusByNumber | test/inventory_test.cpp:44-45 | processors sort by number: cpu5 before cpu10 |
| HumanOrder.DocumentedExample | src/inventory.cpp:43-44 | cpu1/core2 sorts before cpu1/core10 and after cpu0/core10 |
| HumanOrder.LeadingZerosExample | src/inventory.cpp:72-77 | "01" and "1" are incomparable |
| HumanOrder.HumanCompare | src/inventory.cpp:51-93 | the two-cursor walk returns exactly whether `a` sorts before `b` in the token order |
| HumanOrder.TokenizeAt | src/inventory.cpp:72-77 | from a cursor on a digit: the run's value, then the tokens after its end |
| HumanOrder.TokensLessStep | src/inventory.cpp:74-75 | unequal first tokens decide; equal ones move on |
| Inventory.IsSpace | src/inventory.cpp:143 | `std::isspace` in the C locale: space, \t, \n, \v, \f, \r |
| Inventory.RightStrip | src/inventory.cpp:142-145 | the result is a prefix of the input, ends in no white space, and only white space was removed |
| Inventory.RightStripUnique | src/inventory.cpp:142-145 | those three facts determine the stripped string |
| Inventory.RightStripIdempotent | src/inventory.cpp:142-145 | stripping twice is stripping once |
| Inventory.RightStripExample | test/inventory_test.cpp:192-193 | "Object pretty name \t \r\n  " strips to "Object pretty name": leading and inner spaces stay |
| Inventory.StripValue | src/inventory.cpp:139-146 | only string values change; a string keeps a prefix of itself that ends in no white space, and only white space is removed after it, so leading and inner white space stay (with `RightStripUnique` the result is exactly the stripped string) |
| Inventory.NormalizeProperties | src/inventory.cpp:136-147 | same keys in the same order, non-string values unchanged, every string value replaced by itself without its trailing white space |
| Inventory.NormalizeIdempotent | src/inventory.cpp:136-147 | normalising twice is normalising once |
| Inventory.Sorted | src/inventory.cpp:153 | what `std::sort` with `humanCompare` leaves: no item has a later item that `HumanLess` puts before it |
| Inventory.Insert | src/inventory.cpp:153 | inserting into a sorted sequence keeps it sorted and adds exactly one element |
| Inventory.SortByName | src/inventory.cpp:153 | `std::sort` with `humanCompare`: a sorted permutation |
| Inventory.MakeItem | src/inventory.cpp:126-149 | the item built for one object: its name from the path and its properties stripped |
| Inventory.Collect | src/inventory.cpp:124-150 | one item per object, in the order of the objects |
| Inventory.GetInventory | src/inventory.cpp:109-156 | the items are sorted and are a permutation of one item per object, named by `nameFromPath`, with properties normalised |
| InventoryExamples.SortedPermutationUnique | src/inventory.cpp:153 | when the items are strictly ordered, every sorted permutation of them is that order |
| InventoryExamples.SortedOf | test/inventory_test.cpp:38-56 | for any chassis prefix and numbers z < o < f < t, any sorted permutation of the items of the seven objects is cpuZ, cpuZ/coreZ, cpuZ/coreO, cpuZ/coreF, cpuZ/coreT, cpuF, cpuT |
| InventoryExamples.FullListExample | test/inventory_test.cpp:84-90 | the test's seven paths sort to cpu0, cpu0/core0, cpu0/core1, cpu0/core5, cpu0/core10, cpu5, cpu10 |
| InventoryExamples.BareObjectsGiveBareItems | src/inventory.cpp:124-150 | objects without properties give items without properties |
| InventoryExamples.FullListItemsBare | test/inventory_test.cpp:91-93 | every item of the test has no properties, an empty pretty name and is present |
| InventoryExamples.SingleObject | src/inventory.cpp:124-150 | one object with one property gives one item holding that property, stripped if it is a string |
| InventoryExamples.EmptyListExample | test/inventory_test.cpp:27-32 | no objects give no items |
| InventoryExamples.StringPropertyExample | test/inventory_test.cpp:189-232 | one object with a padded "PrettyName" gives one item with one property, whose pretty name is stripped |
| InventoryExamples.NonStringPropertyExample | test/inventory_test.cpp:135-142 | one object with a bool or integer property gives one item holding that property unchanged |
| Printing.NameMatches | src/printer.cpp:33-34 | the name filter, the same at src/printer.cpp:80-81: an empty filter passes every item, otherwise only an item with exactly that name |
| Printing.Emitted | src/printer.cpp:33-38 | the item passes both `continue` tests, the same at src/printer.cpp:80-85: the name filter, and presence unless non-present items are allowed |
| Printing.Select | src/printer.cpp:30-38 | the emitted items are items that pass both filters, and every item that passes them is emitted |
| Printing.SelectAppend | src/printer.cpp:30 | selection distributes over concatenation, so emitted items keep their input order |
| Printing.SelectEverything | src/printer.cpp:33-38 | with an empty filter and non-present items allowed, every item is emitted |
| Printing.SelectByName | src/printer.cpp:33-34 | with a name filter, only items of that name are emitted |
| Printing.RenderText | src/printer.cpp:48-60 | text is "Yes"/"No" for a bool, the string itself, and for an integer the canonical decimal numeral (no leading zero) of its value with a '-' when negative; it is empty exactly for the empty string |
| Printing.KeptInText | src/printer.cpp:62-64 | a property is written unless empty properties are disallowed and its rendering is "" |
| Printing.TextLines | src/printer.cpp:44-68 | no empty value is written unless allowed, every kept property is written as key and rendered value, and nothing more than the properties; order and multiplicity are in the three rows below |
| Printing.TextLinesOne | src/printer.cpp:62-68 | one property gives its line exactly when it is kept, and nothing otherwise |
| Printing.TextLinesSnoc | src/printer.cpp:44 | one more property appends at most its own line |
| Printing.TextLinesAppend | src/printer.cpp:44-69 | the lines of concatenated properties are the concatenated lines: one line per kept property, in map order |
| Printing.TextLinesFromProperties | src/printer.cpp:44-68 | every written line renders one of the properties |
| Printing.TextLineAbsent | src/printer.cpp:62-64 | a skipped property leaves no line with its key |
| Printing.TextOutput | src/printer.cpp:25-71 | everything `printText` writes: one block per item passing both filters, in input order, holding its title and its property lines |
| Printing.TextOutputIsSelection | src/printer.cpp:30-41 | one block per emitted item, in order, titled by its name and pretty name |
| Printing.JsonValueOf | src/printer.cpp:95-111 | a bool gives a boolean, an integer an int64, a non-empty string a string; only the empty string has no value |
| Printing.KeptInJson | src/printer.cpp:113-114 | a property is added when it has a JSON value or empty properties are allowed |
| Printing.JsonMemberOf | src/printer.cpp:114-117 | the member added for a property: its key with its JSON value, or null when it has none |
| Printing.JsonMembers | src/printer.cpp:90-119 | a property is added when it has a value or empty properties are allowed, without a value as null; null only when allowed; order and multiplicity are in the three rows below |
| Printing.JsonMembersOne | src/printer.cpp:113-118 | one property gives its member exactly when it is added, and nothing otherwise |
| Printing.JsonMembersSnoc | src/printer.cpp:90 | one more property appends at most its own member |
| Printing.JsonMembersAppend | src/printer.cpp:90-119 | the members of concatenated properties are the concatenated members: one member per added property, in map order |
| Printing.JsonMembersFromProperties | src/printer.cpp:113-118 | every added member comes from one of the properties |
| Printing.JsonMemberAbsent | src/printer.cpp:113-118 | a property that is not added leaves no member with its key |
| Printing.JsonOutput | src/printer.cpp:73-122 | everything `printJson` adds to the top-level object: one member per item passing both filters, in input order, named by the item and holding its property members |
| Printing.JsonOutputIsSelection | src/printer.cpp:87-121 | one member per emitted item, in order, keyed by its name, even when none of its properties is added |
| Printing.EmptyInBothModes | src/printer.cpp:62-64 | a value renders as empty text exactly when it has no JSON value |
| Printing.ModesKeepSameKeys | src/printer.cpp:62-64 | text and JSON write the same property keys in the same order |
| Printing.ModesEmitSameItems | src/printer.cpp:77-85 | text and JSON emit the same items in the same order |
| Printing.Printer.constructor | src/printer.hpp:48-52 | empty filter, both flags false |
| Printing.Printer.SetNameFilter | src/printer.cpp:10-13 | stores the name and changes nothing else |
| Printing.Printer.AllowNonexistent | src/printer.cpp:15-18 | sets its own flag to true and changes nothing else |
| Printing.Printer.AllowEmptyProperties | src/printer.cpp:20-23 | sets its own flag to true and changes nothing else |
| Printing.Printer.PrintText | src/printer.cpp:25-71 | the item loop writes exactly the text output of the current settings |
| Printing.Printer.PrintProperties | src/printer.cpp:44-69 | the property loop writes exactly the text lines of the current settings |
| Printing.Printer.PrintJson | src/printer.cpp:73-122 | the item loop adds exactly the JSON output of the current settings |
| Printing.Printer.JsonProperties | src/printer.cpp:90-119 | the property loop adds exactly the JSON members of the current settings |

## Left out

- The D-Bus calls of `getInventory` (`GetSubTree`, `GetAll`, src/inventory.cpp:113-122, 130-134) are I/O. `GetInventory` takes their result: the objects with their properties, paths distinct and ascending as a `std::map` holds them.
- `src/main.cpp` is process glue (option parsing, exit codes, remote bus, exception reporting) and is not part of this model. It calls `allowNonPresent`, which is declared nowhere, and passes a bus to `getInventory`, which takes none.
- Stream output is not modelled: the `std::cout` writes, the column padding `OutputPropertyWidth - key length` (src/printer.cpp:67, which underflows for keys longer than 20 characters) and the json-c serialisation (src/printer.cpp:124-128).
- Printing.Printer.PrintJson: returns the members in the order they are added. It does not model that `json_object_object_add` replaces an earlier member with the same key, so duplicate item names (or keys) appear twice in the model.
- HumanOrder.HumanCompare: digit runs are unbounded `nat` values. `strtoul` saturating at `ULONG_MAX` for very long runs is not modelled.
- HumanOrder.HumanCompare: characters compare by code point, as for ASCII. A signed `char` ordering bytes above 127 before ASCII is not modelled, and names are assumed to hold no NUL character, at which `c_str()` scanning would stop.
- Printing.Printer.PrintJson: names, property keys and string values are passed to json-c through `c_str()` (src/printer.cpp:106, 116, 121). An embedded NUL would cut them short there; the model keeps them whole.
- Inventory.IsSpace: the C-locale `isspace` set (space, \t, \n, \v, \f, \r). Other locales are not modelled.
- InventoryTypes.IsPresent, InventoryTypes.PrettyName: `std::get` throws when "Present" is not a bool or "PrettyName" is not a string. These become preconditions (`PresentIsBool`, `PrettyNameIsString`), required only where the source makes the call: by `isPresent` for an item the name filter lets through when non-present items are not allowed, and by `prettyName` for an item that text mode emits.
- Inventory.SortByName: `std::sort`'s algorithm and its (lack of) stability are not modelled. `Inventory.GetInventory` promises only a sorted permutation, which is all that `std::sort` promises.
- Printing.Printer.PrintText: the title and the property lines are returned as values (`TextBlock`, `TextLine`), not as the formatted characters.

/**
 What setting or removing a label means: the label shapes of a compose service, the rewriting of each
 shape, and the map that deployments read from it.
 */
module ComposeLabels {
  import opened Common

  // ----- Shapes -----

  datatype Kind = Scalar | Mapping | Sequence | Alias | Document

  datatype Style = Plain | DoubleQuoted | OtherStyle

  /** One YAML node without its children. */
  datatype Item = Item(kind: Kind, tag: string, value: string, style: Style)

  /** A key and its value in a mapping. */
  datatype Entry = Entry(key: Item, value: Item)

  datatype Labels =
    | Absent
    | Entries(entries: seq<Entry>)
    | Items(items: seq<Item>)
    | Text
    | Unsupported

  const STR := "!!str"

  function PlainText(value: string): Item {
    Item(Scalar, STR, value, Plain)
  }

  function QuotedText(value: string): Item {
    Item(Scalar, STR, value, DoubleQuoted)
  }

  // ----- Finding a label -----

  /** Position of the first entry with this key, or the length of the mapping. */
  function FirstKey(entries: seq<Entry>, key: string): (i: nat)
    ensures i <= |entries|
    ensures i < |entries| ==> entries[i].key.value == key
  {
    if entries == [] then 0
    else if entries[0].key.value == key then 0
    else 1 + FirstKey(entries[1..], key)
  }

  lemma {:induction false} NoEarlierKey(entries: seq<Entry>, key: string, j: nat)
    requires j < FirstKey(entries, key)
    ensures entries[j].key.value != key
  {
    if j >= 1 {
      NoEarlierKey(entries[1..], key, j - 1);
    }
  }

  lemma {:induction false} FirstKeyIs(entries: seq<Entry>, key: string, i: nat)
    requires i <= |entries| && (i < |entries| ==> entries[i].key.value == key)
    requires forall j :: 0 <= j < i ==> entries[j].key.value != key
    ensures FirstKey(entries, key) == i
  {
    if i >= 1 {
      FirstKeyIs(entries[1..], key, i - 1);
    }
  }

  predicate Matches(item: Item, key: string) {
    item.kind == Scalar && (item.value == key || key + "=" <= item.value)
  }

  /** Position of the first item for `key`, or the length of the list. */
  function FirstItem(items: seq<Item>, key: string): (i: nat)
    ensures i <= |items|
    ensures i < |items| ==> Matches(items[i], key)
  {
    if items == [] then 0
    else if Matches(items[0], key) then 0
    else 1 + FirstItem(items[1..], key)
  }

  lemma {:induction false} NoEarlierItem(items: seq<Item>, key: string, j: nat)
    requires j < FirstItem(items, key)
    ensures !Matches(items[j], key)
  {
    if j >= 1 {
      NoEarlierItem(items[1..], key, j - 1);
    }
  }

  lemma {:induction false} FirstItemIs(items: seq<Item>, key: string, i: nat)
    requires i <= |items| && (i < |items| ==> Matches(items[i], key))
    requires forall j :: 0 <= j < i ==> !Matches(items[j], key)
    ensures FirstItem(items, key) == i
  {
    if i >= 1 {
      FirstItemIs(items[1..], key, i - 1);
    }
  }

  // ----- Setting or, with an empty value, removing a label -----

  function Drop<T>(s: seq<T>, i: nat): seq<T>
    requires i < |s|
  {
    s[..i] + s[i + 1..]
  }

  function NewEntry(key: string, value: string): Entry {
    Entry(PlainText(key), QuotedText(value))
  }

  function SetEntry(entries: seq<Entry>, key: string, value: string): seq<Entry> {
    var i := FirstKey(entries, key);
    if i < |entries| then entries[i := entries[i].(value := QuotedText(value))]
    else entries + [NewEntry(key, value)]
  }

  function RemoveEntry(entries: seq<Entry>, key: string): seq<Entry> {
    var i := FirstKey(entries, key);
    if i < |entries| then Drop(entries, i) else entries
  }

  function SetItem(items: seq<Item>, key: string, value: string): seq<Item> {
    var i := FirstItem(items, key);
    if i < |items| then items[i := items[i].(tag := STR, value := key + "=" + value)]
    else items + [PlainText(key + "=" + value)]
  }

  function RemoveItem(items: seq<Item>, key: string): seq<Item> {
    var i := FirstItem(items, key);
    if i < |items| then Drop(items, i) else items
  }

  /** None for a shape that cannot be rewritten. */
  function SetLabel(labels: Labels, key: string, value: string): Option<Labels> {
    match labels
    case Absent => Some(if value == "" then Absent else Entries([NewEntry(key, value)]))
    case Entries(entries) =>
      if value != "" then Some(Entries(SetEntry(entries, key, value)))
      else
        var left := RemoveEntry(entries, key);
        Some(if left == [] then Absent else Entries(left))
    case Items(items) =>
      if value != "" then Some(Items(SetItem(items, key, value)))
      else
        var left := RemoveItem(items, key);
        Some(if left == [] then Absent else Items(left))
    case Text => Some(if value == "" then Text else Entries([NewEntry(key, value)]))
    case Unsupported => None
  }

  // ----- What deployments read -----

  /** A node decodes to a string exactly when it is a scalar with the string tag. */
  predicate IsString(item: Item) {
    item.kind == Scalar && item.tag == STR
  }

  /** The text before the first '='. */
  function KeyPart(text: string): string {
    if text == "" || text[0] == '=' then "" else [text[0]] + KeyPart(text[1..])
  }

  /** The text after the first '=', empty without one. */
  function ValuePart(text: string): string {
    if text == "" then "" else if text[0] == '=' then text[1..] else ValuePart(text[1..])
  }

  type Binding = (string, string)

  /** `render` prints a decoded value that is not a string; that is up to the YAML library. */
  function EntryBinding(entry: Entry, render: Item -> string): Binding {
    (entry.key.value, if IsString(entry.value) then entry.value.value else render(entry.value))
  }

  function EntryBindings(entries: seq<Entry>, render: Item -> string): seq<Binding> {
    if entries == [] then [] else [EntryBinding(entries[0], render)] + EntryBindings(entries[1..], render)
  }

  function ItemBinding(item: Item): seq<Binding> {
    if IsString(item) then [(KeyPart(item.value), ValuePart(item.value))] else []
  }

  function ItemBindings(items: seq<Item>): seq<Binding> {
    if items == [] then [] else ItemBinding(items[0]) + ItemBindings(items[1..])
  }

  function Bindings(labels: Labels, render: Item -> string): seq<Binding> {
    match labels
    case Entries(entries) => EntryBindings(entries, render)
    case Items(items) => ItemBindings(items)
    case _ => []
  }

  /** A later binding of a key wins. */
  function ToMap(bindings: seq<Binding>): map<string, string> {
    if bindings == [] then map[]
    else
      var last := bindings[|bindings| - 1];
      ToMap(bindings[..|bindings| - 1])[last.0 := last.1]
  }

  function ParseLabels(labels: Labels, render: Item -> string): map<string, string> {
    ToMap(Bindings(labels, render))
  }

  // ----- Bindings -----

  function Look(bindings: seq<Binding>, key: string): Option<string> {
    if bindings == [] then None
    else
      var last := bindings[|bindings| - 1];
      if last.0 == key then Some(last.1) else Look(bindings[..|bindings| - 1], key)
  }

  lemma {:induction false} MapIsLook(bindings: seq<Binding>, key: string)
    ensures key in ToMap(bindings) <==> Look(bindings, key).Some?
    ensures key in ToMap(bindings) ==> Look(bindings, key) == Some(ToMap(bindings)[key])
    decreases |bindings|
  {
    if bindings != [] {
      MapIsLook(bindings[..|bindings| - 1], key);
    }
  }

  lemma {:induction false} LookConcat(a: seq<Binding>, b: seq<Binding>, key: string)
    ensures Look(a + b, key) == if Look(b, key).Some? then Look(b, key) else Look(a, key)
    decreases |b|
  {
    if b == [] {
      assert a + b == a;
    } else {
      assert (a + b)[..|a + b| - 1] == a + b[..|b| - 1];
      LookConcat(a, b[..|b| - 1], key);
    }
  }

  lemma SameLooksSameMap(bindings: seq<Binding>, m: map<string, string>)
    requires forall key :: Look(bindings, key) == if key in m then Some(m[key]) else None
    ensures ToMap(bindings) == m
  {
    forall key ensures key in ToMap(bindings) <==> key in m {
      MapIsLook(bindings, key);
    }
    forall key | key in m ensures ToMap(bindings)[key] == m[key] {
      MapIsLook(bindings, key);
    }
  }

  lemma {:induction false} LookFinds(bindings: seq<Binding>, key: string)
    ensures Look(bindings, key).Some? <==> exists i :: 0 <= i < |bindings| && bindings[i].0 == key
    decreases |bindings|
  {
    if bindings != [] {
      LookFinds(bindings[..|bindings| - 1], key);
      assert forall i :: 0 <= i < |bindings| - 1 ==> bindings[..|bindings| - 1][i] == bindings[i];
    }
  }

  /** `mid` is at most one binding, and of `key`. */
  ghost predicate BindsOnly(mid: seq<Binding>, key: string) {
    |mid| <= 1 && (|mid| == 1 ==> mid[0].0 == key)
  }

  lemma LookInMiddle(a: seq<Binding>, mid: seq<Binding>, c: seq<Binding>, key: string, k: string)
    requires BindsOnly(mid, key)
    ensures Look(a + mid + c, k) ==
      if Look(c, k).Some? then Look(c, k)
      else if k == key && mid != [] then Some(mid[0].1)
      else Look(a, k)
  {
    LookConcat(a + mid, c, k);
    LookConcat(a, mid, k);
    assert mid != [] ==> mid[..|mid| - 1] == [];
  }

  /**
   Putting a new binding of `key` in the place of `mid`, the first to bind it: this updates the map
   exactly when no later binding says otherwise.
   */
  lemma ReplaceBinding(a: seq<Binding>, mid: seq<Binding>, c: seq<Binding>,
                       key: string, value: string,
                       before: seq<Binding>, after: seq<Binding>)
    requires Look(a, key).None? && BindsOnly(mid, key)
    requires before == a + mid + c && after == a + [(key, value)] + c
    ensures ToMap(after) == ToMap(before)[key := value]
       <==> (Look(c, key).Some? ==> Look(c, key) == Some(value))
  {
    var goal := ToMap(before)[key := value];
    forall k ensures k != key ==> Look(after, k) == if k in goal then Some(goal[k]) else None {
      LookInMiddle(a, mid, c, key, k);
      LookInMiddle(a, [(key, value)], c, key, k);
      MapIsLook(before, k);
    }
    LookInMiddle(a, [(key, value)], c, key, key);
    MapIsLook(after, key);
    if Look(c, key).Some? ==> Look(c, key) == Some(value) {
      SameLooksSameMap(after, goal);
    }
  }

  /** Deleting `mid`, the first to bind `key`: this removes the key exactly when it is not bound later. */
  lemma DeleteBinding(a: seq<Binding>, mid: seq<Binding>, c: seq<Binding>, key: string,
                      before: seq<Binding>, after: seq<Binding>)
    requires Look(a, key).None? && BindsOnly(mid, key)
    requires before == a + mid + c && after == a + c
    ensures ToMap(after) == ToMap(before) - {key} <==> Look(c, key).None?
  {
    var goal := ToMap(before) - {key};
    forall k ensures k != key ==> Look(after, k) == if k in goal then Some(goal[k]) else None {
      LookInMiddle(a, mid, c, key, k);
      LookConcat(a, c, k);
      MapIsLook(before, k);
    }
    LookConcat(a, c, key);
    MapIsLook(after, key);
    if Look(c, key).None? {
      SameLooksSameMap(after, goal);
    }
  }

  // ----- Key parts -----

  lemma {:induction false} KeyPartOf(text: string)
    ensures '=' !in KeyPart(text)
    ensures text == KeyPart(text) || text == KeyPart(text) + "=" + ValuePart(text)
  {
    if text != "" && text[0] != '=' {
      var first, rest := [text[0]], text[1..];
      KeyPartOf(rest);
      assert text == first + rest;
      assert first + (KeyPart(rest) + "=" + ValuePart(rest)) == first + KeyPart(rest) + "=" + ValuePart(rest);
    }
  }

  lemma {:induction false} KeyPartOfEntry(key: string, value: string)
    requires '=' !in key
    ensures KeyPart(key + "=" + value) == key && ValuePart(key + "=" + value) == value
    ensures KeyPart(key) == key && ValuePart(key) == ""
  {
    var entry := key + "=" + value;
    if key == "" {
      assert entry[1..] == value;
    } else {
      assert entry[1..] == key[1..] + "=" + value;
      KeyPartOfEntry(key[1..], value);
    }
  }

  /** The rewriter's test for an item and the reader's agree, when the key has no '='. */
  lemma MatchIsKeyPart(item: Item, key: string)
    requires '=' !in key && item.kind == Scalar
    ensures Matches(item, key) <==> KeyPart(item.value) == key
  {
    KeyPartOf(item.value);
    if item.value == key {
      KeyPartOfEntry(key, "");
    } else if key + "=" <= item.value {
      var rest := item.value[|key| + 1..];
      assert item.value == key + "=" + rest;
      KeyPartOfEntry(key, rest);
    }
  }

  lemma {:induction false} ItemBindingsConcat(a: seq<Item>, b: seq<Item>)
    ensures ItemBindings(a + b) == ItemBindings(a) + ItemBindings(b)
  {
    if a == [] {
      assert a + b == b;
    } else {
      assert (a + b)[1..] == a[1..] + b;
      ItemBindingsConcat(a[1..], b);
    }
  }

  lemma {:induction false} EntryBindingsConcat(a: seq<Entry>, b: seq<Entry>, render: Item -> string)
    ensures EntryBindings(a + b, render) == EntryBindings(a, render) + EntryBindings(b, render)
  {
    if a == [] {
      assert a + b == b;
    } else {
      assert (a + b)[1..] == a[1..] + b;
      EntryBindingsConcat(a[1..], b, render);
    }
  }

  /** A mapping without a key does not bind it. */
  lemma {:induction false} EntryKeys(entries: seq<Entry>, render: Item -> string, key: string)
    requires forall i :: 0 <= i < |entries| ==> entries[i].key.value != key
    ensures Look(EntryBindings(entries, render), key).None?
  {
    if entries != [] {
      EntryKeys(entries[1..], render, key);
      LookConcat([EntryBinding(entries[0], render)], EntryBindings(entries[1..], render), key);
      assert [EntryBinding(entries[0], render)][..0] == [];
    }
  }

  /** Some string item for `key` comes at or after `from`. */
  ghost predicate OccursFrom(items: seq<Item>, key: string, from: nat) {
    exists j :: from <= j < |items| && IsString(items[j]) && Matches(items[j], key)
  }

  lemma {:induction false} ItemKeys(items: seq<Item>, key: string)
    requires '=' !in key
    ensures Look(ItemBindings(items), key).Some? <==> OccursFrom(items, key, 0)
  {
    if items != [] {
      ItemKeys(items[1..], key);
      LookConcat(ItemBinding(items[0]), ItemBindings(items[1..]), key);
      if items[0].kind == Scalar {
        MatchIsKeyPart(items[0], key);
      }
      if OccursFrom(items[1..], key, 0) {
        var j :| 0 <= j < |items[1..]| && IsString(items[1..][j]) && Matches(items[1..][j], key);
        assert items[j + 1] == items[1..][j];
      }
    }
  }

  lemma {:induction false} KeysReadHaveNoEquals(items: seq<Item>, key: string)
    requires '=' in key
    ensures Look(ItemBindings(items), key).None?
  {
    if items != [] {
      KeysReadHaveNoEquals(items[1..], key);
      KeyPartOf(items[0].value);
      LookConcat(ItemBinding(items[0]), ItemBindings(items[1..]), key);
    }
  }

  // ----- A mapping -----

  ghost predicate DistinctKeys(entries: seq<Entry>) {
    forall i, j :: 0 <= i < j < |entries| ==> entries[i].key.value != entries[j].key.value
  }

  lemma SplitEntries(a: seq<Entry>, e: Entry, c: seq<Entry>, render: Item -> string)
    ensures EntryBindings(a + [e] + c, render) ==
            EntryBindings(a, render) + [EntryBinding(e, render)] + EntryBindings(c, render)
  {
    EntryBindingsConcat(a + [e], c, render);
    EntryBindingsConcat(a, [e], render);
    assert [e][1..] == [];
  }

  /** The entries around the only one for a key do not bind it. */
  lemma EntriesAround(a: seq<Entry>, e: Entry, c: seq<Entry>, render: Item -> string)
    requires DistinctKeys(a + [e] + c)
    ensures Look(EntryBindings(a, render), e.key.value).None?
    ensures Look(EntryBindings(c, render), e.key.value).None?
  {
    var entries := a + [e] + c;
    assert entries[|a|] == e;
    assert forall j :: 0 <= j < |a| ==> entries[j] == a[j];
    assert forall j :: 0 <= j < |c| ==> c[j] == entries[|a| + 1 + j];
    EntryKeys(a, render, e.key.value);
    EntryKeys(c, render, e.key.value);
  }

  lemma ReplaceEntry(a: seq<Entry>, e: Entry, c: seq<Entry>, value: string, render: Item -> string)
    requires DistinctKeys(a + [e] + c)
    ensures ToMap(EntryBindings(a + [e.(value := QuotedText(value))] + c, render)) ==
            ToMap(EntryBindings(a + [e] + c, render))[e.key.value := value]
  {
    var f := e.(value := QuotedText(value));
    EntriesAround(a, e, c, render);
    SplitEntries(a, e, c, render);
    SplitEntries(a, f, c, render);
    ReplaceBinding(EntryBindings(a, render), [EntryBinding(e, render)], EntryBindings(c, render), e.key.value, value,
                   EntryBindings(a + [e] + c, render), EntryBindings(a + [f] + c, render));
  }

  lemma DeleteEntry(a: seq<Entry>, e: Entry, c: seq<Entry>, render: Item -> string)
    requires DistinctKeys(a + [e] + c)
    ensures ToMap(EntryBindings(a + c, render)) == ToMap(EntryBindings(a + [e] + c, render)) - {e.key.value}
  {
    EntriesAround(a, e, c, render);
    SplitEntries(a, e, c, render);
    EntryBindingsConcat(a, c, render);
    DeleteBinding(EntryBindings(a, render), [EntryBinding(e, render)], EntryBindings(c, render), e.key.value,
                  EntryBindings(a + [e] + c, render), EntryBindings(a + c, render));
  }

  lemma NoEntry(entries: seq<Entry>, key: string, render: Item -> string)
    requires FirstKey(entries, key) == |entries|
    ensures Look(EntryBindings(entries, render), key).None?
  {
    forall j | 0 <= j < |entries| ensures entries[j].key.value != key {
      NoEarlierKey(entries, key, j);
    }
    EntryKeys(entries, render, key);
  }

  lemma EntryUpdate(entries: seq<Entry>, key: string, value: string, render: Item -> string)
    requires DistinctKeys(entries)
    ensures ToMap(EntryBindings(SetEntry(entries, key, value), render)) ==
            ToMap(EntryBindings(entries, render))[key := value]
  {
    var i := FirstKey(entries, key);
    if i < |entries| {
      var a, e, c := entries[..i], entries[i], entries[i + 1..];
      assert entries == a + [e] + c && SetEntry(entries, key, value) == a + [e.(value := QuotedText(value))] + c;
      ReplaceEntry(a, e, c, value, render);
    } else {
      NoEntry(entries, key, render);
      EntryBindingsConcat(entries, [NewEntry(key, value)], render);
      assert [NewEntry(key, value)][1..] == [];
      AppendBinding(EntryBindings(entries, render), key, value);
    }
  }

  lemma EntryRemoval(entries: seq<Entry>, key: string, render: Item -> string)
    requires DistinctKeys(entries)
    ensures ToMap(EntryBindings(RemoveEntry(entries, key), render)) == ToMap(EntryBindings(entries, render)) - {key}
  {
    var i := FirstKey(entries, key);
    if i < |entries| {
      var a, e, c := entries[..i], entries[i], entries[i + 1..];
      assert entries == a + [e] + c && RemoveEntry(entries, key) == a + c;
      DeleteEntry(a, e, c, render);
    } else {
      NoEntry(entries, key, render);
      AppendBinding(EntryBindings(entries, render), key, "");
    }
  }

  /** Appending a binding, and having none to remove. */
  lemma AppendBinding(bindings: seq<Binding>, key: string, value: string)
    requires Look(bindings, key).None?
    ensures ToMap(bindings + [(key, value)]) == ToMap(bindings)[key := value]
    ensures ToMap(bindings) == ToMap(bindings) - {key}
  {
    assert (bindings + [(key, value)])[..|bindings|] == bindings;
    MapIsLook(bindings, key);
  }

  // ----- A sequence -----

  lemma SplitItems(a: seq<Item>, x: Item, c: seq<Item>)
    ensures ItemBindings(a + [x] + c) == ItemBindings(a) + ItemBinding(x) + ItemBindings(c)
  {
    ItemBindingsConcat(a + [x], c);
    ItemBindingsConcat(a, [x]);
    assert [x][1..] == [];
    assert ItemBindings([x]) == ItemBinding(x);
  }

  lemma LaterItems(items: seq<Item>, key: string, from: nat)
    requires '=' !in key && from <= |items|
    ensures Look(ItemBindings(items[from..]), key).Some? <==> OccursFrom(items, key, from)
  {
    var c := items[from..];
    ItemKeys(c, key);
    if OccursFrom(items, key, from) {
      var j :| from <= j < |items| && IsString(items[j]) && Matches(items[j], key);
      assert c[j - from] == items[j];
    }
    if OccursFrom(c, key, 0) {
      var j :| 0 <= j < |c| && IsString(c[j]) && Matches(c[j], key);
      assert items[from + j] == c[j];
    }
  }

  lemma OneItem(x: Item, key: string)
    requires '=' !in key && Matches(x, key)
    ensures BindsOnly(ItemBinding(x), key)
  {
    MatchIsKeyPart(x, key);
  }

  lemma NoItemBefore(items: seq<Item>, key: string)
    requires '=' !in key
    ensures Look(ItemBindings(items[..FirstItem(items, key)]), key).None?
  {
    var a := items[..FirstItem(items, key)];
    forall j | 0 <= j < |a| ensures !Matches(a[j], key) {
      NoEarlierItem(items, key, j);
    }
    ItemKeys(a, key);
  }

  /** Replacing the first item for a key: right exactly when no later one says otherwise. */
  lemma ReplaceItem(a: seq<Item>, x: Item, y: Item, c: seq<Item>, key: string, value: string)
    requires '=' !in key && Matches(x, key) && IsString(y) && y.value == key + "=" + value
    requires Look(ItemBindings(a), key).None?
    ensures ToMap(ItemBindings(a + [y] + c)) == ToMap(ItemBindings(a + [x] + c))[key := value]
       <==> (Look(ItemBindings(c), key).Some? ==> Look(ItemBindings(c), key) == Some(value))
  {
    KeyPartOfEntry(key, value);
    OneItem(x, key);
    SplitItems(a, x, c);
    SplitItems(a, y, c);
    ReplaceBinding(ItemBindings(a), ItemBinding(x), ItemBindings(c), key, value,
                   ItemBindings(a + [x] + c), ItemBindings(a + [y] + c));
  }

  lemma DeleteItem(a: seq<Item>, x: Item, c: seq<Item>, key: string)
    requires '=' !in key && Matches(x, key) && Look(ItemBindings(a), key).None?
    ensures ToMap(ItemBindings(a + c)) == ToMap(ItemBindings(a + [x] + c)) - {key}
       <==> Look(ItemBindings(c), key).None?
  {
    OneItem(x, key);
    SplitItems(a, x, c);
    ItemBindingsConcat(a, c);
    DeleteBinding(ItemBindings(a), ItemBinding(x), ItemBindings(c), key,
                  ItemBindings(a + [x] + c), ItemBindings(a + c));
  }

  /** A later item decides what a key is bound to. */
  lemma LastWins(a: seq<Item>, x: Item, c: seq<Item>, key: string)
    requires Look(ItemBindings(c), key).Some?
    ensures Look(ItemBindings(a + [x] + c), key) == Look(ItemBindings(c), key)
  {
    SplitItems(a, x, c);
    LookConcat(ItemBindings(a) + ItemBinding(x), ItemBindings(c), key);
  }

  lemma NothingToRemove(items: seq<Item>, key: string)
    requires '=' !in key && FirstItem(items, key) == |items|
    ensures ToMap(ItemBindings(items)) == ToMap(ItemBindings(items)) - {key}
  {
    NoItemBefore(items, key);
    assert items[..|items|] == items;
    AppendBinding(ItemBindings(items), key, "");
  }

  lemma RemoveAt(items: seq<Item>, i: nat, key: string)
    requires '=' !in key && i < |items| && Matches(items[i], key) && Look(ItemBindings(items[..i]), key).None?
    ensures ToMap(ItemBindings(Drop(items, i))) == ToMap(ItemBindings(items)) - {key}
       <==> Look(ItemBindings(items[i + 1..]), key).None?
  {
    assert items == items[..i] + [items[i]] + items[i + 1..];
    DeleteItem(items[..i], items[i], items[i + 1..], key);
  }

  /** Without item `i`, its key part reads as before: it binds nothing, or other items say the same. */
  ghost predicate ReadsTheSameWithout(items: seq<Item>, i: nat)
    requires i < |items|
  {
    var key := KeyPart(items[i].value);
    || !IsString(items[i])
    || Look(ItemBindings(items[i + 1..]), key).Some?
    || Look(ItemBindings(items[..i]), key) == Some(ValuePart(items[i].value))
  }

  ghost predicate SameLooks(a: seq<Binding>, b: seq<Binding>) {
    forall key :: Look(a, key) == Look(b, key)
  }

  lemma SameMapSameLooks(a: seq<Binding>, b: seq<Binding>)
    ensures ToMap(a) == ToMap(b) <==> SameLooks(a, b)
  {
    forall key ensures Look(b, key) == if key in ToMap(b) then Some(ToMap(b)[key]) else None {
      MapIsLook(b, key);
    }
    if ToMap(a) == ToMap(b) {
      forall key ensures Look(a, key) == Look(b, key) {
        MapIsLook(a, key);
        MapIsLook(b, key);
      }
    } else if SameLooks(a, b) {
      SameLooksSameMap(a, ToMap(b));
    }
  }

  /** Dropping one item leaves all labels as they are exactly when its own key part still reads the same. */
  // Automatic induction on the items runs out of resource here.
  lemma {:induction false} DropItemExactly(items: seq<Item>, i: nat)
    requires i < |items|
    ensures ToMap(ItemBindings(Drop(items, i))) == ToMap(ItemBindings(items)) <==> ReadsTheSameWithout(items, i)
  {
    hide ItemBindings, Look;
    var a, x, c := items[..i], items[i], items[i + 1..];
    var key := KeyPart(x.value);
    assert items == a + [x] + c && Drop(items, i) == a + c;
    SplitItems(a, x, c);
    ItemBindingsConcat(a, c);
    SameMapSameLooks(ItemBindings(a + c), ItemBindings(items));
    forall k
      ensures Look(ItemBindings(items), k) ==
        if Look(ItemBindings(c), k).Some? then Look(ItemBindings(c), k)
        else if k == key && IsString(x) then Some(ValuePart(x.value)) else Look(ItemBindings(a), k)
      ensures Look(ItemBindings(a + c), k) ==
        if Look(ItemBindings(c), k).Some? then Look(ItemBindings(c), k) else Look(ItemBindings(a), k)
    {
      LookInMiddle(ItemBindings(a), ItemBinding(x), ItemBindings(c), key, k);
      LookConcat(ItemBindings(a), ItemBindings(c), k);
    }
    assert ReadsTheSameWithout(items, i) <==> Look(ItemBindings(a + c), key) == Look(ItemBindings(items), key);
  }

  /** When removing a label from a sequence is right, for every key. */
  ghost predicate RemovalIsRight(items: seq<Item>, key: string) {
    var i := FirstItem(items, key);
    if '=' !in key then !OccursFrom(items, key, i + 1) else i < |items| ==> ReadsTheSameWithout(items, i)
  }

  /**
   Removing from a sequence is right if and only if no later item has the key; for a key with '=', which
   no item binds, if and only if the item that is dropped instead leaves what is read as it was.
   */
  lemma ItemRemoval(items: seq<Item>, key: string)
    ensures ToMap(ItemBindings(RemoveItem(items, key))) == ToMap(ItemBindings(items)) - {key}
      <==> RemovalIsRight(items, key)
  {
    var i := FirstItem(items, key);
    if '=' in key {
      KeysReadHaveNoEquals(items, key);
      MapIsLook(ItemBindings(items), key);
      assert ToMap(ItemBindings(items)) - {key} == ToMap(ItemBindings(items));
      if i < |items| {
        DropItemExactly(items, i);
      }
    } else if i < |items| {
      NoItemBefore(items, key);
      RemoveAt(items, i, key);
      LaterItems(items, key, i + 1);
    } else {
      NothingToRemove(items, key);
    }
  }

  /** Removing the label "a=b" deletes the label "a". */
  lemma RemovalCanDeleteAnotherLabel()
    ensures var items := [PlainText("a=b=c")];
      ToMap(ItemBindings(items)) == map["a" := "b=c"] && ToMap(ItemBindings(RemoveItem(items, "a=b"))) == map[]
  {
    var item := PlainText("a=b=c");
    assert "a=b=c" == "a" + "=" + "b=c" && "a=b" + "=" <= "a=b=c";
    KeyPartOfEntry("a", "b=c");
    assert FirstItem([item], "a=b") == 0 && Drop([item], 0) == [];
    assert ItemBindings([item]) == [("a", "b=c")] by {
      assert [item][1..] == [];
    }
    assert [("a", "b=c")][..0] == [];
  }

  lemma ReplaceAt(items: seq<Item>, i: nat, key: string, value: string)
    requires '=' !in key && i < |items| && Matches(items[i], key) && Look(ItemBindings(items[..i]), key).None?
    ensures ToMap(ItemBindings(items[i := items[i].(tag := STR, value := key + "=" + value)])) ==
            ToMap(ItemBindings(items))[key := value]
       <==> (Look(ItemBindings(items[i + 1..]), key).Some? ==> Look(ItemBindings(items), key) == Some(value))
  {
    var a, x, c := items[..i], items[i], items[i + 1..];
    var y := x.(tag := STR, value := key + "=" + value);
    assert items == a + [x] + c && items[i := y] == a + [y] + c;
    ReplaceItem(a, x, y, c, key, value);
    if Look(ItemBindings(c), key).Some? {
      LastWins(a, x, c, key);
    }
  }

  // Automatic induction on the items runs out of resource here.
  lemma {:induction false} ItemReplacement(items: seq<Item>, key: string, value: string)
    requires '=' !in key && FirstItem(items, key) < |items|
    ensures ToMap(ItemBindings(SetItem(items, key, value))) == ToMap(ItemBindings(items))[key := value]
       <==> (OccursFrom(items, key, FirstItem(items, key) + 1) ==> Look(ItemBindings(items), key) == Some(value))
  {
    var i := FirstItem(items, key);
    NoItemBefore(items, key);
    ReplaceAt(items, i, key, value);
    LaterItems(items, key, i + 1);
  }

  /** A key with '=' is never read back from a sequence. */
  lemma UnreadableKey(items: seq<Item>, key: string, m: map<string, string>)
    requires '=' in key && key in m
    ensures ToMap(ItemBindings(items)) != m
  {
    KeysReadHaveNoEquals(items, key);
    MapIsLook(ItemBindings(items), key);
  }

  /**
   Setting in a sequence is right exactly when the key has no '=' and no later item wins over it with
   another value.
   */
  lemma ItemUpdate(items: seq<Item>, key: string, value: string)
    ensures ToMap(ItemBindings(SetItem(items, key, value))) == ToMap(ItemBindings(items))[key := value]
       <==> && '=' !in key
            && (OccursFrom(items, key, FirstItem(items, key) + 1) ==> Look(ItemBindings(items), key) == Some(value))
  {
    if '=' in key {
      UnreadableKey(SetItem(items, key, value), key, ToMap(ItemBindings(items))[key := value]);
    } else if FirstItem(items, key) < |items| {
      ItemReplacement(items, key, value);
    } else {
      ItemAddition(items, key, value);
    }
  }

  lemma ItemAddition(items: seq<Item>, key: string, value: string)
    requires '=' !in key && FirstItem(items, key) == |items|
    ensures ToMap(ItemBindings(SetItem(items, key, value))) == ToMap(ItemBindings(items))[key := value]
  {
    NoItemBefore(items, key);
    assert items[..|items|] == items;
    KeyPartOfEntry(key, value);
    var entry := PlainText(key + "=" + value);
    ItemBindingsConcat(items, [entry]);
    assert [entry][1..] == [];
    assert ItemBindings([entry]) == [(key, value)];
    AppendBinding(ItemBindings(items), key, value);
  }

  // ----- Main results -----

  /** The labels are what YAML allows and name `key` at most once. */
  ghost predicate OccursAtMostOnce(labels: Labels, key: string) {
    match labels
    case Entries(entries) => DistinctKeys(entries)
    case Items(items) => !OccursFrom(items, key, FirstItem(items, key) + 1)
    case Unsupported => false
    case _ => true
  }

  lemma FreshLabels(key: string, value: string, render: Item -> string)
    ensures ToMap(EntryBindings([NewEntry(key, value)], render)) == map[key := value]
  {
    EntryUpdate([], key, value, render);
    assert [] + [NewEntry(key, value)] == [NewEntry(key, value)];
  }

  /** Rewriting and then reading is updating what was read. */
  lemma RewriteThenRead(labels: Labels, key: string, value: string, render: Item -> string)
    requires OccursAtMostOnce(labels, key) && (labels.Items? ==> '=' !in key)
    ensures SetLabel(labels, key, value).Some?
    ensures ParseLabels(SetLabel(labels, key, value).value, render) ==
      if value == "" then ParseLabels(labels, render) - {key} else ParseLabels(labels, render)[key := value]
  {
    match labels {
      case Entries(entries) =>
        if value == "" { EntryRemoval(entries, key, render); } else { EntryUpdate(entries, key, value, render); }
      case Items(items) =>
        if value == "" { ItemRemoval(items, key); } else { ItemUpdate(items, key, value); }
      case Absent => FreshLabels(key, value, render);
      case Text => FreshLabels(key, value, render);
    }
  }

  lemma FirstKeyAfterSet(entries: seq<Entry>, key: string, value: string)
    ensures FirstKey(SetEntry(entries, key, value), key) == FirstKey(entries, key)
  {
    var i, after := FirstKey(entries, key), SetEntry(entries, key, value);
    forall j | 0 <= j < i ensures after[j].key.value != key {
      NoEarlierKey(entries, key, j);
    }
    FirstKeyIs(after, key, i);
  }

  lemma FirstItemAfterSet(items: seq<Item>, key: string, value: string)
    ensures FirstItem(SetItem(items, key, value), key) == FirstItem(items, key)
  {
    var i, after := FirstItem(items, key), SetItem(items, key, value);
    forall j | 0 <= j < i ensures !Matches(after[j], key) {
      NoEarlierItem(items, key, j);
    }
    FirstItemIs(after, key, i);
  }

  /** Setting the same label again changes nothing. */
  lemma SetIsIdempotent(labels: Labels, key: string, value: string)
    requires value != "" && !labels.Unsupported?
    ensures var once := SetLabel(labels, key, value).value;
      SetLabel(once, key, value) == Some(once)
  {
    match labels {
      case Entries(entries) =>
        FirstKeyAfterSet(entries, key, value);
        assert SetEntry(SetEntry(entries, key, value), key, value) == SetEntry(entries, key, value);
      case Items(items) =>
        FirstItemAfterSet(items, key, value);
        assert SetItem(SetItem(items, key, value), key, value) == SetItem(items, key, value);
      case Absent => SetFreshAgain(key, value);
      case Text => SetFreshAgain(key, value);
    }
  }

  lemma SetFreshAgain(key: string, value: string)
    ensures SetEntry([NewEntry(key, value)], key, value) == [NewEntry(key, value)]
  {
  }

  /** Setting and then removing is removing, duplicates or not; only scalar labels are different. */
  lemma SetThenRemove(labels: Labels, key: string, value: string)
    requires value != "" && !labels.Unsupported?
    ensures SetLabel(SetLabel(labels, key, value).value, key, "") == SetLabel(labels, key, "") <==> !labels.Text?
  {
    match labels {
      case Entries(entries) =>
        FirstKeyAfterSet(entries, key, value);
        assert RemoveEntry(SetEntry(entries, key, value), key) == RemoveEntry(entries, key);
      case Items(items) =>
        FirstItemAfterSet(items, key, value);
        assert RemoveItem(SetItem(items, key, value), key) == RemoveItem(items, key);
      case _ =>
    }
  }

  // ----- What is written, told by the nodes -----

  /** Setting touches the value of one entry, or adds one at the end; the value becomes a quoted string. */
  lemma OneEntryIsSet(entries: seq<Entry>, key: string, value: string) returns (i: nat)
    ensures i <= |entries| && forall j :: 0 <= j < i ==> entries[j].key.value != key
    ensures i < |entries| ==>
      && entries[i].key.value == key
      && SetEntry(entries, key, value) ==
           entries[..i] + [Entry(entries[i].key, Item(Scalar, "!!str", value, DoubleQuoted))] + entries[i + 1..]
    ensures i == |entries| ==>
      SetEntry(entries, key, value) ==
        entries + [Entry(Item(Scalar, "!!str", key, Plain), Item(Scalar, "!!str", value, DoubleQuoted))]
  {
    i := FirstKey(entries, key);
    forall j | 0 <= j < i ensures entries[j].key.value != key {
      NoEarlierKey(entries, key, j);
    }
  }

  /** The same for a sequence, whose items keep their style. */
  lemma OneItemIsSet(items: seq<Item>, key: string, value: string) returns (i: nat)
    ensures i <= |items|
    ensures i < |items| ==>
      SetItem(items, key, value) ==
        items[..i] + [Item(Scalar, "!!str", key + "=" + value, items[i].style)] + items[i + 1..]
    ensures i == |items| ==>
      SetItem(items, key, value) == items + [Item(Scalar, "!!str", key + "=" + value, Plain)]
  {
    i := FirstItem(items, key);
  }

  // ----- What is read, told by the nodes -----

  /** In a mapping the last entry with a key decides: a string reads as itself, whatever its style. */
  lemma LastEntryDecides(entries: seq<Entry>, i: nat, render: Item -> string)
    requires i < |entries| && forall j :: i < j < |entries| ==> entries[j].key.value != entries[i].key.value
    ensures var read, value := ParseLabels(Entries(entries), render), entries[i].value;
      && entries[i].key.value in read
      && read[entries[i].key.value] ==
           if value.kind == Scalar && value.tag == "!!str" then value.value else render(value)
  {
    var a, e, c := entries[..i], entries[i], entries[i + 1..];
    var key := e.key.value;
    assert entries == a + [e] + c;
    SplitEntries(a, e, c, render);
    EntryKeys(c, render, key);
    LookConcat(EntryBindings(a, render) + [EntryBinding(e, render)], EntryBindings(c, render), key);
    var upTo := EntryBindings(a, render) + [EntryBinding(e, render)];
    assert upTo[|upTo| - 1] == EntryBinding(e, render);
    MapIsLook(EntryBindings(entries, render), key);
  }

  predicate IsItemFor(item: Item, key: string) {
    item.kind == Scalar && item.tag == "!!str" && (item.value == key || key + "=" <= item.value)
  }

  /** In a sequence the last string for a key decides; without '=' it reads as empty. */
  lemma LastItemDecides(items: seq<Item>, i: nat, key: string, value: string, render: Item -> string)
    requires i < |items| && '=' !in key && IsItemFor(items[i], key)
    requires items[i].value == key + "=" + value || (items[i].value == key && value == "")
    requires forall j :: i < j < |items| ==> !IsItemFor(items[j], key)
    ensures var read := ParseLabels(Items(items), render);
      key in read && read[key] == value
  {
    var a, x, c := items[..i], items[i], items[i + 1..];
    assert items == a + [x] + c;
    SplitItems(a, x, c);
    KeyPartOfEntry(key, value);
    forall j | 0 <= j < |c| ensures !IsString(c[j]) || !Matches(c[j], key) {
      assert c[j] == items[i + 1 + j];
    }
    ItemKeys(c, key);
    LookConcat(ItemBindings(a) + ItemBinding(x), ItemBindings(c), key);
    assert (ItemBindings(a) + ItemBinding(x))[..|ItemBindings(a)|] == ItemBindings(a);
    MapIsLook(ItemBindings(items), key);
  }

  // ----- The reader's loop -----

  lemma ToMapAppend(bindings: seq<Binding>, binding: Binding)
    ensures ToMap(bindings + [binding]) == ToMap(bindings)[binding.0 := binding.1]
  {
    assert (bindings + [binding])[..|bindings|] == bindings;
  }

  /** Reads sequence labels item by item, as deployments do. */
  method ReadSequence(items: seq<Item>, render: Item -> string) returns (result: map<string, string>)
    ensures result == ParseLabels(Items(items), render)
  {
    result := map[];
    for i := 0 to |items|
      invariant result == ToMap(ItemBindings(items[..i]))
    {
      NextItem(items, i);
      if IsString(items[i]) {
        result := result[KeyPart(items[i].value) := ValuePart(items[i].value)];
      }
    }
    assert items[..|items|] == items;
  }

  lemma NextItem(items: seq<Item>, i: nat)
    requires i < |items|
    ensures ToMap(ItemBindings(items[..i + 1])) ==
      if IsString(items[i]) then ToMap(ItemBindings(items[..i]))[KeyPart(items[i].value) := ValuePart(items[i].value)]
      else ToMap(ItemBindings(items[..i]))
  {
    assert items[..i + 1] == items[..i] + [items[i]];
    ItemBindingsConcat(items[..i], [items[i]]);
    assert [items[i]][1..] == [];
    assert ItemBindings([items[i]]) == ItemBinding(items[i]);
    if IsString(items[i]) {
      ToMapAppend(ItemBindings(items[..i]), (KeyPart(items[i].value), ValuePart(items[i].value)));
    } else {
      assert ItemBindings(items[..i + 1]) == ItemBindings(items[..i]);
    }
  }
}

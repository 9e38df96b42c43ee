/**
 The label rewriter itself, which edits the nodes of a parsed compose file in place.  Each method is
 tied to the meaning given in `ComposeLabels`.
 */
module ComposeNodes {
  import opened Common
  import opened ComposeLabels

  /** A mapping node keeps its children as key-value pairs, a sequence node as items. */
  class Node {
    var kind: Kind
    var tag: string
    var value: string
    var style: Style
    var pairs: seq<Pair>
    var items: seq<Node>

    constructor Text(value: string, style: Style)
      ensures ItemOf(this) == Item(Scalar, STR, value, style)
      ensures pairs == [] && items == []
    {
      kind, tag, this.value, this.style, pairs, items := Scalar, STR, value, style, [], [];
    }

    constructor Map(pair: Pair)
      ensures kind == Mapping && pairs == [pair] && items == []
      ensures Children(this) == {pair.key, pair.value}
    {
      kind, tag, value, style, items := Mapping, "!!map", "", Plain, [];
      pairs := [pair];
    }
  }

  datatype Pair = Pair(key: Node, value: Node)

  ghost function ItemOf(n: Node): Item
    reads n
  {
    Item(n.kind, n.tag, n.value, n.style)
  }

  ghost function ItemsOf(nodes: seq<Node>): seq<Item>
    reads nodes
  {
    seq(|nodes|, i requires 0 <= i < |nodes| reads nodes => ItemOf(nodes[i]))
  }

  ghost function NodesOf(pairs: seq<Pair>): set<Node> {
    (set p | p in pairs :: p.key) + (set p | p in pairs :: p.value)
  }

  ghost function EntriesOf(pairs: seq<Pair>): seq<Entry>
    reads NodesOf(pairs)
  {
    seq(|pairs|, i requires 0 <= i < |pairs| reads NodesOf(pairs) =>
      assert pairs[i] in pairs; Entry(ItemOf(pairs[i].key), ItemOf(pairs[i].value)))
  }

  /** No two values are the same node, and no value is a key. */
  ghost predicate SeparateValues(pairs: seq<Pair>) {
    && (forall i, j :: 0 <= i < j < |pairs| ==> pairs[i].value != pairs[j].value)
    && (forall i, j :: 0 <= i < |pairs| && 0 <= j < |pairs| ==> pairs[i].key != pairs[j].value)
  }

  ghost function Children(n: Node): set<Node>
    reads n
  {
    NodesOf(n.pairs) + Elements(n.items)
  }

  ghost predicate IsTree(n: Node)
    reads n
  {
    n !in Children(n) && SeparateValues(n.pairs) && NoDup(n.items)
  }

  // ----- Searching -----

  /** Position of the first entry with this key, or the length of the mapping. */
  method FindKey(pairs: seq<Pair>, key: string) returns (i: nat)
    ensures i == FirstKey(EntriesOf(pairs), key)
  {
    i := 0;
    while i < |pairs|
      invariant i <= |pairs|
      invariant forall j :: 0 <= j < i ==> pairs[j].key.value != key
    {
      if pairs[i].key.value == key {
        break;
      }
      i := i + 1;
    }
    FirstKeyIs(EntriesOf(pairs), key, i);
  }

  /** Position of the first item for this key, or the length of the sequence. */
  method FindItem(items: seq<Node>, key: string) returns (i: nat)
    ensures i == FirstItem(ItemsOf(items), key)
  {
    i := 0;
    while i < |items|
      invariant i <= |items|
      invariant forall j :: 0 <= j < i ==> !Matches(ItemOf(items[j]), key)
    {
      if items[i].kind == Scalar && (items[i].value == key || key + "=" <= items[i].value) {
        break;
      }
      i := i + 1;
    }
    FirstItemIs(ItemsOf(items), key, i);
  }

  // ----- The two list shapes -----

  method NewLabel(key: string, value: string) returns (p: Pair)
    ensures fresh(p.key) && fresh(p.value) && p.key != p.value
    ensures Entry(ItemOf(p.key), ItemOf(p.value)) == NewEntry(key, value)
    ensures Children(p.key) == {} && Children(p.value) == {}
  {
    var k := new Node.Text(key, Plain);
    var v := new Node.Text(value, DoubleQuoted);
    p := Pair(k, v);
  }

  /** `own` are nodes that the labels do not share, before and after. */
  method SetInMapping(labels: Node, ghost own: set<Node>, key: string, value: string)
    requires labels.kind == Mapping && IsTree(labels) && own !! Children(labels)
    modifies labels`pairs, NodesOf(labels.pairs)
    ensures EntriesOf(labels.pairs) ==
      if value == "" then RemoveEntry(old(EntriesOf(labels.pairs)), key)
      else SetEntry(old(EntriesOf(labels.pairs)), key, value)
    ensures forall n :: n in Children(labels) ==> n in old(Children(labels)) || fresh(n)
    ensures IsTree(labels) && own !! Children(labels)
  {
    var i := FindKey(labels.pairs, key);
    if value == "" {
      if i < |labels.pairs| {
        RemovePair(labels, i);
      }
    } else if i < |labels.pairs| {
      OverwriteValue(labels.pairs, i, value);
    } else {
      AppendPair(labels, key, value);
    }
  }

  method RemovePair(n: Node, i: nat)
    requires i < |n.pairs| && n !in NodesOf(n.pairs)
    modifies n`pairs
    ensures n.pairs == Drop(old(n.pairs), i)
    ensures EntriesOf(n.pairs) == Drop(old(EntriesOf(n.pairs)), i)
    ensures NodesOf(n.pairs) <= old(NodesOf(n.pairs))
    ensures SeparateValues(old(n.pairs)) ==> SeparateValues(n.pairs)
  {
    DroppedPair(n.pairs, i);
    DroppedIsSeparate(n.pairs, i);
    n.pairs := n.pairs[..i] + n.pairs[i + 1..];
  }

  method AppendPair(n: Node, key: string, value: string)
    requires n !in NodesOf(n.pairs)
    modifies n`pairs
    ensures EntriesOf(n.pairs) == old(EntriesOf(n.pairs)) + [NewEntry(key, value)]
    ensures forall m :: m in NodesOf(n.pairs) ==> m in old(NodesOf(n.pairs)) || fresh(m)
    ensures SeparateValues(old(n.pairs)) ==> SeparateValues(n.pairs)
  {
    var pair := NewLabel(key, value);
    AddedPair(n.pairs, pair);
    AddedIsSeparate(n.pairs, pair);
    n.pairs := n.pairs + [pair];
  }

  lemma DroppedIsSeparate(pairs: seq<Pair>, i: nat)
    requires i < |pairs|
    ensures SeparateValues(pairs) ==> SeparateValues(Drop(pairs, i))
  {
  }

  lemma AddedIsSeparate(pairs: seq<Pair>, p: Pair)
    requires p.key != p.value && p.key !in NodesOf(pairs) && p.value !in NodesOf(pairs)
    ensures SeparateValues(pairs) ==> SeparateValues(pairs + [p])
  {
    PairNodes(pairs);
  }

  lemma DroppedPair(pairs: seq<Pair>, i: nat)
    requires i < |pairs|
    ensures EntriesOf(Drop(pairs, i)) == Drop(EntriesOf(pairs), i)
    ensures NodesOf(Drop(pairs, i)) <= NodesOf(pairs)
  {
    assert forall p :: p in Drop(pairs, i) ==> p in pairs;
  }

  lemma AddedPair(pairs: seq<Pair>, p: Pair)
    ensures EntriesOf(pairs + [p]) == EntriesOf(pairs) + [Entry(ItemOf(p.key), ItemOf(p.value))]
    ensures NodesOf(pairs + [p]) == NodesOf(pairs) + {p.key, p.value}
  {
    assert forall q :: q in pairs + [p] <==> q in pairs || q == p;
    assert EntriesOf(pairs + [p]) == EntriesOf(pairs) + [Entry(ItemOf(p.key), ItemOf(p.value))];
  }

  /** Makes the value of one entry a quoted string. */
  method OverwriteValue(pairs: seq<Pair>, i: nat, value: string)
    requires i < |pairs| && SeparateValues(pairs)
    modifies pairs[i].value
    ensures EntriesOf(pairs) == old(EntriesOf(pairs))[i := old(EntriesOf(pairs))[i].(value := QuotedText(value))]
  {
    var node := pairs[i].value;
    node.kind, node.tag, node.value, node.style := Scalar, STR, value, DoubleQuoted;
  }

  method SetInSequence(labels: Node, ghost own: set<Node>, key: string, value: string)
    requires IsTree(labels) && own !! Children(labels)
    modifies labels`items, labels.items
    ensures ItemsOf(labels.items) ==
      if value == "" then RemoveItem(old(ItemsOf(labels.items)), key)
      else SetItem(old(ItemsOf(labels.items)), key, value)
    ensures forall n :: n in Children(labels) ==> n in old(Children(labels)) || fresh(n)
    ensures IsTree(labels) && own !! Children(labels)
  {
    var i := FindItem(labels.items, key);
    if value == "" {
      if i < |labels.items| {
        RemoveItemAt(labels, i);
      }
    } else if i < |labels.items| {
      OverwriteItem(labels.items, i, key + "=" + value);
    } else {
      AppendItem(labels, key + "=" + value);
    }
  }

  method RemoveItemAt(n: Node, i: nat)
    requires i < |n.items| && n !in n.items
    modifies n`items
    ensures ItemsOf(n.items) == Drop(old(ItemsOf(n.items)), i)
    ensures forall m :: m in n.items ==> m in old(n.items)
    ensures NoDup(old(n.items)) ==> NoDup(n.items)
  {
    ghost var before := ItemsOf(n.items);
    n.items := n.items[..i] + n.items[i + 1..];
    assert ItemsOf(n.items) == Drop(before, i);
  }

  method AppendItem(n: Node, text: string)
    requires n !in n.items
    modifies n`items
    ensures ItemsOf(n.items) == old(ItemsOf(n.items)) + [PlainText(text)]
    ensures forall m :: m in n.items ==> m in old(n.items) || fresh(m)
    ensures NoDup(old(n.items)) ==> NoDup(n.items)
  {
    var item := new Node.Text(text, Plain);
    n.items := n.items + [item];
    assert ItemsOf(n.items) == old(ItemsOf(n.items)) + [PlainText(text)];
  }

  /** Gives one item another text, as a string. */
  method OverwriteItem(items: seq<Node>, i: nat, text: string)
    requires i < |items| && NoDup(items)
    modifies items[i]
    ensures ItemsOf(items) == old(ItemsOf(items))[i := old(ItemsOf(items))[i].(tag := STR, value := text)]
  {
    var node := items[i];
    node.tag, node.value := STR, text;
    assert forall j :: 0 <= j < |items| && j != i ==> items[j] != node;
  }

  // ----- One service -----

  const LABELS := "labels"

  /** Position of the labels entry, or the number of entries. */
  ghost function LabelsAt(svc: Node): (i: nat)
    reads svc, NodesOf(svc.pairs)
    ensures i <= |svc.pairs|
  {
    FirstKey(EntriesOf(svc.pairs), LABELS)
  }

  /** The labels node, if there is one. */
  ghost function LabelsNode(svc: Node): set<Node>
    reads svc, NodesOf(svc.pairs)
  {
    if LabelsAt(svc) < |svc.pairs| then {svc.pairs[LabelsAt(svc)].value} else {}
  }

  /** The children of the labels node, if there is one. */
  ghost function LabelChildren(svc: Node): set<Node>
    reads svc, NodesOf(svc.pairs), LabelsNode(svc)
  {
    if LabelsAt(svc) < |svc.pairs| then Children(svc.pairs[LabelsAt(svc)].value) else {}
  }

  /** All nodes that the labels of a service are read from, the service's own entries included. */
  ghost function Footprint(svc: Node): set<Node>
    reads svc, NodesOf(svc.pairs), LabelsNode(svc)
  {
    {svc} + NodesOf(svc.pairs) + LabelChildren(svc)
  }

  ghost function LabelsIn(n: Node): Labels
    reads n, Children(n)
  {
    match n.kind
    case Mapping => Entries(EntriesOf(n.pairs))
    case Sequence => Items(ItemsOf(n.items))
    case Scalar => Text
    case _ => Unsupported
  }

  ghost function LabelsOf(svc: Node): Labels
    reads svc, NodesOf(svc.pairs), LabelsNode(svc), LabelChildren(svc)
  {
    if LabelsAt(svc) < |svc.pairs| then LabelsIn(svc.pairs[LabelsAt(svc)].value) else Absent
  }

  /** The entries of a service apart from its labels. */
  ghost function OtherPairs(svc: Node): seq<Pair>
    reads svc, NodesOf(svc.pairs)
  {
    if LabelsAt(svc) < |svc.pairs| then Drop(svc.pairs, LabelsAt(svc)) else svc.pairs
  }

  /** The labels entry, and it alone, is at `i`. */
  ghost predicate LabelsAreAt(svc: Node, i: nat)
    reads svc, NodesOf(svc.pairs)
  {
    i < |svc.pairs| && forall j :: 0 <= j < |svc.pairs| ==> (svc.pairs[j].key.value == "labels" <==> j == i)
  }

  ghost predicate HasNoLabels(svc: Node)
    reads svc, NodesOf(svc.pairs)
  {
    forall j :: 0 <= j < |svc.pairs| ==> svc.pairs[j].key.value != "labels"
  }

  ghost predicate ServiceAt(svc: Node, i: nat)
    reads svc, NodesOf(svc.pairs)
  {
    && IsTree(svc) && LabelsAreAt(svc, i)
    && svc.pairs[i] in svc.pairs && IsTree(svc.pairs[i].value)
    && Children(svc.pairs[i].value) !! {svc} + NodesOf(svc.pairs)
  }

  ghost predicate BareService(svc: Node)
    reads svc, NodesOf(svc.pairs)
  {
    IsTree(svc) && HasNoLabels(svc)
  }

  /** What the parser delivers for a service without aliases: a tree, with one labels entry at most. */
  ghost predicate IsService(svc: Node)
    reads svc, NodesOf(svc.pairs)
  {
    BareService(svc) || ServiceAt(svc, LabelsAt(svc))
  }

  lemma WhereLabelsAre(svc: Node)
    requires IsService(svc)
    ensures LabelsAt(svc) == |svc.pairs| ==> BareService(svc)
    ensures LabelsAt(svc) < |svc.pairs| ==> ServiceAt(svc, LabelsAt(svc))
  {
    hide FirstKey;
    if BareService(svc) {
      LabelsMissing(svc);
    }
  }

  lemma MakesService(svc: Node, i: nat)
    requires BareService(svc) || ServiceAt(svc, i)
    ensures IsService(svc)
  {
    hide FirstKey;
    if !BareService(svc) {
      LabelsFound(svc, i);
    }
  }

  lemma LabelsFound(svc: Node, i: nat)
    requires LabelsAreAt(svc, i)
    ensures LabelsAt(svc) == i && OtherPairs(svc) == Drop(svc.pairs, i)
    ensures LabelsOf(svc) == LabelsIn(svc.pairs[i].value)
    ensures Footprint(svc) == {svc} + NodesOf(svc.pairs) + Children(svc.pairs[i].value)
  {
    FirstKeyIs(EntriesOf(svc.pairs), LABELS, i);
  }

  lemma LabelsMissing(svc: Node)
    requires HasNoLabels(svc)
    ensures LabelsAt(svc) == |svc.pairs| && OtherPairs(svc) == svc.pairs
    ensures LabelsOf(svc) == Absent && Footprint(svc) == {svc} + NodesOf(svc.pairs)
  {
    FirstKeyIs(EntriesOf(svc.pairs), LABELS, |svc.pairs|);
  }

  /** An appended labels entry, of nodes that were not in the tree, is where the labels are. */
  lemma AddedService(svc: Node, before: seq<Pair>, p: Pair)
    requires svc.pairs == before + [p] && p.key.value == LABELS && IsTree(svc)
    requires forall j :: 0 <= j < |before| ==> before[j].key.value != LABELS
    requires IsTree(p.value) && Children(p.value) !! {svc, p.key, p.value} + NodesOf(before)
    ensures LabelsOf(svc) == LabelsIn(p.value) && OtherPairs(svc) == before
    ensures Footprint(svc) == {svc} + NodesOf(before) + {p.key, p.value} + Children(p.value)
    ensures ServiceAt(svc, |svc.pairs| - 1)
  {
    hide FirstKey;
    AddedPair(before, p);
    LabelsFound(svc, |before|);
  }

  // ----- Changing the labels of a service -----

  /** A labels entry holding one label. */
  method NewLabels(ghost own: set<Node>, key: string, value: string) returns (p: Pair)
    ensures fresh(p.key) && fresh(p.value) && p.key != p.value && p.key.value == LABELS
    ensures LabelsIn(p.value) == Entries([NewEntry(key, value)])
    ensures fresh(Children(p.value)) && p.key !in Children(p.value)
    ensures IsTree(p.value) && own !! {p.key, p.value} + Children(p.value)
  {
    var pair := NewLabel(key, value);
    var name := new Node.Text(LABELS, Plain);
    var labels := new Node.Map(pair);
    p := Pair(name, labels);
    assert EntriesOf(labels.pairs) == [NewEntry(key, value)];
  }

  /** Appends an entry whose nodes are not in the tree yet. */
  method AppendEntry(n: Node, p: Pair)
    requires IsTree(n) && {p.key, p.value} !! {n} + Children(n) && p.key != p.value
    requires n !in Children(p.value)
    modifies n`pairs
    ensures n.pairs == old(n.pairs) + [p] && IsTree(n)
    ensures LabelsIn(p.value) == old(LabelsIn(p.value)) && Children(p.value) == old(Children(p.value))
    ensures NodesOf(n.pairs) == old(NodesOf(n.pairs)) + {p.key, p.value}
  {
    AddedIsSeparate(n.pairs, p);
    AddedPair(n.pairs, p);
    n.pairs := n.pairs + [p];
  }

  /** Without labels, a labels entry with one label is added at the end. */
  method AddLabels(svc: Node, key: string, value: string)
    requires BareService(svc)
    modifies svc`pairs
    ensures LabelsOf(svc) == Entries([NewEntry(key, value)]) && OtherPairs(svc) == old(svc.pairs)
    ensures forall n :: n in Footprint(svc) ==> n in old({svc} + NodesOf(svc.pairs)) || fresh(n)
    ensures ServiceAt(svc, |svc.pairs| - 1)
  {
    hide FirstKey, LabelsIn, Footprint;
    var p := NewLabels({svc} + Children(svc), key, value);
    ghost var added := {p.key, p.value} + Children(p.value);
    AppendEntry(svc, p);
    AddedService(svc, old(svc.pairs), p);
    assert Footprint(svc) == old({svc} + NodesOf(svc.pairs)) + added;
  }

  method RemoveLabels(svc: Node, i: nat)
    requires LabelsAreAt(svc, i) && IsTree(svc)
    modifies svc`pairs
    ensures LabelsOf(svc) == Absent && OtherPairs(svc) == old(Drop(svc.pairs, i))
    ensures Footprint(svc) <= old({svc} + NodesOf(svc.pairs))
    ensures BareService(svc)
  {
    RemovePair(svc, i);
    forall j | 0 <= j < |svc.pairs| ensures svc.pairs[j].key.value != LABELS {
      var k := if j < i then j else j + 1;
      assert svc.pairs[j] == old(svc.pairs)[k];
    }
    LabelsMissing(svc);
  }

  /** Mapping labels; when the last one goes, so does the labels entry. */
  method EditMapping(svc: Node, i: nat, key: string, value: string)
    requires ServiceAt(svc, i) && svc.pairs[i].value.kind == Mapping
    modifies svc`pairs, svc.pairs[i].value`pairs, NodesOf(svc.pairs[i].value.pairs)
    ensures Some(LabelsOf(svc)) == old(SetLabel(LabelsIn(svc.pairs[i].value), key, value))
    ensures OtherPairs(svc) == old(Drop(svc.pairs, i))
    ensures forall n :: n in Footprint(svc) ==> n in old(Footprint(svc)) || fresh(n)
    ensures BareService(svc) || ServiceAt(svc, i)
  {
    hide FirstKey, SetEntry, RemoveEntry;
    LabelsFound(svc, i);
    PairNodes(svc.pairs);
    var labels := svc.pairs[i].value;
    SetInMapping(labels, {svc} + NodesOf(svc.pairs), key, value);
    assert ServiceAt(svc, i);
    if value == "" && labels.pairs == [] {
      RemoveLabels(svc, i);
    } else {
      LabelsFound(svc, i);
    }
  }

  /** Sequence labels; when the last one goes, so does the labels entry. */
  method EditSequence(svc: Node, i: nat, key: string, value: string)
    requires ServiceAt(svc, i) && svc.pairs[i].value.kind == Sequence
    modifies svc`pairs, svc.pairs[i].value`items, svc.pairs[i].value.items
    ensures Some(LabelsOf(svc)) == old(SetLabel(LabelsIn(svc.pairs[i].value), key, value))
    ensures OtherPairs(svc) == old(Drop(svc.pairs, i))
    ensures forall n :: n in Footprint(svc) ==> n in old(Footprint(svc)) || fresh(n)
    ensures BareService(svc) || ServiceAt(svc, i)
  {
    hide FirstKey, SetItem, RemoveItem;
    LabelsFound(svc, i);
    PairNodes(svc.pairs);
    var labels := svc.pairs[i].value;
    SetInSequence(labels, {svc} + NodesOf(svc.pairs), key, value);
    assert ServiceAt(svc, i);
    if value == "" && labels.items == [] {
      RemoveLabels(svc, i);
    } else {
      LabelsFound(svc, i);
    }
  }

  /** A scalar becomes a mapping with one label. */
  method EditScalar(svc: Node, i: nat, key: string, value: string)
    requires ServiceAt(svc, i)
    modifies svc.pairs[i].value
    ensures LabelsOf(svc) == Entries([NewEntry(key, value)]) && OtherPairs(svc) == old(Drop(svc.pairs, i))
    ensures forall n :: n in Footprint(svc) ==> n in old(Footprint(svc)) || fresh(n)
    ensures ServiceAt(svc, i)
  {
    LabelsFound(svc, i);
    PairNodes(svc.pairs);
    MakeMapping(svc.pairs[i].value, {svc} + NodesOf(svc.pairs), key, value);
    LabelsFound(svc, i);
  }

  method MakeMapping(labels: Node, ghost own: set<Node>, key: string, value: string)
    requires IsTree(labels) && own !! Children(labels)
    modifies labels
    ensures LabelsIn(labels) == Entries([NewEntry(key, value)])
    ensures forall n :: n in Children(labels) ==> fresh(n) || n in old(Children(labels))
    ensures IsTree(labels) && own !! Children(labels)
  {
    var pair := NewLabel(key, value);
    labels.kind, labels.tag, labels.value, labels.style := Mapping, "!!map", "", Plain;
    labels.pairs := [pair];
    assert EntriesOf(labels.pairs) == [NewEntry(key, value)];
  }

  lemma PairNodes(pairs: seq<Pair>)
    ensures forall j :: 0 <= j < |pairs| ==> pairs[j].key in NodesOf(pairs) && pairs[j].value in NodesOf(pairs)
  {
    assert forall j :: 0 <= j < |pairs| ==> pairs[j] in pairs;
  }

  /** The labels node decides by its kind. */
  method EditLabels(svc: Node, i: nat, key: string, value: string) returns (ok: bool)
    requires ServiceAt(svc, i)
    modifies svc`pairs, svc.pairs[i].value, Children(svc.pairs[i].value)
    ensures ok <==> !old(LabelsIn(svc.pairs[i].value)).Unsupported?
    ensures ok ==> Some(LabelsOf(svc)) == old(SetLabel(LabelsIn(svc.pairs[i].value), key, value))
    ensures OtherPairs(svc) == old(Drop(svc.pairs, i))
    ensures forall n :: n in Footprint(svc) ==> n in old(Footprint(svc)) || fresh(n)
    ensures BareService(svc) || ServiceAt(svc, i)
  {
    ok := true;
    match svc.pairs[i].value.kind {
      case Mapping => EditMapping(svc, i, key, value);
      case Sequence => EditSequence(svc, i, key, value);
      case Scalar =>
        LabelsFound(svc, i);
        if value != "" {
          EditScalar(svc, i, key, value);
        }
      case _ =>
        LabelsFound(svc, i);
        ok := false;
    }
  }

  /** Sets or removes one label of a service in place; refuses labels of an unknown kind. */
  method SetServiceLabelOnNode(svc: Node, key: string, value: string) returns (ok: bool)
    requires IsService(svc)
    modifies svc`pairs, LabelsNode(svc), LabelChildren(svc)
    ensures ok <==> !old(LabelsOf(svc)).Unsupported?
    ensures ok ==> Some(LabelsOf(svc)) == old(SetLabel(LabelsOf(svc), key, value))
    ensures OtherPairs(svc) == old(OtherPairs(svc))
    ensures forall n :: n in Footprint(svc) ==> n in old(Footprint(svc)) || fresh(n)
    ensures IsService(svc)
  {
    hide FirstKey, EntriesOf, ItemsOf, LabelsIn, SetEntry, SetItem;
    WhereLabelsAre(svc);
    var i := FindKey(svc.pairs, LABELS);
    if i == |svc.pairs| {
      LabelsMissing(svc);
      if value != "" {
        AddLabels(svc, key, value);
        MakesService(svc, |svc.pairs| - 1);
      }
      ok := true;
    } else {
      LabelsFound(svc, i);
      ok := EditLabels(svc, i, key, value);
      MakesService(svc, i);
    }
  }

  // ----- All services -----

  twostate predicate SameNode(n: Node)
    reads n
  {
    && n.kind == old(n.kind) && ItemOf(n) == old(ItemOf(n))
    && n.pairs == old(n.pairs) && n.items == old(n.items)
  }

  twostate lemma SameEntries(pairs: seq<Pair>)
    requires forall n :: n in NodesOf(pairs) ==> SameNode(n)
    ensures EntriesOf(pairs) == old(EntriesOf(pairs))
  {
    PairNodes(pairs);
    forall j | 0 <= j < |pairs| ensures EntriesOf(pairs)[j] == old(EntriesOf(pairs))[j] {
      assert SameNode(pairs[j].key) && SameNode(pairs[j].value);
    }
  }

  twostate lemma SameLabels(n: Node)
    requires SameNode(n) && forall c :: c in Children(n) ==> SameNode(c)
    ensures LabelsIn(n) == old(LabelsIn(n)) && Children(n) == old(Children(n))
    ensures old(IsTree(n)) ==> IsTree(n)
  {
    SameEntries(n.pairs);
    forall j | 0 <= j < |n.items| ensures ItemsOf(n.items)[j] == old(ItemsOf(n.items))[j] {
      assert n.items[j] in Children(n) && SameNode(n.items[j]);
    }
    assert ItemsOf(n.items) == old(ItemsOf(n.items));
  }

  /** What the rewriter works on in a service: nothing, unless it is a mapping. */
  datatype View = View(isMapping: bool, labels: Labels, others: seq<Pair>)

  ghost function ViewOf(svc: Node): View
    reads svc, NodesOf(svc.pairs), LabelsNode(svc), LabelChildren(svc)
  {
    View(svc.kind == Mapping, LabelsOf(svc), OtherPairs(svc))
  }

  function Relabel(view: View, key: string, value: string): Option<View> {
    if !view.isMapping then Some(view)
    else
      match SetLabel(view.labels, key, value)
      case None => None
      case Some(labels) => Some(view.(labels := labels))
  }

  /** Changes outside a service do not show in it. */
  twostate lemma Untouched(svc: Node)
    requires forall n :: n in old(Footprint(svc)) ==> SameNode(n)
    ensures ViewOf(svc) == old(ViewOf(svc)) && Footprint(svc) == old(Footprint(svc))
  {
    hide FirstKey;
    assert SameNode(svc);
    SameEntries(svc.pairs);
    var i := LabelsAt(svc);
    PairNodes(svc.pairs);
    if i < |svc.pairs| {
      SameLabels(svc.pairs[i].value);
    }
  }

  twostate lemma StillService(svc: Node)
    requires forall n :: n in old(Footprint(svc)) ==> SameNode(n)
    ensures old(IsService(svc)) ==> IsService(svc)
  {
    hide FirstKey;
    assert SameNode(svc);
    PairNodes(svc.pairs);
    SameEntries(svc.pairs);
    assert forall j :: 0 <= j < |svc.pairs| ==> SameNode(svc.pairs[j].key);
    var i := LabelsAt(svc);
    if i < |svc.pairs| {
      SameLabels(svc.pairs[i].value);
    }
  }

  /** The services of a parsed file: trees that share no node. */
  ghost predicate AreServices(services: seq<Node>)
    reads services
    reads set i, n | 0 <= i < |services| && n in NodesOf(services[i].pairs) :: n
    reads set i, n | 0 <= i < |services| && n in LabelsNode(services[i]) :: n
  {
    && (forall i :: 0 <= i < |services| ==> IsService(services[i]))
    && (forall i, j :: 0 <= i < j < |services| ==> Footprint(services[i]) !! Footprint(services[j]))
  }

  ghost function FootprintOf(services: seq<Node>): set<Node>
    reads services
    reads set i, n | 0 <= i < |services| && n in NodesOf(services[i].pairs) :: n
    reads set i, n | 0 <= i < |services| && n in LabelsNode(services[i]) :: n
  {
    set i, n | 0 <= i < |services| && n in Footprint(services[i]) :: n
  }

  /** Rewriting again with the same label changes nothing. */
  lemma RelabelIsIdempotent(view: View, key: string, value: string)
    requires value != "" && Relabel(view, key, value).Some?
    ensures Relabel(Relabel(view, key, value).value, key, value) == Relabel(view, key, value)
  {
    if view.isMapping {
      SetIsIdempotent(view.labels, key, value);
    }
  }

  predicate IsScalarLabeled(view: View) {
    view.isMapping && view.labels.Text?
  }

  /** Setting and then removing is removing, except for labels that were a scalar. */
  lemma RelabelThenRemove(view: View, key: string, value: string)
    requires value != "" && Relabel(view, key, value).Some?
    ensures var once := Relabel(view, key, value).value;
      && Relabel(once, key, "").Some?
      && (Relabel(once, key, "") == Relabel(view, key, "") <==> !IsScalarLabeled(view))
  {
    if view.isMapping {
      SetThenRemove(view.labels, key, value);
    }
  }

  lemma OnlyUnsupportedFails(view: View, key: string, value: string)
    ensures Relabel(view, key, value).None? <==> view.isMapping && view.labels.Unsupported?
  {
  }

  /** One service, while the nodes of the others stay as they are. */
  method RelabelOne(svc: Node, ghost others: set<Node>, key: string, value: string) returns (ok: bool)
    requires IsService(svc) && others !! Footprint(svc)
    modifies Footprint(svc)
    ensures ok <==> old(Relabel(ViewOf(svc), key, value)).Some?
    ensures ok ==> Some(ViewOf(svc)) == old(Relabel(ViewOf(svc), key, value))
    ensures forall n :: n in Footprint(svc) ==> n in old(Footprint(svc)) || fresh(n)
    ensures forall n :: n in others ==> SameNode(n)
    ensures others !! Footprint(svc)
    ensures IsService(svc)
  {
    hide FirstKey, SetLabel;
    OnlyUnsupportedFails(ViewOf(svc), key, value);
    ok := true;
    if svc.kind == Mapping {
      ok := SetServiceLabelOnNode(svc, key, value);
    }
  }

  /** The footprints of all services but one. */
  ghost function OthersThan(services: seq<Node>, i: nat): set<Node>
    reads services
    reads set j, n | 0 <= j < |services| && n in NodesOf(services[j].pairs) :: n
    reads set j, n | 0 <= j < |services| && n in LabelsNode(services[j]) :: n
  {
    set j, n | 0 <= j < |services| && j != i && n in Footprint(services[j]) :: n
  }

  /** Sets or removes one label in every service, while the nodes outside stay as they are. */
  method SetLabelOnServices(services: seq<Node>, ghost outside: set<Node>, key: string, value: string)
    returns (ok: bool)
    requires AreServices(services) && outside !! FootprintOf(services)
    modifies FootprintOf(services)
    ensures ok <==> forall j :: 0 <= j < |services| ==> old(Relabel(ViewOf(services[j]), key, value)).Some?
    ensures ok ==> forall j :: 0 <= j < |services| ==>
      Some(ViewOf(services[j])) == old(Relabel(ViewOf(services[j]), key, value))
    ensures AreServices(services)
    ensures forall n :: n in FootprintOf(services) ==> n in old(FootprintOf(services)) || fresh(n)
    ensures forall n :: n in outside ==> SameNode(n)
    ensures outside !! FootprintOf(services)
  {
    hide FirstKey, EntriesOf, ItemsOf, LabelsIn, SetLabel, LabelsOf, OtherPairs, ViewOf, Relabel, Footprint,
      IsService, IsTree, NodesOf, Children, LabelsNode, LabelChildren, LabelsAt;
    ghost var before := seq(|services|, j requires 0 <= j < |services| reads * => ViewOf(services[j]));
    for i := 0 to |services|
      invariant forall j :: 0 <= j < |services| ==>
        Some(ViewOf(services[j])) == if j < i then Relabel(before[j], key, value) else Some(before[j])
      invariant AreServices(services)
      invariant forall n :: n in FootprintOf(services) ==> n in old(FootprintOf(services)) || fresh(n)
      invariant forall n :: n in outside ==> SameNode(n)
      invariant outside !! FootprintOf(services)
    {
      ghost var others := OthersThan(services, i);
      label Before:
      ok := RelabelOne(services[i], others + outside, key, value);
      forall j | 0 <= j < |services| && j != i
        ensures ViewOf(services[j]) == old@Before(ViewOf(services[j]))
        ensures Footprint(services[j]) == old@Before(Footprint(services[j])) <= others
        ensures IsService(services[j])
      {
        Untouched@Before(services[j]);
        StillService@Before(services[j]);
      }
      if !ok {
        return;
      }
    }
    ok := true;
  }

  // ----- The whole file -----

  datatype Outcome =
    | EmptyKey
    | EmptyDocument
    | RootIsNoMapping
    | NoServices
    | ServicesAreNoMapping
    | UnsupportedLabels
    | Rewritten

  const SERVICES := "services"

  /** The entries under "services", if the file has the shape of a compose file with services. */
  ghost function ServicesOf(root: Node): (services: seq<Pair>)
    reads root, NodesOf(root.pairs)
  {
    PairNodes(root.pairs);
    var i := FirstKey(EntriesOf(root.pairs), "services");
    if root.kind == Mapping && i < |root.pairs| && root.pairs[i].value.kind == Mapping then root.pairs[i].value.pairs
    else []
  }

  function Values(pairs: seq<Pair>): seq<Node> {
    seq(|pairs|, i requires 0 <= i < |pairs| => pairs[i].value)
  }

  /** The services of a file, none if it has not the shape of a compose file with services. */
  ghost function ServiceNodes(document: Option<Node>): seq<Node>
    reads if document.Some? then {document.value} + NodesOf(document.value.pairs) else {}
  {
    Values(ServicePairs(document))
  }

  /** The entries of the services. */
  ghost function ServicePairs(document: Option<Node>): seq<Pair>
    reads if document.Some? then {document.value} + NodesOf(document.value.pairs) else {}
  {
    if document.Some? then ServicesOf(document.value) else []
  }

  ghost function KeyNodes(pairs: seq<Pair>): set<Node> {
    set p | p in pairs :: p.key
  }

  /** The nodes above the services, and those of their names. */
  ghost function Above(document: Option<Node>): set<Node>
    reads if document.Some? then {document.value} + NodesOf(document.value.pairs) else {}
  {
    (if document.Some? then {document.value} + NodesOf(document.value.pairs) else {}) + KeyNodes(ServicePairs(document))
  }

  /** The names of the services, in order. */
  ghost function ServiceNames(document: Option<Node>): seq<string>
    reads Above(document)
    reads if document.Some? then {document.value} + NodesOf(document.value.pairs) else {}
  {
    var pairs := ServicePairs(document);
    seq(|pairs|, i requires 0 <= i < |pairs| reads KeyNodes(pairs) => assert pairs[i] in pairs; pairs[i].key.value)
  }

  /** The checks before any service is touched. */
  method FindServices(document: Option<Node>, key: string, ghost all: set<Node>)
    returns (outcome: Outcome, services: seq<Node>)
    ensures outcome.Rewritten? <==> key != "" && ServiceNodes(document) != []
    ensures outcome.Rewritten? ==> services == ServiceNodes(document)
    ensures !outcome.UnsupportedLabels?
    ensures forall n :: n in all ==> SameNode(n)
  {
    services := [];
    if key == "" {
      return EmptyKey, [];
    }
    if document.None? {
      return EmptyDocument, [];
    }
    var root := document.value;
    if root.kind != Mapping {
      return RootIsNoMapping, [];
    }
    var i := FindKey(root.pairs, SERVICES);
    if i == |root.pairs| {
      return NoServices, [];
    }
    var node := root.pairs[i].value;
    if node.kind != Mapping {
      return ServicesAreNoMapping, [];
    }
    if node.pairs == [] {
      return NoServices, [];
    }
    return Rewritten, Values(node.pairs);
  }

  twostate lemma SameServices(document: Option<Node>)
    requires forall n :: n in old(Above(document)) ==> SameNode(n)
    ensures ServiceNodes(document) == old(ServiceNodes(document)) && Above(document) == old(Above(document))
    ensures ServiceNames(document) == old(ServiceNames(document))
  {
    if document.Some? {
      assert SameNode(document.value);
      PairNodes(document.value.pairs);
      SameEntries(document.value.pairs);
    }
    var pairs := ServicePairs(document);
    forall i | 0 <= i < |pairs| ensures pairs[i].key.value == old(pairs[i].key.value) {
      assert pairs[i] in pairs && SameNode(pairs[i].key);
    }
  }

  /**
   Sets or, with an empty value, removes one label in every service of a file.  `nodes` names the
   services; without aliases, no service shares a node with another, with a name, or with what is above.
   */
  method SetServiceLabel(document: Option<Node>, ghost nodes: seq<Node>, key: string, value: string)
    returns (outcome: Outcome)
    requires nodes == ServiceNodes(document) && AreServices(nodes) && FootprintOf(nodes) !! Above(document)
    modifies FootprintOf(nodes)
    ensures outcome.Rewritten? <==>
      && key != "" && nodes != []
      && forall j :: 0 <= j < |nodes| ==> old(Relabel(ViewOf(nodes[j]), key, value)).Some?
    ensures outcome.Rewritten? ==> forall j :: 0 <= j < |nodes| ==>
      Some(ViewOf(nodes[j])) == old(Relabel(ViewOf(nodes[j]), key, value))
    ensures nodes == ServiceNodes(document) && AreServices(nodes) && FootprintOf(nodes) !! Above(document)
    ensures ServiceNames(document) == old(ServiceNames(document))
    ensures forall n :: n in FootprintOf(nodes) ==> n in old(FootprintOf(nodes)) || fresh(n)
  {
    hide FirstKey, EntriesOf, ItemsOf, ViewOf, Relabel, ServicesOf, Footprint, IsService;
    var services;
    outcome, services := FindServices(document, key, FootprintOf(nodes) + Above(document));
    AllUntouched(nodes);
    if outcome.Rewritten? {
      var ok := SetLabelOnServices(services, Above(document), key, value);
      outcome := if ok then Rewritten else UnsupportedLabels;
    }
    SameServices(document);
  }

  twostate lemma AllUntouched(services: seq<Node>)
    requires old(AreServices(services)) && forall n :: n in old(FootprintOf(services)) ==> SameNode(n)
    ensures AreServices(services) && FootprintOf(services) == old(FootprintOf(services))
    ensures forall j :: 0 <= j < |services| ==> ViewOf(services[j]) == old(ViewOf(services[j]))
  {
    hide FirstKey, EntriesOf, ItemsOf, ViewOf;
    forall j | 0 <= j < |services|
      ensures Footprint(services[j]) == old(Footprint(services[j])) && ViewOf(services[j]) == old(ViewOf(services[j]))
      ensures IsService(services[j])
    {
      assert forall n :: n in old(Footprint(services[j])) ==> n in old(FootprintOf(services));
      Untouched(services[j]);
      StillService(services[j]);
    }
  }

  /** Setting the same label again succeeds and leaves every service as the first call did. */
  method SetTwice(document: Option<Node>, ghost nodes: seq<Node>, key: string, value: string)
    returns (first: Outcome, second: Outcome)
    requires nodes == ServiceNodes(document) && AreServices(nodes) && FootprintOf(nodes) !! Above(document)
    requires value != ""
    modifies FootprintOf(nodes)
    ensures first.Rewritten? ==> second.Rewritten?
    ensures first.Rewritten? ==> forall j :: 0 <= j < |nodes| ==>
      Some(ViewOf(nodes[j])) == old(Relabel(ViewOf(nodes[j]), key, value))
  {
    hide ServiceNodes, AreServices, FootprintOf, ViewOf, Above, Relabel;
    first := SetServiceLabel(document, nodes, key, value);
    if first.Rewritten? {
      forall j | 0 <= j < |nodes| ensures Relabel(ViewOf(nodes[j]), key, value) == Some(ViewOf(nodes[j])) {
        RelabelIsIdempotent(old(ViewOf(nodes[j])), key, value);
      }
      second := SetServiceLabel(document, nodes, key, value);
    } else {
      second := first;
    }
  }

  /**
   Removing the label that was just set succeeds and leaves a service as removing alone would, exactly
   when its labels were no scalar.
   */
  method SetAndRemove(document: Option<Node>, ghost nodes: seq<Node>, key: string, value: string)
    returns (first: Outcome, second: Outcome)
    requires nodes == ServiceNodes(document) && AreServices(nodes) && FootprintOf(nodes) !! Above(document)
    requires value != ""
    modifies FootprintOf(nodes)
    ensures first.Rewritten? ==> second.Rewritten?
    ensures first.Rewritten? ==> forall j :: 0 <= j < |nodes| ==>
      (Some(ViewOf(nodes[j])) == old(Relabel(ViewOf(nodes[j]), key, "")) <==> !old(IsScalarLabeled(ViewOf(nodes[j]))))
  {
    hide ServiceNodes, AreServices, FootprintOf, ViewOf, Above, Relabel, IsScalarLabeled;
    first := SetServiceLabel(document, nodes, key, value);
    if first.Rewritten? {
      forall j | 0 <= j < |nodes|
        ensures Relabel(ViewOf(nodes[j]), key, "").Some?
        ensures Relabel(ViewOf(nodes[j]), key, "") == old(Relabel(ViewOf(nodes[j]), key, ""))
          <==> !old(IsScalarLabeled(ViewOf(nodes[j])))
      {
        RelabelThenRemove(old(ViewOf(nodes[j])), key, value);
      }
      second := SetServiceLabel(document, nodes, key, "");
    } else {
      second := first;
    }
  }
}

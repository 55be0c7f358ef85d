/**
  The view controller's part of the app: turning the icon store's flat,
  sorted list into a sectioned snapshot, naming each section's header, and
  turning a tap on a row into an increment of that row's icon.
 */
module Snapshots {
  import opened Foundation
  import opened Sequences
  import opened Icons

  /** One section of a diffable-data-source snapshot: its identifier and its items, in order. */
  datatype Section = Section(id: Type, items: seq<Icon>)

  /** `NSDiffableDataSourceSnapshot<Section, Row>` as a value: its sections, in order. */
  type Snapshot = seq<Section>

  function SectionIds(snapshot: Snapshot): seq<Type> {
    seq(|snapshot|, i requires 0 <= i < |snapshot| => snapshot[i].id)
  }

  /** `appendSections(_:)`: empty sections added at the end, in the order given. */
  function AppendSections(snapshot: Snapshot, ids: seq<Type>): (r: Snapshot)
    ensures SectionIds(r) == SectionIds(snapshot) + ids
    ensures r[..|snapshot|] == snapshot
    ensures forall i :: |snapshot| <= i < |r| ==> r[i].items == []
  {
    snapshot + seq(|ids|, i requires 0 <= i < |ids| => Section(ids[i], []))
  }

  /** Position of the first section with identifier `id`. */
  function SectionIndex(snapshot: Snapshot, id: Type): (k: nat)
    requires id in SectionIds(snapshot)
    ensures k < |snapshot| && snapshot[k].id == id
    ensures forall j :: 0 <= j < k ==> snapshot[j].id != id
  {
    if snapshot[0].id == id then 0
    else
      assert SectionIds(snapshot) == [snapshot[0].id] + SectionIds(snapshot[1..]);
      1 + SectionIndex(snapshot[1..], id)
  }

  /** `appendItems(_:toSection:)`: `items` added at the end of section `to`. */
  function AppendItems(snapshot: Snapshot, items: seq<Icon>, to: Type): (r: Snapshot)
    requires to in SectionIds(snapshot)
    ensures SectionIds(r) == SectionIds(snapshot)
    ensures forall i :: 0 <= i < |r| ==>
      r[i].items == snapshot[i].items + (if i == SectionIndex(snapshot, to) then items else [])
  {
    var k := SectionIndex(snapshot, to);
    var r := snapshot[k := Section(to, snapshot[k].items + items)];
    assert SectionIds(r) == SectionIds(snapshot);
    r
  }

  function HasType(t: Type): Icon -> bool {
    (icon: Icon) => icon.kind == t
  }

  /** The icons of type `t`, in their order in `data`. */
  function OfType(data: seq<Icon>, t: Type): seq<Icon> {
    Filter(data, HasType(t))
  }

  /**
    `snapshot` is `data` grouped for display: one section per `Type` case,
    in declaration order, each holding exactly the icons of that type in
    their order in `data`.
   */
  ghost predicate Groups(snapshot: Snapshot, data: seq<Icon>) {
    && SectionIds(snapshot) == AllCases()
    && forall i :: 0 <= i < |snapshot| ==> snapshot[i].items == OfType(data, snapshot[i].id)
  }

  /** Taking one more icon into account extends its own type's group only. */
  lemma OfTypeStep(data: seq<Icon>, k: nat, t: Type)
    requires k < |data|
    ensures OfType(data[..k + 1], t) == OfType(data[..k], t) + (if data[k].kind == t then [data[k]] else [])
  {
    assert data[..k + 1][..k] == data[..k];
  }

  /**
    The body of the subscription to the store: all `Type` cases become
    sections, then each icon in turn is appended to its own type's section.
   */
  method BuildSnapshot(data: seq<Icon>) returns (snapshot: Snapshot)
    ensures Groups(snapshot, data)
  {
    snapshot := [];
    snapshot := AppendSections(snapshot, AllCases());
    for k := 0 to |data|
      invariant SectionIds(snapshot) == AllCases()
      invariant forall i :: 0 <= i < |snapshot| ==> snapshot[i].items == OfType(data[..k], snapshot[i].id)
    {
      var icon := data[k];
      var before := snapshot;
      assert forall i :: 0 <= i < |before| ==> before[i].id == SectionIds(before)[i] == AllCases()[i];
      assert before[Ordinal(icon.kind)].id == icon.kind;
      snapshot := AppendItems(snapshot, [icon], icon.kind);
      assert SectionIndex(before, icon.kind) == Ordinal(icon.kind);
      forall i | 0 <= i < |snapshot|
        ensures snapshot[i].id == before[i].id
        ensures snapshot[i].items == OfType(data[..k + 1], snapshot[i].id)
      {
        OfTypeStep(data, k, before[i].id);
      }
      assert SectionIds(snapshot) == SectionIds(before);
    }
    assert data[..|data|] == data;
  }

  /** The three sections are the `Type` cases in declaration order, whatever their contents. */
  lemma SectionsAreAllCases(snapshot: Snapshot, data: seq<Icon>)
    requires Groups(snapshot, data)
    ensures |snapshot| == 3
    ensures forall i :: 0 <= i < 3 ==> Ordinal(snapshot[i].id) == i
  {
    assert forall i :: 0 <= i < |snapshot| ==> SectionIds(snapshot)[i] == snapshot[i].id;
  }

  /** Every item shown in a section is an icon of the store whose type is that section. */
  lemma ItemsBelongToTheirSection(snapshot: Snapshot, data: seq<Icon>, s: nat, x: Icon)
    requires Groups(snapshot, data) && s < |snapshot|
    ensures x in snapshot[s].items <==> x in data && x.kind == snapshot[s].id
  {
    FilterMembership(data, HasType(snapshot[s].id));
  }

  /**
    Icon `i` of the store is shown in the section of its own type, at the
    position given by the icons of that type in front of it.
   */
  lemma EachIconInItsSection(snapshot: Snapshot, data: seq<Icon>, i: nat)
    requires Groups(snapshot, data) && i < |data|
    ensures Ordinal(data[i].kind) < |snapshot|
    ensures snapshot[Ordinal(data[i].kind)].id == data[i].kind
    ensures Rank(data, HasType(data[i].kind), i) < |snapshot[Ordinal(data[i].kind)].items|
    ensures snapshot[Ordinal(data[i].kind)].items[Rank(data, HasType(data[i].kind), i)] == data[i]
  {
    var t := data[i].kind;
    assert SectionIds(snapshot)[Ordinal(t)] == AllCases()[Ordinal(t)];
    FilterAtRank(data, HasType(t), i);
  }

  /** Two icons of one type are shown in their section in the order they have in the store. */
  lemma SectionKeepsStoreOrder(snapshot: Snapshot, data: seq<Icon>, i: nat, j: nat)
    requires Groups(snapshot, data)
    requires i < j < |data| && data[i].kind == data[j].kind
    ensures Ordinal(data[i].kind) < |snapshot|
    ensures exists p, q ::
      && 0 <= p < q < |snapshot[Ordinal(data[i].kind)].items|
      && snapshot[Ordinal(data[i].kind)].items[p] == data[i]
      && snapshot[Ordinal(data[i].kind)].items[q] == data[j]
  {
    var t := data[i].kind;
    EachIconInItsSection(snapshot, data, i);
    EachIconInItsSection(snapshot, data, j);
    RankIncreases(data, HasType(t), i, j);
    var p, q := Rank(data, HasType(t), i), Rank(data, HasType(t), j);
    assert snapshot[Ordinal(t)].items[p] == data[i] && snapshot[Ordinal(t)].items[q] == data[j];
  }

  /** When the store is highest value first, so is every section. */
  lemma SectionsSortedByValue(snapshot: Snapshot, data: seq<Icon>)
    requires Groups(snapshot, data) && SortedByValue(data)
    ensures forall s :: 0 <= s < |snapshot| ==> SortedByValue(snapshot[s].items)
  {
    forall s | 0 <= s < |snapshot| ensures SortedByValue(snapshot[s].items) {
      FilterKeepsNonIncreasing(data, HasType(snapshot[s].id), ValueOf);
    }
  }

  /** All items of all sections, section after section. */
  function Flatten(snapshot: Snapshot): seq<Icon> {
    if snapshot == [] then [] else snapshot[0].items + Flatten(snapshot[1..])
  }

  /** Every icon has exactly one type, so the three groups together are the whole store. */
  lemma {:induction false} GroupsPartitionData(data: seq<Icon>)
    ensures multiset(OfType(data, Vehicle)) + multiset(OfType(data, Weather)) + multiset(OfType(data, Person))
         == multiset(data)
  {
    FilterCounts(data, HasType(Vehicle));
    FilterCounts(data, HasType(Weather));
    FilterCounts(data, HasType(Person));
    var all := multiset(OfType(data, Vehicle)) + multiset(OfType(data, Weather)) + multiset(OfType(data, Person));
    forall x ensures all[x] == multiset(data)[x] {
      match x.kind
      case Vehicle =>
      case Weather =>
      case Person =>
    }
  }

  /** The sections together hold every icon of the store exactly as often as the store does. */
  lemma SectionsPartitionData(snapshot: Snapshot, data: seq<Icon>)
    requires Groups(snapshot, data)
    ensures multiset(Flatten(snapshot)) == multiset(data)
    ensures |Flatten(snapshot)| == |data|
  {
    SectionsAreAllCases(snapshot, data);
    assert Flatten(snapshot) == snapshot[0].items + snapshot[1].items + snapshot[2].items by {
      assert snapshot[1..][1..] == snapshot[2..];
      assert snapshot[2..][1..] == [];
      assert Flatten(snapshot[2..]) == snapshot[2].items;
      assert Flatten(snapshot[1..]) == snapshot[1].items + snapshot[2].items;
    }
    assert snapshot[0].id == Vehicle && snapshot[1].id == Weather && snapshot[2].id == Person;
    GroupsPartitionData(data);
    assert |multiset(Flatten(snapshot))| == |multiset(data)|;
  }

  /** The header text of section `section`: the raw value of that `Type` case. */
  function HeaderText(section: nat): (text: string)
    requires section < |AllCases()|
    ensures forall t :: Ordinal(t) == section ==> text == RawValue(t)
  {
    RawValue(AllCases()[section])
  }

  /** Every header names the section it stands over. */
  lemma HeaderNamesItsSection(snapshot: Snapshot, data: seq<Icon>, s: nat)
    requires Groups(snapshot, data) && s < |snapshot|
    ensures HeaderText(s) == RawValue(snapshot[s].id)
  {
    assert SectionIds(snapshot)[s] == snapshot[s].id;
  }

  /** `itemIdentifier(for:)`: the item at a section and row of the shown snapshot, if any. */
  function ItemIdentifier(snapshot: Snapshot, section: int, item: int): (r: Option<Icon>)
    ensures r.Some? <==> 0 <= section < |snapshot| && 0 <= item < |snapshot[section].items|
    ensures r.Some? ==> r.value in snapshot[section].items
  {
    if 0 <= section < |snapshot| && 0 <= item < |snapshot[section].items| then
      Some(snapshot[section].items[item])
    else
      None
  }

  /** A tap resolves to an icon of the store, in the section tapped. */
  lemma TapResolvesToStoredIcon(snapshot: Snapshot, data: seq<Icon>, section: int, item: int)
    requires Groups(snapshot, data) && ItemIdentifier(snapshot, section, item).Some?
    ensures ItemIdentifier(snapshot, section, item).value in data
    ensures ItemIdentifier(snapshot, section, item).value.kind == AllCases()[section]
  {
    var icon := ItemIdentifier(snapshot, section, item).value;
    assert icon in snapshot[section].items;
    ItemsBelongToTheirSection(snapshot, data, section, icon);
    assert SectionIds(snapshot)[section] == snapshot[section].id;
  }

  /**
    The diffable data source tells items apart by the whole `Icon` value, so
    once icon `k` is incremented, the next snapshot no longer shows the item
    that was tapped: its own section shows the incremented copy in its place.
   */
  lemma IncrementReplacesTappedItem(data: seq<Icon>, k: nat, result: seq<Icon>, next: Snapshot)
    requires DistinctIds(data) && k < |data|
    requires multiset(result) == multiset(Bumped(data, data[k].id))
    requires Groups(next, result)
    ensures data[k] !in Flatten(next)
    ensures Ordinal(data[k].kind) < |next|
    ensures data[k].(value := data[k].value + 1) in next[Ordinal(data[k].kind)].items
  {
    IncrementedContents(data, k, result);
    SectionsPartitionData(next, result);
    assert data[k] !in multiset(Flatten(next));
    SectionsAreAllCases(next, result);
    var s := Ordinal(data[k].kind);
    assert next[s].id == data[k].kind by {
      assert SectionIds(next)[s] == AllCases()[s];
    }
    ItemsBelongToTheirSection(next, result, s, data[k].(value := data[k].value + 1));
  }

  /** The screen: the icon store and the snapshot its data source last applied. */
  class ViewController {
    const model: Model
    var shown: Snapshot

    ghost predicate Valid()
      reads this, model
    {
      model.Valid() && Groups(shown, model.data)
    }

    /** Creates the store and subscribes to it; the subscription renders the initial data at once. */
    constructor (ids: seq<Uuid>)
      requires |ids| == 9 && Distinct(ids)
      ensures Valid() && fresh(model) && model.data == InitialData(ids)
    {
      model := new Model(ids);
      new;
      Render();
    }

    /** The subscription's sink: build a snapshot of the store and apply it. */
    method Render()
      modifies this
      ensures Groups(shown, model.data)
    {
      shown := BuildSnapshot(model.data);
    }

    /**
      `collectionView(_:didSelectItemAt:)`: a tap on a row that holds an icon
      increments that icon and the list is rendered again; a tap on nothing
      changes nothing.
     */
    method DidSelectItem(section: int, item: int)
      requires Valid()
      modifies this, model
      ensures Valid()
      ensures match ItemIdentifier(old(shown), section, item)
        case Some(icon) =>
          && icon in old(model.data)
          && multiset(model.data) == multiset(Bumped(old(model.data), icon.id))
        case None =>
          model.data == old(model.data) && shown == old(shown)
    {
      var selected := ItemIdentifier(shown, section, item);
      if selected.Some? {
        TapResolvesToStoredIcon(shown, model.data, section, item);
        model.Increment(selected.value.id);
        Render();
      }
    }
  }
}

/**
  The icon store shown by the view controller: a fixed list of nine icons in
  three sections, where tapping an icon raises its value and the whole list
  is re-sorted by value, highest first.
 */
module Icons {
  import opened Foundation
  import opened Sequences

  /** The sections of the list. */
  datatype Type = Vehicle | Weather | Person

  /** Position of a case in the enum's declaration. */
  function Ordinal(t: Type): nat {
    match t
    case Vehicle => 0
    case Weather => 1
    case Person => 2
  }

  /** `Type.allCases`: every case exactly once, in declaration order. */
  function AllCases(): (cases: seq<Type>)
    ensures |cases| == 3
    ensures forall i :: 0 <= i < |cases| ==> Ordinal(cases[i]) == i
    ensures forall t :: Ordinal(t) < |cases| && cases[Ordinal(t)] == t
  {
    [Vehicle, Weather, Person]
  }

  /** The enum's `String` raw value, which is the case's own name. */
  function RawValue(t: Type): string {
    match t
    case Vehicle => "Vehicle"
    case Weather => "Weather"
    case Person => "Person"
  }

  /** No two cases share a raw value. */
  lemma RawValueInjective(a: Type, b: Type)
    ensures RawValue(a) == RawValue(b) <==> a == b
  {
    if a != b {
      assert RawValue(a)[0] != RawValue(b)[0];
    }
  }

  /** `UIImage(systemName:)`: only the symbol name is kept. */
  datatype Image = SystemImage(symbolName: string)

  /** One row of the list. The source's `type` field is `kind` here. */
  datatype Icon = Icon(id: Uuid, name: string, image: Image, value: int, kind: Type)

  /** `Icon.init(name:type:value:)` with the default value 0; `UUID()` is passed in. */
  function NewIcon(id: Uuid, name: string, kind: Type, value: int := 0): Icon {
    Icon(id, name, SystemImage(name), value, kind)
  }

  function ValueOf(icon: Icon): int {
    icon.value
  }

  function IdOf(icon: Icon): Uuid {
    icon.id
  }

  /** Highest value first, as `increment(id:)` leaves the list. */
  ghost predicate SortedByValue(data: seq<Icon>) {
    NonIncreasing(data, ValueOf)
  }

  ghost predicate DistinctIds(data: seq<Icon>) {
    DistinctBy(data, IdOf)
  }

  /** The nine icons the store starts with, given nine fresh ids. */
  function InitialData(ids: seq<Uuid>): (data: seq<Icon>)
    requires |ids| == 9
    ensures |data| == 9
    ensures forall i :: 0 <= i < 9 ==>
      data[i].id == ids[i] && data[i].value == 0 && data[i].image == SystemImage(data[i].name)
    ensures Distinct(ids) ==> DistinctIds(data)
    ensures SortedByValue(data)
  {
    [ NewIcon(ids[0], "car", Vehicle),
      NewIcon(ids[1], "bus", Vehicle),
      NewIcon(ids[2], "bicycle", Vehicle),
      NewIcon(ids[3], "airplane", Vehicle),
      NewIcon(ids[4], "moon", Weather),
      NewIcon(ids[5], "cloud", Weather),
      NewIcon(ids[6], "tornado", Weather),
      NewIcon(ids[7], "person", Person),
      NewIcon(ids[8], "eyes", Person) ]
  }

  /** The `map` step of `increment(id:)`: the icons with that id gain 1. */
  function Bumped(data: seq<Icon>, id: Uuid): (r: seq<Icon>)
    ensures |r| == |data|
    ensures forall i :: 0 <= i < |data| ==>
      && r[i].id == data[i].id && r[i].name == data[i].name
      && r[i].image == data[i].image && r[i].kind == data[i].kind
      && r[i].value == data[i].value + (if data[i].id == id then 1 else 0)
  {
    seq(|data|, i requires 0 <= i < |data| =>
      if data[i].id == id then data[i].(value := data[i].value + 1) else data[i])
  }

  /** An id that no icon carries changes nothing. */
  lemma BumpedUnknownId(data: seq<Icon>, id: Uuid)
    requires forall i :: 0 <= i < |data| ==> data[i].id != id
    ensures Bumped(data, id) == data
  {
  }

  /** With distinct ids, bumping the id of icon `k` changes that icon's value and nothing else. */
  lemma BumpedChangesOneIcon(data: seq<Icon>, k: nat)
    requires DistinctIds(data) && k < |data|
    ensures Bumped(data, data[k].id) == data[k := data[k].(value := data[k].value + 1)]
  {
  }

  /**
    What `increment(id:)` leaves when `id` belongs to icon `k`: a rearrangement
    of the list in which icon `k` carries one more, and every other icon is as it was.
   */
  lemma IncrementedContents(data: seq<Icon>, k: nat, result: seq<Icon>)
    requires DistinctIds(data) && k < |data|
    requires multiset(result) == multiset(Bumped(data, data[k].id))
    ensures |result| == |data|
    ensures data[k].(value := data[k].value + 1) in result
    ensures data[k] !in result
    ensures forall j :: 0 <= j < |data| && j != k ==> data[j] in result
  {
    var bumped := Bumped(data, data[k].id);
    BumpedChangesOneIcon(data, k);
    assert |result| == |multiset(result)| == |bumped|;
    assert bumped[k] in multiset(result);
    forall j | 0 <= j < |data| && j != k ensures data[j] in result {
      assert bumped[j] == data[j];
      assert bumped[j] in multiset(result);
    }
    assert data[k] !in bumped by {
      forall p | 0 <= p < |bumped| ensures bumped[p] != data[k] {
        if p != k {
          assert IdOf(data[p]) != IdOf(data[k]);
        }
      }
    }
    assert data[k] !in multiset(result);
  }

  /** The observable store behind the list (`@Published` is a plain field here). */
  class Model {
    var data: seq<Icon>

    /** Ids are unique and the list is highest value first. */
    ghost predicate Valid()
      reads this
    {
      DistinctIds(data) && SortedByValue(data)
    }

    /** `UUID()` is called once per icon: the nine ids are the caller's, and distinct. */
    constructor (ids: seq<Uuid>)
      requires |ids| == 9 && Distinct(ids)
      ensures Valid() && data == InitialData(ids)
    {
      data := InitialData(ids);
    }

    /**
      `increment(id:)`: the icon with `id` gains 1, then the list is sorted
      by value, highest first. Only "sorted" and "a rearrangement" are
      promised; the order among equal values is left open.
     */
    method Increment(id: Uuid)
      requires Valid()
      modifies this
      ensures Valid()
      ensures multiset(data) == multiset(Bumped(old(data), id))
    {
      var bumped := Bumped(data, id);
      assert DistinctIds(bumped);
      var sorted := SortDescending(bumped, ValueOf);
      PermutationKeepsDistinctBy(bumped, sorted, IdOf);
      data := sorted;
    }
  }
}

# DiffableDataSourceTest, modelled in Dafny

DiffableDataSourceTest is a small UIKit demo. A list of nine icons is shown
in three sections: Vehicle, Weather and Person. Tapping an icon raises its
value by one. The store then re-sorts the whole list by value, highest first.
The view controller turns the list into a sectioned snapshot and hands it to
a diffable data source. A second store, `ViewModel`, keeps five fruit rows
with counters. It supports increment and delete, and the shown screen never
uses it.

The project models these parts:

- `foundation.dfy` (module `Foundation`): ids (`UUID`, modelled as `nat` and
  compared only for equality) and `Option`.
- `sequences.dfy` (module `Sequences`): the two library operations the stores
  use, and distinctness of a sequence. `SortDescending` stands for `sorted(by: >)` and `sorted()`, and it is
  specified only as "sorted and a permutation". `Filter` stands for `filter`,
  and lemmas give its counts, its membership, its order (`Rank`) and what it
  preserves.
- `icons.dfy` (module `Icons`, from `Model.swift`): `Type`, `Icon`, the
  initial data, the `map` step of `increment(id:)` (`Bumped`), and the class
  `Model` with its `data` field and `Increment` method.
- `rows.dfy` (module `Rows`, from `ViewModel.swift`): `Row`, its `<`
  operator, the `map` of `increment(row:)`, the `filter` of `delete(row:)`,
  and the class `ViewModel`.
- `snapshots.dfy` (module `Snapshots`, from `ViewController.swift`): the
  snapshot as a value, `appendSections` and `appendItems`, and the method
  `BuildSnapshot` with the same loop as the subscription's closure. It also
  has the section header text, the data source's `itemIdentifier(for:)`
  lookup, and the class `ViewController`. Its `DidSelectItem` is the tap
  handler.

On three points the code may surprise a reader:

- `ViewModel` matches rows by synthesized whole-value `==` (id, name and
  count), not by id. So a stale row matches nothing: no count changes, delete
  leaves `rows` as it was, and increment only re-sorts the same rows
  (`Rows.StaleRowIsNoOp`, `Rows.StaleIncrementOnlyReorders`).
- Neither store promises a stable sort. Swift does not document `sorted` as
  stable, so only "non-increasing and a permutation" is claimed.
- The insert/delete/move diff is not code of this repository. UIKit's
  `apply` does it.

One consequence of the code is stated as a lemma. `Icon` is `Hashable` over
all of its fields, and the data source tells items apart by that value. So
after a tap, the tapped item is gone from the next snapshot, and an
incremented copy takes its place (`Snapshots.IncrementReplacesTappedItem`).

## Model

| member | source | states |
|---|---|---|
| `Icons.AllCases` | DiffableDataSourceTest/Model.swift:10-14 | `Type.allCases` has exactly three cases; the case at position i is the i-th declared case, and every case appears |
| `Icons.RawValue` | DiffableDataSourceTest/Model.swift:10-14 | maps each case to its `String` raw value, the case's own name; `RawValueInjective` states that no two cases share one |
| `Icons.RawValueInjective` | DiffableDataSourceTest/Model.swift:10-14 | each case's raw value is its own name, so two cases share a raw value only if they are the same case |
| `Icons.InitialData` | DiffableDataSourceTest/Model.swift:23-44 | the store starts with nine icons, each with the value 0 and the image named after it; with distinct `UUID()`s the ids are distinct, and the list is already sorted by value |
| `Icons.NewIcon` | DiffableDataSourceTest/Model.swift:23-29 | `Icon.init(name:type:value:)`: the given id, name, type and value (0 by default), and an image named after the icon; `InitialData` states what the nine calls give |
| `Icons.Bumped` | DiffableDataSourceTest/Model.swift:47-56 | the `map` keeps the length; an icon whose id matches gains exactly 1; every other icon keeps its value; no icon's id, name, image or type changes |
| `Icons.BumpedUnknownId` | DiffableDataSourceTest/Model.swift:49-55 | an id that no icon carries leaves every icon as it was |
| `Icons.BumpedChangesOneIcon` | DiffableDataSourceTest/Model.swift:48-56 | with distinct ids, bumping icon k's id changes icon k's value and nothing else |
| `Icons.IncrementedContents` | DiffableDataSourceTest/Model.swift:46-59 | any sorted rearrangement of the mapped list has the same length, holds icon k with one more, no longer holds the old icon k, and holds every other icon unchanged |
| `Icons.Model.constructor` | DiffableDataSourceTest/Model.swift:34-44 | the initial `data` is the nine icons, with distinct ids and sorted by value |
| `Icons.Model.Increment` | DiffableDataSourceTest/Model.swift:46-59 | `data` becomes sorted highest value first and is a permutation of the mapped old list; ids stay distinct |
| `Sequences.SortDescending` | DiffableDataSourceTest/Model.swift:57-59 | the sort's result is non-increasing by the key and a permutation of its input |
| `Sequences.Insert` | DiffableDataSourceTest/Model.swift:57-59 | inserting into a non-increasing list keeps it non-increasing and adds exactly that element |
| `Sequences.PermutationKeepsDistinctBy` | DiffableDataSourceTest/Model.swift:57-59 | re-sorting cannot make two icons share an id |
| `Sequences.Filter` | DiffableDataSourceTest/ViewModel.swift:63 | `filter` returns no more elements than its input, and only accepted ones; the lemmas below give its counts, membership and order |
| `Sequences.FilterCounts` | DiffableDataSourceTest/ViewModel.swift:63 | `filter` keeps each accepted element as often as it occurs and drops every rejected one |
| `Sequences.FilterMembership` | DiffableDataSourceTest/ViewModel.swift:63 | an element survives `filter` if and only if it is in the input and accepted |
| `Sequences.FilterConcat` | DiffableDataSourceTest/ViewModel.swift:63 | filtering a concatenation gives the concatenation of the filtered parts |
| `Sequences.FilterKeepsAll` | DiffableDataSourceTest/ViewModel.swift:63 | a filter that accepts every element returns its input |
| `Sequences.FilterAtRank` | DiffableDataSourceTest/ViewModel.swift:63 | an accepted element appears in the result at the position given by the accepted elements in front of it |
| `Sequences.RankIncreases` | DiffableDataSourceTest/ViewModel.swift:63 | accepted elements keep their relative order |
| `Sequences.FilterKeepsNonIncreasing` | DiffableDataSourceTest/ViewModel.swift:63 | filtering a sorted list leaves it sorted |
| `Sequences.FilterKeepsDistinctBy` | DiffableDataSourceTest/ViewModel.swift:63 | filtering cannot make two rows share an id |
| `Rows.LessIsStrictWeakOrder` | DiffableDataSourceTest/ViewModel.swift:23-25 | `<` ("higher count first") is irreflexive and transitive, and rows with equal counts are interchangeable |
| `Rows.Less` | DiffableDataSourceTest/ViewModel.swift:23-25 | `<` holds when the left row has the higher count; `LessIsStrictWeakOrder` and `SortedByLessIsHighestCountFirst` state its properties |
| `Rows.SortedByLessIsHighestCountFirst` | DiffableDataSourceTest/ViewModel.swift:23-25 | a list sorted under `<` (no row less than one before it) is exactly a list in non-increasing order of count |
| `Rows.NewRow` | DiffableDataSourceTest/ViewModel.swift:17-21 | `Row.init(name:)`: the given id and name with a count of 0; `InitialRows` states what the five calls give |
| `Rows.InitialRows` | DiffableDataSourceTest/ViewModel.swift:36-44 | `init()` gives five rows, each with count 0 as `Row.init` sets it; with distinct `UUID()`s the ids are distinct, and the list is sorted under `<` |
| `Rows.Bumped` | DiffableDataSourceTest/ViewModel.swift:47-53 | the `map` keeps the length, ids and names; a row gains exactly 1 if and only if it equals the argument as a whole value |
| `Rows.Deleted` | DiffableDataSourceTest/ViewModel.swift:63 | a row is kept if and only if it is stored and differs from the argument as a whole value; `DeletedContents` and `DeletedKeepsOrder` give counts and order |
| `Rows.DeletedContents` | DiffableDataSourceTest/ViewModel.swift:63 | `delete(row:)` removes every copy of the row and keeps every other row as often as before |
| `Rows.DeletedKeepsOrder` | DiffableDataSourceTest/ViewModel.swift:63 | the rows that survive `delete(row:)` keep their relative order |
| `Rows.DeletedKeepsSorted` | DiffableDataSourceTest/ViewModel.swift:63 | deleting from a list sorted under `<` leaves it sorted, without re-sorting |
| `Rows.AbsentRowIsNoOp` | DiffableDataSourceTest/ViewModel.swift:47-63 | a row not stored, by whole-value equality, matches nothing: the `map` of increment and the `filter` of delete return the rows unchanged |
| `Rows.StaleRowIsNoOp` | DiffableDataSourceTest/ViewModel.swift:47-63 | a row with a stored id but a different name or count matches nothing: no count changes in increment's `map`, and delete leaves `rows` as it was |
| `Rows.StaleIncrementOnlyReorders` | DiffableDataSourceTest/ViewModel.swift:46-53 | increment with a stale row only re-sorts: the result holds the same rows, each as often as before, though rows with equal counts may change places |
| `Rows.ViewModel.constructor` | DiffableDataSourceTest/ViewModel.swift:36-44 | `rows` starts empty and becomes the five initial rows, with distinct ids and sorted |
| `Rows.ViewModel.Increment` | DiffableDataSourceTest/ViewModel.swift:46-53 | `rows` becomes sorted under `<` and a permutation of the mapped old rows; ids stay distinct |
| `Rows.ViewModel.Delete` | DiffableDataSourceTest/ViewModel.swift:62-63 | `rows` becomes the old rows without those equal to the argument, still sorted and with distinct ids |
| `Snapshots.SectionIndex` | DiffableDataSourceTest/ViewController.swift:40 | the section `appendItems(_:toSection:)` extends is the first one with that identifier |
| `Snapshots.AppendSections` | DiffableDataSourceTest/ViewController.swift:38 | `appendSections(_:)` keeps the existing sections, adds the given identifiers after them in order, and the new sections are empty |
| `Snapshots.AppendItems` | DiffableDataSourceTest/ViewController.swift:40 | `appendItems(_:toSection:)` keeps the section identifiers, adds the items at the end of the named section, and leaves every other section as it was |
| `Snapshots.BuildSnapshot` | DiffableDataSourceTest/ViewController.swift:37-41 | the snapshot's sections are the `Type` cases in declaration order, and each holds exactly the icons of its type, in their order in `data` |
| `Snapshots.OfTypeStep` | DiffableDataSourceTest/ViewController.swift:39-41 | appending one more icon extends only the group of its own type |
| `Snapshots.SectionsAreAllCases` | DiffableDataSourceTest/ViewController.swift:38 | there are exactly three sections, in declaration order, including empty ones |
| `Snapshots.ItemsBelongToTheirSection` | DiffableDataSourceTest/ViewController.swift:40 | an icon is in a section if and only if it is in the store and has that section's type |
| `Snapshots.EachIconInItsSection` | DiffableDataSourceTest/ViewController.swift:39-41 | every icon of the store is in the section of its own type, at the position given by the icons of that type in front of it |
| `Snapshots.SectionKeepsStoreOrder` | DiffableDataSourceTest/ViewController.swift:39-41 | in a grouped snapshot, two icons of one type appear in their section in the order they have in the store |
| `Snapshots.SectionsSortedByValue` | DiffableDataSourceTest/ViewController.swift:39-41 | when the store is sorted by value, highest first, so is every section |
| `Snapshots.GroupsPartitionData` | DiffableDataSourceTest/ViewController.swift:39-41 | the three groups together hold each icon exactly as often as the store does |
| `Snapshots.SectionsPartitionData` | DiffableDataSourceTest/ViewController.swift:39-41 | the concatenated sections are a permutation of `data`: no icon lost or duplicated, and the same total count |
| `Snapshots.HeaderText` | DiffableDataSourceTest/ViewController.swift:112 | the header of section i is the raw value of the case whose position in `Type.allCases` is i |
| `Snapshots.HeaderNamesItsSection` | DiffableDataSourceTest/ViewController.swift:112 | the header of section i shows the raw value of that section's `Type` case |
| `Snapshots.ItemIdentifier` | DiffableDataSourceTest/ViewController.swift:137 | `itemIdentifier(for:)` finds an item exactly when the section and item indices are in range, and the item found is in that section |
| `Snapshots.TapResolvesToStoredIcon` | DiffableDataSourceTest/ViewController.swift:137 | an index path that resolves to an item gives an icon of the store whose type is the tapped section |
| `Snapshots.IncrementReplacesTappedItem` | DiffableDataSourceTest/ViewController.swift:137-138 | after the increment, the tapped item (a whole `Icon` value) is in no section of the next snapshot, and its incremented copy is in its section |
| `Snapshots.ViewController.constructor` | DiffableDataSourceTest/ViewController.swift:24-44 | the screen owns a fresh store with the initial data and shows its snapshot from the start |
| `Snapshots.ViewController.Render` | DiffableDataSourceTest/ViewController.swift:34-42 | the subscription's sink replaces the shown snapshot with the grouping of the current `data` |
| `Snapshots.ViewController.DidSelectItem` | DiffableDataSourceTest/ViewController.swift:133-139 | a tap that resolves to an icon of the store increments that icon's id and shows the new grouping; a tap that resolves to nothing changes neither the store nor the screen |

## Left out

- The diff and the animated update done by `apply(_:animatingDifferences:)` (ViewController.swift:42) are UIKit's code, which is not shown. `Render` models only its result: the data source then shows the new snapshot.
- Layout, cell and header registration, and the supplementary view provider (ViewController.swift:51-127) are view configuration. Only the header's text (line 112) is modelled.
- Combine's `@Published`, the subscription and `.receive(on: DispatchQueue.main)` are modelled as a direct assignment followed by a synchronous `Render`. The hop to the main queue, and the initial value delivered on subscribing, are not modelled as separate events.
- `UUID()` is foreign. Ids are passed to the constructors, which require them to be distinct. `UIImage(systemName:)!` is kept as the symbol name; the trap on a missing symbol is not modelled.
- HeaderText: requires a section index below 3, so the trap of `Type.allCases[indexPath.section]` (ViewController.swift:112) on any other index is not modelled; the layout only asks for headers of the three sections.
- `deselectItem(at:animated:)` (ViewController.swift:134) only changes the selection highlight, which is not modelled; `DidSelectItem` models the lookup and the increment.
- The debug `print` loops (ViewModel.swift:55-59, 65-69) are output only.
- `updatedRow` (ViewModel.swift:34) and the `Section` enum of ViewModel.swift (lines 28-30) are never used.
- UIKit's own checks on snapshots, such as refusing a duplicate item or an unknown section, are not modelled. `AppendItems` requires the section to exist, which `BuildSnapshot` always meets.
- Icons.Bumped: does not model the trap on 64-bit overflow of `value += 1`; values are unbounded integers.
- Rows.Bumped: does not model the trap on 64-bit overflow of `count += 1`; counts are unbounded integers.
- Icons.Model.Increment: fixes no order among icons with equal values, because `sorted(by:)` is not documented as stable. The sort used to implement it happens to be stable, but no contract relies on that.
- Rows.ViewModel.Increment: fixes no order among rows with equal counts, for the same reason.

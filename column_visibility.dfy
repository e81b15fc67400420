/**
 * Column declarations and the column-visibility record that both table hooks keep
 * (`toggleColumnVisibility`, `showAllColumns`, `hideAllColumns`), together with the
 * rule by which the table library reads that record: a column is shown unless its
 * entry is `false`.
 */
module ColumnVisibility {
  import opened Seqs

  /** A data column takes its id from `accessorKey`; a display column (`id: 'actions'`) names it. */
  datatype ColumnKey = AccessorKey(key: string) | DisplayId(id: string)

  datatype ColumnDef = ColumnDef(column: ColumnKey, header: string)

  function ColumnId(c: ColumnDef): string
  {
    match c.column
    case AccessorKey(k) => k
    case DisplayId(i) => i
  }

  /** `Record<string, boolean>` from column id to visibility. */
  type Visibility = map<string, bool>

  /** `!prev[id]`: a missing entry reads as `undefined`, so it negates to `true`. */
  function Negated(vis: Visibility, id: string): bool
  {
    !(id in vis && vis[id])
  }

  /** `{...prev, [columnId]: !prev[columnId]}` */
  function Toggled(vis: Visibility, id: string): (r: Visibility)
    ensures r.Keys == vis.Keys + {id}
    ensures r[id] == !(id in vis && vis[id])
    ensures forall k :: k in vis && k != id ==> r[k] == vis[k]
  {
    vis[id := Negated(vis, id)]
  }

  /** How the table reads the record: `columnVisibility[id] ?? true`. */
  predicate IsVisible(vis: Visibility, id: string)
  {
    id !in vis || vis[id]
  }

  /** A column `hideAllColumns` hides: one declared with a non-empty `accessorKey`. */
  predicate HidesOnHideAll(c: ColumnDef)
  {
    c.column.AccessorKey? && c.column.key != ""
  }

  /** The `reduce` of `hideAllColumns`, folding the columns into `acc` from left to right. */
  function HideAllFrom(acc: Visibility, columns: seq<ColumnDef>): Visibility
    decreases |columns|
  {
    if columns == [] then acc
    else if HidesOnHideAll(columns[0]) then HideAllFrom(acc[columns[0].column.key := false], columns[1..])
    else HideAllFrom(acc, columns[1..])
  }

  function HideAll(columns: seq<ColumnDef>): Visibility
  {
    HideAllFrom(map[], columns)
  }

  /** Some column `hideAllColumns` hides has key `k`. */
  predicate HidesKey(columns: seq<ColumnDef>, k: string)
  {
    exists i :: 0 <= i < |columns| && HidesOnHideAll(columns[i]) && columns[i].column.key == k
  }

  lemma {:induction false} HideAllFromKeys(acc: Visibility, columns: seq<ColumnDef>)
    ensures forall k :: k in HideAllFrom(acc, columns) <==> k in acc || HidesKey(columns, k)
    ensures forall k :: k in HideAllFrom(acc, columns) ==>
      HideAllFrom(acc, columns)[k] == (if HidesKey(columns, k) then false else acc[k])
    decreases |columns|
  {
    if columns != [] {
      var next := if HidesOnHideAll(columns[0]) then acc[columns[0].column.key := false] else acc;
      HideAllFromKeys(next, columns[1..]);
      forall k ensures HidesKey(columns, k) <==>
        (HidesOnHideAll(columns[0]) && columns[0].column.key == k) || HidesKey(columns[1..], k)
      {
        if HidesKey(columns, k) {
          var i :| 0 <= i < |columns| && HidesOnHideAll(columns[i]) && columns[i].column.key == k;
          if i > 0 {
            assert columns[1..][i - 1] == columns[i];
          }
        }
        if HidesKey(columns[1..], k) {
          var i :| 0 <= i < |columns[1..]| && HidesOnHideAll(columns[1..][i]) && columns[1..][i].column.key == k;
          assert columns[i + 1] == columns[1..][i];
        }
        if HidesOnHideAll(columns[0]) && columns[0].column.key == k {
          assert 0 < |columns|;
        }
      }
    }
  }

  /** `hideAllColumns` maps exactly the accessor-key columns, each to `false`. */
  lemma HideAllExactly(columns: seq<ColumnDef>)
    ensures forall k :: k in HideAll(columns) <==> HidesKey(columns, k)
    ensures forall k :: k in HideAll(columns) ==> !HideAll(columns)[k]
  {
    HideAllFromKeys(map[], columns);
  }

  /** Column ids are unique within a table. */
  predicate DistinctIds(columns: seq<ColumnDef>)
  {
    forall i, j :: 0 <= i < j < |columns| ==> ColumnId(columns[i]) != ColumnId(columns[j])
  }

  /** `table.getVisibleLeafColumns()`: the declared columns the record does not hide, in order. */
  function VisibleColumns(columns: seq<ColumnDef>, vis: Visibility): seq<ColumnDef>
  {
    Filter(columns, (c: ColumnDef) => IsVisible(vis, ColumnId(c)))
  }

  function Headers(columns: seq<ColumnDef>): (r: seq<string>)
    ensures |r| == |columns|
    ensures forall j :: 0 <= j < |columns| ==> r[j] == columns[j].header
  {
    seq(|columns|, j requires 0 <= j < |columns| => columns[j].header)
  }

  /** After `showAllColumns` every declared column is visible, in declaration order. */
  lemma ShowAllShowsEverything(columns: seq<ColumnDef>)
    ensures VisibleColumns(columns, map[]) == columns
  {
    FilterKeepsAll(columns, (c: ColumnDef) => IsVisible(map[], ColumnId(c)));
  }

  /** After `hideAllColumns` only the columns without an accessor key stay visible. */
  lemma HideAllLeavesDisplayColumns(columns: seq<ColumnDef>, c: ColumnDef)
    requires DistinctIds(columns)
    ensures c in VisibleColumns(columns, HideAll(columns)) <==> c in columns && !HidesOnHideAll(c)
  {
    HideAllExactly(columns);
    var vis := HideAll(columns);
    FilterMember(columns, (c: ColumnDef) => IsVisible(vis, ColumnId(c)), c);
    if c in columns && HidesOnHideAll(c) {
      var i :| 0 <= i < |columns| && columns[i] == c;
      assert ColumnId(c) in vis;
    }
  }

  /** Toggling twice restores the entry as a boolean (a missing entry comes back as `false`). */
  lemma {:induction false} ToggleTwice(vis: Visibility, id: string)
    ensures Toggled(Toggled(vis, id), id) == vis[id := id in vis && vis[id]]
  {
  }

  /**
   * The first toggle of a column the record does not mention writes `true`; since the
   * table reads a missing entry as visible, that toggle leaves the column visible.
   */
  lemma FirstToggleKeepsColumnVisible(vis: Visibility, id: string)
    requires id !in vis
    ensures Toggled(vis, id)[id]
    ensures IsVisible(vis, id) && IsVisible(Toggled(vis, id), id)
  {
  }

  /** A toggle that flips what the table shows: the negation of the column's visibility. */
  function ToggledVisibility(vis: Visibility, id: string): (r: Visibility)
    ensures IsVisible(r, id) == !IsVisible(vis, id)
    ensures forall k :: k != id ==> IsVisible(r, k) == IsVisible(vis, k)
  {
    vis[id := !IsVisible(vis, id)]
  }
}

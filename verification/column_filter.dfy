/**
  The column-visibility drop-down (components/ColumnFilter.tsx): toggling a
  column adds it to or removes it from the visible set, except that the last
  visible column is never hidden.
 */
module ColumnFilter {

  /** A column of the table; `caption` is the source's `label`, a reserved word in Dafny. */
  datatype Column = Column(key: string, caption: string)

  /** `columns.filter(c => visible.has(c.key)).length`. */
  function VisibleCount(columns: seq<Column>, visible: set<string>): nat {
    if |columns| == 0 then 0
    else (if columns[0].key in visible then 1 else 0) + VisibleCount(columns[1..], visible)
  }

  /** `handleToggleColumn(key)`: the new set handed to `setVisibleColumns`. */
  function ToggleColumn(columns: seq<Column>, visible: set<string>, key: string): (r: set<string>)
    ensures key !in visible ==> r == visible + {key}
    ensures key in visible && VisibleCount(columns, visible) > 1 ==> r == visible - {key}
    ensures key in visible && VisibleCount(columns, visible) <= 1 ==> r == visible
    ensures forall other :: other != key ==> (other in r <==> other in visible)
  {
    if key in visible then
      if VisibleCount(columns, visible) > 1 then visible - {key} else visible
    else visible + {key}
  }

  /** No two columns share a key. */
  ghost predicate DistinctKeys(columns: seq<Column>) {
    forall i, j :: 0 <= i < j < |columns| ==> columns[i].key != columns[j].key
  }

  lemma {:induction false} VisibleCountMonotone(columns: seq<Column>, v: set<string>, w: set<string>)
    requires v <= w
    ensures VisibleCount(columns, v) <= VisibleCount(columns, w)
  {
    if |columns| > 0 {
      VisibleCountMonotone(columns[1..], v, w);
    }
  }

  /** Removing a key that no column carries does not change the count. */
  lemma {:induction false} VisibleCountIgnoresAbsentKey(columns: seq<Column>, v: set<string>, k: string)
    requires forall i :: 0 <= i < |columns| ==> columns[i].key != k
    ensures VisibleCount(columns, v - {k}) == VisibleCount(columns, v)
  {
    if |columns| > 0 {
      VisibleCountIgnoresAbsentKey(columns[1..], v, k);
    }
  }

  /** With distinct keys, hiding one key hides at most one column. */
  lemma {:induction false} VisibleCountRemoveOne(columns: seq<Column>, v: set<string>, k: string)
    requires DistinctKeys(columns)
    ensures VisibleCount(columns, v - {k}) + 1 >= VisibleCount(columns, v)
  {
    if |columns| > 0 {
      var tail := columns[1..];
      assert DistinctKeys(tail);
      if columns[0].key == k {
        forall i | 0 <= i < |tail|
          ensures tail[i].key != k
        {
          assert tail[i] == columns[i + 1];
        }
        VisibleCountIgnoresAbsentKey(tail, v, k);
      } else {
        VisibleCountRemoveOne(tail, v, k);
      }
    }
  }

  /** If some column is visible before a toggle, some column is visible after it. */
  lemma ToggleKeepsAColumnVisible(columns: seq<Column>, visible: set<string>, key: string)
    requires DistinctKeys(columns)
    requires VisibleCount(columns, visible) >= 1
    ensures VisibleCount(columns, ToggleColumn(columns, visible, key)) >= 1
  {
    if key in visible {
      VisibleCountRemoveOne(columns, visible, key);
    } else {
      VisibleCountMonotone(columns, visible, visible + {key});
    }
  }

  /** Without distinct keys the guard can be passed by one key counted twice. */
  lemma DuplicateKeyHidesEveryColumn()
    ensures var columns := [Column("a", "A"), Column("a", "A")];
            && VisibleCount(columns, {"a"}) == 2
            && VisibleCount(columns, ToggleColumn(columns, {"a"}, "a")) == 0
  {
    var columns := [Column("a", "A"), Column("a", "A")];
    assert columns[1..] == [Column("a", "A")];
    assert columns[1..][1..] == [];
    assert ToggleColumn(columns, {"a"}, "a") == {};
    assert VisibleCount(columns[1..], {}) == 0;
  }

  /** Showing a hidden column and toggling it again restores the set when another column stays visible. */
  lemma ShowThenHideRestores(columns: seq<Column>, visible: set<string>, key: string)
    requires key !in visible
    requires VisibleCount(columns, visible) >= 1
    requires exists i :: 0 <= i < |columns| && columns[i].key == key
    ensures ToggleColumn(columns, ToggleColumn(columns, visible, key), key) == visible
  {
    var i :| 0 <= i < |columns| && columns[i].key == key;
    ShowAddsOne(columns, visible, key, i);
  }

  lemma {:induction false} ShowAddsOne(columns: seq<Column>, visible: set<string>, key: string, i: int)
    requires key !in visible
    requires 0 <= i < |columns| && columns[i].key == key
    ensures VisibleCount(columns, visible + {key}) >= VisibleCount(columns, visible) + 1
  {
    if i == 0 {
      VisibleCountMonotone(columns[1..], visible, visible + {key});
    } else {
      ShowAddsOne(columns[1..], visible, key, i - 1);
    }
  }
}

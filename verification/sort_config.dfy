/**
  The column-header sort toggle shared by both table pages: `requestSort`
  and `getSortDirection` over a sort configuration that is either null or a
  (key, direction) pair.
 */
module SortConfig {
  import opened Optional
  import opened Ordering

  datatype SortSpec<K> = SortSpec(key: K, direction: Direction)

  /** `requestSort(key)`: descending only when `key` is already sorted ascending. */
  function RequestSort<K(==)>(config: Option<SortSpec<K>>, key: K): (r: SortSpec<K>)
    ensures r.key == key
    ensures r.direction == Descending <==> config == Some(SortSpec(key, Ascending))
  {
    var direction :=
      if config.Some? && config.value.key == key && config.value.direction == Ascending
      then Descending else Ascending;
    SortSpec(key, direction)
  }

  /** `getSortDirection(key)`: the direction when `key` is the sort key, null otherwise. */
  function GetSortDirection<K(==)>(config: Option<SortSpec<K>>, key: K): (r: Option<Direction>)
    ensures r.Some? <==> config.Some? && config.value.key == key
    ensures r.Some? ==> r.value == config.value.direction
  {
    if config.None? || config.value.key != key then None
    else Some(config.value.direction)
  }

  /** Clicking a header that is not the sort key cycles ascending, descending, ascending. */
  lemma RequestSortAlternates<K>(config: Option<SortSpec<K>>, key: K)
    requires config.None? || config.value.key != key
    ensures var first := RequestSort(config, key);
            var second := RequestSort(Some(first), key);
            var third := RequestSort(Some(second), key);
            && first == SortSpec(key, Ascending)
            && second == SortSpec(key, Descending)
            && third == SortSpec(key, Ascending)
  {
  }

  /** Two clicks on the ascending sort key come back to ascending. */
  lemma RequestSortTwiceRestores<K>(key: K)
    ensures RequestSort(Some(RequestSort(Some(SortSpec(key, Ascending)), key)), key)
         == SortSpec(key, Ascending)
  {
  }

  /** After `requestSort(key)` the header of `key` shows a direction and no other header does. */
  lemma GetSortDirectionAfterRequest<K>(config: Option<SortSpec<K>>, key: K, other: K)
    ensures GetSortDirection(Some(RequestSort(config, key)), key).Some?
    ensures other != key ==> GetSortDirection(Some(RequestSort(config, key)), other) == None
  {
  }
}

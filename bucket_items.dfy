/** `_getItemsData` and `addOptionsData`: engine buckets become item data keyed by the raw term,
    admin options then give matching items their canonical value and admin position, and under
    a manual sort order the items are sorted by that position. */
module BucketItems {
  import opened PhpArrays
  import opened FacetData

  /** The item data one bucket yields: label is the tag-stripped term, value the raw term. */
  function ItemFor(tagFilter: string -> string, b: Bucket): ItemData {
    ItemData(tagFilter(b.value), b.value, b.count, None)
  }

  /** The `$items` array after the `foreach` over the faceted data: `$items[$value] = ...` per bucket. */
  function ItemsFromBuckets(tagFilter: string -> string, buckets: seq<Bucket>): (items: seq<Entry<ItemData>>)
    ensures UniqueKeys(items)
    ensures |items| <= |buckets|
    decreases |buckets|
  {
    if |buckets| == 0 then []
    else
      var n := |buckets| - 1;
      Put(ItemsFromBuckets(tagFilter, buckets[..n]), buckets[n].value, ItemFor(tagFilter, buckets[n]))
  }

  /** Faceted data comes as a PHP array keyed by term, so its terms are pairwise distinct. */
  predicate DistinctValues(buckets: seq<Bucket>) {
    forall i, j :: 0 <= i < j < |buckets| ==> buckets[i].value != buckets[j].value
  }

  /** Exactly one item per bucket, in bucket order, keyed by the raw term, with the tag-stripped
      term as label, the raw term as value, the count copied and no admin position yet. */
  lemma {:induction false} OneItemPerBucket(tagFilter: string -> string, buckets: seq<Bucket>)
    requires DistinctValues(buckets)
    ensures |ItemsFromBuckets(tagFilter, buckets)| == |buckets|
    ensures forall i :: 0 <= i < |buckets| ==>
              ItemsFromBuckets(tagFilter, buckets)[i]
              == Entry(buckets[i].value, ItemData(tagFilter(buckets[i].value), buckets[i].value, buckets[i].count, None))
    decreases |buckets|
  {
    var n := |buckets|;
    if n > 0 {
      var front := buckets[..n - 1];
      var prev := ItemsFromBuckets(tagFilter, front);
      OneItemPerBucket(tagFilter, front);
      var b := buckets[n - 1];
      assert KeyIndex(prev, b.value).None? by {
        assert forall i :: 0 <= i < |prev| ==> prev[i].key == buckets[i].value;
      }
      PutNewKey(prev, b.value, ItemFor(tagFilter, b));
    }
  }

  /** One iteration of the loop over admin options: a truthy label that is a key of the items
      gives that item the option's position and the option's value. */
  function MergeOption(items: seq<Entry<ItemData>>, option: AdminOption, position: Position): (r: seq<Entry<ItemData>>)
    ensures |r| == |items| && Keys(r) == Keys(items)
    ensures forall j :: 0 <= j < |items| ==>
              r[j].val.labelText == items[j].val.labelText && r[j].val.count == items[j].val.count
  {
    if IsFalsyString(option.labelText) then items
    else match KeyIndex(items, option.labelText)
      case None => items
      case Some(i) => items[i := Annotated(items[i], position, option.value)]
  }

  /** An item annotated with an admin position and the option's canonical value. */
  function Annotated(e: Entry<ItemData>, position: Position, value: string): Entry<ItemData> {
    Entry(e.key, e.val.(adminSortIndex := Some(position), value := value))
  }

  /** The items after the loop over the first |options| admin options, the i-th at position i + 1. */
  function MergeOptions(items: seq<Entry<ItemData>>, options: seq<AdminOption>): (r: seq<Entry<ItemData>>)
    ensures |r| == |items| && Keys(r) == Keys(items)
    ensures forall j :: 0 <= j < |items| ==>
              r[j].val.labelText == items[j].val.labelText && r[j].val.count == items[j].val.count
    decreases |options|
  {
    if |options| == 0 then items
    else
      var n := |options|;
      MergeOption(MergeOptions(items, options[..n - 1]), options[n - 1], n)
  }

  /** The position of the last admin option whose truthy label equals key, if any. */
  function LastMatch(options: seq<AdminOption>, key: string): (r: Option<Position>)
    ensures r.Some? ==> r.value <= |options| && options[r.value - 1].labelText == key && !IsFalsyString(key)
    ensures forall q :: (if r.Some? then r.value else 0) <= q < |options| ==>
              options[q].labelText != key || IsFalsyString(key)
    decreases |options|
  {
    if |options| == 0 then None
    else if options[|options| - 1].labelText == key && !IsFalsyString(key) then Some(|options|)
    else LastMatch(options[..|options| - 1], key)
  }

  /** One option step at item j: the item is annotated exactly when its key is the option's truthy label. */
  lemma MergeOptionAt(items: seq<Entry<ItemData>>, option: AdminOption, position: Position, j: nat)
    requires UniqueKeys(items) && j < |items|
    ensures MergeOption(items, option, position)[j]
            == if option.labelText == items[j].key && !IsFalsyString(option.labelText)
               then Annotated(items[j], position, option.value)
               else items[j]
  {
    if option.labelText == items[j].key && !IsFalsyString(option.labelText) {
      assert KeyIndex(items, option.labelText) == Some(j);
    }
  }

  /** What the merge does to each item: an item whose key is the label of some option takes the
      position and value of the last such option; every other item is left as it was. */
  lemma {:induction false} MergeOptionsAt(items: seq<Entry<ItemData>>, options: seq<AdminOption>, j: nat)
    requires UniqueKeys(items) && j < |items|
    ensures MergeOptions(items, options)[j]
            == match LastMatch(options, items[j].key)
                 case None => items[j]
                 case Some(p) => Annotated(items[j], p, options[p - 1].value)
    decreases |options|
  {
    var n := |options|;
    if n > 0 {
      var front := options[..n - 1];
      var prev := MergeOptions(items, front);
      MergeOptionsAt(items, front, j);
      SameKeys(prev, items);
      MergeOptionAt(prev, options[n - 1], n, j);
      if !(options[n - 1].labelText == items[j].key && !IsFalsyString(items[j].key)) {
        assert LastMatch(options, items[j].key) == LastMatch(front, items[j].key);
        match LastMatch(front, items[j].key)
        case None =>
        case Some(p) => assert options[p - 1] == front[p - 1];
      }
    }
  }

  /** With pairwise distinct option labels: the i-th option's item gets admin position i + 1
      and the option's value. */
  lemma OptionPositionWins(items: seq<Entry<ItemData>>, options: seq<AdminOption>, i: nat, j: nat)
    requires UniqueKeys(items) && DistinctLabels(options)
    requires i < |options| && !IsFalsyString(options[i].labelText)
    requires j < |items| && items[j].key == options[i].labelText
    ensures MergeOptions(items, options)[j].val.adminSortIndex == Some(i + 1)
    ensures MergeOptions(items, options)[j].val.value == options[i].value
  {
    MergeOptionsAt(items, options, j);
  }

  predicate DistinctLabels(options: seq<AdminOption>) {
    forall i, j :: 0 <= i < j < |options| ==> options[i].labelText != options[j].labelText
  }

  /** An item whose key no truthy option label equals leaves the merge untouched. */
  lemma UnmatchedItemUntouched(items: seq<Entry<ItemData>>, options: seq<AdminOption>, j: nat)
    requires UniqueKeys(items) && j < |items|
    requires forall q :: 0 <= q < |options| ==> options[q].labelText != items[j].key || IsFalsyString(items[j].key)
    ensures MergeOptions(items, options)[j] == items[j]
  {
    MergeOptionsAt(items, options, j);
  }

  /** The sort key of the manual-order comparator. PHP compares null with a position through
      booleans, so a missing index is below every position (positions start at 1). */
  function Rank(d: ItemData): (rank: nat)
    ensures rank == 0 <==> d.adminSortIndex.None?
    ensures d.adminSortIndex.Some? ==> rank == d.adminSortIndex.value
  {
    match d.adminSortIndex
      case None => 0
      case Some(p) => p
  }

  predicate SortedByRank(s: seq<ItemData>) {
    forall i, j :: 0 <= i < j < |s| ==> Rank(s[i]) <= Rank(s[j])
  }

  function Insert(d: ItemData, s: seq<ItemData>): (r: seq<ItemData>)
    requires SortedByRank(s)
    ensures SortedByRank(r)
    ensures multiset(r) == multiset(s) + multiset{d}
    ensures |r| == |s| + 1 && (r[0] == d || (|s| > 0 && r[0] == s[0]))
    decreases |s|
  {
    if |s| == 0 || Rank(d) <= Rank(s[0]) then [d] + s
    else
      var rest := Insert(d, s[1..]);
      assert s == [s[0]] + s[1..];
      [s[0]] + rest
  }

  /** `usort` with the comparator on `adminSortIndex`: a permutation sorted by rank. */
  function SortByAdminIndex(s: seq<ItemData>): (r: seq<ItemData>)
    ensures SortedByRank(r)
    ensures multiset(r) == multiset(s) && |r| == |s|
    decreases |s|
  {
    if |s| == 0 then []
    else
      assert s == [s[0]] + s[1..];
      Insert(s[0], SortByAdminIndex(s[1..]))
  }

  /** After the manual sort, items without an admin position come first and items with one
      follow in ascending position. */
  lemma ManualSortOrder(s: seq<ItemData>, i: nat, j: nat)
    requires i < j < |s|
    ensures var r := SortByAdminIndex(s);
            && (r[j].adminSortIndex.None? ==> r[i].adminSortIndex.None?)
            && (r[i].adminSortIndex.Some? && r[j].adminSortIndex.Some? ==>
                  r[i].adminSortIndex.value <= r[j].adminSortIndex.value)
  {
    var r := SortByAdminIndex(s);
    assert Rank(r[i]) <= Rank(r[j]);
    match r[i].adminSortIndex
    case None =>
    case Some(p) => assert 1 <= p == Rank(r[i]);
  }

  /** `addOptionsData`: merge the admin options, then sort by admin position under a manual sort
      order; any other order keeps the engine's item order. */
  function WithOptionsData(attr: Attribute, items: seq<Entry<ItemData>>): (data: seq<ItemData>)
    ensures |data| == |items|
    ensures multiset(data) == multiset(Values(MergeOptions(items, attr.options)))
    ensures attr.facetSortOrder == Manual ==> SortedByRank(data)
    ensures attr.facetSortOrder != Manual ==> data == Values(MergeOptions(items, attr.options))
  {
    var merged := Values(MergeOptions(items, attr.options));
    if attr.facetSortOrder == Manual then SortByAdminIndex(merged) else merged
  }

  /** `_getItemsData`: the item data for the given faceted data. */
  function ItemsData(attr: Attribute, tagFilter: string -> string, buckets: seq<Bucket>): (data: seq<ItemData>)
    ensures |data| <= |buckets|
    ensures DistinctValues(buckets) ==> |data| == |buckets|
    ensures DistinctValues(buckets) && attr.facetSortOrder != Manual ==>
              forall j :: 0 <= j < |buckets| ==>
                data[j].labelText == tagFilter(buckets[j].value) && data[j].count == buckets[j].count
    ensures multiset(data) == multiset(Values(MergeOptions(ItemsFromBuckets(tagFilter, buckets), attr.options)))
    ensures attr.facetSortOrder == Manual ==> SortedByRank(data)
    ensures attr.facetSortOrder != Manual ==> data == Values(MergeOptions(ItemsFromBuckets(tagFilter, buckets), attr.options))
  {
    var mapped := ItemsFromBuckets(tagFilter, buckets);
    assert DistinctValues(buckets) ==>
             |mapped| == |buckets|
             && forall j :: 0 <= j < |buckets| ==>
                  mapped[j].val.labelText == tagFilter(buckets[j].value) && mapped[j].val.count == buckets[j].count
    by {
      if DistinctValues(buckets) {
        OneItemPerBucket(tagFilter, buckets);
      }
    }
    WithOptionsData(attr, mapped)
  }

  /** The merge neither adds nor removes items; without a manual sort their order, labels and counts
      stay those of the mapped buckets, and with it the result is a permutation sorted by position. */
  lemma OptionsDataShape(attr: Attribute, items: seq<Entry<ItemData>>)
    ensures |WithOptionsData(attr, items)| == |items|
    ensures attr.facetSortOrder != Manual ==>
              && WithOptionsData(attr, items) == Values(MergeOptions(items, attr.options))
              && forall j :: 0 <= j < |items| ==>
                   WithOptionsData(attr, items)[j].labelText == items[j].val.labelText
                   && WithOptionsData(attr, items)[j].count == items[j].val.count
    ensures attr.facetSortOrder == Manual ==>
              && SortedByRank(WithOptionsData(attr, items))
              && multiset(WithOptionsData(attr, items)) == multiset(Values(MergeOptions(items, attr.options)))
  {
    var merged := Values(MergeOptions(items, attr.options));
  }

  /** End to end, for distinct terms and any order but manual: entry j of the item data comes from
      bucket j, with the tag-stripped term as label and the bucket's count; the last admin option
      labelled with the raw term, if any, gives its value and its position, and otherwise the
      value is the raw term and there is no position. */
  lemma {:induction false} ItemsDataAt(attr: Attribute, tagFilter: string -> string, buckets: seq<Bucket>, j: nat)
    requires DistinctValues(buckets) && attr.facetSortOrder != Manual && j < |buckets|
    ensures var d := ItemsData(attr, tagFilter, buckets)[j];
            && d.labelText == tagFilter(buckets[j].value)
            && d.count == buckets[j].count
            && match LastMatch(attr.options, buckets[j].value)
                 case None => d.value == buckets[j].value && d.adminSortIndex == None
                 case Some(p) => d.value == attr.options[p - 1].value && d.adminSortIndex == Some(p)
  {
    var mapped := ItemsFromBuckets(tagFilter, buckets);
    OneItemPerBucket(tagFilter, buckets);
    MergeOptionsAt(mapped, attr.options, j);
  }
}

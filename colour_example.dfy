/** The manual-sort example of the attribute filter: a colour attribute whose admin options are
    Red, Blue and Green (positions 1, 2 and 3), for which the engine returns Red (10 products) and
    Green (5 products). */
module ColourExample {
  import opened PhpArrays
  import opened FacetData
  import opened BucketItems
  import opened ToggleValues

  /** Sorted manually, the item data is Red then Green, with the options' values and positions. */
  lemma ManualSortExampleData(tagFilter: string -> string)
    requires tagFilter("Red") == "Red" && tagFilter("Green") == "Green"
    ensures ItemsData(Attribute("color", true, 10, Manual, ColourOptions()), tagFilter, [Bucket("Red", 10), Bucket("Green", 5)])
            == [ItemData("Red", "r1", 10, Some(1)), ItemData("Green", "r3", 5, Some(3))]
  {
    ColourBuckets(tagFilter);
    ColourMerge();
    ColourSort();
  }

  lemma ColourBuckets(tagFilter: string -> string)
    requires tagFilter("Red") == "Red" && tagFilter("Green") == "Green"
    ensures ItemsFromBuckets(tagFilter, [Bucket("Red", 10), Bucket("Green", 5)]) == ColourItems()
  {
    var buckets := [Bucket("Red", 10), Bucket("Green", 5)];
    assert DistinctValues(buckets);
    OneItemPerBucket(tagFilter, buckets);
  }

  lemma ColourSort()
    ensures var merged := [ItemData("Red", "r1", 10, Some(1)), ItemData("Green", "r3", 5, Some(3))];
            SortByAdminIndex(merged) == merged
  {
    var merged := [ItemData("Red", "r1", 10, Some(1)), ItemData("Green", "r3", 5, Some(3))];
    assert SortByAdminIndex(merged[1..]) == merged[1..];
  }

  function ColourOptions(): seq<AdminOption> {
    [AdminOption("Red", "r1"), AdminOption("Blue", "r2"), AdminOption("Green", "r3")]
  }

  function ColourItems(): seq<Entry<ItemData>> {
    [Entry("Red", ItemData("Red", "Red", 10, None)), Entry("Green", ItemData("Green", "Green", 5, None))]
  }

  lemma ColourMerge()
    ensures Values(MergeOptions(ColourItems(), ColourOptions()))
            == [ItemData("Red", "r1", 10, Some(1)), ItemData("Green", "r3", 5, Some(3))]
  {
    var items, options := ColourItems(), ColourOptions();
    assert UniqueKeys(items);
    assert DistinctLabels(options);
    OptionPositionWins(items, options, 0, 0);
    OptionPositionWins(items, options, 2, 1);
  }

  /** The same example with Red selected: Red is selected and a click on it clears the selection;
      a click on Green submits Red and Green. */
  lemma ManualSortExampleItems()
    ensures FacetItems([ItemData("Red", "r1", 10, Some(1)), ItemData("Green", "r3", 5, Some(3))], ["Red"])
            == [FacetItem("Red", "r1", 10, true, Some([])), FacetItem("Green", "r3", 5, false, Some(["Red", "Green"]))]
  {
    assert Toggle(["Red"], "Red") == ToggleResult(true, []);
    assert Toggle(["Red"], "Green") == ToggleResult(false, ["Red", "Green"]);
  }
}

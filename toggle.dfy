/** `_initItems`: every facet item learns whether it is selected and which selection a click on
    it submits next (the current selection without it, or with it appended). */
module ToggleValues {
  import opened PhpArrays
  import opened FacetData

  /** A layered-navigation filter item as `parent::_initItems()` creates it and `_initItems` completes it. */
  datatype FacetItem = FacetItem(
    labelText: string,
    value: string,
    count: int,
    isSelected: bool,
    applyFilterValue: Option<seq<string>>)

  /** The item created from one entry of the item data: it carries the entry's label, value and
      count, is not selected and has no apply value yet. */
  function CreateItem(d: ItemData): (item: FacetItem)
    ensures item.labelText == d.labelText && item.value == d.value && item.count == d.count
    ensures !item.isSelected && item.applyFilterValue.None?
  {
    FacetItem(d.labelText, d.value, d.count, false, None)
  }

  datatype ToggleResult = ToggleResult(selected: bool, applyValue: seq<string>)

  /** The loop body of `_initItems` for an item labelled labelText under the current selection. */
  function Toggle(selection: seq<string>, labelText: string): (r: ToggleResult)
    ensures r.selected <==> labelText in selection
    ensures r.selected ==>
              exists p :: 0 <= p < |selection| && selection[p] == labelText && labelText !in selection[..p]
                          && r.applyValue == RemoveAt(selection, p)
    ensures r.selected ==>
              |r.applyValue| == |selection| - 1
              && multiset(r.applyValue) == multiset(selection) - multiset{labelText}
    ensures !r.selected ==> r.applyValue == selection + [labelText]
  {
    match IndexOf(selection, labelText)
      case Some(p) => ToggleResult(true, RemoveAt(selection, p))
      case None => ToggleResult(false, selection + [labelText])
  }

  /** Clicking an unselected item and then clicking it again gives back the original selection. */
  lemma ToggleOnThenOff(selection: seq<string>, labelText: string)
    requires labelText !in selection
    ensures Toggle(selection, labelText) == ToggleResult(false, selection + [labelText])
    ensures Toggle(selection + [labelText], labelText) == ToggleResult(true, selection)
  {
    var on := selection + [labelText];
    assert on[..|selection|] == selection;
    assert IndexOf(on, labelText) == Some(|selection|);
  }

  /** Clicking a selected item that occurs once and then clicking it again gives the same values,
      the item now last. */
  lemma ToggleOffThenOn(selection: seq<string>, labelText: string)
    requires multiset(selection)[labelText] == 1
    ensures Toggle(selection, labelText).selected
    ensures var off := Toggle(selection, labelText).applyValue;
            && labelText !in off
            && Toggle(off, labelText) == ToggleResult(false, off + [labelText])
            && multiset(off + [labelText]) == multiset(selection)
  {
    var off := Toggle(selection, labelText).applyValue;
    assert multiset(off)[labelText] == 0;
  }

  /** Of an item, `_initItems` changes only the selected flag, which it sets exactly when the label
      is in the selection, and the apply value, which it sets to the toggle target. */
  function WithToggle(item: FacetItem, selection: seq<string>): (r: FacetItem)
    ensures r.labelText == item.labelText && r.value == item.value && r.count == item.count
    ensures r.isSelected <==> item.isSelected || item.labelText in selection
    ensures r.applyFilterValue == Some(Toggle(selection, item.labelText).applyValue)
    ensures item.labelText in selection ==>
              exists p :: 0 <= p < |selection| && selection[p] == item.labelText && item.labelText !in selection[..p]
                          && r.applyFilterValue.value == RemoveAt(selection, p)
    ensures item.labelText !in selection ==> r.applyFilterValue.value == selection + [item.labelText]
  {
    var t := Toggle(selection, item.labelText);
    item.(isSelected := t.selected || item.isSelected, applyFilterValue := Some(t.applyValue))
  }

  /** The facet items of the filter: one created and completed item per entry of the item data,
      in the same order. */
  function FacetItems(data: seq<ItemData>, selection: seq<string>): (items: seq<FacetItem>)
    ensures |items| == |data|
    ensures forall i :: 0 <= i < |data| ==>
              && items[i].labelText == data[i].labelText
              && items[i].value == data[i].value
              && items[i].count == data[i].count
              && (items[i].isSelected <==> data[i].labelText in selection)
              && items[i].applyFilterValue == Some(Toggle(selection, data[i].labelText).applyValue)
  {
    seq(|data|, i requires 0 <= i < |data| => WithToggle(CreateItem(data[i]), selection))
  }

  /** Clicking an unselected item submits its apply value; if the engine returns the same item data
      for that selection, the item then shows as selected and clicking it again submits the
      original selection. */
  lemma ClickTwiceRestoresSelection(data: seq<ItemData>, selection: seq<string>, i: nat)
    requires i < |data| && data[i].labelText !in selection
    ensures FacetItems(data, selection)[i].applyFilterValue == Some(selection + [data[i].labelText])
    ensures var next := selection + [data[i].labelText];
            && FacetItems(data, next)[i].isSelected
            && FacetItems(data, next)[i].applyFilterValue == Some(selection)
  {
    ToggleOnThenOff(selection, data[i].labelText);
  }

  /** A selected item submits the selection without the first occurrence of its label, the other
      values keeping their order. */
  lemma SelectedItemSubmitsRest(data: seq<ItemData>, selection: seq<string>, i: nat, p: nat)
    requires i < |data| && p < |selection|
    requires selection[p] == data[i].labelText && data[i].labelText !in selection[..p]
    ensures FacetItems(data, selection)[i].isSelected
    ensures FacetItems(data, selection)[i].applyFilterValue == Some(RemoveAt(selection, p))
  {
  }
}

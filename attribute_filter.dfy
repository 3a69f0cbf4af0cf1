/** The attribute filter object and the framework objects it updates: the product collection
    (which gathers query constraints and facet requests) and the layer state (which lists the
    applied filters). The collaborators only record the calls made on them. */
module LayerFilter {
  import opened PhpArrays
  import opened FacetData
  import opened BucketItems
  import opened ToggleValues

  /** A constraint "field value is one of values" added to the product collection. */
  datatype FieldFilter = FieldFilter(field: string, values: seq<string>)

  /** A facet (aggregation) request added to the product collection. */
  datatype FacetRequest = FacetRequest(field: string, bucketType: BucketType, config: FacetConfig)

  /** An applied-filter entry of the layer state: which filter, its label and its value. */
  datatype AppliedFilter = AppliedFilter(attributeCode: string, labelText: string, value: seq<string>)

  /** The product search collection, reduced to the calls the filter makes on it. */
  class ProductCollection {
    var fieldFilters: seq<FieldFilter>
    var facets: seq<FacetRequest>

    constructor ()
      ensures fieldFilters == [] && facets == []
    {
      fieldFilters := [];
      facets := [];
    }

    method AddFieldToFilter(field: string, values: seq<string>)
      modifies this
      ensures fieldFilters == old(fieldFilters) + [FieldFilter(field, values)]
      ensures facets == old(facets)
    {
      fieldFilters := fieldFilters + [FieldFilter(field, values)];
    }

    method AddFacet(field: string, bucketType: BucketType, config: FacetConfig)
      modifies this
      ensures facets == old(facets) + [FacetRequest(field, bucketType, config)]
      ensures fieldFilters == old(fieldFilters)
    {
      facets := facets + [FacetRequest(field, bucketType, config)];
    }
  }

  /** The layer state, reduced to its list of applied filters. */
  class LayerState {
    var filters: seq<AppliedFilter>

    constructor ()
      ensures filters == []
    {
      filters := [];
    }

    method AddFilter(filter: AppliedFilter)
      modifies this
      ensures filters == old(filters) + [filter]
    {
      filters := filters + [filter];
    }
  }

  class AttributeFilter {
    const attribute: Attribute
    /** The injected HTML tag stripper. */
    const tagFilter: string -> string
    const collection: ProductCollection
    const layerState: LayerState

    /** The values selected for this attribute in the current request. */
    var currentFilterValue: seq<string>
    /** The facet items, once `InitItems` has run. */
    var items: seq<FacetItem>

    constructor (attribute: Attribute, tagFilter: string -> string, collection: ProductCollection, layerState: LayerState)
      ensures this.attribute == attribute && this.tagFilter == tagFilter
      ensures this.collection == collection && this.layerState == layerState
      ensures currentFilterValue == [] && items == []
    {
      this.attribute := attribute;
      this.tagFilter := tagFilter;
      this.collection := collection;
      this.layerState := layerState;
      currentFilterValue := [];
      items := [];
    }

    /** `apply`: an empty parameter changes nothing; otherwise the selection becomes the parameter's
        values, the collection is constrained on the filter field to those values, and the layer
        state gets one applied filter labelled with the values joined by ", ". */
    method Apply(param: RequestParam)
      modifies this, collection, layerState
      ensures IsEmptyParam(param) ==>
                && currentFilterValue == old(currentFilterValue)
                && collection.fieldFilters == old(collection.fieldFilters)
                && layerState.filters == old(layerState.filters)
      ensures !IsEmptyParam(param) ==>
                && currentFilterValue == ParamValues(param)
                && collection.fieldFilters == old(collection.fieldFilters) + [FieldFilter(FilterField(attribute), ParamValues(param))]
                && layerState.filters
                   == old(layerState.filters) + [AppliedFilter(attribute.code, Implode(", ", ParamValues(param)), ParamValues(param))]
      ensures collection.facets == old(collection.facets) && items == old(items)
    {
      if !IsEmptyParam(param) {
        var attributeValue := ParamValues(param);
        currentFilterValue := attributeValue;
        collection.AddFieldToFilter(FilterField(attribute), attributeValue);
        var filterLabel := Implode(", ", currentFilterValue);
        layerState.AddFilter(AppliedFilter(attribute.code, filterLabel, currentFilterValue));
      }
    }

    /** `addFacetToCollection`: exactly one terms facet on the filter field, configured for the
        current selection. */
    method AddFacetToCollection()
      modifies collection
      ensures collection.facets
              == old(collection.facets) + [FacetRequest(FilterField(attribute), TypeTerm, GetFacetConfig(attribute, currentFilterValue))]
      ensures collection.fieldFilters == old(collection.fieldFilters)
    {
      var facetField := FilterField(attribute);
      var facetConfig := GetFacetConfig(attribute, currentFilterValue);
      collection.AddFacet(facetField, TypeTerm, facetConfig);
    }

    /** The `foreach` of `_getItemsData` over the faceted data of the filter field. */
    method MapBuckets(facetedData: seq<Bucket>) returns (mapped: seq<Entry<ItemData>>)
      ensures mapped == ItemsFromBuckets(tagFilter, facetedData)
    {
      mapped := [];
      for i := 0 to |facetedData|
        invariant mapped == ItemsFromBuckets(tagFilter, facetedData[..i])
      {
        var bucket := facetedData[i];
        assert facetedData[..i + 1][..i] == facetedData[..i] && facetedData[..i + 1][i] == bucket;
        mapped := Put(mapped, bucket.value, ItemData(tagFilter(bucket.value), bucket.value, bucket.count, None));
      }
      assert facetedData[..|facetedData|] == facetedData;
    }

    /** `addOptionsData`: the loop over the admin options with its position counter, then `usort`
        by admin position when the facet sort order is manual. */
    method AddOptionsData(mapped: seq<Entry<ItemData>>) returns (data: seq<ItemData>)
      ensures data == WithOptionsData(attribute, mapped)
    {
      var options := attribute.options;
      var merged := mapped;
      var optionPosition := 0;
      for k := 0 to |options|
        invariant optionPosition == k
        invariant merged == MergeOptions(mapped, options[..k])
      {
        var option := options[k];
        optionPosition := optionPosition + 1;
        if !IsFalsyString(option.labelText) {
          match KeyIndex(merged, option.labelText) {
            case Some(i) =>
              merged := merged[i := Annotated(merged[i], optionPosition, option.value)];
            case None =>
          }
        }
        assert options[..k + 1][..k] == options[..k];
      }
      assert options[..|options|] == options;
      data := Values(merged);
      if attribute.facetSortOrder == Manual {
        data := SortByAdminIndex(data);
      }
    }

    /** `_getItemsData` for the faceted data the engine returned for the filter field. */
    method GetItemsData(facetedData: seq<Bucket>) returns (data: seq<ItemData>)
      ensures data == ItemsData(attribute, tagFilter, facetedData)
    {
      var mapped := MapBuckets(facetedData);
      data := AddOptionsData(mapped);
    }

    /** `_initItems`: one item per entry of the item data (as `parent::_initItems()` creates them),
        then each item is marked selected when its label is in the selection and given its toggle
        target as apply value. */
    method InitItems(facetedData: seq<Bucket>)
      modifies this
      ensures currentFilterValue == old(currentFilterValue)
      ensures items == FacetItems(ItemsData(attribute, tagFilter, facetedData), currentFilterValue)
    {
      var data := GetItemsData(facetedData);
      items := seq(|data|, j requires 0 <= j < |data| => CreateItem(data[j]));
      for i := 0 to |data|
        invariant currentFilterValue == old(currentFilterValue)
        invariant |items| == |data|
        invariant forall j :: 0 <= j < i ==> items[j] == WithToggle(CreateItem(data[j]), currentFilterValue)
        invariant forall j :: i <= j < |data| ==> items[j] == CreateItem(data[j])
      {
        var item := items[i];
        var applyValue := item.labelText;
        match IndexOf(currentFilterValue, applyValue) {
          case Some(valuePos) =>
            item := item.(isSelected := true, applyFilterValue := Some(RemoveAt(currentFilterValue, valuePos)));
          case None =>
            item := item.(applyFilterValue := Some(currentFilterValue + [applyValue]));
        }
        items := items[i := item];
      }
    }
  }
}

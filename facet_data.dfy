/** The records the attribute filter reads and produces, and the two pure computations
    derived from attribute metadata: the search field name and the facet configuration. */
module FacetData {
  import opened PhpArrays

  /** Facet sort orders an attribute may be configured with; only Manual changes the filter's behaviour. */
  datatype SortOrder = Count | Alpha | Manual

  /** The only aggregation type this filter requests (a terms aggregation). */
  datatype BucketType = TypeTerm

  /** One admin-defined option of the attribute, in admin order. */
  datatype AdminOption = AdminOption(labelText: string, value: string)

  /** The attribute model: its code, whether it is option-backed, its facet settings and its options. */
  datatype Attribute = Attribute(
    code: string,
    usesSource: bool,
    facetMaxSize: int,
    facetSortOrder: SortOrder,
    options: seq<AdminOption>)

  /** The value the request holds for the filter's request variable. */
  datatype RequestParam = Absent | Scalar(v: string) | List(vs: seq<string>)

  /** One term bucket of the engine's faceted data: the raw term and its document count. */
  datatype Bucket = Bucket(value: string, count: int)

  /** A 1-based position in the admin option list. */
  type Position = p: int | 1 <= p witness 1

  /** The item data `_getItemsData` produces for one bucket. */
  datatype ItemData = ItemData(labelText: string, value: string, count: int, adminSortIndex: Option<Position>)

  /** The facet configuration handed to the collection with the facet. */
  datatype FacetConfig = FacetConfig(size: int, sortOrder: SortOrder)

  const OptionTextPrefix: string := "option_text_"

  /** The search field the filter constrains and aggregates on. */
  function FilterField(attr: Attribute): (field: string)
    ensures !attr.usesSource ==> field == attr.code
    ensures attr.usesSource ==>
              && |field| == |OptionTextPrefix| + |attr.code|
              && field[..|OptionTextPrefix|] == OptionTextPrefix
              && field[|OptionTextPrefix|..] == attr.code
  {
    if attr.usesSource then OptionTextPrefix + attr.code else attr.code
  }

  /** Two attributes with the same source flag share a filter field exactly when they share a code. */
  lemma FilterFieldInjective(a: Attribute, b: Attribute)
    requires a.usesSource == b.usesSource
    ensures FilterField(a) == FilterField(b) <==> a.code == b.code
  {
    if FilterField(a) == FilterField(b) && a.usesSource {
      assert a.code == FilterField(a)[|OptionTextPrefix|..];
    }
  }

  /** The facet configuration: the attribute's sort order, and its maximum size unless a selection
      is active, in which case every bucket is requested (size 0) so that a selected value outside
      the top buckets can still be shown and unselected. */
  function GetFacetConfig(attr: Attribute, currentFilterValue: seq<string>): (config: FacetConfig)
    ensures config.sortOrder == attr.facetSortOrder
    ensures |currentFilterValue| > 0 ==> config.size == 0
    ensures |currentFilterValue| == 0 ==> config.size == attr.facetMaxSize
  {
    var config := FacetConfig(attr.facetMaxSize, attr.facetSortOrder);
    if |currentFilterValue| > 0 then config.(size := 0) else config
  }

  /** PHP's `empty()` on the request parameter: true for no parameter, "", "0" and an empty array. */
  predicate IsEmptyParam(p: RequestParam): (empty: bool)
    ensures empty <==> p == Absent || p == Scalar("") || p == Scalar("0") || p == List([])
  {
    match p
      case Absent => true
      case Scalar(v) => IsFalsyString(v)
      case List(vs) => vs == []
  }

  /** The selection a non-empty parameter stands for: a scalar becomes a one-element list,
      a list is kept verbatim. */
  function ParamValues(p: RequestParam): (values: seq<string>)
    requires !IsEmptyParam(p)
    ensures |values| > 0
    ensures p.Scalar? ==> values == [p.v]
    ensures p.List? ==> values == p.vs
  {
    match p
      case Scalar(v) => [v]
      case List(vs) => vs
  }
}

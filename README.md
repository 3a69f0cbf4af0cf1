# Layered-navigation attribute filter — a Dafny model

This project models the ElasticSuite catalog attribute filter
(`Smile\ElasticsuiteCatalog\Model\Layer\Filter\Attribute`). The filter does four things:

- It reads the values a shopper selected for one product attribute from the request.
- It constrains the product search collection to those values and records an applied-filter
  entry whose label is the values joined with `", "`.
- It asks the collection for a terms facet on the attribute's search field. The facet is
  unbounded while a selection is active.
- It turns the engine's term buckets into facet items. Each item gets a count, the admin option's
  value and position, a selected flag and the selection that a click on it submits next.

Modules, one per concern of the class:

- `PhpArrays` (`php_arrays.dfy`): the PHP builtins the filter relies on, over Dafny sequences.
  These are `array_search`, `unset` plus `array_values`, `implode`, `isset` and `$m[$k] = $v`.
  A string-keyed PHP array is an ordered map: a sequence of entries with distinct keys.
- `FacetData` (`facet_data.dfy`): the attribute, request parameter, bucket and item records. It
  also holds `getFilterField` and `getFacetConfig` as pure functions.
- `BucketItems` (`bucket_items.dfy`): `_getItemsData` and `addOptionsData`, as specification
  functions with lemmas. This covers bucket mapping, the merge with admin options and the
  manual-order `usort`.
- `ToggleValues` (`toggle.dfy`): the loop body of `_initItems`, which computes the selected flag
  and the toggle target, and its round-trip lemmas.
- `ColourExample` (`colour_example.dfy`): a worked example: a manually sorted colour attribute
  carried through bucket mapping, the option merge, the sort and the toggle.
- `LayerFilter` (`attribute_filter.dfy`): the filter as a class. It has the `currentFilterValue`
  and `items` fields, and the product collection and layer state are classes that record the
  calls made on them. The imperative methods (`Apply`, `AddFacetToCollection`, the loops of
  `_getItemsData`, `addOptionsData` and `_initItems`) are proved against the functions above.

The model follows the code in these places:

- PHP's `empty()` and string truthiness treat `"0"` like `""`. So a request parameter `"0"` counts
  as no selection (line 75), and an admin option labelled `"0"` is never merged (line 220). The
  model keeps both (`IsFalsyString`).
- `$items[$value] = ...` overwrites an existing key where it stands (`PhpArrays.Put`). Faceted
  data is a PHP array keyed by term, so its terms are distinct and `OneItemPerBucket` gives one
  item per bucket. Were a term repeated, the last bucket's data would sit at the first one's place.
- The merge matches option labels against the raw bucket term, which is the item's key. It does
  not match against the tag-stripped label.
- When several options share a label, the last one wins, because later iterations overwrite.
  `MergeOptionsAt` states this through `LastMatch`.
- `getFacetConfig` passes the configured sort order through unchanged, MANUAL included. The
  manual order is applied afterwards, by `usort` in `addOptionsData`.
- The `usort` comparator compares `adminSortIndex` values that may be `null`. PHP compares `null`
  with an integer through booleans, and positions start at 1. So an item without a position
  sorts before every item with one. The model uses an insertion sort on the rank (0 for no
  position). It claims only that the result is a permutation sorted by rank: unpositioned items
  first, then positioned items in ascending position.

## Model

| member | source | states |
|---|---|---|
| `PhpArrays.IndexOf` | src/module-elasticsuite-catalog/Model/Layer/Filter/Attribute.php:153 | `array_search` finds nothing exactly when the value is absent; otherwise it returns the first index holding the value |
| `PhpArrays.RemoveAt` | src/module-elasticsuite-catalog/Model/Layer/Filter/Attribute.php:155-156 | `unset` then `array_values` drops one position and keeps the other entries in order, renumbered; the multiset loses exactly that entry |
| `PhpArrays.Implode` | src/module-elasticsuite-catalog/Model/Layer/Filter/Attribute.php:88 | `implode` of no values is `""`, and a non-empty join starts with the first value |
| `PhpArrays.ImplodeLength` | src/module-elasticsuite-catalog/Model/Layer/Filter/Attribute.php:88 | the joined label is the values' total length plus one separator between each neighbouring pair |
| `PhpArrays.ImplodeConcat` | src/module-elasticsuite-catalog/Model/Layer/Filter/Attribute.php:88 | joining two non-empty lists equals joining each and gluing them with one separator |
| `PhpArrays.ImplodeTwoColours` | src/module-elasticsuite-catalog/Model/Layer/Filter/Attribute.php:88-89 | the selection `["Red","Blue"]` gives the label `"Red, Blue"` |
| `PhpArrays.KeyIndex` | src/module-elasticsuite-catalog/Model/Layer/Filter/Attribute.php:220 | `isset($items[$label])`: found exactly when some entry has that key, and then at the only such entry |
| `PhpArrays.Put` | src/module-elasticsuite-catalog/Model/Layer/Filter/Attribute.php:129-133 | assigning a key keeps keys unique, stores the value under the key, appends a new key at the end or keeps the key order, and leaves other entries alone |
| `PhpArrays.PutNewKey` | src/module-elasticsuite-catalog/Model/Layer/Filter/Attribute.php:129-133 | assigning a key the array does not hold appends exactly one entry at the end |
| `FacetData.FilterField` | src/module-elasticsuite-catalog/Model/Layer/Filter/Attribute.php:172-181 | the field is the attribute code, or `option_text_` followed by the code for an option-backed attribute |
| `FacetData.FilterFieldInjective` | src/module-elasticsuite-catalog/Model/Layer/Filter/Attribute.php:172-181 | with the same source flag, two attributes share a field exactly when they share a code |
| `FacetData.GetFacetConfig` | src/module-elasticsuite-catalog/Model/Layer/Filter/Attribute.php:188-202 | size is 0 (all buckets) whenever a selection is active and the configured maximum otherwise; the sort order is always the configured one |
| `FacetData.IsEmptyParam` | src/module-elasticsuite-catalog/Model/Layer/Filter/Attribute.php:75 | `empty()` holds exactly for a missing parameter, `""`, `"0"` and the empty array |
| `FacetData.ParamValues` | src/module-elasticsuite-catalog/Model/Layer/Filter/Attribute.php:75-80 | a non-empty parameter gives a non-empty selection: a scalar becomes `[v]` and a list is kept verbatim |
| `BucketItems.ItemsFromBuckets` | src/module-elasticsuite-catalog/Model/Layer/Filter/Attribute.php:126-134 | the mapped items are keyed by distinct raw terms, at most one per bucket |
| `BucketItems.OneItemPerBucket` | src/module-elasticsuite-catalog/Model/Layer/Filter/Attribute.php:126-134 | for faceted data with distinct terms: exactly one item per bucket, in bucket order, keyed by the raw term, with label = stripped term, value = raw term, count copied and no admin position |
| `BucketItems.MergeOption` | src/module-elasticsuite-catalog/Model/Layer/Filter/Attribute.php:217-223 | one option step adds and removes no item, keeps every key, label and count |
| `BucketItems.MergeOptions` | src/module-elasticsuite-catalog/Model/Layer/Filter/Attribute.php:214-224 | the whole option loop adds and removes no item and keeps every key, label and count in place |
| `BucketItems.LastMatch` | src/module-elasticsuite-catalog/Model/Layer/Filter/Attribute.php:216-223 | the position found holds an option with that truthy label and no later option has it; when none is found, no option matches |
| `BucketItems.MergeOptionAt` | src/module-elasticsuite-catalog/Model/Layer/Filter/Attribute.php:217-223 | one option step annotates an item exactly when the item's raw key equals the option's truthy label |
| `BucketItems.MergeOptionsAt` | src/module-elasticsuite-catalog/Model/Layer/Filter/Attribute.php:214-224 | each item whose key some truthy option label equals takes the last such option's 1-based position and value; every other item is unchanged |
| `BucketItems.OptionPositionWins` | src/module-elasticsuite-catalog/Model/Layer/Filter/Attribute.php:214-224 | with distinct option labels, the item keyed by the i-th option's label gets `adminSortIndex = i + 1` (counting every option) and that option's value |
| `BucketItems.UnmatchedItemUntouched` | src/module-elasticsuite-catalog/Model/Layer/Filter/Attribute.php:220-223 | an item that no option matches leaves the merge exactly as it entered |
| `BucketItems.Rank` | src/module-elasticsuite-catalog/Model/Layer/Filter/Attribute.php:227-229 | the comparator's key: 0 exactly for an item without admin position, otherwise the position itself (at least 1), so `null` ranks below every position |
| `BucketItems.Insert` | src/module-elasticsuite-catalog/Model/Layer/Filter/Attribute.php:227-229 | inserting into a rank-sorted list keeps it sorted and adds exactly that item |
| `BucketItems.SortByAdminIndex` | src/module-elasticsuite-catalog/Model/Layer/Filter/Attribute.php:226-229 | the manual sort returns a permutation of the items, sorted by admin position (no position ranking lowest) |
| `BucketItems.ManualSortOrder` | src/module-elasticsuite-catalog/Model/Layer/Filter/Attribute.php:226-229 | after the manual sort, items without a position precede all others, and positioned items appear in ascending position |
| `BucketItems.WithOptionsData` | src/module-elasticsuite-catalog/Model/Layer/Filter/Attribute.php:211-233 | `addOptionsData` keeps the item count; under MANUAL it returns the merged items permuted and sorted by admin position; under any other order it returns exactly the merged items in engine order |
| `BucketItems.ItemsData` | src/module-elasticsuite-catalog/Model/Layer/Filter/Attribute.php:119-139 | `_getItemsData` yields at most one entry per bucket and exactly one for distinct terms; it is a permutation of the option-merged mapped buckets, sorted by admin position under MANUAL and exactly those merged items in engine order otherwise; for distinct terms without MANUAL entry j has the stripped term of bucket j as label and its count |
| `BucketItems.OptionsDataShape` | src/module-elasticsuite-catalog/Model/Layer/Filter/Attribute.php:211-233 | `addOptionsData` keeps the item count; without MANUAL it returns the merged items unchanged in engine order, each keeping its label and count; with MANUAL it yields a sorted permutation of the merged items |
| `BucketItems.ItemsDataAt` | src/module-elasticsuite-catalog/Model/Layer/Filter/Attribute.php:119-139 | for distinct terms and a non-MANUAL order, entry j comes from bucket j: stripped term as label, its count, and the value and 1-based position of the last admin option labelled with the raw term, or the raw term and no position when no option matches |
| `ToggleValues.CreateItem` | src/module-elasticsuite-catalog/Model/Layer/Filter/Attribute.php:149 | the item `parent::_initItems()` creates from an item-data entry carries its label, value and count, is unselected and has no apply value |
| `ToggleValues.Toggle` | src/module-elasticsuite-catalog/Model/Layer/Filter/Attribute.php:151-161 | selected exactly when the label is in the selection; then the apply value is the selection minus its first occurrence, order kept, one shorter; otherwise the selection with the label appended |
| `ToggleValues.ToggleOnThenOff` | src/module-elasticsuite-catalog/Model/Layer/Filter/Attribute.php:152-161 | toggling an absent label on and then off returns the original selection |
| `ToggleValues.ToggleOffThenOn` | src/module-elasticsuite-catalog/Model/Layer/Filter/Attribute.php:152-161 | toggling a label that occurs once off and then on gives the same multiset of values, with the label last |
| `ToggleValues.WithToggle` | src/module-elasticsuite-catalog/Model/Layer/Filter/Attribute.php:151-162 | an item keeps label, value and count; it becomes selected exactly when its label is in the selection, and otherwise keeps its flag; its apply value is the toggle target: the selection without the first occurrence of the label when it is selected, else the selection with the label appended |
| `ToggleValues.FacetItems` | src/module-elasticsuite-catalog/Model/Layer/Filter/Attribute.php:147-162 | one facet item per entry of the item data, in order: item i has entry i's label, value and count, is selected exactly when its label is in the selection, and carries the toggle target of its label as apply value |
| `ToggleValues.ClickTwiceRestoresSelection` | src/module-elasticsuite-catalog/Model/Layer/Filter/Attribute.php:151-161 | an unselected item submits the selection plus its label; under that selection it shows selected and submits the original selection |
| `ToggleValues.SelectedItemSubmitsRest` | src/module-elasticsuite-catalog/Model/Layer/Filter/Attribute.php:152-161 | an item whose label first occurs at position p of the selection is selected and submits the selection with position p removed, the rest in order |
| `ColourExample.ManualSortExampleData` | src/module-elasticsuite-catalog/Model/Layer/Filter/Attribute.php:119-139 | options Red, Blue, Green with buckets Red 10 and Green 5 under MANUAL give Red (r1, 10, position 1) then Green (r3, 5, position 3) |
| `ColourExample.ColourBuckets` | src/module-elasticsuite-catalog/Model/Layer/Filter/Attribute.php:126-134 | the two buckets of the example map to two items keyed Red and Green |
| `ColourExample.ColourMerge` | src/module-elasticsuite-catalog/Model/Layer/Filter/Attribute.php:214-224 | the example's merge gives Red position 1 and value r1, and Green position 3 and value r3 |
| `ColourExample.ColourSort` | src/module-elasticsuite-catalog/Model/Layer/Filter/Attribute.php:226-229 | the example's items are already in position order, so the manual sort keeps them |
| `ColourExample.ManualSortExampleItems` | src/module-elasticsuite-catalog/Model/Layer/Filter/Attribute.php:147-162 | with Red selected, Red is selected with apply value `[]` and Green is unselected with apply value `["Red","Green"]` |
| `LayerFilter.ProductCollection.AddFieldToFilter` | src/module-elasticsuite-catalog/Model/Layer/Filter/Attribute.php:85 | the collection records one more field constraint and no facet |
| `LayerFilter.ProductCollection.AddFacet` | src/module-elasticsuite-catalog/Model/Layer/Filter/Attribute.php:109 | the collection records one more facet request and no field constraint |
| `LayerFilter.LayerState.AddFilter` | src/module-elasticsuite-catalog/Model/Layer/Filter/Attribute.php:91 | the layer state records one more applied filter |
| `LayerFilter.AttributeFilter.constructor` | src/module-elasticsuite-catalog/Model/Layer/Filter/Attribute.php:28-66 | a new filter starts with an empty selection and no items |
| `LayerFilter.AttributeFilter.Apply` | src/module-elasticsuite-catalog/Model/Layer/Filter/Attribute.php:71-95 | an empty parameter changes nothing; otherwise the selection becomes the parameter's values, and one constraint on the filter field plus one applied filter labelled with the values joined by `", "` are added |
| `LayerFilter.AttributeFilter.AddFacetToCollection` | src/module-elasticsuite-catalog/Model/Layer/Filter/Attribute.php:102-112 | exactly one terms facet on the filter field, with the configuration for the current selection, is added |
| `LayerFilter.AttributeFilter.MapBuckets` | src/module-elasticsuite-catalog/Model/Layer/Filter/Attribute.php:126-134 | the `foreach` over the faceted data builds the mapped items of `ItemsFromBuckets` |
| `LayerFilter.AttributeFilter.AddOptionsData` | src/module-elasticsuite-catalog/Model/Layer/Filter/Attribute.php:211-233 | the option loop with its position counter, followed by the MANUAL sort, yields the merged and ordered item data |
| `LayerFilter.AttributeFilter.GetItemsData` | src/module-elasticsuite-catalog/Model/Layer/Filter/Attribute.php:119-139 | `_getItemsData` yields the item data of the faceted data: mapping followed by `addOptionsData` |
| `LayerFilter.AttributeFilter.InitItems` | src/module-elasticsuite-catalog/Model/Layer/Filter/Attribute.php:147-165 | the items become one created item per entry of the item data, each with its selected flag and toggle target; the selection is unchanged |

## Left out

- The Magento framework objects are modelled only as records of the calls the filter makes on
  them: the request object, the layer, the product collection, the layer state and the item
  factory. Their behaviour is framework code that is not part of this model.
- `parent::_initItems()` is modelled as creating one unselected item per item-data entry, with
  label, value and count. It is framework code that is not part of this model.
- The parent constructor and the store manager are left out.
- `StripTags::filter` is the injected function `tagFilter`. Its implementation is an external
  library, so the model only promises `label == tagFilter(raw term)`.
- The search-engine execution that produces the faceted data is I/O. The buckets are a parameter
  of `MapBuckets`, `GetItemsData` and `InitItems`.
- PHP's loose comparison in `array_search` is left out: labels and selected values are compared
  as strings (numeric-string equality such as `"1" == "01"` is not modelled).
- Integer-like PHP array keys are left out. PHP turns a numeric term into an integer key, both on
  assignment and on lookup, so matching behaves the same; the model keeps all keys as strings.
- The request parameter is absent, a string or a list of strings. Other PHP values and the keys
  of an associative parameter array are left out; the keys are dropped by `array_values` anyway.
- BucketItems.SortByAdminIndex: the comparator never returns 0; it answers -1 for equal ranks
  whichever item comes first. So the relative order of items with equal rank (in practice, the
  unpositioned ones) is left to `usort`'s algorithm and is not determined by the source.
  The comparator also reads `adminSortIndex` of items that have none; PHP reports an
  undefined-index notice (an undefined-array-key warning in PHP 8) before yielding `null`.
  That diagnostic is not modelled; only the `null` value is. The model fixes one order and promises only sortedness and
  permutation.
- Facet items are values in a sequence field, not shared objects. The setters that `_initItems`
  calls on item objects become field updates of those values, and item aliasing is not modelled.

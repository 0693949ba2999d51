# Dynamic min/max fields for a product add-on plugin

This project models a small WooCommerce add-on. The add-on lets the option
chosen in a colour selector field fix the allowed range of a dependent width
field and a dependent height field. It has four parts:

- **Configuration table.** An ordered table of field sets: colour field 727
  governs width field 818 and height field 821, and colour field 755 governs
  756 and 757. The colour-field ids are projected from this table.
- **Admin editor.** For every option row of a colour field, the add-on adds
  four number inputs: minimum width, maximum width, minimum height and
  maximum height. Their names nest under the host plugin's posted field path,
  so the host's generic save routine stores them. The option table also gets
  four matching column headers.
- **Front-end attribute filter.** Every option element of a colour field has
  its attribute string extended with `data-min-width`, `data-max-width`,
  `data-min-height` and `data-max-height`, in that order. Each holds the
  stored value, trimmed and escaped. A value PHP considers empty (unset, `''`
  or `'0'`) becomes `''`. Every other field's string passes through unchanged.
- **Client change handler** (`reset_minmax`). It reads the colour field's id
  from the `pewc-field-<digits>` class of the changed selector's container
  and looks up that field's set. It then copies the selected option's width
  attributes, and after them its height attributes, onto the dependent fields.

Files:

- `FieldConfig.dfy`: the table, `find`, and the id projection.
- `OptionExtras.dfy`: the four extras and their spellings, and the stored
  option data.
- `AdminColumns.dfy`: the admin inputs and headers, as data.
- `AttributeFilter.dfy`: the filter, and a reader of the attribute syntax
  that stands for the browser.
- `MinMaxScript.dfy`: the handler. It is the `Page` class, whose field map
  the handler updates in place, plus the specification functions of that
  update.
- `Text.dfy`: PHP `trim`, decimal digits, and splitting a string.
- `Wrappers.dfy`: `Option`.

`esc_attr` and `__` are function parameters and stay uninterpreted. Where
they matter, `esc_attr` is only assumed to leave no single quote in its
output (`EscapesQuotes`).

Choosing an option that lacks min/max attributes does not clear the
dependent field's bounds: jQuery's `.attr(name, undefined)` does nothing, so
the bounds stay as they were (`SetAttr`, `SelectWithoutWidthAttributes`).
The filter always writes all four attributes, so an option of a colour field
with no stored values carries empty attributes, and those do set the bounds
to the empty string (`SelectionScenario`).

## Model

| member | source | states |
|---|---|---|
| FieldConfig.ColorFields | dynamic-fields-addon.php:36-38 | The projection has one entry per row, and entry i is row i's colour field (`array_column`). |
| FieldConfig.ColorFieldIds | dynamic-fields-addon.php:17-38 | The colour-field ids of the configured table are exactly [727, 755], in order. |
| FieldConfig.ConfigWellFormed | dynamic-fields-addon.php:17-31 | `Config`, the table of `minmax_get_field_config`, has unique colour fields, and no field depends on two sets. |
| FieldConfig.Find | dynamic-fields-addon.php:142 | There is no result iff no row has the id. Otherwise the result is the first row whose colour field is the id. |
| FieldConfig.FindIffMember | dynamic-fields-addon.php:142-143 | The script finds a row for an id exactly when the server-side `in_array` test on the projected ids accepts that id. |
| FieldConfig.FindOwnRow | dynamic-fields-addon.php:142 | With unique colour fields, looking up a row's own colour field returns that row. |
| OptionExtras.ColorFieldGate | dynamic-fields-addon.php:45 | `IsColorField`, the `isset` and `in_array` gate repeated at lines 73 and 100, holds iff `field_id` is set and equals 727 or 755. |
| OptionExtras.SlotsDistinct | dynamic-fields-addon.php:52-61 | Every extra occurs in the slot order. The four sub-keys, attribute names and labels are pairwise different. |
| OptionExtras.Spellings | dynamic-fields-addon.php:107-110 | The sub-keys are `min_width` … `max_height`, and the attribute names are `data-min-width` … `data-max-height`. |
| AdminColumns.ExtraParams | dynamic-fields-addon.php:43-65 | A non-colour field gets no inputs. A colour field gets four, in slot order. Input i is named prefix + `[sub-key]` under `_product_extra_groups_<group>_<item>[field_options][<count>]`, and valued with the escaped stored value of option `esc(key)`, or escaped `''` when that value is unset. |
| AdminColumns.RowNamesDistinct | dynamic-fields-addon.php:46 | Two option rows whose escaped option counts differ (and hold no `]`) never post under the same input name, whatever their sub-keys: `RowPrefix` keeps the rows apart. |
| AdminColumns.InputNameInjective | dynamic-fields-addon.php:52-61 | Under one prefix, different sub-keys give different input names. |
| AdminColumns.ExtraParamsNamesDistinct | dynamic-fields-addon.php:46-61 | The four posted names of a row are pairwise different, so each extra is saved separately. |
| AdminColumns.ValuesIgnoreOptionCount | dynamic-fields-addon.php:46-50 | The values depend only on the option key. The option count that names the inputs does not change them. |
| AdminColumns.ExtraParamsTitles | dynamic-fields-addon.php:71-92 | A non-colour field gets no headers. A colour field gets four: the translated "Min Width", "Max Width", "Min Height", "Max Height", in that order. |
| AdminColumns.ColumnsAligned | dynamic-fields-addon.php:51-89 | For every field there are as many headers as inputs. The i-th header labels the extra whose sub-key ends the i-th input name. |
| AdminColumns.AdminShowsStored | dynamic-fields-addon.php:47-50 | A set extra (`Stored`, PHP `isset` over two array levels) is shown exactly as stored, untrimmed, only escaped (`AdminValue`). |
| AdminColumns.AdminKeepsZero | dynamic-fields-addon.php:47-50 | A stored `'0'` is shown as `'0'` in the admin, because the admin side uses `isset`. |
| AdminColumns.AdminUnsetIsEmpty | dynamic-fields-addon.php:47-50 | An unset extra is shown as the escaped empty string. |
| Text.Trim | dynamic-fields-addon.php:107-110 | The result is the input with a run of trim characters removed from each end. It neither starts nor ends with a trim character. |
| Text.TrimFixedPoint | dynamic-fields-addon.php:107-110 | A string that does not start or end with a trim character is left unchanged by trimming. |
| Text.TrimIdempotent | dynamic-fields-addon.php:107-110 | Trimming twice is the same as trimming once. |
| Text.ToDecimal | dynamic-fields-addon.php:133 | The decimal spelling of an id is a non-empty string of digits. |
| Text.ParseToDecimal | dynamic-fields-addon.php:133-139 | Reading back the digits written into `pewc-field-<id>` gives the id. |
| Text.ParseDigitsLeadingZero | dynamic-fields-addon.php:139 | `ParseDigits`, standing for `parseInt` on the captured digits, ignores leading zeros. |
| Text.TakeDigits | dynamic-fields-addon.php:139 | The greedy `\d+` takes the longest leading run of digits. |
| Text.TakeDigitsOfDigits | dynamic-fields-addon.php:139 | The greedy `\d+` stops exactly at the first non-digit. |
| AttributeFilter.OptionAttributeString | dynamic-fields-addon.php:98-115 | A non-colour field's string comes back unchanged. A colour field's string comes back with the four data attributes appended, in slot order. |
| AttributeFilter.DataAttributes | dynamic-fields-addon.php:102-110 | There are four attributes, in slot order, and attribute i is named after extra i. It holds `esc('')` when the stored value is unset, `''` or `'0'`. Otherwise it holds `esc(trim(v))` of the stored value v. |
| AttributeFilter.FrontValue | dynamic-fields-addon.php:102-105 | The value taken for an extra is `''` iff PHP's `empty` holds for the stored value (`IsEmpty`). Otherwise it is the stored value, which is then not `'0'`. |
| AttributeFilter.ZeroShownButNotWritten | dynamic-fields-addon.php:102-105 | A stored `'0'` is shown as `'0'` in the admin row (`isset`) but written as the empty string on the option (`empty`). |
| AttributeFilter.AppendExtraReadsBack | dynamic-fields-addon.php:107-110 | One `.=` step (`AppendExtra`) keeps the string so far as a prefix. What it appends reads back as exactly that extra's attribute, with nothing after it. |
| AttributeFilter.EmptyExtraWritesEmpty | dynamic-fields-addon.php:102-105 | An unset, `''` or `'0'` extra is written as the escaped empty string. |
| AttributeFilter.PresentExtraWritesTrimmed | dynamic-fields-addon.php:107-110 | Any other stored value is written trimmed, then escaped. |
| AttributeFilter.CleanExtrasWritten | dynamic-fields-addon.php:102-110 | Stored values that are not empty and have no surrounding white space are appended verbatim (escaped), in the order width min, width max, height min, height max. |
| AttributeFilter.SerializedExample | dynamic-fields-addon.php:107-110 | With an escaping that leaves these digits unchanged, values 10, 50, 5 and 40 at option 2 of field 727 append ` data-min-width='10' data-max-width='50' data-min-height='5' data-max-height='40'`. |
| AttributeFilter.ParseOneText | dynamic-fields-addon.php:107 | One written ` name='value'` attribute reads back as that name and value, and reading stops right after it. |
| AttributeFilter.ParseOneInverse | dynamic-fields-addon.php:107 | Whatever reads as one attribute is that attribute's written text followed by the rest. |
| AttributeFilter.ParseRender | dynamic-fields-addon.php:107-110 | Writing attributes and reading them back gives the same attributes. |
| AttributeFilter.ParseAppend | dynamic-fields-addon.php:107-110 | Appending one readable attribute string to another reads back as the two attribute lists, one after the other. |
| AttributeFilter.AttributeValue | dynamic-fields-addon.php:147-148 | Reading an attribute gives nothing iff no attribute has that name. Otherwise it gives the value of the first attribute with that name. |
| AttributeFilter.AttributeValueOfDistinct | dynamic-fields-addon.php:147-148 | Among distinctly named attributes, each value is found under its own name. |
| AttributeFilter.AttributeValueAppend | dynamic-fields-addon.php:147-148 | Attributes earlier in the element shadow later ones with the same name. |
| AttributeFilter.FilterReadsBack | dynamic-fields-addon.php:98-115 | For a colour field, the incoming string is a prefix of the result. The appended part reads back as exactly the four data attributes, each found under its name. |
| AttributeFilter.FilterWholeElement | dynamic-fields-addon.php:98-115 | Suppose the incoming attributes read back and carry none of the four names. Then the whole filtered string reads back, and each extra is found in it. |
| MinMaxScript.ExtractFieldId | dynamic-fields-addon.php:139 | There is no id iff no position matches `pewc-field-\d`. Otherwise the id is the number captured at the leftmost match. |
| MinMaxScript.NoMatchInLeadingClasses | dynamic-fields-addon.php:139 | Leading space-terminated classes with no match of their own hide no match. |
| MinMaxScript.ExtractFieldIdOfClass | dynamic-fields-addon.php:133-139 | The class `pewc-field-<n>` gives back n. This holds after any classes that do not match, and before any classes that do not start with a digit. |
| MinMaxScript.CapturedAtPrefix | dynamic-fields-addon.php:139 | At a `pewc-field-` followed by digits and then a non-digit, the pattern matches, and `CapturedId` is the value of exactly those digits. |
| MinMaxScript.ExtractColorClass | dynamic-fields-addon.php:139 | The class `pewc-field-727` yields 727. |
| MinMaxScript.SetAttr | dynamic-fields-addon.php:151-154 | `.attr(name, v)` stores a defined v. It never removes an attribute, and any change it makes is to the given value, so `undefined` changes nothing. |
| MinMaxScript.SetAttrRepeat | dynamic-fields-addon.php:151-154 | Repeating a write, or a pair of writes in the same order, changes nothing more. |
| MinMaxScript.ScriptAttribute | dynamic-fields-addon.php:147-148 | The names the script builds (`'data-min-' + type`, `'data-max-' + type`) are exactly the names the filter writes. |
| MinMaxScript.DependentFieldsDistinct | dynamic-fields-addon.php:149 | In the configured table, `config[type + '_field']` (`DependentField`) names a different field for every set and dimension, and never a colour field. |
| MinMaxScript.ApplyDimension | dynamic-fields-addon.php:146-155 | One pass gives the dependent field of one dimension the option's min/max for that dimension, and leaves every other field unchanged. |
| MinMaxScript.ApplyDimensions | dynamic-fields-addon.php:146 | The passes never add or remove a field. |
| MinMaxScript.BothDimensions | dynamic-fields-addon.php:146 | The handler runs the width pass, then the height pass. |
| MinMaxScript.HandleId | dynamic-fields-addon.php:142-155 | The handler for an id never adds or removes a field. |
| MinMaxScript.ResetEffect | dynamic-fields-addon.php:137-156 | One run of the handler never adds or removes a field. |
| MinMaxScript.PassesIdempotent | dynamic-fields-addon.php:146-155 | Running the width and height passes twice with the same option leaves the page as running them once does. This holds even if both dimensions name the same field. |
| MinMaxScript.ResetIdempotent | dynamic-fields-addon.php:134-156 | Running the handler again on the same selection changes nothing. This covers the initial `change` trigger followed by a change to the same option. |
| MinMaxScript.ResetOfId | dynamic-fields-addon.php:139-142 | A class that yields an id does what the lookup by that id does. |
| MinMaxScript.ResetUnmatched | dynamic-fields-addon.php:142-143 | A class with no id, or an id that is in no field set, leaves the page unchanged. |
| MinMaxScript.HandleIdFrame | dynamic-fields-addon.php:146-155 | A field that is not a dependent of the matched set keeps its bounds. |
| MinMaxScript.HandleIdMatched | dynamic-fields-addon.php:146-155 | A set's colour id sets the width field from the option's width attributes and the height field from its height attributes. |
| MinMaxScript.FieldSetsIndependent | dynamic-fields-addon.php:146-155 | Running the handler for one set leaves the dependents of every other set unchanged. |
| MinMaxScript.ConfiguredSetsIndependent | dynamic-fields-addon.php:17-31 | A change on 755 never touches 818 or 821. A change on 727 never touches 756 or 757. |
| MinMaxScript.BoundsFromSelected | dynamic-fields-addon.php:146-155 | An option carrying all four attributes gives the width field exactly its width bounds and the height field exactly its height bounds. |
| MinMaxScript.StoredExtrasReachDependents | dynamic-fields-addon.php:98-155 | End to end: the extras the filter writes onto an option become the dependent fields' bounds when that option is selected. |
| MinMaxScript.SelectOnColorField727 | dynamic-fields-addon.php:137-155 | Selecting, on 727, an option with width attributes `minW` and `maxW` gives field 818 exactly those bounds. |
| MinMaxScript.SelectWithoutWidthAttributes | dynamic-fields-addon.php:147-154 | Selecting, on 727, an option without width attributes leaves field 818 unchanged. |
| MinMaxScript.SelectionScenario | dynamic-fields-addon.php:137-155 | An option with widths 20/80 gives 818 the bounds 20/80. A later option with empty widths sets both to `''`. |
| MinMaxScript.Page.constructor | dynamic-fields-addon.php:127 | The page starts with the configured table and the given field bounds. |
| MinMaxScript.Page.ResetMinMax | dynamic-fields-addon.php:137-156 | The new page state is `ResetEffect` of the old state, the class and the selected option. |
| MinMaxScript.Page.UpdateFieldSet | dynamic-fields-addon.php:146-155 | The loop over `['width', 'height']` leaves the page as the width pass followed by the height pass would. |
| MinMaxScript.Page.UpdateDimension | dynamic-fields-addon.php:147-154 | The body for one dimension leaves the page as `ApplyDimension` would. |

## Left out

- Hook registration (`add_action`, `add_filter`) is left out. The model calls each operation directly.
- The HTML markup around the admin inputs and headers (`td`/`th` elements and their classes) is not modelled. A row is its input names and values, and a header is its label text.
- `minmax_js` is left out: the `is_product()` gate, the emission of the script, and the `json_encode` of the table. The script's table is the configured one (`Page.constructor`).
- `init` is left out: binding the change listener per colour field, and the initial `trigger('change')`. Each handler run, including the initial one, is one `ResetMinMax` call.
- `.closest('[class*="pewc-field-"]')` is left out. The handler is given the class string of the container that was found. When no container is found, or the class has no match, the script throws before writing anything. Both cases are modelled as "no change".
- The container's `data-field-minval`/`data-field-maxval` and the input's `min`/`max` are always written together with the same values, so they are modelled as one pair of bounds per field.
- `esc_attr` and `__` stay uninterpreted. The browser's decoding of character references is not modelled, so values read back are the escaped text.
- The reader of option attributes understands only the ` name='value'` form the filter writes. Host attributes in other syntaxes are not covered by `FilterWholeElement`.
- `field_id` is an integer. PHP's loose `in_array` comparison would also accept a numeric string such as `'727'`.
- PHP array keys are strings, so PHP's folding of numeric-string keys into integers is not modelled.
- Ids are unbounded integers. `parseInt`'s loss of precision above 2^53 is not modelled.
- `minmax_option_attribute_string`'s unused `$option_value` parameter and `minmax_add_extra_params_titles`'s unused `$group_id` and `$item_key` parameters are not modelled.

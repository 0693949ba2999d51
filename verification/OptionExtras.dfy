/**
 * The per-option extras: four stored values (minimum and maximum width,
 * minimum and maximum height) kept inside a field's `field_options` record,
 * and the names under which each of them appears in the admin form, in the
 * front-end attributes and in the admin column headers.
 */
module OptionExtras {
  import opened Wrappers
  import FieldConfig

  datatype Bound = Min | Max
  datatype Dimension = Width | Height

  /** One of the four extras. */
  datatype Slot = Slot(bound: Bound, dim: Dimension)

  /** The four extras in the order every part of the add-on uses. */
  const Slots: seq<Slot> := [Slot(Min, Width), Slot(Max, Width), Slot(Min, Height), Slot(Max, Height)]

  function BoundWord(b: Bound): string
  {
    match b
    case Min => "min"
    case Max => "max"
  }

  function DimensionWord(d: Dimension): string
  {
    match d
    case Width => "width"
    case Height => "height"
  }

  /** The key under which the extra is stored and posted (`min_width`, ...). */
  function SubKey(s: Slot): string
  {
    match s
    case Slot(Min, Width) => "min_width"
    case Slot(Max, Width) => "max_width"
    case Slot(Min, Height) => "min_height"
    case Slot(Max, Height) => "max_height"
  }

  /** The attribute that carries the extra on a front-end option element. */
  function DataAttribute(s: Slot): string
  {
    match s
    case Slot(Min, Width) => "data-min-width"
    case Slot(Max, Width) => "data-max-width"
    case Slot(Min, Height) => "data-min-height"
    case Slot(Max, Height) => "data-max-height"
  }

  /** The untranslated admin column header of the extra. */
  function Label(s: Slot): string
  {
    match s
    case Slot(Min, Width) => "Min Width"
    case Slot(Max, Width) => "Max Width"
    case Slot(Min, Height) => "Min Height"
    case Slot(Max, Height) => "Max Height"
  }

  /** The spelled-out keys and attribute names. */
  lemma Spellings()
    ensures SubKey(Slot(Min, Width)) == "min_width" && SubKey(Slot(Max, Width)) == "max_width"
    ensures SubKey(Slot(Min, Height)) == "min_height" && SubKey(Slot(Max, Height)) == "max_height"
    ensures DataAttribute(Slot(Min, Width)) == "data-min-width" && DataAttribute(Slot(Max, Width)) == "data-max-width"
    ensures DataAttribute(Slot(Min, Height)) == "data-min-height" && DataAttribute(Slot(Max, Height)) == "data-max-height"
  {
  }

  /** Every slot occurs once in `Slots`, and the three spellings of the four
      slots are pairwise different. */
  lemma SlotsDistinct()
    ensures forall s: Slot :: s in Slots
    ensures forall i, j :: 0 <= i < j < |Slots| ==>
      SubKey(Slots[i]) != SubKey(Slots[j]) && DataAttribute(Slots[i]) != DataAttribute(Slots[j])
      && Label(Slots[i]) != Label(Slots[j])
  {
    forall s: Slot ensures s in Slots {
      match s
      case Slot(Min, Width) => assert s == Slots[0];
      case Slot(Max, Width) => assert s == Slots[1];
      case Slot(Min, Height) => assert s == Slots[2];
      case Slot(Max, Height) => assert s == Slots[3];
    }
  }

  /** The part of a host field definition (`$item`) the add-on reads: its
      `field_id` (unset when `None`) and its `field_options` record, keyed by
      option key, each entry a record of stored sub-values. */
  datatype FieldItem = FieldItem(fieldId: Option<int>, fieldOptions: map<string, map<string, string>>)

  /** The stored sub-value `field_options[optionKey][subKey]`, or `None` when
      any level of it is unset. */
  function Stored(item: FieldItem, optionKey: string, subKey: string): Option<string>
  {
    if optionKey in item.fieldOptions && subKey in item.fieldOptions[optionKey]
    then Some(item.fieldOptions[optionKey][subKey])
    else None
  }

  /** PHP's `empty` on a stored string value: unset, `''` or `'0'`. */
  predicate IsEmpty(v: Option<string>)
  {
    v.None? || v.value == "" || v.value == "0"
  }

  /** The gate shared by the admin columns and the attribute filter:
      `field_id` is set and is one of the configured colour-field ids. */
  predicate IsColorField(item: FieldItem)
  {
    item.fieldId.Some? && item.fieldId.value in FieldConfig.ColorFieldIds()
  }

  /** The gate holds exactly for the two configured colour fields. */
  lemma ColorFieldGate(item: FieldItem)
    ensures IsColorField(item) <==> item.fieldId == Some(727) || item.fieldId == Some(755)
  {
  }
}

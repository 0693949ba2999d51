/**
 * Admin editor augmentation: for an option row of a colour field, four extra
 * number inputs (their posted names and their initial values), and for the
 * field's option table, four extra column headers. The HTML around them is
 * not modelled; a row or a header is the sequence of data it renders.
 *
 * `esc` stands for WordPress's `esc_attr` and `translate` for `__` with the
 * plugin's text domain; both are left uninterpreted.
 */
module AdminColumns {
  import opened Wrappers
  import opened OptionExtras
  import Text

  /** One rendered number input: its `name` and its `value` attribute. */
  datatype Input = Input(name: string, value: string)

  /** The common start of the four input names:
      `_product_extra_groups_<group>_<item key>[field_options][<option count>]`. */
  function RowPrefix(optionCount: string, groupId: string, itemKey: string, esc: string -> string): string
  {
    OptionsPath(groupId, itemKey, esc) + esc(optionCount) + "]"
  }

  /** The posted path of the field's option table, up to the open bracket of
      the option count: `_product_extra_groups_<group>_<item key>[field_options][`. */
  function OptionsPath(groupId: string, itemKey: string, esc: string -> string): string
  {
    "_product_extra_groups_" + esc(groupId) + "_" + esc(itemKey) + "[field_options]["
  }

  /** The name of the input for one extra: the prefix and `[<sub key>]`. */
  function InputName(prefix: string, s: Slot): string
  {
    prefix + "[" + SubKey(s) + "]"
  }

  /** The value shown for one extra: the stored value under `esc(key)` when it
      is set (PHP `isset`), otherwise the empty string; escaped for output. */
  function AdminValue(item: FieldItem, key: string, s: Slot, esc: string -> string): string
  {
    esc(Stored(item, esc(key), SubKey(s)).GetOr(""))
  }

  /** The inputs added to one admin option row (`minmax_add_extra_params`):
      none unless the field is a colour field, otherwise one input per extra,
      in slot order, named under the row prefix built from the option count
      and valued from the stored extras of option `key`. */
  function ExtraParams(optionCount: string, groupId: string, itemKey: string, item: FieldItem,
                       key: string, esc: string -> string): (r: seq<Input>)
    ensures !IsColorField(item) ==> r == []
    ensures IsColorField(item) ==> |r| == |Slots|
    ensures IsColorField(item) ==> forall i :: 0 <= i < |Slots| ==>
      r[i] == Input(InputName(RowPrefix(optionCount, groupId, itemKey, esc), Slots[i]), AdminValue(item, key, Slots[i], esc))
  {
    if IsColorField(item) then
      var name := RowPrefix(optionCount, groupId, itemKey, esc);
      [ Input(InputName(name, Slot(Min, Width)), AdminValue(item, key, Slot(Min, Width), esc)),
        Input(InputName(name, Slot(Max, Width)), AdminValue(item, key, Slot(Max, Width), esc)),
        Input(InputName(name, Slot(Min, Height)), AdminValue(item, key, Slot(Min, Height), esc)),
        Input(InputName(name, Slot(Max, Height)), AdminValue(item, key, Slot(Max, Height), esc)) ]
    else
      []
  }

  /** Under one prefix, different sub keys give different input names. */
  lemma InputNameInjective(prefix: string, s: Slot, t: Slot)
    requires SubKey(s) != SubKey(t)
    ensures InputName(prefix, s) != InputName(prefix, t)
  {
    var a, b := SubKey(s), SubKey(t);
    var n, m := InputName(prefix, s), InputName(prefix, t);
    if |a| == |b| {
      var k :| 0 <= k < |a| && a[k] != b[k];
      assert n[|prefix| + 1 + k] == a[k] && m[|prefix| + 1 + k] == b[k];
    } else {
      assert |n| != |m|;
    }
  }

  /** The four input names of a row are pairwise different, so the host's
      generic save path stores four separate values. */
  lemma {:induction false} ExtraParamsNamesDistinct(optionCount: string, groupId: string, itemKey: string,
                                                   item: FieldItem, key: string, esc: string -> string)
    requires IsColorField(item)
    ensures forall i, j :: 0 <= i < j < |ExtraParams(optionCount, groupId, itemKey, item, key, esc)| ==>
      ExtraParams(optionCount, groupId, itemKey, item, key, esc)[i].name
        != ExtraParams(optionCount, groupId, itemKey, item, key, esc)[j].name
  {
    var r := ExtraParams(optionCount, groupId, itemKey, item, key, esc);
    var prefix := RowPrefix(optionCount, groupId, itemKey, esc);
    SlotsDistinct();
    forall i, j | 0 <= i < j < |r| ensures r[i].name != r[j].name {
      InputNameInjective(prefix, Slots[i], Slots[j]);
    }
  }

  /** The values come from the stored extras of option `key` only: the option
      count that names the inputs has no influence on them. */
  lemma ValuesIgnoreOptionCount(count1: string, count2: string, groupId: string, itemKey: string,
                                item: FieldItem, key: string, esc: string -> string)
    ensures |ExtraParams(count1, groupId, itemKey, item, key, esc)| == |ExtraParams(count2, groupId, itemKey, item, key, esc)|
    ensures forall i :: 0 <= i < |ExtraParams(count1, groupId, itemKey, item, key, esc)| ==>
      ExtraParams(count1, groupId, itemKey, item, key, esc)[i].value == ExtraParams(count2, groupId, itemKey, item, key, esc)[i].value
  {
  }

  /** The headers added to the option table of a field
      (`minmax_add_extra_params_titles`): none unless the field is a colour
      field, otherwise the translated label of each extra, in slot order. */
  function ExtraParamsTitles(item: FieldItem, translate: string -> string): (r: seq<string>)
    ensures !IsColorField(item) ==> r == []
    ensures IsColorField(item) ==> |r| == |Slots| && forall i :: 0 <= i < |Slots| ==> r[i] == translate(Label(Slots[i]))
  {
    if IsColorField(item) then
      [translate("Min Width"), translate("Max Width"), translate("Min Height"), translate("Max Height")]
    else
      []
  }

  /** Header and row cells line up: for every field there are as many headers
      as inputs in each option row, and the i-th header labels the extra whose
      sub key ends the i-th input's name. */
  lemma ColumnsAligned(optionCount: string, groupId: string, itemKey: string, item: FieldItem,
                       key: string, esc: string -> string, translate: string -> string)
    ensures |ExtraParamsTitles(item, translate)| == |ExtraParams(optionCount, groupId, itemKey, item, key, esc)|
    ensures forall i :: 0 <= i < |ExtraParamsTitles(item, translate)| ==>
      exists s: Slot :: (ExtraParamsTitles(item, translate)[i] == translate(Label(s))
        && ExtraParams(optionCount, groupId, itemKey, item, key, esc)[i].name
           == InputName(RowPrefix(optionCount, groupId, itemKey, esc), s))
  {
    var titles := ExtraParamsTitles(item, translate);
    var inputs := ExtraParams(optionCount, groupId, itemKey, item, key, esc);
    forall i | 0 <= i < |titles|
      ensures exists s: Slot :: (titles[i] == translate(Label(s))
        && inputs[i].name == InputName(RowPrefix(optionCount, groupId, itemKey, esc), s))
    {
      var s := Slots[i];
      assert titles[i] == translate(Label(s));
      assert inputs[i].name == InputName(RowPrefix(optionCount, groupId, itemKey, esc), s);
    }
  }

  /** An input name split after the option table's path: the escaped option
      count, its closing bracket, and the bracketed sub key. */
  lemma NameParts(optionCount: string, groupId: string, itemKey: string, esc: string -> string, s: Slot)
    ensures InputName(RowPrefix(optionCount, groupId, itemKey, esc), s)
      == OptionsPath(groupId, itemKey, esc) + (esc(optionCount) + [']'] + ("[" + SubKey(s) + "]"))
  {
    var h, c, t := OptionsPath(groupId, itemKey, esc), esc(optionCount), "[" + SubKey(s) + "]";
    assert RowPrefix(optionCount, groupId, itemKey, esc) == h + c + [']'];
    assert InputName(RowPrefix(optionCount, groupId, itemKey, esc), s) == (h + c + [']']) + t;
  }

  /** Inputs of two option rows whose escaped option counts differ (and hold
      no `]`, as numbers do not) never share a name, so the rows' extras are
      posted separately. */
  lemma {:induction false} RowNamesDistinct(count1: string, count2: string, groupId: string, itemKey: string,
                                            esc: string -> string, s: Slot, t: Slot)
    requires esc(count1) != esc(count2) && ']' !in esc(count1) && ']' !in esc(count2)
    ensures InputName(RowPrefix(count1, groupId, itemKey, esc), s) != InputName(RowPrefix(count2, groupId, itemKey, esc), t)
  {
    var h := OptionsPath(groupId, itemKey, esc);
    var rest1 := esc(count1) + [']'] + ("[" + SubKey(s) + "]");
    var rest2 := esc(count2) + [']'] + ("[" + SubKey(t) + "]");
    NameParts(count1, groupId, itemKey, esc, s);
    NameParts(count2, groupId, itemKey, esc, t);
    if h + rest1 == h + rest2 {
      assert (h + rest1)[|h|..] == rest1;
      assert (h + rest2)[|h|..] == rest2;
      Text.SplitAtFirst(esc(count1), ']', "[" + SubKey(s) + "]");
      Text.SplitAtFirst(esc(count2), ']', "[" + SubKey(t) + "]");
      assert false;
    }
  }

  /** The admin row shows a set extra exactly as stored, untrimmed: only
      escaping is applied. */
  lemma AdminShowsStored(optionCount: string, groupId: string, itemKey: string, item: FieldItem,
                         key: string, esc: string -> string, i: int, v: string)
    requires IsColorField(item) && 0 <= i < |Slots|
    requires Stored(item, esc(key), SubKey(Slots[i])) == Some(v)
    ensures ExtraParams(optionCount, groupId, itemKey, item, key, esc)[i].value == esc(v)
  {
  }

  /** A stored `'0'` is shown as `'0'` in the admin row: the admin side only
      substitutes `''` for unset values. */
  lemma AdminKeepsZero(optionCount: string, groupId: string, itemKey: string, item: FieldItem,
                       key: string, esc: string -> string, i: int)
    requires IsColorField(item) && 0 <= i < |Slots|
    requires Stored(item, esc(key), SubKey(Slots[i])) == Some("0")
    ensures ExtraParams(optionCount, groupId, itemKey, item, key, esc)[i].value == esc("0")
  {
  }

  /** An extra never stored is shown as the escaped empty string, never as a
      missing value. */
  lemma AdminUnsetIsEmpty(optionCount: string, groupId: string, itemKey: string, item: FieldItem,
                          key: string, esc: string -> string, i: int)
    requires IsColorField(item) && 0 <= i < |Slots|
    requires Stored(item, esc(key), SubKey(Slots[i])).None?
    ensures ExtraParams(optionCount, groupId, itemKey, item, key, esc)[i].value == esc("")
  {
  }
}

/**
 * The client script's change handler (`reset_minmax`): when a colour
 * selector changes, find its field set and copy the selected option's
 * minimum and maximum width and height onto the dependent width and height
 * fields.
 *
 * The page is reduced to what the handler touches: for every field on the
 * page, the pair of bounds it carries (the `data-field-minval` /
 * `data-field-maxval` attributes of its container and the `min` / `max`
 * attributes of its input, which the handler always sets together). The
 * selected option is reduced to its attribute list.
 */
module MinMaxScript {
  import opened Wrappers
  import opened Text
  import opened FieldConfig
  import opened OptionExtras
  import opened AttributeFilter

  /** The class prefix that carries a field's id (`pewc-field-<digits>`). */
  const ClassPrefix: string := "pewc-field-"

  /** The pattern `pewc-field-(\d+)` matches the class string at position `i`. */
  predicate MatchesAt(cls: string, i: int)
  {
    0 <= i && i + |ClassPrefix| < |cls| && cls[i..i + |ClassPrefix|] == ClassPrefix
    && IsDigit(cls[i + |ClassPrefix|])
  }

  /** Position `i` is the leftmost match, the one a regular expression reports. */
  predicate FirstMatch(cls: string, i: int)
  {
    MatchesAt(cls, i) && forall j :: 0 <= j < i ==> !MatchesAt(cls, j)
  }

  /** Position `k` is the leftmost match at or after position `i`. */
  predicate FirstMatchFrom(cls: string, i: int, k: int)
  {
    i <= k && MatchesAt(cls, k) && forall j :: i <= j < k ==> !MatchesAt(cls, j)
  }

  /** The number the greedy `(\d+)` group captures at a match, read by `parseInt`. */
  function CapturedId(cls: string, i: int): (n: int)
    requires MatchesAt(cls, i)
    ensures n >= 0
  {
    ParseDigits(TakeDigits(cls[i + |ClassPrefix|..]))
  }

  /** The leftmost match at or after position `i`. */
  function ExtractFrom(cls: string, i: nat): (r: Option<int>)
    requires i <= |cls|
    ensures r.None? <==> forall j :: i <= j < |cls| ==> !MatchesAt(cls, j)
    ensures r.Some? ==> exists k :: FirstMatchFrom(cls, i, k) && r.value == CapturedId(cls, k)
    decreases |cls| - i
  {
    if i == |cls| then None
    else if MatchesAt(cls, i) then
      MatchHere(cls, i);
      Some(CapturedId(cls, i))
    else
      var r := ExtractFrom(cls, i + 1);
      NoMatchHere(cls, i, r);
      r
  }

  /** A match at `i` is the leftmost one from `i` on. */
  lemma MatchHere(cls: string, i: nat)
    requires i < |cls| && MatchesAt(cls, i)
    ensures exists k :: FirstMatchFrom(cls, i, k) && CapturedId(cls, i) == CapturedId(cls, k)
  {
    assert FirstMatchFrom(cls, i, i);
  }

  /** Without a match at `i`, the leftmost match from `i` on is the leftmost
      one from `i + 1` on. */
  lemma NoMatchHere(cls: string, i: nat, r: Option<int>)
    requires i < |cls| && !MatchesAt(cls, i)
    requires r.None? <==> forall j :: i + 1 <= j < |cls| ==> !MatchesAt(cls, j)
    requires r.Some? ==> exists k :: FirstMatchFrom(cls, i + 1, k) && r.value == CapturedId(cls, k)
    ensures r.None? <==> forall j :: i <= j < |cls| ==> !MatchesAt(cls, j)
    ensures r.Some? ==> exists k :: FirstMatchFrom(cls, i, k) && r.value == CapturedId(cls, k)
  {
    if r.Some? {
      var k :| FirstMatchFrom(cls, i + 1, k) && r.value == CapturedId(cls, k);
      assert FirstMatchFrom(cls, i, k);
    }
  }

  /** The field id read off the class attribute with
      `parseInt(cls.match(/pewc-field-(\d+)/)[1])`: the number after the
      leftmost `pewc-field-` that is followed by a digit, or `None` when there
      is no such place (the script then stops with an error before writing
      anything). */
  function ExtractFieldId(cls: string): (r: Option<int>)
    ensures r.None? <==> forall j :: 0 <= j < |cls| ==> !MatchesAt(cls, j)
    ensures r.Some? ==> exists k :: FirstMatch(cls, k) && r.value == CapturedId(cls, k)
  {
    var r := ExtractFrom(cls, 0);
    assert r.Some? ==> exists k :: FirstMatch(cls, k) && r.value == CapturedId(cls, k)
    by {
      if r.Some? {
        var k :| FirstMatchFrom(cls, 0, k) && r.value == CapturedId(cls, k);
        assert FirstMatch(cls, k);
      }
    }
    r
  }

  /** No match starts inside a leading run of classes that has no match of
      its own and ends in a space. */
  lemma NoMatchInLeadingClasses(pre: string, tail: string)
    requires forall j :: 0 <= j < |pre| ==> !MatchesAt(pre, j)
    requires pre != [] ==> pre[|pre| - 1] == ' '
    ensures forall j :: 0 <= j < |pre| ==> !MatchesAt(pre + tail, j)
  {
    var cls := pre + tail;
    var p := |pre|;
    forall j | 0 <= j < p ensures !MatchesAt(cls, j) {
      if j + |ClassPrefix| < |cls| {
        if j + |ClassPrefix| < p {
          assert !MatchesAt(pre, j);
          assert cls[j..j + |ClassPrefix|] == pre[j..j + |ClassPrefix|];
          assert cls[j + |ClassPrefix|] == pre[j + |ClassPrefix|];
        } else {
          assert cls[p - 1] == pre[p - 1] == ' ';
          assert cls[j..j + |ClassPrefix|][p - 1 - j] == ' ';
          assert ClassPrefix[p - 1 - j] != ' ';
          assert cls[j..j + |ClassPrefix|] != ClassPrefix;
        }
      }
    }
  }

  /** A class list whose field-id class is `pewc-field-<n>` (after other
      classes, none of which matches) yields `n` back, whatever classes
      follow it. */
  lemma {:induction false} ExtractFieldIdOfClass(pre: string, n: nat, rest: string)
    requires forall j :: 0 <= j < |pre| ==> !MatchesAt(pre, j)
    requires pre != [] ==> pre[|pre| - 1] == ' '
    requires rest != [] ==> !IsDigit(rest[0])
    ensures ExtractFieldId(pre + ClassPrefix + ToDecimal(n) + rest) == Some(n)
  {
    var d := ToDecimal(n);
    var tail := ClassPrefix + d + rest;
    var cls := pre + tail;
    assert cls == pre + ClassPrefix + d + rest;
    var p := |pre|;
    NoMatchInLeadingClasses(pre, tail);
    CapturedAtPrefix(pre, d, rest);
    ParseToDecimal(n);
    assert FirstMatch(cls, p);
    var r := ExtractFieldId(cls);
    var k :| FirstMatch(cls, k) && r.value == CapturedId(cls, k);
    if k != p {
      assert false;
    }
  }

  /** Right after the prefix, the group captures exactly the digits that
      stand there. */
  lemma CapturedAtPrefix(pre: string, d: string, rest: string)
    requires d != [] && AllDigits(d)
    requires rest != [] ==> !IsDigit(rest[0])
    ensures MatchesAt(pre + ClassPrefix + d + rest, |pre|)
    ensures CapturedId(pre + ClassPrefix + d + rest, |pre|) == ParseDigits(d)
  {
    var tail := ClassPrefix + d + rest;
    var cls := pre + tail;
    var p := |pre|;
    assert cls == pre + ClassPrefix + d + rest;
    assert cls[p..] == tail;
    assert tail[..|ClassPrefix|] == ClassPrefix;
    assert tail[|ClassPrefix|..] == d + rest;
    assert cls[p..p + |ClassPrefix|] == ClassPrefix;
    assert cls[p + |ClassPrefix|..] == d + rest;
    assert cls[p + |ClassPrefix|] == d[0];
    TakeDigitsOfDigits(d, rest);
  }

  /** The bounds a field carries on the page; `None` while never set. */
  datatype FieldBounds = FieldBounds(minVal: Option<string>, maxVal: Option<string>)

  /** jQuery's `.attr(name, value)`: with a value it sets the attribute; with
      `undefined` it does nothing. It never removes an attribute, and what it
      changes it changes to the given value. */
  function SetAttr(current: Option<string>, value: Option<string>): (r: Option<string>)
    ensures value.Some? ==> r == value
    ensures current.Some? ==> r.Some?
    ensures r != current ==> r == value
  {
    if value.Some? then value else current
  }

  /** Writing a value again changes nothing, and neither does writing two
      values again in the same order. */
  lemma SetAttrRepeat(current: Option<string>, a: Option<string>, b: Option<string>)
    ensures SetAttr(SetAttr(current, a), a) == SetAttr(current, a)
    ensures SetAttr(SetAttr(SetAttr(SetAttr(current, a), b), a), b) == SetAttr(SetAttr(current, a), b)
  {
  }

  /** The name the script reads, built as `'data-min-' + type` or
      `'data-max-' + type`: it is the very attribute the filter writes for
      that extra, so the passes below look up `DataAttribute`. */
  function ScriptAttribute(b: Bound, d: Dimension): (name: string)
    ensures name == DataAttribute(Slot(b, d))
  {
    ScriptAttributeSpelling(b, d);
    "data-" + BoundWord(b) + "-" + DimensionWord(d)
  }

  lemma ScriptAttributeSpelling(b: Bound, d: Dimension)
    ensures "data-" + BoundWord(b) + "-" + DimensionWord(d) == DataAttribute(Slot(b, d))
  {
    match (b, d) {
      case (Min, Width) => assert "data-" + "min" + "-" + "width" == "data-min-width";
      case (Max, Width) => assert "data-" + "max" + "-" + "width" == "data-max-width";
      case (Min, Height) => assert "data-" + "min" + "-" + "height" == "data-min-height";
      case (Max, Height) => assert "data-" + "max" + "-" + "height" == "data-max-height";
    }
  }

  /** `config[type + '_field']`: the dependent field for one dimension. */
  function DependentField(fs: FieldSet, d: Dimension): int
  {
    match d
    case Width => fs.widthField
    case Height => fs.heightField
  }

  /** In the configured table, every dependent field belongs to one set and
      one dimension only, and no dependent field is itself a colour field. */
  lemma DependentFieldsDistinct(k: int, d: Dimension, l: int, e: Dimension)
    requires 0 <= k < |Config()| && 0 <= l < |Config()|
    ensures (k, d) != (l, e) ==> DependentField(Config()[k], d) != DependentField(Config()[l], e)
    ensures DependentField(Config()[k], d) !in ColorFieldIds()
  {
  }

  /** One pass of the `forEach` body: the selected option's minimum and
      maximum for dimension `d` written onto the dependent field, if that
      field is on the page. */
  function ApplyDimension(fields: map<int, FieldBounds>, fs: FieldSet, selected: seq<Attribute>, d: Dimension)
    : (r: map<int, FieldBounds>)
    ensures r.Keys == fields.Keys
    ensures DependentField(fs, d) in fields ==>
      r[DependentField(fs, d)] == SelectedBounds(fields[DependentField(fs, d)], selected, d)
    ensures forall id :: id in fields && id != DependentField(fs, d) ==> r[id] == fields[id]
  {
    var minVal := AttributeValue(selected, DataAttribute(Slot(Min, d)));
    var maxVal := AttributeValue(selected, DataAttribute(Slot(Max, d)));
    var id := DependentField(fs, d);
    if id in fields then
      fields[id := FieldBounds(SetAttr(fields[id].minVal, minVal), SetAttr(fields[id].maxVal, maxVal))]
    else
      fields
  }

  /** The passes for `dims`, in order. */
  function ApplyDimensions(fields: map<int, FieldBounds>, fs: FieldSet, selected: seq<Attribute>, dims: seq<Dimension>)
    : (r: map<int, FieldBounds>)
    ensures r.Keys == fields.Keys
  {
    if dims == [] then fields
    else ApplyDimension(ApplyDimensions(fields, fs, selected, dims[..|dims| - 1]), fs, selected, dims[|dims| - 1])
  }

  /** The dimensions the handler walks through, in order. */
  const Dimensions: seq<Dimension> := [Width, Height]

  /** What the handler does once it has read colour-field id `id`: nothing
      unless a row has `id` as its colour field; otherwise the width pass and
      then the height pass of the first such row. */
  function HandleId(config: seq<FieldSet>, fields: map<int, FieldBounds>, id: int, selected: seq<Attribute>)
    : (r: map<int, FieldBounds>)
    ensures r.Keys == fields.Keys
  {
    match Find(config, id)
    case None => fields
    case Some(fs) => ApplyDimensions(fields, fs, selected, Dimensions)
  }

  /** What one run of the handler does to the page: nothing when the class
      yields no id, otherwise what `HandleId` does with that id. */
  function ResetEffect(config: seq<FieldSet>, fields: map<int, FieldBounds>, cls: string, selected: seq<Attribute>)
    : (r: map<int, FieldBounds>)
    ensures r.Keys == fields.Keys
  {
    match ExtractFieldId(cls)
    case None => fields
    case Some(id) => HandleId(config, fields, id, selected)
  }

  /** Running both passes twice with the same option is running them once,
      even when the width and the height field are the same field. */
  lemma {:induction false} PassesIdempotent(fields: map<int, FieldBounds>, fs: FieldSet, selected: seq<Attribute>)
    ensures ApplyDimensions(ApplyDimensions(fields, fs, selected, Dimensions), fs, selected, Dimensions)
      == ApplyDimensions(fields, fs, selected, Dimensions)
  {
    var once := ApplyDimensions(fields, fs, selected, Dimensions);
    var twice := ApplyDimensions(once, fs, selected, Dimensions);
    BothDimensions(fields, fs, selected);
    BothDimensions(once, fs, selected);
    var w1 := ApplyDimension(fields, fs, selected, Width);
    var w2 := ApplyDimension(once, fs, selected, Width);
    var minW := AttributeValue(selected, DataAttribute(Slot(Min, Width)));
    var maxW := AttributeValue(selected, DataAttribute(Slot(Max, Width)));
    var minH := AttributeValue(selected, DataAttribute(Slot(Min, Height)));
    var maxH := AttributeValue(selected, DataAttribute(Slot(Max, Height)));
    forall x | x in fields ensures twice[x] == once[x] {
      SetAttrRepeat(fields[x].minVal, minW, minH);
      SetAttrRepeat(fields[x].maxVal, maxW, maxH);
      SetAttrRepeat(fields[x].minVal, minW, minW);
      SetAttrRepeat(fields[x].maxVal, maxW, maxW);
      SetAttrRepeat(fields[x].minVal, minH, minH);
      SetAttrRepeat(fields[x].maxVal, maxH, maxH);
    }
    assert twice.Keys == once.Keys;
  }

  /** The handler is idempotent: running it again on the same selection, as
      the initial `change` trigger followed by a change to the same option
      does, leaves the page as one run left it. */
  lemma {:induction false} ResetIdempotent(config: seq<FieldSet>, fields: map<int, FieldBounds>, cls: string,
                                           selected: seq<Attribute>)
    ensures ResetEffect(config, ResetEffect(config, fields, cls, selected), cls, selected)
      == ResetEffect(config, fields, cls, selected)
  {
    match ExtractFieldId(cls)
    case None =>
    case Some(id) =>
      match Find(config, id)
      case None =>
      case Some(fs) => PassesIdempotent(fields, fs, selected);
  }

  /** A class that yields `id` does what `HandleId` does with it. */
  lemma ResetOfId(config: seq<FieldSet>, fields: map<int, FieldBounds>, cls: string, selected: seq<Attribute>, id: int)
    requires ExtractFieldId(cls) == Some(id)
    ensures ResetEffect(config, fields, cls, selected) == HandleId(config, fields, id, selected)
  {
  }

  /** The handler's two passes: width first, then height. */
  lemma BothDimensions(fields: map<int, FieldBounds>, fs: FieldSet, selected: seq<Attribute>)
    ensures ApplyDimensions(fields, fs, selected, Dimensions)
      == ApplyDimension(ApplyDimension(fields, fs, selected, Width), fs, selected, Height)
  {
    assert Dimensions[..|Dimensions| - 1] == [Width] && Dimensions[|Dimensions| - 1] == Height;
    assert [Width][..0] == [] && [Width][0] == Width;
    assert ApplyDimensions(fields, fs, selected, [Width]) == ApplyDimension(fields, fs, selected, Width);
  }

  /** The bounds a dependent field gets from the selected option: each of its
      minimum and maximum is replaced by the option's attribute when the
      option has it, and kept otherwise. */
  function SelectedBounds(current: FieldBounds, selected: seq<Attribute>, d: Dimension): FieldBounds
  {
    FieldBounds(SetAttr(current.minVal, AttributeValue(selected, DataAttribute(Slot(Min, d)))),
                SetAttr(current.maxVal, AttributeValue(selected, DataAttribute(Slot(Max, d)))))
  }

  /** A field that is not a dependent of any row whose colour field is `id`
      keeps its bounds. */
  lemma {:induction false} HandleIdFrame(config: seq<FieldSet>, fields: map<int, FieldBounds>, id: int,
                                         selected: seq<Attribute>, other: int)
    requires forall k :: 0 <= k < |config| && config[k].colorField == id ==>
      other != config[k].widthField && other != config[k].heightField
    requires other in fields
    ensures HandleId(config, fields, id, selected)[other] == fields[other]
  {
    if Find(config, id).Some? {
      var fs := Find(config, id).value;
      var k :| FirstMatchAt(config, id, k) && config[k] == fs;
      BothDimensions(fields, fs, selected);
    }
  }

  /** A class that yields no id, or an id that is no row's colour field,
      leaves the page as it was. */
  lemma {:induction false} ResetUnmatched(config: seq<FieldSet>, fields: map<int, FieldBounds>, cls: string,
                                          selected: seq<Attribute>)
    requires ExtractFieldId(cls).None? || ExtractFieldId(cls).value !in ColorFields(config)
    ensures ResetEffect(config, fields, cls, selected) == fields
  {
    if ExtractFieldId(cls).Some? {
      FindIffMember(config, ExtractFieldId(cls).value);
    }
  }

  /** The id of row `k`'s colour field (colour fields being unique) sets
      that row's width field from the option's width attributes and its
      height field from the option's height attributes. */
  lemma {:induction false} HandleIdMatched(config: seq<FieldSet>, fields: map<int, FieldBounds>,
                                           selected: seq<Attribute>, k: int)
    requires UniqueColorFields(config) && 0 <= k < |config|
    requires config[k].widthField != config[k].heightField
    ensures var r := HandleId(config, fields, config[k].colorField, selected);
      var w, h := config[k].widthField, config[k].heightField;
      && (w in fields ==> r[w] == SelectedBounds(fields[w], selected, Width))
      && (h in fields ==> r[h] == SelectedBounds(fields[h], selected, Height))
  {
    var fs := config[k];
    FindOwnRow(config, k);
    BothDimensions(fields, fs, selected);
    var afterWidth := ApplyDimension(fields, fs, selected, Width);
    assert HandleId(config, fields, fs.colorField, selected) == ApplyDimension(afterWidth, fs, selected, Height);
    if fs.heightField in fields {
      assert afterWidth[fs.heightField] == fields[fs.heightField];
    }
  }

  /** Field sets do not interfere: when colour fields are unique and no field
      is a dependent of two sets, the handler run for row `k` leaves the
      dependent fields of every other row as they were. */
  lemma {:induction false} FieldSetsIndependent(config: seq<FieldSet>, fields: map<int, FieldBounds>,
                                                selected: seq<Attribute>, k: int, l: int)
    requires UniqueColorFields(config) && DisjointDependents(config)
    requires 0 <= k < |config| && 0 <= l < |config| && k != l
    ensures config[l].widthField in fields ==>
      HandleId(config, fields, config[k].colorField, selected)[config[l].widthField] == fields[config[l].widthField]
    ensures config[l].heightField in fields ==>
      HandleId(config, fields, config[k].colorField, selected)[config[l].heightField] == fields[config[l].heightField]
  {
    var id := config[k].colorField;
    forall m | 0 <= m < |config| && config[m].colorField == id
      ensures m == k
    {
      if m != k {
        assert false;
      }
    }
    if config[l].widthField in fields {
      HandleIdFrame(config, fields, id, selected, config[l].widthField);
    }
    if config[l].heightField in fields {
      HandleIdFrame(config, fields, id, selected, config[l].heightField);
    }
  }

  /** On the configured table: a change on selector 755 never touches fields
      818 and 821, and a change on selector 727 never touches 756 and 757. */
  lemma ConfiguredSetsIndependent(fields: map<int, FieldBounds>, selected: seq<Attribute>)
    ensures forall id :: id in fields && (id == 818 || id == 821) ==>
      HandleId(Config(), fields, 755, selected)[id] == fields[id]
    ensures forall id :: id in fields && (id == 756 || id == 757) ==>
      HandleId(Config(), fields, 727, selected)[id] == fields[id]
  {
    ConfigWellFormed();
    FieldSetsIndependent(Config(), fields, selected, 1, 0);
    FieldSetsIndependent(Config(), fields, selected, 0, 1);
  }

  /** When the selected option carries all four data attributes, the
      handler run on a class naming the colour field of row `k` of the
      configured table gives that row's width field exactly the option's
      width bounds and its height field exactly the option's height bounds. */
  lemma {:induction false} BoundsFromSelected(fields: map<int, FieldBounds>, cls: string, selected: seq<Attribute>,
                                              k: int, minW: string, maxW: string, minH: string, maxH: string)
    requires 0 <= k < |Config()| && ExtractFieldId(cls) == Some(Config()[k].colorField)
    requires AttributeValue(selected, DataAttribute(Slot(Min, Width))) == Some(minW)
    requires AttributeValue(selected, DataAttribute(Slot(Max, Width))) == Some(maxW)
    requires AttributeValue(selected, DataAttribute(Slot(Min, Height))) == Some(minH)
    requires AttributeValue(selected, DataAttribute(Slot(Max, Height))) == Some(maxH)
    ensures var r := ResetEffect(Config(), fields, cls, selected);
      var w, h := Config()[k].widthField, Config()[k].heightField;
      && (w in fields ==> r[w] == FieldBounds(Some(minW), Some(maxW)))
      && (h in fields ==> r[h] == FieldBounds(Some(minH), Some(maxH)))
  {
    ConfigWellFormed();
    ResetOfId(Config(), fields, cls, selected, Config()[k].colorField);
    HandleIdMatched(Config(), fields, selected, k);
  }

  /** From stored extras to page bounds: take an option of the colour field
      of row `k`, filter its attribute string, let the page read the option's
      attributes back, and run the handler for a class naming that colour
      field. The width field then carries the option's minimum and maximum
      width and the height field its minimum and maximum height, each as the
      filter wrote it (trimmed and escaped front value). */
  lemma {:induction false} StoredExtrasReachDependents(k: int, attrs: string, item: FieldItem, optionIndex: string,
                                                       esc: string -> string, host: seq<Attribute>,
                                                       fields: map<int, FieldBounds>, cls: string)
    requires 0 <= k < |Config()| && item.fieldId == Some(Config()[k].colorField)
    requires EscapesQuotes(esc) && Parse(attrs) == Some(host)
    requires forall i :: 0 <= i < |Slots| ==> AttributeValue(host, DataAttribute(Slots[i])).None?
    requires ExtractFieldId(cls) == Some(Config()[k].colorField)
    ensures Parse(OptionAttributeString(attrs, item, optionIndex, esc)).Some?
    ensures var selected := Parse(OptionAttributeString(attrs, item, optionIndex, esc)).value;
      var r := ResetEffect(Config(), fields, cls, selected);
      var w, h := Config()[k].widthField, Config()[k].heightField;
      && (w in fields ==> r[w] == FieldBounds(Some(ExtraAttribute(item, optionIndex, esc, Slot(Min, Width)).1),
                                              Some(ExtraAttribute(item, optionIndex, esc, Slot(Max, Width)).1)))
      && (h in fields ==> r[h] == FieldBounds(Some(ExtraAttribute(item, optionIndex, esc, Slot(Min, Height)).1),
                                              Some(ExtraAttribute(item, optionIndex, esc, Slot(Max, Height)).1)))
  {
    assert IsColorField(item);
    FilterWholeElement(attrs, item, optionIndex, esc, host);
    var selected := Parse(OptionAttributeString(attrs, item, optionIndex, esc)).value;
    ExtrasBySlot(selected, item, optionIndex, esc);
    BoundsFromSelected(fields, cls, selected, k,
      ExtraAttribute(item, optionIndex, esc, Slot(Min, Width)).1, ExtraAttribute(item, optionIndex, esc, Slot(Max, Width)).1,
      ExtraAttribute(item, optionIndex, esc, Slot(Min, Height)).1, ExtraAttribute(item, optionIndex, esc, Slot(Max, Height)).1);
  }

  /** The class `pewc-field-727` yields the id 727. */
  lemma ExtractColorClass()
    ensures ExtractFieldId("pewc-field-727") == Some(727)
  {
    assert DigitChar(7) == '7' && DigitChar(2) == '2';
    assert ToDecimal(7) == "7";
    assert ToDecimal(72) == ToDecimal(7) + [DigitChar(2)] == "72";
    assert ToDecimal(727) == ToDecimal(72) + [DigitChar(7)] == "727";
    assert "" + ClassPrefix + ToDecimal(727) + "" == "pewc-field-727";
    ExtractFieldIdOfClass("", 727, "");
  }

  /** Selecting, on selector 727, an option whose width attributes are
      `minW` and `maxW` gives field 818 exactly those bounds. */
  lemma SelectOnColorField727(fields: map<int, FieldBounds>, selected: seq<Attribute>, minW: string, maxW: string)
    requires 818 in fields
    requires AttributeValue(selected, "data-min-width") == Some(minW)
    requires AttributeValue(selected, "data-max-width") == Some(maxW)
    ensures var r := ResetEffect(Config(), fields, "pewc-field-727", selected);
      r.Keys == fields.Keys && r[818] == FieldBounds(Some(minW), Some(maxW))
  {
    ExtractColorClass();
    ResetOfId(Config(), fields, "pewc-field-727", selected, 727);
    HandleOn727(fields, selected);
    Spellings();
  }

  /** Selecting, on selector 727, an option that has neither width attribute
      leaves field 818 as it was: jQuery's `.attr(name, undefined)` does
      nothing. */
  lemma SelectWithoutWidthAttributes(fields: map<int, FieldBounds>, selected: seq<Attribute>)
    requires 818 in fields
    requires AttributeValue(selected, "data-min-width").None? && AttributeValue(selected, "data-max-width").None?
    ensures ResetEffect(Config(), fields, "pewc-field-727", selected)[818] == fields[818]
  {
    ExtractColorClass();
    ResetOfId(Config(), fields, "pewc-field-727", selected, 727);
    HandleOn727(fields, selected);
    Spellings();
  }

  /** The handler on id 727 sets field 818 from the option's width attributes. */
  lemma HandleOn727(fields: map<int, FieldBounds>, selected: seq<Attribute>)
    requires 818 in fields
    ensures HandleId(Config(), fields, 727, selected)[818] == SelectedBounds(fields[818], selected, Width)
  {
    ConfigWellFormed();
    assert Config()[0] == FieldSet(727, 818, 821);
    HandleIdMatched(Config(), fields, selected, 0);
  }

  /** Selecting, on selector 727, an option with `data-min-width='20'` and
      `data-max-width='80'` gives field 818 the bounds 20 and 80; selecting
      one whose width attributes are empty then clears both. */
  lemma SelectionScenario(fields: map<int, FieldBounds>)
    requires 818 in fields
    ensures var first := ResetEffect(Config(), fields, "pewc-field-727",
                                     [("data-min-width", "20"), ("data-max-width", "80")]);
      && first[818] == FieldBounds(Some("20"), Some("80"))
      && ResetEffect(Config(), first, "pewc-field-727",
                     [("data-min-width", ""), ("data-max-width", "")])[818] == FieldBounds(Some(""), Some(""))
  {
    var sel1: seq<Attribute> := [("data-min-width", "20"), ("data-max-width", "80")];
    var sel2: seq<Attribute> := [("data-min-width", ""), ("data-max-width", "")];
    assert AttributeValue(sel1, "data-min-width") == Some("20");
    assert AttributeValue(sel1, "data-max-width") == Some("80");
    assert AttributeValue(sel2, "data-min-width") == Some("");
    assert AttributeValue(sel2, "data-max-width") == Some("");
    SelectOnColorField727(fields, sel1, "20", "80");
    var first := ResetEffect(Config(), fields, "pewc-field-727", sel1);
    SelectOnColorField727(first, sel2, "", "");
  }

  /** The page state the script works on. */
  class Page {
    /** The field-set table embedded in the script. */
    const config: seq<FieldSet>
    /** The bounds of every field on the page, by field id. */
    var fields: map<int, FieldBounds>

    constructor (fields: map<int, FieldBounds>)
      ensures config == Config() && this.fields == fields
    {
      config := Config();
      this.fields := fields;
    }

    /** The change handler: `cls` is the class attribute of the changed
        selector's field container, `selected` the attributes of its selected
        option. */
    method ResetMinMax(cls: string, selected: seq<Attribute>)
      modifies this
      ensures fields == ResetEffect(config, old(fields), cls, selected)
    {
      var id := ExtractFieldId(cls);
      if id.None? {
        return;
      }
      ResetOfId(config, fields, cls, selected, id.value);
      var fs := Find(config, id.value);
      if fs.None? {
        return;
      }
      assert HandleId(config, fields, id.value, selected) == ApplyDimensions(fields, fs.value, selected, Dimensions);
      UpdateFieldSet(fs.value, selected);
    }

    /** `['width', 'height'].forEach(...)` for the matched field set. */
    method UpdateFieldSet(fs: FieldSet, selected: seq<Attribute>)
      modifies this
      ensures fields == ApplyDimensions(old(fields), fs, selected, Dimensions)
    {
      var types := Dimensions;
      for i := 0 to |types|
        invariant fields == ApplyDimensions(old(fields), fs, selected, types[..i])
      {
        UpdateDimension(fs, selected, types[i]);
        assert types[..i + 1][..i] == types[..i];
      }
      assert types[..|types|] == Dimensions;
    }

    /** The `forEach` body for one dimension: the selected option's minimum
        and maximum copied onto the dependent field's container and input. */
    method UpdateDimension(fs: FieldSet, selected: seq<Attribute>, d: Dimension)
      modifies this
      ensures fields == ApplyDimension(old(fields), fs, selected, d)
    {
      var minVal := AttributeValue(selected, ScriptAttribute(Min, d));
      var maxVal := AttributeValue(selected, ScriptAttribute(Max, d));
      var fieldId := DependentField(fs, d);
      if fieldId in fields {
        var bounds := fields[fieldId];
        fields := fields[fieldId := FieldBounds(SetAttr(bounds.minVal, minVal), bounds.maxVal)];
        fields := fields[fieldId := FieldBounds(fields[fieldId].minVal, SetAttr(bounds.maxVal, maxVal))];
      }
    }
  }
}

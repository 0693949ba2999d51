/**
 * The front-end attribute filter: the attribute string of each option
 * element of a colour field is extended with its four extras as single-quoted
 * `data-*` attributes; every other field's string passes through.
 *
 * Its partner is a reader of that attribute syntax, standing for the browser
 * that parses the option element and hands the attributes to the client
 * script: what the filter writes reads back as the four extras.
 *
 * `esc` stands for WordPress's `esc_attr`, left uninterpreted.
 */
module AttributeFilter {
  import opened Wrappers
  import opened Text
  import opened OptionExtras
  import AdminColumns

  /** One attribute of an element: its name and its value. */
  type Attribute = (string, string)

  /** ` name='value'`, the form in which the filter appends an attribute. */
  function AttributeText(name: string, value: string): string
  {
    " " + name + "='" + value + "'"
  }

  /** The attributes written one after the other. */
  function Render(attrs: seq<Attribute>): string
  {
    if attrs == [] then "" else AttributeText(attrs[0].0, attrs[0].1) + Render(attrs[1..])
  }

  /** Reads one leading ` name='value'` attribute off `s`: the attribute and
      what follows it, or `None` when `s` does not start with one. */
  function ParseOne(s: string): (r: Option<(Attribute, string)>)
    ensures r.Some? ==> |r.value.1| < |s|
  {
    if s == [] || s[0] != ' ' then None
    else match SplitAt(s[1..], '=')
      case None => None
      case Some((name, rest)) =>
        if rest == [] || rest[0] != '\'' then None
        else match SplitAt(rest[1..], '\'')
          case None => None
          case Some((value, tail)) => Some(((name, value), tail))
  }

  /** Reads a string of ` name='value'` attributes back; `None` when the string
      is not of that form. */
  function Parse(s: string): Option<seq<Attribute>>
    decreases |s|
  {
    if s == [] then Some([])
    else match ParseOne(s)
      case None => None
      case Some((attr, tail)) =>
        match Parse(tail)
        case None => None
        case Some(more) => Some([attr] + more)
  }

  /** Attributes that can be written in this form and read back: no `=` in a
      name, no single quote in a value. */
  predicate Writable(attrs: seq<Attribute>)
  {
    forall i :: 0 <= i < |attrs| ==> '=' !in attrs[i].0 && '\'' !in attrs[i].1
  }

  /** The pieces of an attribute's text followed by more text. */
  lemma AttributeTextPieces(name: string, value: string, tail: string)
    ensures AttributeText(name, value) + tail == [' '] + (name + ['='] + (['\''] + (value + ['\''] + tail)))
  {
  }

  /** One written attribute reads back, and reading stops right after it. */
  lemma ParseOneText(name: string, value: string, tail: string)
    requires '=' !in name && '\'' !in value
    ensures ParseOne(AttributeText(name, value) + tail) == Some(((name, value), tail))
  {
    var rest := ['\''] + (value + ['\''] + tail);
    var s := [' '] + (name + ['='] + rest);
    AttributeTextPieces(name, value, tail);
    assert s[1..] == name + ['='] + rest;
    SplitAtFirst(name, '=', rest);
    assert rest[1..] == value + ['\''] + tail;
    SplitAtFirst(value, '\'', tail);
  }

  /** What `ParseOne` reads is an attribute's text followed by the rest. */
  lemma ParseOneInverse(s: string)
    requires ParseOne(s).Some?
    ensures var ((name, value), tail) := ParseOne(s).value;
      s == AttributeText(name, value) + tail && '=' !in name && '\'' !in value
  {
    var (name, rest) := SplitAt(s[1..], '=').value;
    var (value, tail) := SplitAt(rest[1..], '\'').value;
    assert s == [' '] + s[1..];
    assert rest == ['\''] + rest[1..];
    assert s == [' '] + (name + ['='] + (['\''] + (value + ['\''] + tail)));
    AttributeTextPieces(name, value, tail);
  }

  /** Writing attributes and reading them back gives the same attributes. */
  lemma {:induction false} ParseRender(attrs: seq<Attribute>)
    requires Writable(attrs)
    ensures Parse(Render(attrs)) == Some(attrs)
  {
    if attrs != [] {
      ParseOneText(attrs[0].0, attrs[0].1, Render(attrs[1..]));
      ParseRender(attrs[1..]);
      assert [attrs[0]] + attrs[1..] == attrs;
    }
  }

  /** Reading one attribute is unaffected by what follows its text. */
  lemma ParseOneAppend(s: string, t: string)
    requires ParseOne(s).Some?
    ensures ParseOne(s + t) == Some((ParseOne(s).value.0, ParseOne(s).value.1 + t))
  {
    var ((name, value), tail) := ParseOne(s).value;
    ParseOneInverse(s);
    assert s + t == AttributeText(name, value) + (tail + t);
    ParseOneText(name, value, tail + t);
  }

  /** Reading a string that starts with an attribute: that attribute, then
      whatever the rest reads as. */
  lemma ParseStep(s: string)
    requires ParseOne(s).Some?
    ensures Parse(s) == match Parse(ParseOne(s).value.1)
      case None => None
      case Some(more) => Some([ParseOne(s).value.0] + more)
  {
  }

  /** Two readable strings one after the other read as both attribute lists
      one after the other. */
  lemma {:induction false} ParseAppend(a: string, b: string)
    requires Parse(a).Some? && Parse(b).Some?
    ensures Parse(a + b) == Some(Parse(a).value + Parse(b).value)
    decreases |a|, 1
  {
    if a == [] {
      assert a + b == b;
      assert Parse(a).value == [];
      assert Parse(a).value + Parse(b).value == Parse(b).value;
    } else {
      ParseAppendStep(a, b);
    }
  }

  /** The step of `ParseAppend` for a non-empty first string. */
  lemma {:induction false} ParseAppendStep(a: string, b: string)
    requires a != [] && Parse(a).Some? && Parse(b).Some?
    ensures Parse(a + b) == Some(Parse(a).value + Parse(b).value)
    decreases |a|, 0
  {
    var attr, tail := ParseOne(a).value.0, ParseOne(a).value.1;
    ParseStep(a);
    ParseAppend(tail, b);
    ParseOneAppend(a, b);
    ParseStep(a + b);
    assert [attr] + (Parse(tail).value + Parse(b).value) == ([attr] + Parse(tail).value) + Parse(b).value;
  }

  /** Attribute `i` is the first attribute of `attrs` called `name`. */
  predicate FirstNamedAt(attrs: seq<Attribute>, name: string, i: int)
  {
    0 <= i < |attrs| && attrs[i].0 == name
    && forall j :: 0 <= j < i ==> attrs[j].0 != name
  }

  /** The value of the first attribute called `name`, as a browser keeps the
      first of duplicated attributes; `None` when there is none (jQuery's
      `.attr(name)` then gives `undefined`). */
  function AttributeValue(attrs: seq<Attribute>, name: string): (r: Option<string>)
    ensures r.None? <==> forall i :: 0 <= i < |attrs| ==> attrs[i].0 != name
    ensures r.Some? ==> exists i :: FirstNamedAt(attrs, name, i) && attrs[i].1 == r.value
  {
    if attrs == [] then None
    else if attrs[0].0 == name then Some(attrs[0].1)
    else
      var r := AttributeValue(attrs[1..], name);
      assert r.Some? ==> exists i :: FirstNamedAt(attrs, name, i) && attrs[i].1 == r.value
      by {
        if r.Some? {
          var i' :| FirstNamedAt(attrs[1..], name, i') && attrs[1..][i'].1 == r.value;
          assert FirstNamedAt(attrs, name, i' + 1);
        }
      }
      r
  }

  /** In a list of attributes with different names, each one's value is found
      under its name. */
  lemma {:induction false} AttributeValueOfDistinct(attrs: seq<Attribute>, k: int)
    requires forall i, j :: 0 <= i < j < |attrs| ==> attrs[i].0 != attrs[j].0
    requires 0 <= k < |attrs|
    ensures AttributeValue(attrs, attrs[k].0) == Some(attrs[k].1)
  {
    var r := AttributeValue(attrs, attrs[k].0);
    var i :| FirstNamedAt(attrs, attrs[k].0, i) && attrs[i].1 == r.value;
    if i != k {
      assert false;
    }
  }

  /** Attributes found in a first list shadow those of a second one; names
      missing from the first are looked up in the second. */
  lemma {:induction false} AttributeValueAppend(a: seq<Attribute>, b: seq<Attribute>, name: string)
    ensures AttributeValue(a + b, name)
      == if AttributeValue(a, name).Some? then AttributeValue(a, name) else AttributeValue(b, name)
  {
    if a == [] {
      assert a + b == b;
    } else {
      assert (a + b)[0] == a[0];
      assert (a + b)[1..] == a[1..] + b;
      AttributeValueAppend(a[1..], b, name);
    }
  }

  /** The value the filter writes for one extra: the stored value unless PHP
      considers it empty (unset, `''`, `'0'`), in which case `''`. */
  function FrontValue(item: FieldItem, optionIndex: string, s: Slot): (r: string)
    ensures r == "" <==> IsEmpty(Stored(item, optionIndex, SubKey(s)))
    ensures r != "" ==> Stored(item, optionIndex, SubKey(s)) == Some(r) && r != "0"
  {
    var v := Stored(item, optionIndex, SubKey(s));
    if IsEmpty(v) then "" else v.value
  }

  /** The data attribute of one extra: named after the extra, holding its
      trimmed, escaped front value. */
  function ExtraAttribute(item: FieldItem, optionIndex: string, esc: string -> string, slot: Slot): Attribute
  {
    (DataAttribute(slot), esc(Trim(FrontValue(item, optionIndex, slot))))
  }

  /** The four data attributes of an option, in slot order: each named after
      its extra, holding the escaped empty string when PHP considers the
      stored value empty, and the trimmed, escaped stored value otherwise. */
  function DataAttributes(item: FieldItem, optionIndex: string, esc: string -> string): (attrs: seq<Attribute>)
    ensures |attrs| == |Slots|
    ensures forall i :: 0 <= i < |Slots| ==> attrs[i].0 == DataAttribute(Slots[i])
    ensures forall i :: 0 <= i < |Slots| && IsEmpty(Stored(item, optionIndex, SubKey(Slots[i]))) ==>
      attrs[i].1 == esc("")
    ensures forall i :: 0 <= i < |Slots| && !IsEmpty(Stored(item, optionIndex, SubKey(Slots[i]))) ==>
      attrs[i].1 == esc(Trim(Stored(item, optionIndex, SubKey(Slots[i])).value))
  {
    ExtraAttributeCases(item, optionIndex, esc);
    seq(|Slots|, i requires 0 <= i < |Slots| => ExtraAttribute(item, optionIndex, esc, Slots[i]))
  }

  /** What one extra's attribute holds, by the two cases of PHP's `empty`. */
  lemma ExtraAttributeCases(item: FieldItem, optionIndex: string, esc: string -> string)
    ensures forall s: Slot :: ExtraAttribute(item, optionIndex, esc, s).0 == DataAttribute(s)
    ensures forall s: Slot :: IsEmpty(Stored(item, optionIndex, SubKey(s))) ==>
      ExtraAttribute(item, optionIndex, esc, s).1 == esc("")
    ensures forall s: Slot :: !IsEmpty(Stored(item, optionIndex, SubKey(s))) ==>
      ExtraAttribute(item, optionIndex, esc, s).1 == esc(Trim(Stored(item, optionIndex, SubKey(s)).value))
  {
    TrimFixedPoint("");
  }

  /** Four attributes written one after the other onto `s`. */
  lemma RenderFour(s: string, d: seq<Attribute>)
    requires |d| == 4
    ensures s + AttributeText(d[0].0, d[0].1) + AttributeText(d[1].0, d[1].1)
      + AttributeText(d[2].0, d[2].1) + AttributeText(d[3].0, d[3].1) == s + Render(d)
  {
    var t0, t1 := AttributeText(d[0].0, d[0].1), AttributeText(d[1].0, d[1].1);
    var t2, t3 := AttributeText(d[2].0, d[2].1), AttributeText(d[3].0, d[3].1);
    assert d[1..][0] == d[1] && d[1..][1..] == d[2..];
    assert d[2..][0] == d[2] && d[2..][1..] == d[3..];
    assert d[3..][0] == d[3] && d[3..][1..] == [];
    assert Render(d[3..]) == t3 + "";
    assert Render(d[2..]) == t2 + t3;
    assert Render(d[1..]) == t1 + (t2 + t3);
    assert Render(d) == t0 + (t1 + (t2 + t3));
    ConcatFive(s, t0, t1, t2, t3);
  }

  /** Five strings joined left to right are the same joined right to left. */
  lemma ConcatFive(s: string, a: string, b: string, c: string, e: string)
    ensures s + a + b + c + e == s + (a + (b + (c + e)))
  {
    assert s + a + b + c + e == s + (a + b + c + e);
    assert a + b + c + e == a + (b + c + e);
    assert b + c + e == b + (c + e);
  }

  /** One `.=` step of the filter: the text of one extra's attribute appended. */
  function AppendExtra(s: string, item: FieldItem, optionIndex: string, esc: string -> string, slot: Slot): string
  {
    var a := ExtraAttribute(item, optionIndex, esc, slot);
    s + AttributeText(a.0, a.1)
  }

  /** The filter `minmax_option_attribute_string`: a non-colour field's string
      comes back unchanged; a colour field's string comes back with the four
      data attributes of option `optionIndex` appended, in slot order. */
  function OptionAttributeString(attrs: string, item: FieldItem, optionIndex: string, esc: string -> string): (r: string)
    ensures !IsColorField(item) ==> r == attrs
    ensures IsColorField(item) ==> r == attrs + Render(DataAttributes(item, optionIndex, esc))
  {
    if IsColorField(item) then
      var s1 := AppendExtra(attrs, item, optionIndex, esc, Slot(Min, Width));
      var s2 := AppendExtra(s1, item, optionIndex, esc, Slot(Max, Width));
      var s3 := AppendExtra(s2, item, optionIndex, esc, Slot(Min, Height));
      var s4 := AppendExtra(s3, item, optionIndex, esc, Slot(Max, Height));
      RenderFour(attrs, DataAttributes(item, optionIndex, esc));
      s4
    else
      attrs
  }

  /** `esc_attr` encodes single quotes, so an escaped value never holds one. */
  ghost predicate EscapesQuotes(esc: string -> string)
  {
    forall v :: '\'' !in esc(v)
  }

  /** The four data attributes have distinct names, none containing `=`,
      and, under a quote-escaping `esc`, values free of single quotes. */
  lemma DataAttributesWritable(item: FieldItem, optionIndex: string, esc: string -> string)
    requires EscapesQuotes(esc)
    ensures Writable(DataAttributes(item, optionIndex, esc))
    ensures forall i, j :: 0 <= i < j < |Slots| ==>
      DataAttributes(item, optionIndex, esc)[i].0 != DataAttributes(item, optionIndex, esc)[j].0
  {
    var d := DataAttributes(item, optionIndex, esc);
    forall i | 0 <= i < |d| ensures '=' !in d[i].0 && '\'' !in d[i].1 {
      assert d[i].0 == DataAttribute(Slots[i]);
      DataAttributeHasNoEquals(Slots[i]);
    }
    forall i, j | 0 <= i < j < |Slots| ensures d[i].0 != d[j].0 {
      SlotsDistinct();
      assert d[i].0 == DataAttribute(Slots[i]) && d[j].0 == DataAttribute(Slots[j]);
    }
  }

  lemma DataAttributeHasNoEquals(s: Slot)
    ensures '=' !in DataAttribute(s)
  {
    match s
    case Slot(Min, Width) =>
    case Slot(Max, Width) =>
    case Slot(Min, Height) =>
    case Slot(Max, Height) =>
  }

  /** For a colour field the filter only appends: the incoming string is a
      prefix of the result, and what follows reads back as exactly the four
      data attributes, each found under its own name with the extra's
      trimmed, escaped front value. */
  lemma {:induction false} FilterReadsBack(attrs: string, item: FieldItem, optionIndex: string, esc: string -> string)
    requires IsColorField(item) && EscapesQuotes(esc)
    ensures |attrs| <= |OptionAttributeString(attrs, item, optionIndex, esc)|
    ensures OptionAttributeString(attrs, item, optionIndex, esc)[..|attrs|] == attrs
    ensures Parse(OptionAttributeString(attrs, item, optionIndex, esc)[|attrs|..])
      == Some(DataAttributes(item, optionIndex, esc))
    ensures forall i :: 0 <= i < |Slots| ==>
      AttributeValue(DataAttributes(item, optionIndex, esc), DataAttribute(Slots[i]))
        == Some(esc(Trim(FrontValue(item, optionIndex, Slots[i]))))
  {
    var d := DataAttributes(item, optionIndex, esc);
    var r := OptionAttributeString(attrs, item, optionIndex, esc);
    assert r == attrs + Render(d);
    assert r[|attrs|..] == Render(d);
    DataAttributesWritable(item, optionIndex, esc);
    ParseRender(d);
    forall i | 0 <= i < |Slots|
      ensures AttributeValue(d, DataAttribute(Slots[i])) == Some(esc(Trim(FrontValue(item, optionIndex, Slots[i]))))
    {
      AttributeValueOfDistinct(d, i);
      assert d[i] == ExtraAttribute(item, optionIndex, esc, Slots[i]);
    }
  }

  /** Read as a whole option element: when the incoming attributes read back
      and carry none of the four names, each extra is found under its name in
      the filtered string. */
  lemma {:induction false} FilterWholeElement(attrs: string, item: FieldItem, optionIndex: string,
                                              esc: string -> string, host: seq<Attribute>)
    requires IsColorField(item) && EscapesQuotes(esc)
    requires Parse(attrs) == Some(host)
    requires forall i :: 0 <= i < |Slots| ==> AttributeValue(host, DataAttribute(Slots[i])).None?
    ensures Parse(OptionAttributeString(attrs, item, optionIndex, esc)).Some?
    ensures forall i :: 0 <= i < |Slots| ==>
      AttributeValue(Parse(OptionAttributeString(attrs, item, optionIndex, esc)).value, DataAttribute(Slots[i]))
        == Some(esc(Trim(FrontValue(item, optionIndex, Slots[i]))))
  {
    var d := DataAttributes(item, optionIndex, esc);
    FilterReadsBack(attrs, item, optionIndex, esc);
    ParseAppend(attrs, Render(d));
    assert Parse(attrs + Render(d)) == Some(host + d);
    forall i | 0 <= i < |Slots|
      ensures AttributeValue(host + d, DataAttribute(Slots[i])) == Some(esc(Trim(FrontValue(item, optionIndex, Slots[i]))))
    {
      AttributeValueAppend(host, d, DataAttribute(Slots[i]));
    }
  }

  /** Attributes carrying the four extras as the filter writes them, looked up
      by slot rather than by position. */
  lemma ExtrasBySlot(selected: seq<Attribute>, item: FieldItem, optionIndex: string, esc: string -> string)
    requires forall i :: 0 <= i < |Slots| ==>
      AttributeValue(selected, DataAttribute(Slots[i])) == Some(esc(Trim(FrontValue(item, optionIndex, Slots[i]))))
    ensures forall s: Slot :: AttributeValue(selected, DataAttribute(s)) == Some(ExtraAttribute(item, optionIndex, esc, s).1)
  {
    forall s: Slot
      ensures AttributeValue(selected, DataAttribute(s)) == Some(ExtraAttribute(item, optionIndex, esc, s).1)
    {
      var i := match s
        case Slot(Min, Width) => 0
        case Slot(Max, Width) => 1
        case Slot(Min, Height) => 2
        case Slot(Max, Height) => 3;
      assert Slots[i] == s;
    }
  }

  /** A stored value PHP considers empty (unset, `''` or `'0'`) is written as
      the escaped empty string, never as a literal placeholder. */
  lemma EmptyExtraWritesEmpty(item: FieldItem, optionIndex: string, esc: string -> string, s: Slot)
    requires IsEmpty(Stored(item, optionIndex, SubKey(s)))
    ensures ExtraAttribute(item, optionIndex, esc, s) == (DataAttribute(s), esc(""))
  {
    TrimFixedPoint("");
  }

  /** A stored value is written trimmed: surrounding spaces, tabs and line
      breaks do not reach the attribute. */
  lemma PresentExtraWritesTrimmed(item: FieldItem, optionIndex: string, esc: string -> string, s: Slot, v: string)
    requires Stored(item, optionIndex, SubKey(s)) == Some(v) && v != "" && v != "0"
    ensures ExtraAttribute(item, optionIndex, esc, s) == (DataAttribute(s), esc(Trim(v)))
  {
  }

  /** One `.=` step keeps what was there and appends one attribute that reads
      back as the extra's name and written value, with nothing after it. */
  lemma AppendExtraReadsBack(s: string, item: FieldItem, optionIndex: string, esc: string -> string, slot: Slot)
    requires EscapesQuotes(esc)
    ensures |s| <= |AppendExtra(s, item, optionIndex, esc, slot)|
    ensures AppendExtra(s, item, optionIndex, esc, slot)[..|s|] == s
    ensures ParseOne(AppendExtra(s, item, optionIndex, esc, slot)[|s|..])
      == Some((ExtraAttribute(item, optionIndex, esc, slot), []))
  {
    var a := ExtraAttribute(item, optionIndex, esc, slot);
    var r := AppendExtra(s, item, optionIndex, esc, slot);
    DataAttributeHasNoEquals(slot);
    assert r[|s|..] == AttributeText(a.0, a.1) + [];
    ParseOneText(a.0, a.1, []);
  }

  /** The admin side tests `isset` and the front end tests `empty`: a stored
      `'0'` is shown as `'0'` in the admin row but written as the empty
      string onto the option element. */
  lemma ZeroShownButNotWritten(optionCount: string, groupId: string, itemKey: string, item: FieldItem,
                               key: string, esc: string -> string, i: int)
    requires IsColorField(item) && 0 <= i < |Slots|
    requires Stored(item, esc(key), SubKey(Slots[i])) == Some("0")
    ensures AdminColumns.ExtraParams(optionCount, groupId, itemKey, item, key, esc)[i].value == esc("0")
    ensures DataAttributes(item, esc(key), esc)[i].1 == esc("")
  {
  }

  /** The value the filter writes for a slot whose stored value is set, is
      neither empty nor "0", and has no surrounding white space. */
  lemma WrittenAsStored(item: FieldItem, optionIndex: string, esc: string -> string, s: Slot, i: int, v: string)
    requires 0 <= i < |Slots| && Slots[i] == s
    requires Stored(item, optionIndex, SubKey(s)) == Some(v) && v != "" && v != "0"
    requires !IsTrimChar(v[0]) && !IsTrimChar(v[|v| - 1])
    ensures DataAttributes(item, optionIndex, esc)[i] == (DataAttribute(s), esc(v))
  {
    assert FrontValue(item, optionIndex, s) == v;
    TrimFixedPoint(v);
    assert ExtraAttribute(item, optionIndex, esc, s) == (DataAttribute(s), esc(v));
  }

  /** Stored values 10, 50, 5 and 40 at option 2 of colour field 727 are
      written in the fixed order width minimum, width maximum, height minimum,
      height maximum. */
  lemma SerializedExample(attrs: string, item: FieldItem, esc: string -> string)
    requires esc("10") == "10" && esc("50") == "50" && esc("5") == "5" && esc("40") == "40"
    requires item.fieldId == Some(727)
    requires Stored(item, "2", "min_width") == Some("10") && Stored(item, "2", "max_width") == Some("50")
    requires Stored(item, "2", "min_height") == Some("5") && Stored(item, "2", "max_height") == Some("40")
    ensures OptionAttributeString(attrs, item, "2", esc)
      == attrs + AttributeText("data-min-width", "10") + AttributeText("data-max-width", "50")
         + AttributeText("data-min-height", "5") + AttributeText("data-max-height", "40")
  {
    Spellings();
    ColorFieldGate(item);
    CleanExtrasWritten(attrs, item, "2", esc, "10", "50", "5", "40");
  }

  /** A stored value is clean when it is set, neither empty nor "0", and has
      no surrounding white space: the filter writes it exactly as stored. */
  predicate Clean(item: FieldItem, optionIndex: string, s: Slot, v: string)
  {
    Stored(item, optionIndex, SubKey(s)) == Some(v) && v != "" && v != "0"
    && !IsTrimChar(v[0]) && !IsTrimChar(v[|v| - 1])
  }

  /** A colour field whose four extras are stored clean gets them appended as
      four attributes in slot order, each with its escaped stored value. */
  lemma CleanExtrasWritten(attrs: string, item: FieldItem, optionIndex: string, esc: string -> string,
                           minW: string, maxW: string, minH: string, maxH: string)
    requires IsColorField(item)
    requires Clean(item, optionIndex, Slot(Min, Width), minW) && Clean(item, optionIndex, Slot(Max, Width), maxW)
    requires Clean(item, optionIndex, Slot(Min, Height), minH) && Clean(item, optionIndex, Slot(Max, Height), maxH)
    ensures OptionAttributeString(attrs, item, optionIndex, esc)
      == attrs + AttributeText(DataAttribute(Slot(Min, Width)), esc(minW))
         + AttributeText(DataAttribute(Slot(Max, Width)), esc(maxW))
         + AttributeText(DataAttribute(Slot(Min, Height)), esc(minH))
         + AttributeText(DataAttribute(Slot(Max, Height)), esc(maxH))
  {
    var e: seq<Attribute> := [(DataAttribute(Slot(Min, Width)), esc(minW)), (DataAttribute(Slot(Max, Width)), esc(maxW)),
                              (DataAttribute(Slot(Min, Height)), esc(minH)), (DataAttribute(Slot(Max, Height)), esc(maxH))];
    var d := DataAttributes(item, optionIndex, esc);
    WrittenAsStored(item, optionIndex, esc, Slot(Min, Width), 0, minW);
    WrittenAsStored(item, optionIndex, esc, Slot(Max, Width), 1, maxW);
    WrittenAsStored(item, optionIndex, esc, Slot(Min, Height), 2, minH);
    WrittenAsStored(item, optionIndex, esc, Slot(Max, Height), 3, maxH);
    FourEqual(d, e);
    RenderFour(attrs, e);
  }

  /** Two sequences of four elements agreeing at each position are equal. */
  lemma FourEqual(d: seq<Attribute>, e: seq<Attribute>)
    requires |d| == |e| == 4
    requires d[0] == e[0] && d[1] == e[1] && d[2] == e[2] && d[3] == e[3]
    ensures d == e
  {
    forall i | 0 <= i < 4 ensures d[i] == e[i] {
      if i == 0 {} else if i == 1 {} else if i == 2 {} else {}
    }
  }
}

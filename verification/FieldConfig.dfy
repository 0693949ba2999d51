/**
 * The configuration store: a constant, ordered table of field sets, each
 * binding one colour selector field to the width field and the height field
 * whose bounds it governs.
 */
module FieldConfig {
  import opened Wrappers

  /** One field set: the colour selector and its two dependent fields. */
  datatype FieldSet = FieldSet(colorField: int, widthField: int, heightField: int)

  /** The table of field sets, in declaration order. */
  function Config(): seq<FieldSet>
  {
    [FieldSet(727, 818, 821), FieldSet(755, 756, 757)]
  }

  /** The `colorField` column of a table, row by row (PHP's `array_column`). */
  function ColorFields(config: seq<FieldSet>): (ids: seq<int>)
    ensures |ids| == |config|
    ensures forall i :: 0 <= i < |config| ==> ids[i] == config[i].colorField
  {
    if config == [] then [] else [config[0].colorField] + ColorFields(config[1..])
  }

  /** The colour-field ids of the configured table. */
  function ColorFieldIds(): (ids: seq<int>)
    ensures ids == [727, 755]
  {
    ColorFields(Config())
  }

  /** The colour-field ids identify their rows: no id is used twice. */
  predicate UniqueColorFields(config: seq<FieldSet>)
  {
    forall i, j :: 0 <= i < j < |config| ==> config[i].colorField != config[j].colorField
  }

  /** No field is a dependent field of two different field sets. */
  predicate DisjointDependents(config: seq<FieldSet>)
  {
    forall i, j :: 0 <= i < |config| && 0 <= j < |config| && i != j ==>
      config[i].widthField != config[j].widthField && config[i].widthField != config[j].heightField
      && config[i].heightField != config[j].heightField
  }

  /** The configured table meets both well-formedness conditions. */
  lemma ConfigWellFormed()
    ensures UniqueColorFields(Config()) && DisjointDependents(Config())
  {
  }

  /** Row `i` is the first row of `config` whose colour field is `id`. */
  predicate FirstMatchAt(config: seq<FieldSet>, id: int, i: int)
  {
    0 <= i < |config| && config[i].colorField == id
    && forall j :: 0 <= j < i ==> config[j].colorField != id
  }

  /** JavaScript's `Array.prototype.find` on `color_field === id`: the first
      row whose colour field is `id`, or nothing when no row has it. */
  function Find(config: seq<FieldSet>, id: int): (r: Option<FieldSet>)
    ensures r.None? <==> forall i :: 0 <= i < |config| ==> config[i].colorField != id
    ensures r.Some? ==> exists i :: FirstMatchAt(config, id, i) && config[i] == r.value
  {
    if config == [] then None
    else if config[0].colorField == id then Some(config[0])
    else
      var r := Find(config[1..], id);
      assert r.Some? ==> exists i :: FirstMatchAt(config, id, i) && config[i] == r.value
      by {
        if r.Some? {
          var i' :| FirstMatchAt(config[1..], id, i') && config[1..][i'] == r.value;
          assert FirstMatchAt(config, id, i' + 1);
        }
      }
      r
  }

  /** The lookup of the client script agrees with the membership test
      (`in_array`) of the server side: a row is found exactly for the ids in
      the projected colour-field list. */
  lemma {:induction false} FindIffMember(config: seq<FieldSet>, id: int)
    ensures Find(config, id).Some? <==> id in ColorFields(config)
  {
    var ids := ColorFields(config);
    if id in ids {
      var i :| 0 <= i < |ids| && ids[i] == id;
      assert config[i].colorField == id;
    }
  }

  /** With unique colour fields, looking a row up by its own colour field
      yields that row. */
  lemma {:induction false} FindOwnRow(config: seq<FieldSet>, k: int)
    requires UniqueColorFields(config)
    requires 0 <= k < |config|
    ensures Find(config, config[k].colorField) == Some(config[k])
  {
    var r := Find(config, config[k].colorField);
    var i :| FirstMatchAt(config, config[k].colorField, i) && config[i] == r.value;
    if i != k {
      assert false;
    }
  }
}

/** `is_expression_field` (core/layer_utils.py, repeated with a different
    error message in core/utils.py): whether a layer's field is a virtual field, computed
    from an expression rather than stored. A layer is abstracted to the
    metadata of its fields, in field order. */
module LayerUtils {
  import opened Wrappers

  /** A field's name, its provider type name (empty for a virtual field) and
      the expression string the layer holds for it (empty for a stored field). */
  datatype Field = Field(name: string, typeName: string, expression: string)

  datatype Layer = Layer(fields: seq<Field>)

  /** The exception the source raises for an unknown field name. */
  datatype LayerError = NameError(fieldName: string)

  /** `layer.fields().names()`. */
  function FieldNames(layer: Layer): (names: seq<string>)
    ensures |names| == |layer.fields|
    ensures forall i :: 0 <= i < |names| ==> names[i] == layer.fields[i].name
  {
    seq(|layer.fields|, i requires 0 <= i < |layer.fields| => layer.fields[i].name)
  }

  /** `layer.fields().indexFromName(name)`: the first field carrying the
      name, or -1. */
  function IndexFromName(fields: seq<Field>, name: string): (idx: int)
    ensures -1 <= idx < |fields|
    ensures idx == -1 <==> forall i :: 0 <= i < |fields| ==> fields[i].name != name
    ensures idx >= 0 ==> fields[idx].name == name
    ensures idx >= 0 ==> forall i :: 0 <= i < idx ==> fields[i].name != name
  {
    if fields == [] then -1
    else if fields[0].name == name then 0
    else
      var k := IndexFromName(fields[1..], name);
      if k == -1 then -1 else k + 1
  }

  /** Is the named field an expression field? NameError for a name the layer
      does not have. */
  function IsExpressionField(layer: Layer, fieldName: string): (r: Result<bool, LayerError>)
    ensures r.Err? <==> fieldName !in FieldNames(layer)
    ensures r.Err? ==> r.error == NameError(fieldName)
    ensures r.Ok? ==> var f := layer.fields[IndexFromName(layer.fields, fieldName)];
      r.value <==> f.expression != "" && f.typeName == ""
  {
    if fieldName !in FieldNames(layer) then Err(NameError(fieldName))
    else
      var idx := IndexFromName(layer.fields, fieldName);
      var field := layer.fields[idx];
      var emptyExprStr := field.expression == "";
      var emptyTypeName := field.typeName == "";
      Ok(!emptyExprStr && emptyTypeName)
  }

  /** A field with a provider type name is never an expression field, and
      neither is one without an expression. */
  lemma StoredFieldsAreNotExpressionFields(layer: Layer, i: nat)
    requires i < |layer.fields|
    requires forall j :: 0 <= j < i ==> layer.fields[j].name != layer.fields[i].name
    requires layer.fields[i].typeName != "" || layer.fields[i].expression == ""
    ensures IsExpressionField(layer, layer.fields[i].name) == Ok(false)
  {
    assert FieldNames(layer)[i] == layer.fields[i].name;
  }

  /** The answer depends only on the field the name resolves to: two layers
      with the same field names that agree on that field agree on the answer. */
  lemma OnlyTheNamedFieldMatters(a: Layer, b: Layer, fieldName: string)
    requires FieldNames(a) == FieldNames(b)
    requires fieldName in FieldNames(a)
    requires a.fields[IndexFromName(a.fields, fieldName)] == b.fields[IndexFromName(b.fields, fieldName)]
    ensures IsExpressionField(a, fieldName) == IsExpressionField(b, fieldName)
  {
  }

  /** Indexing is by name only, so it agrees between layers with the same names. */
  lemma {:induction false} IndexFromNameByNames(a: seq<Field>, b: seq<Field>, name: string)
    requires |a| == |b|
    requires forall i :: 0 <= i < |a| ==> a[i].name == b[i].name
    ensures IndexFromName(a, name) == IndexFromName(b, name)
  {
    if a != [] {
      IndexFromNameByNames(a[1..], b[1..], name);
    }
  }

  /** Changing the metadata of any other field never changes the answer. */
  lemma OtherFieldsDoNotMatter(layer: Layer, fieldName: string, j: nat, g: Field)
    requires j < |layer.fields|
    requires layer.fields[j].name != fieldName && g.name == layer.fields[j].name
    ensures IsExpressionField(Layer(layer.fields[j := g]), fieldName) == IsExpressionField(layer, fieldName)
  {
    var other := Layer(layer.fields[j := g]);
    IndexFromNameByNames(layer.fields, other.fields, fieldName);
    assert FieldNames(other) == FieldNames(layer);
  }
}

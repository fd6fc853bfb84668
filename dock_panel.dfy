/** The dock panel (unique_values_viewer_dockwidget.py): the list of unique
    values of the chosen field, its label, the text search over the list,
    and the choice of layer and field.

    The host computes what the panel shows: the layer's distinct values of
    the field, already turned into strings, and the field's value on each
    selected feature, also as a string. Both are inputs here. */
module Dock {
  import opened Wrappers
  import opened Text
  import opened Widgets
  import opened LayerUtils
  import Expression

  /** The label of an empty list. */
  const VALUES_LABEL: string := "Unique values"

  /** The text between the brackets of a count label. */
  function CountText(text: string): string
    requires |text| >= |VALUES_LABEL| + 3
  {
    text[|VALUES_LABEL| + 2..|text| - 1]
  }

  /** `"Unique values [%s]" % n`: the label, a space, and the count in
      decimal between brackets. */
  function CountLabel(n: nat): (r: string)
    ensures |r| >= |VALUES_LABEL| + 3
    ensures r[..|VALUES_LABEL| + 2] == VALUES_LABEL + " [" && r[|r| - 1] == ']'
    ensures IsDigits(CountText(r)) && DigitsValue(CountText(r)) == n
  {
    NatToStringValue(n);
    var r := VALUES_LABEL + " [" + NatToString(n) + "]";
    assert CountText(r) == NatToString(n);
    r
  }

  /** Different counts give different labels. */
  lemma CountLabelInjective(m: nat, n: nat)
    ensures CountLabel(m) == CountLabel(n) <==> m == n
  {
  }

  // ---- The provider's field index ------------------------------------------

  /** The fields the layer's data provider knows: the stored ones, in layer
      order. A virtual field lives in the layer only. */
  function ProviderFields(fields: seq<Field>): (r: seq<Field>)
    ensures |r| <= |fields|
    ensures forall f :: f in r <==> f in fields && f.expression == ""
  {
    if fields == [] then []
    else (if fields[0].expression == "" then [fields[0]] else []) + ProviderFields(fields[1..])
  }

  /** `dataProvider().fieldNameIndex(name)`, matching names exactly. */
  function ProviderIndex(layer: Layer, name: string): (idx: int)
    ensures -1 <= idx < |layer.fields|
  {
    IndexFromName(ProviderFields(layer.fields), name)
  }

  /** The layer lists the provider's fields before its virtual fields, as
      QGIS lays out a layer's fields. */
  ghost predicate StoredFirst(fields: seq<Field>)
  {
    forall i, j :: 0 <= i < j < |fields| && fields[j].expression == "" ==> fields[i].expression == ""
  }

  /** The type name `change_field` reads: `fields()[idx]` at the provider's
      index, where Python reads index -1 as the last field. */
  function ReadTypeName(layer: Layer, name: string): string
    requires |layer.fields| > 0
  {
    var idx := ProviderIndex(layer, name);
    layer.fields[if idx < 0 then |layer.fields| + idx else idx].typeName
  }

  /** With the stored fields first, the provider's fields are a prefix of the
      layer's. */
  lemma {:induction false} ProviderFieldsPrefix(fields: seq<Field>)
    requires StoredFirst(fields)
    ensures ProviderFields(fields) == fields[..|ProviderFields(fields)|]
  {
    if fields != [] {
      var rest := fields[1..];
      StoredFirstTail(fields);
      if fields[0].expression == "" {
        ProviderFieldsPrefix(rest);
        var m := |ProviderFields(rest)|;
        assert ProviderFields(fields) == [fields[0]] + rest[..m];
        assert [fields[0]] + rest[..m] == fields[..m + 1];
      } else {
        NoProviderFields(rest);
        assert ProviderFields(fields) == [];
      }
    }
  }

  /** The fields after the first are still stored-first, and all virtual
      when the first one is. */
  lemma StoredFirstTail(fields: seq<Field>)
    requires StoredFirst(fields) && fields != []
    ensures StoredFirst(fields[1..])
    ensures fields[0].expression != "" ==>
      forall j :: 0 <= j < |fields| - 1 ==> fields[1..][j].expression != ""
  {
    var rest := fields[1..];
    forall i, j | 0 <= i < j < |rest| && rest[j].expression == ""
      ensures rest[i].expression == ""
    {
      assert fields[j + 1] == rest[j] && fields[i + 1] == rest[i];
    }
    if fields[0].expression != "" {
      forall j | 0 <= j < |rest| ensures rest[j].expression != "" {
        assert fields[j + 1] == rest[j];
      }
    }
  }

  /** A layer of virtual fields only gives the provider no field. */
  lemma {:induction false} NoProviderFields(fields: seq<Field>)
    requires forall i :: 0 <= i < |fields| ==> fields[i].expression != ""
    ensures ProviderFields(fields) == []
  {
    if fields != [] {
      NoProviderFields(fields[1..]);
    }
  }

  /** Cutting the fields after the first one of a name keeps its index. */
  lemma IndexFromNamePrefix(fields: seq<Field>, m: nat, name: string)
    requires 0 <= IndexFromName(fields, name) < m <= |fields|
    ensures IndexFromName(fields[..m], name) == IndexFromName(fields, name)
  {
    var k := IndexFromName(fields, name);
    assert fields[..m][k].name == name;
  }

  /** For a stored field, and the stored fields listed first, the type name
      read is that of the field of that name. */
  lemma StoredFieldTypeName(layer: Layer, name: string)
    requires StoredFirst(layer.fields) && name in FieldNames(layer)
    requires layer.fields[IndexFromName(layer.fields, name)].expression == ""
    ensures ReadTypeName(layer, name) == layer.fields[IndexFromName(layer.fields, name)].typeName
  {
    var fields := layer.fields;
    var k := IndexFromName(fields, name);
    var r := ProviderFields(fields);
    ProviderFieldsPrefix(fields);
    assert k < |r| by {
      assert fields[k] in r;
      var j :| 0 <= j < |r| && r[j] == fields[k];
      assert fields[j].name == name;
    }
    IndexFromNamePrefix(fields, |r|, name);
  }

  /** A virtual field is unknown to the provider, whose index -1 makes
      `change_field` read the type name of the layer's last field. */
  lemma VirtualFieldTypeName(layer: Layer, name: string)
    requires |layer.fields| > 0
    requires forall i :: 0 <= i < |layer.fields| && layer.fields[i].name == name ==> layer.fields[i].expression != ""
    ensures ProviderIndex(layer, name) == -1
    ensures ReadTypeName(layer, name) == layer.fields[|layer.fields| - 1].typeName
  {
    var r := ProviderFields(layer.fields);
    forall i | 0 <= i < |r| ensures r[i].name != name {
      assert r[i] in r;
    }
  }

  /** The field name as the expression writes it: Python spells a missing
      field `None`. */
  function FieldText(field: Option<string>): string
  {
    if field.Some? then field.value else "None"
  }

  predicate NoDuplicates(xs: seq<string>)
  {
    forall i, j :: 0 <= i < j < |xs| ==> xs[i] != xs[j]
  }

  /** `get_unique_values_selected`: gathers the selected features' values
      into a set. */
  method UniqueValuesSelected(selectedValues: seq<string>) returns (values: set<string>)
    ensures forall v :: v in values <==> exists i :: 0 <= i < |selectedValues| && selectedValues[i] == v
    ensures |values| <= |selectedValues|
  {
    values := {};
    for i := 0 to |selectedValues|
      invariant values == Elements(selectedValues[..i])
      invariant |values| <= i
    {
      assert selectedValues[..i + 1] == selectedValues[..i] + [selectedValues[i]];
      values := values + {selectedValues[i]};
    }
    assert selectedValues[..|selectedValues|] == selectedValues;
  }

  /** `list(values)`: every element once, in an order the model leaves open. */
  method SetToList(values: set<string>) returns (xs: seq<string>)
    ensures |xs| == |values| && NoDuplicates(xs)
    ensures forall v :: v in xs <==> v in values
  {
    xs := [];
    var rest := values;
    while rest != {}
      invariant rest <= values && NoDuplicates(xs)
      invariant forall v :: v in xs <==> v in values - rest
      invariant |xs| + |rest| == |values|
      decreases |rest|
    {
      var v :| v in rest;
      assert v !in xs;
      xs := xs + [v];
      rest := rest - {v};
    }
  }

  /** The values `update_values` lists and the label it shows: all unique
      values, the distinct values of the selected features, or the one
      placeholder when only selected features count and none is selected. */
  method ValuesToShow(selectedOnly: bool, allValues: seq<string>, selectedValues: seq<string>)
    returns (values: seq<string>, caption: string)
    ensures !selectedOnly ==> values == allValues && caption == CountLabel(|allValues|)
    ensures selectedOnly && |selectedValues| > 0 ==>
      && NoDuplicates(values) && Elements(values) == Elements(selectedValues)
      && caption == CountLabel(|values|)
    ensures selectedOnly && |selectedValues| == 0 ==>
      values == [NO_FEATURES_SELECTED] && caption == VALUES_LABEL
  {
    if !selectedOnly {
      values := allValues;
      caption := CountLabel(|values|);
    } else if |selectedValues| != 0 {
      var distinct := UniqueValuesSelected(selectedValues);
      values := SetToList(distinct);
      caption := CountLabel(|values|);
    } else {
      values := [NO_FEATURES_SELECTED];
      caption := VALUES_LABEL;
    }
  }

  /** The items after searching for `text`: with a non-empty text, an item is
      hidden exactly when its text does not contain the search text, letter
      case aside; an empty text changes nothing. */
  function Searched(items: seq<Item>, text: string): (r: seq<Item>)
    ensures |r| == |items|
    ensures text == "" ==> r == items
    ensures text != "" ==> forall i :: 0 <= i < |items| ==>
      r[i] == items[i].(hidden := !ContainsIgnoringCase(items[i].text, text))
  {
    if text == "" then items
    else seq(|items|, i requires 0 <= i < |items| => Matched(items[i], text))
  }

  /** An item after the first pass of a search: hidden when it was, or when
      its text does not contain the search text. */
  function HiddenUnlessMatching(item: Item, text: string): Item
  {
    item.(hidden := item.hidden || !ContainsIgnoringCase(item.text, text))
  }

  /** An item after both passes: hidden exactly when its text does not
      contain the search text. */
  function Matched(item: Item, text: string): Item
  {
    item.(hidden := !ContainsIgnoringCase(item.text, text))
  }

  /** The items after `show_values`: all visible, otherwise as they were. */
  function Shown(items: seq<Item>): (r: seq<Item>)
    ensures |r| == |items|
    ensures forall i :: 0 <= i < |items| ==> r[i] == items[i].(hidden := false)
  {
    seq(|items|, i requires 0 <= i < |items| => items[i].(hidden := false))
  }

  /** Searching twice for the same text is searching once, and clearing the
      search shows the list as if no search had been made. */
  lemma SearchThenShow(items: seq<Item>, text: string)
    ensures Searched(Searched(items, text), text) == Searched(items, text)
    ensures Shown(Searched(items, text)) == Shown(items)
    ensures Texts(Searched(items, text)) == Texts(items)
  {
    if text != "" {
      var once := Searched(items, text);
      assert forall i :: 0 <= i < |items| ==> Searched(once, text)[i] == once[i];
      assert forall i :: 0 <= i < |items| ==> Shown(once)[i] == Shown(items)[i];
    }
  }

  /** A search hides no item whose text contains the search text and shows
      no other item. */
  lemma SearchVisibility(items: seq<Item>, text: string, i: nat)
    requires text != "" && i < |items|
    ensures !Searched(items, text)[i].hidden <==> ContainsIgnoringCase(items[i].text, text)
  {
  }

  /** The dock panel's state. */
  class DockPanel {
    const list: ListWidget
    var valuesLabel: string
    var uniqueValues: seq<string>
    var layer: Option<Layer>
    var field: Option<string>
    var fieldType: Option<string>

    ghost predicate Valid()
      reads this, list
    {
      list.Valid()
    }

    /** The field and its type name belong together: the type name is the
        one `change_field` reads for the field's name. */
    ghost predicate FieldConsistent()
      reads this
    {
      field.Some? ==>
        && layer.Some?
        && field.value in FieldNames(layer.value)
        && fieldType == Some(ReadTypeName(layer.value, field.value))
    }

    /** The panel for the layer the layer box shows first, if any. */
    constructor (current: Option<Layer>)
      ensures Valid() && fresh(list) && FieldConsistent()
      ensures layer == current && list.items == [] && uniqueValues == []
      ensures current.Some? && |current.value.fields| > 0 ==>
        field == Some(current.value.fields[0].name)
      ensures current.None? ==> field.None? && fieldType.None?
    {
      list := new ListWidget();
      valuesLabel := VALUES_LABEL;
      uniqueValues := [];
      layer := current;
      field := None;
      fieldType := None;
      new;
      if current.Some? {
        ChangeLayer(current);
      }
    }

    /** `clear_listWidget`: removes every item and resets the label. */
    method ClearListWidget()
      requires Valid()
      modifies this, list
      ensures Valid() && list.items == [] && valuesLabel == VALUES_LABEL
      ensures list.Presentation() == old(list.Presentation())
      ensures uniqueValues == old(uniqueValues) && layer == old(layer)
      ensures field == old(field) && fieldType == old(fieldType)
    {
      list.Clear();
      valuesLabel := VALUES_LABEL;
    }

    /** `show_values`: makes every hidden item visible again. */
    method ShowValues()
      requires Valid()
      modifies list
      ensures Valid() && list.Presentation() == old(list.Presentation())
      ensures list.items == Shown(old(list.items))
    {
      ghost var before := list.items;
      var i := 0;
      while i < |list.items|
        invariant 0 <= i <= |list.items| == |before|
        invariant Valid() && list.Presentation() == old(list.Presentation())
        invariant forall j :: 0 <= j < i ==> list.items[j] == before[j].(hidden := false)
        invariant forall j :: i <= j < |list.items| ==> list.items[j] == before[j]
      {
        if list.items[i].hidden {
          list.SetHidden(i, false);
        }
        i := i + 1;
      }
    }

    /** `search_value`: hides the items that do not contain the text, then
        shows those that do; an empty text does nothing. */
    method SearchValue(text: string)
      requires Valid()
      modifies list
      ensures Valid() && list.Presentation() == old(list.Presentation())
      ensures list.items == Searched(old(list.items), text)
    {
      if text != "" {
        HideNotMatching(text);
        ShowMatching(text);
      }
    }

    /** The first loop of `search_value`: hides every visible item whose text
        does not contain the search text. */
    method HideNotMatching(text: string)
      requires Valid()
      modifies list
      ensures Valid() && list.Presentation() == old(list.Presentation())
      ensures |list.items| == |old(list.items)|
      ensures forall j :: 0 <= j < |list.items| ==> list.items[j] == HiddenUnlessMatching(old(list.items)[j], text)
    {
      ghost var before := list.items;
      var i := 0;
      while i < |list.items|
        invariant 0 <= i <= |list.items| == |before|
        invariant Valid() && list.Presentation() == old(list.Presentation())
        invariant forall j :: 0 <= j < i ==> list.items[j] == HiddenUnlessMatching(before[j], text)
        invariant forall j :: i <= j < |list.items| ==> list.items[j] == before[j]
      {
        if !ContainsIgnoringCase(list.items[i].text, text) && !list.items[i].hidden {
          list.SetHidden(i, true);
        }
        i := i + 1;
      }
    }

    /** The second loop of `search_value`: shows every hidden item whose text
        contains the search text. */
    method ShowMatching(text: string)
      requires Valid()
      modifies list
      ensures Valid() && list.Presentation() == old(list.Presentation())
      ensures |list.items| == |old(list.items)|
      ensures forall j :: 0 <= j < |list.items| ==>
        list.items[j] == old(list.items)[j].(hidden := old(list.items)[j].hidden && !ContainsIgnoringCase(old(list.items)[j].text, text))
    {
      ghost var before := list.items;
      var i := 0;
      while i < |list.items|
        invariant 0 <= i <= |list.items| == |before|
        invariant Valid() && list.Presentation() == old(list.Presentation())
        invariant forall j :: 0 <= j < i ==>
          list.items[j] == before[j].(hidden := before[j].hidden && !ContainsIgnoringCase(before[j].text, text))
        invariant forall j :: i <= j < |list.items| ==> list.items[j] == before[j]
      {
        if ContainsIgnoringCase(list.items[i].text, text) && list.items[i].hidden {
          list.SetHidden(i, false);
        }
        i := i + 1;
      }
    }

    /** `build_expression` over the list's selected items. */
    method BuildExpression() returns (r: Option<string>)
      requires fieldType.Some?
      ensures r == Expression.ExpressionText(SelectedTexts(list.items), FieldText(field), fieldType.value)
    {
      r := Expression.BuildExpression(SelectedTexts(list.items), FieldText(field), fieldType.value);
    }

    /** `copy_values_string`: the rows handed to the clipboard, each selected
        value wrapped in `'`, in row order. */
    method CopyValuesString() returns (rows: seq<string>)
      ensures rows == QuotedAll(SelectedTexts(list.items))
    {
      var selected := SelectedTexts(list.items);
      if |selected| == 1 {
        rows := ["'" + selected[0] + "'"];
      } else {
        rows := [];
        for i := 0 to |selected|
          invariant rows == QuotedAll(selected[..i])
        {
          rows := rows + ["'" + selected[i] + "'"];
        }
        assert selected[..|selected|] == selected;
      }
    }

    /** `update_values`: clears the list, returns to extended selection, and,
        when a layer is chosen, shows either all the field's unique values,
        the distinct values of the selected features, or the one placeholder
        item when "selected features only" is on and nothing is selected. */
    method UpdateValues(selectedOnly: bool, allValues: seq<string>, selectedValues: seq<string>)
      requires Valid()
      modifies this, list
      ensures Valid()
      ensures layer == old(layer) && field == old(field) && fieldType == old(fieldType)
      ensures list.noSelection == old(list.noSelection) && list.sortingEnabled == old(list.sortingEnabled)
      ensures forall i :: 0 <= i < |list.items| ==> !list.items[i].hidden && !list.items[i].selected
      ensures layer.None? ==>
        && list.items == [] && valuesLabel == VALUES_LABEL && uniqueValues == old(uniqueValues)
        && list.mode == ExtendedSelection && !list.italic
      ensures layer.Some? ==> Texts(list.items) == uniqueValues
      ensures layer.Some? && !selectedOnly ==>
        && uniqueValues == allValues && valuesLabel == CountLabel(|allValues|)
        && list.mode == ExtendedSelection && !list.italic
      ensures layer.Some? && selectedOnly && |selectedValues| > 0 ==>
        && NoDuplicates(uniqueValues) && Elements(uniqueValues) == Elements(selectedValues)
        && valuesLabel == CountLabel(|uniqueValues|)
        && list.mode == ExtendedSelection && !list.italic
      ensures layer.Some? && selectedOnly && |selectedValues| == 0 ==>
        && uniqueValues == [NO_FEATURES_SELECTED] && valuesLabel == VALUES_LABEL
        && list.mode == NoSelection && list.italic
    {
      ClearListWidget();
      if list.mode == NoSelection {
        list.SetSelectionMode(ExtendedSelection);
      }
      list.SetItalic(false);
      if layer.Some? {
        var values, caption := ValuesToShow(selectedOnly, allValues, selectedValues);
        uniqueValues := values;
        if selectedOnly && |selectedValues| == 0 {
          list.SetSelectionMode(NoSelection);
          list.SetItalic(true);
        } else {
          valuesLabel := caption;
        }
        list.AddItems(uniqueValues);
      }
    }

    /** `change_field`: takes the field the field box now shows and reads
        its type name at the provider's index of that name. */
    method ChangeField(name: string)
      requires Valid() && layer.Some? && name in FieldNames(layer.value)
      modifies this
      ensures Valid() && FieldConsistent()
      ensures field == Some(name) && layer == old(layer)
      ensures valuesLabel == old(valuesLabel) && uniqueValues == old(uniqueValues)
    {
      field := Some(name);
      var fields := layer.value.fields;
      var idx := ProviderIndex(layer.value, name);
      fieldType := Some(fields[if idx < 0 then |fields| + idx else idx].typeName);
    }

    /** `change_layer`: clears the list, forgets the field, takes the new
        layer and, when it has fields, moves to its first field. */
    method ChangeLayer(current: Option<Layer>)
      requires Valid()
      modifies this, list
      ensures Valid() && FieldConsistent()
      ensures layer == current && list.items == [] && valuesLabel == VALUES_LABEL
      ensures list.Presentation() == old(list.Presentation())
      ensures uniqueValues == old(uniqueValues)
      ensures current.Some? && |current.value.fields| > 0 ==>
        field == Some(current.value.fields[0].name)
      ensures !(current.Some? && |current.value.fields| > 0) ==>
        field.None? && fieldType == old(fieldType)
    {
      ClearListWidget();
      field := None;
      layer := current;
      if layer.None? {
        return;
      }
      if |layer.value.fields| > 0 {
        var first := layer.value.fields[0];
        assert FieldNames(layer.value)[0] == first.name;
        ChangeField(first.name);
      }
    }
  }
}

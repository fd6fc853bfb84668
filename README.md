# Unique Values Viewer — a Dafny model of its value-list logic

Unique Values Viewer is a QGIS dock panel. It lists the distinct values of one
field of a vector layer, lets the user filter the list by a search text, copy
the selected values, and turn them into a selection expression
`"field" in (v1,v2,...)`. This project models the plugin's own rules, the parts
that do not belong to QGIS or Qt:

- **Field-type classification** (`FieldTypes`, core/utils.py): the type-name
  sets, the `FieldTypes` flag enumeration with its composite members,
  `match_field_type` and `get_sort_key`.
- **Expression fields** (`LayerUtils`, core/layer_utils.py and its copy in
  core/utils.py): `is_expression_field` over a layer abstracted to the
  (name, type name, expression) records of its fields.
- **Settings** (`Settings`, core/settings.py): the defaults, the separator
  and quote tables, `restore_defaults` on a store modelled as a map, and the
  two lookups with their KeyError path.
- **The list widget** (`Widgets`, core/widgets.py): items as records with an
  identity, a text and hidden/selected flags; copy formatting, selection
  inversion, the placeholder mode and `delete_list_widget_items`.
- **Expression synthesis** (`Expression`, unique_values_viewer_dockwidget.py):
  `build_expression` exactly as written, over any sequence of selected texts.
- **The panel** (`Dock`, unique_values_viewer_dockwidget.py): `update_values`
  with its three outcomes, `get_unique_values_selected`, `search_value`,
  `show_values`, `clear_listWidget`, `change_field` with the data provider's
  field index, the field fallback of `change_layer`, and `build_expression`
  and `copy_values_string` over the list's selected items.

`Wrappers` holds the Option and Result types, `Text` the string helpers
(`str.lower` on ASCII, `join`, `split`, containment, decimal formatting).

Four behaviours of the code are worth knowing when reading the model:

- `build_expression` does not escape quotes inside string values, has no null
  or boolean special forms, and for an empty selection yields `"field" in )`
  (`Expression.NoQuoteEscaping`, `Expression.ExpressionClosedForm`).
- It accepts only the type names `string`, `double`, `real`, `integer`,
  `integer64`, `time`, `datetime` and `boolean`, so a `date`, `text` or `int`
  field gets no expression (`Expression.ExpressionTypeNames`).
- `change_layer` always moves to the new layer's first field; it does not keep
  the previous field when the new layer has one of that name
  (`Dock.DockPanel.ChangeLayer`).
- `change_field` reads the type name from the layer's fields at the data
  provider's index of the name. The provider does not know a virtual field,
  so, when names are matched exactly, its index is -1 and such a field takes
  the type name of the layer's last field (`Dock.VirtualFieldTypeName`). A stored field reads its own type name
  (`Dock.StoredFieldTypeName`).

## Model

| member | source | states |
|---|---|---|
| `FieldTypes.MatchFieldType` | core/utils.py:75-91 | The result is one of the six primitive categories or UNSUPPORTED, and it is category X exactly when the lower-cased name is in X's name set; it is UNSUPPORTED exactly when the lower-cased name is not in FIELD_TYPES |
| `FieldTypes.NameSetsDisjoint` | core/utils.py:10-19 | The six primitive name sets are pairwise disjoint, so the order of the if-chain never decides a category |
| `FieldTypes.MatchIgnoresCase` | core/utils.py:78-90 | Two type names that differ only in letter case classify identically |
| `FieldTypes.MatchEveryListedName` | core/utils.py:78-89 | Every name of a primitive set, written in any letter case, classifies as that set's category |
| `FieldTypes.UintIsInteger` | core/utils.py:96-103 | `uint` and `UInt` are INTEGER; INTEGER or-ed with DECIMAL is NUMERIC, or-ed with INTEGER it is not |
| `FieldTypes.Or` | core/utils.py:23-33 | Or-ing two flags unions their bits; it fails when one operand is UNSUPPORTED, whose value is None |
| `FieldTypes.CompositesAreUnions` | core/utils.py:30-32 | DATETIME = DATE or TIME, NUMERIC = DECIMAL or INTEGER, and SUPPORTED_TYPES is the union of all six primitives |
| `FieldTypes.CompositeNameSets` | core/utils.py:13-20 | A lower-cased name is in NUMERIC_FIELDS, DATETIME_FIELDS or FIELD_TYPES exactly when its category lies within NUMERIC, DATETIME or SUPPORTED_TYPES |
| `FieldTypes.GetSortKey` | core/utils.py:36-45 | The key is `float` exactly for DECIMAL and `int` exactly for INTEGER |
| `FieldTypes.SortKeyNumericOnlyForPrimitives` | core/utils.py:40-45 | NUMERIC, DATETIME, SUPPORTED_TYPES and UNSUPPORTED get no key; any category with a key is a single numeric bit |
| `FieldTypes.SortKeyOfTypeName` | core/utils.py:78-81 | A type name gets a numeric sort key exactly when its lower-cased form is in NUMERIC_FIELDS |
| `LayerUtils.FieldNames` | core/layer_utils.py:17 | The names list has one entry per field, in field order |
| `LayerUtils.IndexFromName` | core/layer_utils.py:21 | The index is that of the first field with the name, or -1 exactly when no field has it |
| `LayerUtils.IsExpressionField` | core/layer_utils.py:17-30 | NameError exactly when the name is not among the layer's field names; otherwise true exactly when the resolved field's expression is non-empty and its type name is empty |
| `LayerUtils.StoredFieldsAreNotExpressionFields` | core/utils.py:66-72 | A field with a non-empty type name, or with an empty expression, is never reported as an expression field |
| `LayerUtils.OnlyTheNamedFieldMatters` | core/layer_utils.py:21-25 | Layers with the same field names that agree on the resolved field give the same answer |
| `LayerUtils.OtherFieldsDoNotMatter` | core/utils.py:63-67 | Replacing the metadata of any other field leaves the answer unchanged |
| `Settings.LookupChar` | core/settings.py:46-52 | The lookup succeeds exactly when the key is stored with a string value that is a key of the table, and then yields the table's entry; otherwise KeyError |
| `Settings.GetQuoteChar` | core/settings.py:46-48 | A successful lookup yields one of the quote table's characters |
| `Settings.GetSepChar` | core/settings.py:50-52 | A successful lookup yields one of the separator table's characters |
| `Settings.Restored` | core/settings.py:54-57 | The restored store has the old keys plus every default key |
| `Settings.RestoredKeepsOthers` | core/settings.py:8-17 | After restoring, every default key holds its default and every other key is present and valued exactly as before |
| `Settings.RestoredChars` | core/settings.py:11-13 | After restoring, the quote character is `'` and the separator is `,` |
| `Settings.SeparatorTable` | core/settings.py:19-26 | `None` and `Other` give the empty string, `Space` and `Tab` their characters, `,` and `;` themselves |
| `Settings.QuoteTable` | core/settings.py:28-35 | Every literal quote key maps to itself; `Space` gives a blank and `Other` the empty custom default |
| `Settings.UnknownChoiceIsKeyError` | core/settings.py:46-52 | For every store, each lookup is a KeyError exactly when its key is missing, holds a number, or holds a choice the table does not know |
| `Settings.TabIsNoQuoteChoice` | core/settings.py:19-35 | `Tab` under `quote_char` is a KeyError, while under `sep_char` it gives a tab |
| `Settings.AllDefaultsWritten` | core/settings.py:56-57 | Writing the default keys one by one in declaration order writes exactly DEFAULTS |
| `Settings.UVVSettings.constructor` | core/settings.py:37-40 | The settings object opens the persisted store as it is |
| `Settings.UVVSettings.RestoreDefaults` | core/settings.py:54-57 | Writing the defaults one key at a time leaves the store equal to `Restored` of the old store, the old store overridden by DEFAULTS (what that means per key is `Settings.RestoredKeepsOthers`) |
| `Widgets.SelectedTexts` | core/widgets.py:59 | A text is among the selected texts exactly when some selected item carries it; there are no more of them than items |
| `Widgets.SelectedTextsAppend` | core/widgets.py:59 | Selected texts follow row order: those of two runs of rows are the first run's followed by the second's |
| `Widgets.ListWidget.CopyValues` | core/widgets.py:57-64 | The copied text is the widget's selected texts joined by newlines; the one-item branch agrees with the join |
| `Widgets.ListWidget.CopyValuesQuoted` | core/widgets.py:66-75 | The copied text is each of the widget's selected texts wrapped in `'`, joined by newlines; the one-item branch agrees |
| `Widgets.CopyValuesRoundTrip` | core/widgets.py:59-75 | With at least one selected text and no newline inside any, splitting the copied text at newlines gives back the texts (quoted, for the quoted copy) |
| `Widgets.Switched` | core/widgets.py:90-99 | Each item keeps its identity, text and hidden flag; it is selected afterwards exactly when the mode allows selection and it was not selected before |
| `Widgets.SwitchTwice` | core/widgets.py:94-99 | In extended mode an item is selected after switching iff it was not before, and switching twice restores the selection |
| `Widgets.SwitchKeepsItems` | core/widgets.py:90-99 | Switching changes no text, identity or hidden flag |
| `Widgets.ListWidget.SwitchSelectedItems` | core/widgets.py:90-99 | The new items are the switched old items; mode and flags are unchanged |
| `Widgets.ListWidget.SetExtendedSelection` | core/widgets.py:77-81 | `no_selection` becomes false, the mode extended and the font normal; items are untouched |
| `Widgets.ListWidget.SetNoSelection` | core/widgets.py:83-88 | `no_selection` becomes true, exactly one visible, unselected `No features selected` item is appended, the mode is NoSelection and the font italic |
| `Widgets.ListWidget.constructor` | core/widgets.py:51-55 | A fresh widget is empty with `no_selection` false and `sorting_enabled` true |
| `Widgets.RowOf` | core/widgets.py:25 | The row holds the item with that identity, or is -1 exactly when no item has it |
| `Widgets.Without` | core/widgets.py:24-26 | Removal never lengthens the list |
| `Widgets.WithoutMembers` | core/widgets.py:24-26 | An item remains exactly when it was there and its identity was not given |
| `Widgets.WithoutKeepsOrder` | core/widgets.py:24-26 | Two remaining items keep their relative order |
| `Widgets.DeleteItems` | core/widgets.py:14-26 | The widget's items become the old items without the given ones, in their original order; given items no longer present are skipped |
| `Expression.Literal` | unique_values_viewer_dockwidget.py:171-194 | A string-typed value is wrapped in single quotes verbatim; any other value is written as it is |
| `Expression.ExpressionText` | unique_values_viewer_dockwidget.py:170-201 | There is no expression exactly when the lower-cased type name is none of the eight accepted names |
| `Expression.TerminatedIsJoin` | unique_values_viewer_dockwidget.py:170-200 | For at least one value, the accumulated literals are the comma-joined literals plus one trailing comma |
| `Expression.ExpressionClosedForm` | unique_values_viewer_dockwidget.py:199-201 | With values the expression is `"field" in (` + literals joined by `,` + `)`; with none it is `"field" in )` |
| `Expression.ExpressionListsValues` | unique_values_viewer_dockwidget.py:170-201 | When no value contains a comma, the text between `"field" in (` and the final `)` splits at commas into exactly the literals, one per selected value, in order |
| `Expression.ExpressionTypeNames` | unique_values_viewer_dockwidget.py:171-197 | `date`, `text` and `int` are not among the accepted type names, so they yield no expression |
| `Expression.ExpressionCapitalisedNames` | unique_values_viewer_dockwidget.py:171-197 | `String` and `Integer64` are accepted, because type names are compared after lower-casing |
| `Expression.NoQuoteEscaping` | unique_values_viewer_dockwidget.py:171-173 | The value `it's` of a string field yields `"field" in ('it's')`, with the inner quote not escaped |
| `Expression.AppendLiterals` | unique_values_viewer_dockwidget.py:171-194 | The accumulation loop each accepted branch runs appends exactly every literal followed by a comma, in order |
| `Expression.BuildExpression` | unique_values_viewer_dockwidget.py:156-201 | The branch on the lower-cased type name, the accumulation and the closing `[:-1] + ")"` give exactly `ExpressionText`, for every selection and type name |
| `Dock.CountLabel` | unique_values_viewer_dockwidget.py:550 | The label is `Unique values [`, decimal digits that denote the count, and `]` |
| `Dock.CountLabelInjective` | unique_values_viewer_dockwidget.py:550 | Two counts give the same label exactly when they are equal |
| `Dock.UniqueValuesSelected` | unique_values_viewer_dockwidget.py:453-461 | The result holds exactly the selected features' values, each once |
| `Dock.SetToList` | unique_values_viewer_dockwidget.py:553 | The list holds every element of the set exactly once |
| `Dock.ValuesToShow` | unique_values_viewer_dockwidget.py:546-559 | Without "selected only" the values are all unique values with their count label; with it and a selection, the distinct selected values, each once, with their count label; with it and no selection, the one placeholder and the plain label |
| `Dock.Searched` | unique_values_viewer_dockwidget.py:492-515 | With a non-empty text an item is hidden exactly when its text does not contain the search text, case aside; an empty text changes nothing |
| `Dock.Shown` | unique_values_viewer_dockwidget.py:534-536 | Every item becomes visible and nothing else changes |
| `Dock.SearchThenShow` | unique_values_viewer_dockwidget.py:488-536 | Searching is idempotent, keeps the texts, and showing afterwards gives the same list as showing without the search |
| `Dock.SearchVisibility` | unique_values_viewer_dockwidget.py:503-515 | After a search an item is visible exactly when its text contains the search text |
| `Dock.DockPanel.SearchValue` | unique_values_viewer_dockwidget.py:488-515 | The two passes leave the items as specified by the search; an empty text changes nothing |
| `Dock.DockPanel.HideNotMatching` | unique_values_viewer_dockwidget.py:503-511 | Every item whose text does not contain the search text ends up hidden; every other item keeps its hidden flag |
| `Dock.DockPanel.ShowMatching` | unique_values_viewer_dockwidget.py:512-515 | Every item whose text contains the search text ends up visible; every other item keeps its hidden flag |
| `Dock.DockPanel.BuildExpression` | unique_values_viewer_dockwidget.py:156-201 | The expression is built from the list's selected texts in row order, the panel's field (`None` when there is none) and its type name |
| `Dock.DockPanel.CopyValuesString` | unique_values_viewer_dockwidget.py:324-336 | The clipboard rows are the list's selected texts in row order, each wrapped in `'`; the one-item branch agrees with the loop |
| `Dock.DockPanel.ShowValues` | unique_values_viewer_dockwidget.py:530-536 | Every item is visible afterwards, otherwise unchanged |
| `Dock.DockPanel.ClearListWidget` | unique_values_viewer_dockwidget.py:269-274 | The list is empty and the label reads `Unique values` |
| `Dock.DockPanel.UpdateValues` | unique_values_viewer_dockwidget.py:538-561 | The list is rebuilt from scratch: without a layer it stays empty; otherwise it shows all unique values, or the distinct selected values, each with the label `Unique values [n]`, or the single `No features selected` item in NoSelection mode and italics |
| `Dock.ProviderFields` | unique_values_viewer_dockwidget.py:207 | The provider knows exactly the layer's stored fields |
| `Dock.ProviderFieldsPrefix` | unique_values_viewer_dockwidget.py:207-208 | When the stored fields come first, the provider's fields are a prefix of the layer's, so its indices are the layer's |
| `Dock.StoredFieldTypeName` | unique_values_viewer_dockwidget.py:207-208 | For a stored field, with the stored fields first, the type name read is that of the field of that name |
| `Dock.VirtualFieldTypeName` | unique_values_viewer_dockwidget.py:207-208 | For a name only virtual fields carry, the provider's index is -1 and the type name read is the layer's last field's |
| `Dock.DockPanel.ChangeField` | unique_values_viewer_dockwidget.py:203-208 | The field is the given name and its type name is read from the layer's fields at the provider's index of that name |
| `Dock.DockPanel.ChangeLayer` | unique_values_viewer_dockwidget.py:216-243 | The list is cleared, the new layer taken, and the field becomes the new layer's first field when it has one, none otherwise; the type name is read from the provider's index of the new field |
| `Dock.DockPanel.constructor` | unique_values_viewer_dockwidget.py:118-149 | A new panel holds the layer box's current layer and, through the layer change, its first field |
| `Text.Lower` | core/utils.py:78 | Lower-casing keeps the length and lower-cases each ASCII letter |
| `Text.LowerFixesLowerCase` | core/utils.py:78-89 | Lower-casing yields lower-case text and leaves exactly the lower-case strings unchanged |
| `Text.JoinSnoc` | core/widgets.py:63 | Joining one more part appends the separator and that part |
| `Text.SplitJoin` | core/widgets.py:63 | Splitting a join at its one-character separator gives the parts back when no part contains the separator |
| `Text.NatToString` | unique_values_viewer_dockwidget.py:550 | The count is written in decimal digits, with no leading zero unless it is 0 |
| `Text.NatToStringValue` | unique_values_viewer_dockwidget.py:550 | The digits written denote the number |

## Left out

- unique_values_viewer.py and \_\_init\_\_.py are not part of this model: plugin loading, translation, menu, toolbar and dock registration belong to the host.
- Signal wiring is not modelled: connecting and disconnecting `selectionChanged` in `change_layer`, `change_update_on_selection` and `enable_only_selected_features`, with the swallowed TypeError.
- `eventFilter`, `keyPressEvent`, `closeEvent`, `layerRefresh` and `change_sorting` only build menus or call the canvas and Qt.
- `copy_features`, `select_features`, `add_to_selection` and `remove_from_selection` hand the built expression, or a select-all of the layer, to the host. `select_all_values` and `deselect_values` only call the list widget's `selectAll` and `clearSelection`. Of these, only the expression (`Dock.DockPanel.BuildExpression`) and the list's `selectAll` (`Widgets.ListWidget.SelectAll`) are modelled.
- `get_unique_values` and feature iteration are the host's: the distinct values and the selected features' values are inputs, already turned into strings. Both read attributes at the provider's index of the field, and what that gives for a virtual field (index -1) is left to the host.
- Clipboard writes are not modelled: only the text or rows that would be written. The pandas serialisation of those rows is left out.
- Sorting is not modelled: neither Qt's sorting of list items nor the float and int parsing of sort keys. `FieldTypes.GetSortKey` returns a tag for the key type.
- `Text.Lower`: lower-cases ASCII letters only, because Python's `str.lower` is full Unicode.
- `Dock.Searched`: the search text is taken as plain text. Qt's regular-expression semantics for `findItems` are left out. Qt matches case-insensitively by default; the model folds ASCII letters only.
- `Widgets.SelectedTexts`: selected items are taken in row order. Qt returns them in the order they were selected.
- `Widgets.ListWidget.constructor`: only the two selection modes the plugin sets are modelled. A plain Qt list widget starts in single selection; the widget is taken to start in extended selection, as the panel's Qt Designer form is expected to set it. That form is not part of this model.
- `Widgets.DeleteItems`: the items to delete are given by their identities, because Qt items are objects.
- `Dock.DockPanel.ChangeField`: requires the name to be one of the layer's fields, because the field box offers only those. Joined fields are not modelled: the provider is taken to know every field with an empty expression. The provider's name lookup is modelled as an exact match of names; any case-insensitive or alias matching QGIS may add is left out. The live-update and clear-on-select branches are left out, since they depend on toggle buttons and host values.
- `Dock.DockPanel.ChangeLayer`: models only the field fallback. The field box's own signal is taken as calling `change_field` once with the first field.
- `Dock.DockPanel.constructor`: the initial label comes from the Qt Designer form, which is not part of this model. It is set to `Unique values`.
- `Dock.DockPanel.BuildExpression`: requires a type name. Without one the source raises AttributeError, which the model does not represent.
- `Dock.DockPanel.UpdateValues`: the layer box's current layer and the panel's layer are taken to be the same. The call to `layerRefresh` is left out.
- `Settings`: the settings group prefix and the value conversions of the host's store are left out. `get_setting` and `set_value` are empty stubs in the source.
- `NullItem` in core/widgets.py is an empty class and is not modelled.

/** The plugin's list widget and its helpers (core/widgets.py).

    The Qt list widget is modelled by its state: the items in row order, each
    a record with an identity, a text and its hidden and selected flags, plus
    the selection mode, the font style and the two flags `UVVListWidget` adds.
    A Qt item is an object; its identity is the record's `id`, which the
    widget keeps unique. */
module Widgets {
  import opened Text

  /** The placeholder text shown when no feature is selected. */
  const NO_FEATURES_SELECTED: string := "No features selected"

  datatype Item = Item(id: nat, text: string, hidden: bool, selected: bool)

  /** The two selection modes the plugin uses. */
  datatype SelectionMode = ExtendedSelection | NoSelection

  function Texts(items: seq<Item>): (texts: seq<string>)
    ensures |texts| == |items|
    ensures forall i :: 0 <= i < |items| ==> texts[i] == items[i].text
  {
    seq(|items|, i requires 0 <= i < |items| => items[i].text)
  }

  /** The texts of `selectedItems()`, taken in row order: a text is present
      exactly when some selected item carries it. */
  function SelectedTexts(items: seq<Item>): (texts: seq<string>)
    ensures |texts| <= |items|
    ensures forall t :: t in texts <==>
      exists i :: 0 <= i < |items| && items[i].selected && items[i].text == t
  {
    if items == [] then []
    else (if items[0].selected then [items[0].text] else []) + SelectedTexts(items[1..])
  }

  /** Row order: the selected texts of two runs of rows are those of the
      first run followed by those of the second. */
  lemma {:induction false} SelectedTextsAppend(a: seq<Item>, b: seq<Item>)
    ensures SelectedTexts(a + b) == SelectedTexts(a) + SelectedTexts(b)
  {
    if a == [] {
      assert a + b == b;
    } else {
      var head := if a[0].selected then [a[0].text] else [];
      assert (a + b)[0] == a[0] && (a + b)[1..] == a[1..] + b;
      calc {
        SelectedTexts(a + b);
        head + SelectedTexts(a[1..] + b);
        { SelectedTextsAppend(a[1..], b); }
        head + (SelectedTexts(a[1..]) + SelectedTexts(b));
        (head + SelectedTexts(a[1..])) + SelectedTexts(b);
        SelectedTexts(a) + SelectedTexts(b);
      }
    }
  }

  predicate DistinctIds(items: seq<Item>)
  {
    forall i, j :: 0 <= i < j < |items| ==> items[i].id != items[j].id
  }

  /** The items whose identity is not in `ids`, in their original order. */
  function Without(items: seq<Item>, ids: set<nat>): (r: seq<Item>)
    ensures |r| <= |items|
  {
    if items == [] then []
    else (if items[0].id in ids then [] else [items[0]]) + Without(items[1..], ids)
  }

  /** The items kept are exactly those whose identity is not removed. */
  lemma {:induction false} WithoutMembers(items: seq<Item>, ids: set<nat>)
    ensures forall x :: x in Without(items, ids) <==> x in items && x.id !in ids
  {
    if items != [] {
      WithoutMembers(items[1..], ids);
      assert items == [items[0]] + items[1..];
    }
  }

  /** Removing nothing keeps every item. */
  lemma {:induction false} WithoutNothing(items: seq<Item>)
    ensures Without(items, {}) == items
  {
    if items != [] {
      WithoutNothing(items[1..]);
      assert items == [items[0]] + items[1..];
    }
  }

  /** The elements of a sequence, each once. */
  function Elements<T>(xs: seq<T>): set<T>
  {
    set x | x in xs
  }

  lemma ElementsPrefix<T>(xs: seq<T>, i: nat)
    requires i < |xs|
    ensures Elements(xs[..i + 1]) == Elements(xs[..i]) + {xs[i]}
  {
    assert xs[..i + 1] == xs[..i] + [xs[i]];
  }

  /** The items after `takeItem(row)`: the row removed, or nothing for an
      invalid row. */
  function TakeRow(items: seq<Item>, row: int): (r: seq<Item>)
    ensures 0 <= row < |items| ==> |r| == |items| - 1
    ensures !(0 <= row < |items|) ==> r == items
  {
    if 0 <= row < |items| then items[..row] + items[row + 1..] else items
  }

  /** One round of `delete_list_widget_items`: taking out the row `RowOf`
      finds removes that identity from what is left. */
  lemma DeleteStep(start: seq<Item>, done: set<nat>, id: nat)
    requires DistinctIds(Without(start, done))
    ensures var current := Without(start, done);
      TakeRow(current, RowOf(current, id)) == Without(start, done + {id})
  {
    var current := Without(start, done);
    var row := RowOf(current, id);
    if row == -1 {
      WithoutAbsent(current, id);
    } else {
      TakeIsWithout(current, row);
    }
    WithoutTwice(start, done, {id});
  }

  /** Removing in two rounds removes the union of both rounds. */
  lemma {:induction false} WithoutTwice(items: seq<Item>, a: set<nat>, b: set<nat>)
    ensures Without(Without(items, a), b) == Without(items, a + b)
  {
    if items != [] {
      WithoutTwice(items[1..], a, b);
      var rest := Without(items[1..], a);
      if items[0].id in a {
        assert Without(items, a) == rest;
      } else {
        assert Without(items, a) == [items[0]] + rest;
        assert ([items[0]] + rest)[1..] == rest;
      }
    }
  }

  /** Removing an identity that no item carries changes nothing. */
  lemma {:induction false} WithoutAbsent(items: seq<Item>, id: nat)
    requires forall i :: 0 <= i < |items| ==> items[i].id != id
    ensures Without(items, {id}) == items
  {
    if items != [] {
      WithoutAbsent(items[1..], id);
    }
  }

  /** Taking the item at row `r` out of a list without repeated identities
      removes exactly that item's identity. */
  lemma {:induction false} TakeIsWithout(items: seq<Item>, r: nat)
    requires DistinctIds(items) && r < |items|
    ensures items[..r] + items[r + 1..] == Without(items, {items[r].id})
  {
    if r == 0 {
      WithoutAbsent(items[1..], items[0].id);
    } else {
      TakeIsWithout(items[1..], r - 1);
      assert items[1..][..r - 1] + items[1..][r..] == items[1..r] + items[r + 1..];
      assert items[..r] + items[r + 1..] == [items[0]] + (items[1..r] + items[r + 1..]);
    }
  }

  /** The row of the item with identity `id`, or -1 (`row(item)`). */
  function RowOf(items: seq<Item>, id: nat): (row: int)
    ensures -1 <= row < |items|
    ensures row == -1 <==> forall i :: 0 <= i < |items| ==> items[i].id != id
    ensures row >= 0 ==> items[row].id == id
  {
    if items == [] then -1
    else if items[0].id == id then 0
    else
      var k := RowOf(items[1..], id);
      if k == -1 then -1 else k + 1
  }

  /** The selection after `switchSelectedItems`: `selectAll` marks every item
      (and does nothing in NoSelection mode), then the items selected before
      are deselected. */
  function Switched(items: seq<Item>, mode: SelectionMode): (r: seq<Item>)
    ensures |r| == |items|
    ensures forall i :: 0 <= i < |items| ==>
      r[i] == items[i].(selected := mode == ExtendedSelection && !items[i].selected)
  {
    seq(|items|, i requires 0 <= i < |items| =>
      items[i].(selected := mode == ExtendedSelection && !items[i].selected))
  }

  /** In extended mode an item is selected after switching iff it was not
      before, so switching twice restores the selection. */
  lemma SwitchTwice(items: seq<Item>)
    ensures forall i :: 0 <= i < |items| ==>
      Switched(items, ExtendedSelection)[i].selected == !items[i].selected
    ensures Switched(Switched(items, ExtendedSelection), ExtendedSelection) == items
  {
    var twice := Switched(Switched(items, ExtendedSelection), ExtendedSelection);
    assert forall i :: 0 <= i < |items| ==> twice[i] == items[i];
  }

  /** The items and texts are untouched by switching. */
  lemma SwitchKeepsItems(items: seq<Item>, mode: SelectionMode)
    ensures Texts(Switched(items, mode)) == Texts(items)
    ensures forall i :: 0 <= i < |items| ==>
      Switched(items, mode)[i].id == items[i].id && Switched(items, mode)[i].hidden == items[i].hidden
  {
  }

  // ---- Copy formatting -----------------------------------------------------

  /** `'` + text + `'`. */
  function Quote(text: string): (r: string)
    ensures |r| == |text| + 2 && r[0] == '\'' && r[|r| - 1] == '\''
    ensures r[1..|r| - 1] == text
  {
    "'" + text + "'"
  }

  function QuotedAll(texts: seq<string>): (r: seq<string>)
    ensures |r| == |texts|
    ensures forall i :: 0 <= i < |texts| ==> r[i] == Quote(texts[i])
  {
    seq(|texts|, i requires 0 <= i < |texts| => Quote(texts[i]))
  }

  /** The copied text splits at its newlines back into the selected texts,
      when at least one is selected and none holds a newline. */
  lemma CopyValuesRoundTrip(selected: seq<string>)
    requires |selected| >= 1
    requires forall i :: 0 <= i < |selected| ==> '\n' !in selected[i]
    ensures Split(Join("\n", selected), '\n') == selected
    ensures Split(Join("\n", QuotedAll(selected)), '\n') == QuotedAll(selected)
  {
    SplitJoin(selected, '\n');
    var q := QuotedAll(selected);
    forall i | 0 <= i < |q| ensures '\n' !in q[i] {
      assert q[i] == "'" + selected[i] + "'";
    }
    SplitJoin(q, '\n');
  }

  // ---- The list widget -----------------------------------------------------

  /** `UVVListWidget`: a Qt list widget with a placeholder mode and a sort flag. */
  class ListWidget {
    var items: seq<Item>
    var nextId: nat
    var mode: SelectionMode
    var italic: bool
    var noSelection: bool
    var sortingEnabled: bool

    /** Item identities are unique and below the next identity handed out. */
    ghost predicate Valid()
      reads this
    {
      DistinctIds(items) && forall i :: 0 <= i < |items| ==> items[i].id < nextId
    }

    /** Everything but the items. */
    function Presentation(): (SelectionMode, bool, bool, bool)
      reads this
    {
      (mode, italic, noSelection, sortingEnabled)
    }

    constructor ()
      ensures Valid() && items == []
      ensures mode == ExtendedSelection && !italic
      ensures !noSelection && sortingEnabled
    {
      items := [];
      nextId := 0;
      mode := ExtendedSelection;
      italic := false;
      noSelection := false;
      sortingEnabled := true;
    }

    /** `addItem(text)`: a new visible, unselected item at the end. */
    method AddItem(text: string)
      requires Valid()
      modifies this
      ensures Valid() && Presentation() == old(Presentation())
      ensures items == old(items) + [Item(old(nextId), text, false, false)]
    {
      items := items + [Item(nextId, text, false, false)];
      nextId := nextId + 1;
    }

    /** `addItems(texts)`: one new visible, unselected item per text, in order. */
    method AddItems(texts: seq<string>)
      requires Valid()
      modifies this
      ensures Valid() && Presentation() == old(Presentation())
      ensures |items| == |old(items)| + |texts| && items[..|old(items)|] == old(items)
      ensures Texts(items) == Texts(old(items)) + texts
      ensures forall i :: |old(items)| <= i < |items| ==> !items[i].hidden && !items[i].selected
    {
      var i := 0;
      while i < |texts|
        invariant 0 <= i <= |texts|
        invariant Valid() && Presentation() == old(Presentation())
        invariant |items| == |old(items)| + i && items[..|old(items)|] == old(items)
        invariant Texts(items) == Texts(old(items)) + texts[..i]
        invariant forall j :: |old(items)| <= j < |items| ==> !items[j].hidden && !items[j].selected
      {
        AddItem(texts[i]);
        assert texts[..i + 1] == texts[..i] + [texts[i]];
        i := i + 1;
      }
      assert texts[..i] == texts;
    }

    /** `clear()`: removes every item. */
    method Clear()
      requires Valid()
      modifies this
      ensures Valid() && Presentation() == old(Presentation())
      ensures items == []
    {
      items := [];
    }

    method SetSelectionMode(m: SelectionMode)
      requires Valid()
      modifies this
      ensures Valid() && items == old(items)
      ensures Presentation() == (m, old(italic), old(noSelection), old(sortingEnabled))
    {
      mode := m;
    }

    /** `setStyleSheet` with an italic or a normal font style. */
    method SetItalic(b: bool)
      requires Valid()
      modifies this
      ensures Valid() && items == old(items)
      ensures Presentation() == (old(mode), b, old(noSelection), old(sortingEnabled))
    {
      italic := b;
    }

    /** `item(row).setHidden(h)`. */
    method SetHidden(row: nat, h: bool)
      requires Valid() && row < |items|
      modifies this
      ensures Valid() && Presentation() == old(Presentation())
      ensures items == old(items)[row := old(items)[row].(hidden := h)]
    {
      items := items[row := items[row].(hidden := h)];
    }

    /** `item(row).setSelected(s)`. */
    method SetSelected(row: nat, s: bool)
      requires Valid() && row < |items|
      modifies this
      ensures Valid() && Presentation() == old(Presentation())
      ensures items == old(items)[row := old(items)[row].(selected := s)]
    {
      items := items[row := items[row].(selected := s)];
    }

    /** `selectAll()`: selects every item, unless selection is switched off. */
    method SelectAll()
      requires Valid()
      modifies this
      ensures Valid() && Presentation() == old(Presentation())
      ensures |items| == |old(items)|
      ensures forall i :: 0 <= i < |items| ==>
        items[i] == old(items)[i].(selected := mode == ExtendedSelection || old(items)[i].selected)
    {
      if mode == ExtendedSelection {
        var current := items;
        items := seq(|current|, i requires 0 <= i < |current| => current[i].(selected := true));
      }
    }

    /** `takeItem(row)`: removes the item at `row`; an invalid row removes nothing. */
    method TakeItem(row: int)
      requires Valid()
      modifies this
      ensures Valid() && Presentation() == old(Presentation())
      ensures items == TakeRow(old(items), row)
    {
      if 0 <= row < |items| {
        items := items[..row] + items[row + 1..];
      }
    }

    /** `copy_values`: the text put on the clipboard, the one selected text
        itself or the selected texts joined by newlines. */
    method CopyValues() returns (clip: string)
      ensures clip == Join("\n", SelectedTexts(items))
    {
      var selected := SelectedTexts(items);
      if |selected| == 1 {
        clip := selected[0];
      } else {
        clip := Join("\n", selected);
      }
    }

    /** `copy_values_quoted`: as `copy_values`, each text wrapped in `'`. */
    method CopyValuesQuoted() returns (clip: string)
      ensures clip == Join("\n", QuotedAll(SelectedTexts(items)))
    {
      var selected := SelectedTexts(items);
      if |selected| == 1 {
        clip := Quote(selected[0]);
      } else {
        clip := Join("\n", QuotedAll(selected));
      }
    }

    /** `setExtendedSelection`: leaves the placeholder mode; items untouched. */
    method SetExtendedSelection()
      requires Valid()
      modifies this
      ensures Valid() && items == old(items)
      ensures !noSelection && mode == ExtendedSelection && !italic
      ensures sortingEnabled == old(sortingEnabled)
    {
      noSelection := false;
      mode := ExtendedSelection;
      italic := false;
    }

    /** `setNoSelection`: enters the placeholder mode and appends exactly one
        placeholder item. */
    method SetNoSelection()
      requires Valid()
      modifies this
      ensures Valid()
      ensures noSelection && mode == NoSelection && italic
      ensures sortingEnabled == old(sortingEnabled)
      ensures |items| == |old(items)| + 1 && items[..|old(items)|] == old(items)
      ensures items[|old(items)|].text == NO_FEATURES_SELECTED
      ensures !items[|old(items)|].hidden && !items[|old(items)|].selected
    {
      noSelection := true;
      AddItem(NO_FEATURES_SELECTED);
      mode := NoSelection;
      italic := true;
    }

    /** `switchSelectedItems`: select all, then deselect the rows selected before. */
    method SwitchSelectedItems()
      requires Valid()
      modifies this
      ensures Valid() && Presentation() == old(Presentation())
      ensures items == Switched(old(items), mode)
    {
      var before := items;
      SelectAll();
      var i := 0;
      while i < |before|
        invariant 0 <= i <= |before|
        invariant Valid() && Presentation() == old(Presentation())
        invariant |items| == |before|
        invariant forall j :: 0 <= j < i ==> items[j] == Switched(before, mode)[j]
        invariant forall j :: i <= j < |items| ==>
          items[j] == before[j].(selected := mode == ExtendedSelection || before[j].selected)
      {
        if before[i].selected {
          SetSelected(i, false);
        }
        i := i + 1;
      }
    }
  }

  /** `delete_list_widget_items(items, parent)`: takes each given item out of
      the parent widget; an item no longer in the widget is skipped. */
  method DeleteItems(ids: seq<nat>, parent: ListWidget)
    requires parent.Valid()
    modifies parent
    ensures parent.Valid() && parent.Presentation() == old(parent.Presentation())
    ensures parent.items == Without(old(parent.items), Elements(ids))
  {
    ghost var start := parent.items;
    WithoutNothing(start);
    assert Elements(ids[..0]) == {};
    var i := 0;
    while i < |ids|
      invariant 0 <= i <= |ids|
      invariant parent.Valid() && parent.Presentation() == old(parent.Presentation())
      invariant parent.items == Without(start, Elements(ids[..i]))
    {
      var id := ids[i];
      var row := RowOf(parent.items, id);
      DeleteStep(start, Elements(ids[..i]), id);
      parent.TakeItem(row);
      ElementsPrefix(ids, i);
      i := i + 1;
    }
    assert ids[..i] == ids;
  }

  /** Removal keeps the remaining items in their original order. */
  lemma {:induction false} WithoutKeepsOrder(items: seq<Item>, ids: set<nat>, i: nat, j: nat)
    requires i < j < |items| && items[i].id !in ids && items[j].id !in ids
    ensures exists p, q :: 0 <= p < q < |Without(items, ids)| &&
                          Without(items, ids)[p] == items[i] && Without(items, ids)[q] == items[j]
  {
    var rest := Without(items[1..], ids);
    if i == 0 {
      assert items[j] == items[1..][j - 1];
      WithoutMembers(items[1..], ids);
      assert items[j] in rest;
      var q :| 0 <= q < |rest| && rest[q] == items[j];
      assert Without(items, ids) == [items[0]] + rest;
      assert Without(items, ids)[0] == items[i] && Without(items, ids)[q + 1] == items[j];
    } else {
      WithoutKeepsOrder(items[1..], ids, i - 1, j - 1);
      var p, q :| 0 <= p < q < |rest| && rest[p] == items[i] && rest[q] == items[j];
      var head := if items[0].id in ids then [] else [items[0]];
      assert Without(items, ids) == head + rest;
      assert Without(items, ids)[|head| + p] == items[i] && Without(items, ids)[|head| + q] == items[j];
    }
  }
}

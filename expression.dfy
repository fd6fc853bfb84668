/** The selection expression the panel builds from the selected values
    (`build_expression` in unique_values_viewer_dockwidget.py), and the rows
    "Copy values as string" puts on the clipboard (`copy_values_string`). */
module Expression {
  import opened Wrappers
  import opened Text
  import Widgets

  /** The lower-cased type name whose values are quoted. */
  const QUOTED_TYPE: string := "string"

  /** The lower-cased type names whose values are written as they are. */
  const UNQUOTED_TYPES: set<string> :=
    {"double", "real", "integer", "integer64", "time", "datetime", "boolean"}

  predicate SupportedType(fieldType: string)
  {
    Lower(fieldType) == QUOTED_TYPE || Lower(fieldType) in UNQUOTED_TYPES
  }

  /** `"field" in (`, the opening every expression starts from. */
  function Opening(field: string): string
  {
    "\"" + field + "\" in ("
  }

  /** One value as written into the expression: quoted verbatim, with no
      escaping of quotes inside it, or bare. */
  function Literal(quoted: bool, text: string): (r: string)
    ensures quoted ==> r == Widgets.Quote(text)
    ensures !quoted ==> r == text
  {
    if quoted then Widgets.Quote(text) else text
  }

  function Literals(quoted: bool, texts: seq<string>): (r: seq<string>)
    ensures |r| == |texts|
    ensures forall i :: 0 <= i < |texts| ==> r[i] == Literal(quoted, texts[i])
  {
    seq(|texts|, i requires 0 <= i < |texts| => Literal(quoted, texts[i]))
  }

  /** What the loop appends: every literal followed by a comma. */
  function Terminated(quoted: bool, texts: seq<string>): string
  {
    if texts == [] then ""
    else Terminated(quoted, texts[..|texts| - 1]) + Literal(quoted, texts[|texts| - 1]) + ","
  }

  /** The expression as the source computes it: the opening, each literal and
      a comma, then the last character dropped and `)` appended; `None` for
      any other type name. */
  function ExpressionText(selected: seq<string>, field: string, fieldType: string): (r: Option<string>)
    ensures r.None? <==> !SupportedType(fieldType)
  {
    if !SupportedType(fieldType) then None
    else
      var expr := Opening(field) + Terminated(Lower(fieldType) == QUOTED_TYPE, selected);
      Some(expr[..|expr| - 1] + ")")
  }

  /** The literals with their trailing commas are the comma-joined literals
      plus one final comma. */
  lemma {:induction false} TerminatedIsJoin(quoted: bool, texts: seq<string>)
    requires |texts| >= 1
    ensures Terminated(quoted, texts) == Join(",", Literals(quoted, texts)) + ","
  {
    var n := |texts|;
    var init := texts[..n - 1];
    var last := Literal(quoted, texts[n - 1]);
    if n == 1 {
      assert Terminated(quoted, init) == "";
      assert Literals(quoted, texts) == [last];
    } else {
      var lits := Literals(quoted, init);
      assert lits + [last] == Literals(quoted, texts);
      calc {
        Terminated(quoted, texts);
        Terminated(quoted, init) + last + ",";
        { TerminatedIsJoin(quoted, init); }
        Join(",", lits) + "," + last + ",";
        { JoinSnoc(",", lits, last); }
        Join(",", lits + [last]) + ",";
      }
    }
  }

  /** The closed form of the expression for a supported type: with values it
      is `"field" in (v1,...,vn)`; with none, dropping the last character
      removes the opening parenthesis and leaves `"field" in )`. */
  lemma ExpressionClosedForm(selected: seq<string>, field: string, fieldType: string)
    requires SupportedType(fieldType)
    ensures |selected| >= 1 ==>
      ExpressionText(selected, field, fieldType)
        == Some(Opening(field) + Join(",", Literals(Lower(fieldType) == QUOTED_TYPE, selected)) + ")")
    ensures |selected| == 0 ==> ExpressionText(selected, field, fieldType) == Some("\"" + field + "\" in )")
  {
    var quoted := Lower(fieldType) == QUOTED_TYPE;
    var expr := Opening(field) + Terminated(quoted, selected);
    if |selected| >= 1 {
      TerminatedIsJoin(quoted, selected);
      var body := Opening(field) + Join(",", Literals(quoted, selected));
      assert expr == body + ",";
      assert expr[..|expr| - 1] == body;
    } else {
      assert expr == ("\"" + field + "\" in ") + "(";
      assert expr[..|expr| - 1] == "\"" + field + "\" in ";
      assert ("\"" + field + "\" in ") + ")" == "\"" + field + "\" in )";
    }
  }

  /** The list between the parentheses splits at its commas back into the
      literals, one per selected value and in selection order, provided no
      value contains a comma. */
  lemma ExpressionListsValues(selected: seq<string>, field: string, fieldType: string)
    requires SupportedType(fieldType) && |selected| >= 1
    requires forall i :: 0 <= i < |selected| ==> ',' !in selected[i]
    ensures var lits := Literals(Lower(fieldType) == QUOTED_TYPE, selected);
      && ExpressionText(selected, field, fieldType) == Some(Opening(field) + Join(",", lits) + ")")
      && Split(Join(",", lits), ',') == lits
  {
    var quoted := Lower(fieldType) == QUOTED_TYPE;
    var lits := Literals(quoted, selected);
    ExpressionClosedForm(selected, field, fieldType);
    forall i | 0 <= i < |lits| ensures ',' !in lits[i] {
      assert ',' !in selected[i];
      if quoted {
        assert lits[i] == "'" + selected[i] + "'";
      }
    }
    SplitJoin(lits, ',');
  }

  /** The type names the builder accepts, case-insensitively, and some it
      refuses although the classifier knows them. */
  lemma ExpressionTypeNames(selected: seq<string>, field: string)
    ensures ExpressionText(selected, field, "date") == None
    ensures ExpressionText(selected, field, "text") == None
    ensures ExpressionText(selected, field, "int") == None
  {
    RefusedName("date");
    RefusedName("text");
    RefusedName("int");
  }

  /** Type names are matched ignoring case, so the capitalised names QGIS
      reports are accepted. */
  lemma ExpressionCapitalisedNames(selected: seq<string>, field: string)
    ensures ExpressionText(selected, field, "String").Some?
    ensures ExpressionText(selected, field, "Integer64").Some?
  {
    StringAccepted();
    Integer64Accepted();
  }

  lemma StringAccepted()
    ensures SupportedType("String")
  {
    assert "String"[1..] == "tring";
    LowerCapitalised("String");
  }

  lemma Integer64Accepted()
    ensures SupportedType("Integer64")
  {
    assert "Integer64"[1..] == "nteger64";
    LowerCapitalised("Integer64");
    assert LowerChar('I') == 'i';
    assert ['i'] + "nteger64" == "integer64";
  }

  lemma RefusedName(name: string)
    requires name in {"date", "text", "int"}
    ensures !SupportedType(name)
  {
    LowerFixesLowerCase(name);
  }

  /** A quote inside a string value is copied as it is, so `it's` gives the
      unbalanced list `('it's')`. */
  lemma NoQuoteEscaping(field: string)
    ensures ExpressionText(["it's"], field, "string") == Some("\"" + field + "\" in ('it's')")
  {
    LowerFixesLowerCase("string");
    ExpressionClosedForm(["it's"], field, "string");
    var lits := Literals(true, ["it's"]);
    assert |lits| == 1 && lits[0] == "'it's'";
    assert lits == ["'it's'"];
    assert Join(",", lits) == "'it's'";
    assert Opening(field) + "'it's'" + ")" == "\"" + field + "\" in ('it's')";
  }

  /** One more value appends its literal and a comma. */
  lemma TerminatedStep(quoted: bool, texts: seq<string>, i: nat)
    requires i < |texts|
    ensures Terminated(quoted, texts[..i + 1])
      == Terminated(quoted, texts[..i]) + (if quoted then "'" + texts[i] + "'" else texts[i]) + ","
  {
    assert texts[..i + 1][..i] == texts[..i];
  }

  /** The loop each branch of `build_expression` runs: appends every
      literal followed by a comma. */
  method AppendLiterals(start: string, quoted: bool, selected: seq<string>) returns (expr: string)
    ensures expr == start + Terminated(quoted, selected)
  {
    expr := start;
    for i := 0 to |selected|
      invariant expr == start + Terminated(quoted, selected[..i])
    {
      TerminatedStep(quoted, selected, i);
      if quoted {
        expr := expr + "'" + selected[i] + "',";
      } else {
        expr := expr + selected[i] + ",";
      }
    }
    assert selected[..|selected|] == selected;
  }

  /** `build_expression`: picks quoting by the lower-cased type name, appends
      the literals, then drops the last character and closes the list. */
  method BuildExpression(selected: seq<string>, field: string, fieldType: string) returns (r: Option<string>)
    ensures r == ExpressionText(selected, field, fieldType)
  {
    var name := Lower(fieldType);
    var expr := "\"" + field + "\" in (";
    if name == QUOTED_TYPE {
      expr := AppendLiterals(expr, true, selected);
    } else if name in UNQUOTED_TYPES {
      expr := AppendLiterals(expr, false, selected);
    } else {
      return None;
    }
    r := Some(expr[..|expr| - 1] + ")");
  }
}

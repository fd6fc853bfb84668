/** Field-type classification and sort-key choice (core/utils.py).

    The source's `FieldTypes` is a Python `Flag` enumeration: each primitive
    category is one bit, the composites DATETIME, NUMERIC and SUPPORTED_TYPES
    are bit unions, and UNSUPPORTED is the odd member whose value is `None`.
    Here a flag value is the set of its primitive bits. */
module FieldTypes {
  import opened Wrappers
  import opened Text

  // ---- Type-name sets ------------------------------------------------------

  const BOOLEAN_FIELDS: set<string> := {"bool", "boolean"}
  const DATE_FIELDS: set<string> := {"date", "datetime"}
  const TIME_FIELDS: set<string> := {"time", "timestamp", "timestamp without time zone"}
  const DATETIME_FIELDS: set<string> := DATE_FIELDS + TIME_FIELDS
  const INTEGER_FIELDS: set<string> :=
    {"integer", "integer64", "int", "int4", "uint", "longlong", "ulonglong"}
  const DECIMAL_FIELDS: set<string> := {"double", "real", "decimal", "numeric"}
  const NUMERIC_FIELDS: set<string> := INTEGER_FIELDS + DECIMAL_FIELDS
  const STRING_FIELDS: set<string> := {"char", "string", "text", "varchar", "nchar", "nvarchar"}
  const FIELD_TYPES: set<string> := BOOLEAN_FIELDS + DATETIME_FIELDS + NUMERIC_FIELDS + STRING_FIELDS

  // ---- The FieldTypes flag enumeration -------------------------------------

  datatype Primitive = Integer | Decimal | String | Date | Time | Boolean

  datatype FieldType = Flags(bits: set<Primitive>) | Unsupported

  const INTEGER: FieldType := Flags({Integer})
  const DECIMAL: FieldType := Flags({Decimal})
  const STRING: FieldType := Flags({String})
  const DATE: FieldType := Flags({Date})
  const TIME: FieldType := Flags({Time})
  const BOOLEAN: FieldType := Flags({Boolean})
  const DATETIME: FieldType := Flags({Date, Time})
  const NUMERIC: FieldType := Flags({Decimal, Integer})
  const SUPPORTED_TYPES: FieldType := Flags({Boolean, String, Date, Time, Decimal, Integer})

  /** `a | b` on two members; Python raises TypeError when one of them is
      UNSUPPORTED, whose value is `None`. */
  function Or(a: FieldType, b: FieldType): (r: Option<FieldType>)
    ensures r.None? <==> a.Unsupported? || b.Unsupported?
    ensures r.Some? ==> r.value.Flags? && r.value.bits == a.bits + b.bits
  {
    if a.Unsupported? || b.Unsupported? then None else Some(Flags(a.bits + b.bits))
  }

  /** `a in b` for flags: every bit of `a` is a bit of `b`. */
  predicate Within(a: FieldType, b: FieldType)
  {
    a.Flags? && b.Flags? && a.bits <= b.bits
  }

  /** The composite members are the unions the enumeration declares. */
  lemma CompositesAreUnions()
    ensures Or(DATE, TIME) == Some(DATETIME)
    ensures Or(DECIMAL, INTEGER) == Some(NUMERIC)
    ensures Or(BOOLEAN, STRING).Some?
    ensures Or(Or(BOOLEAN, STRING).value, DATETIME).Some?
    ensures Or(Or(Or(BOOLEAN, STRING).value, DATETIME).value, NUMERIC) == Some(SUPPORTED_TYPES)
    ensures Or(DATE, Unsupported) == None
  {
    assert {Date} + {Time} == {Date, Time};
    assert {Decimal} + {Integer} == {Decimal, Integer};
    assert {Boolean} + {String} + {Date, Time} + {Decimal, Integer}
        == {Boolean, String, Date, Time, Decimal, Integer};
  }

  // ---- match_field_type ----------------------------------------------------

  /** Classifies a field's type name, case-insensitively, by the first name
      set that holds its lower-cased form. */
  function MatchFieldType(fieldType: string): (r: FieldType)
    ensures r in {INTEGER, DECIMAL, STRING, DATE, TIME, BOOLEAN, Unsupported}
    ensures r == INTEGER <==> Lower(fieldType) in INTEGER_FIELDS
    ensures r == DECIMAL <==> Lower(fieldType) in DECIMAL_FIELDS
    ensures r == STRING <==> Lower(fieldType) in STRING_FIELDS
    ensures r == DATE <==> Lower(fieldType) in DATE_FIELDS
    ensures r == TIME <==> Lower(fieldType) in TIME_FIELDS
    ensures r == BOOLEAN <==> Lower(fieldType) in BOOLEAN_FIELDS
    ensures r == Unsupported <==> Lower(fieldType) !in FIELD_TYPES
  {
    var name := Lower(fieldType);
    if name in INTEGER_FIELDS then INTEGER
    else if name in DECIMAL_FIELDS then DECIMAL
    else if name in STRING_FIELDS then STRING
    else if name in DATE_FIELDS then DATE
    else if name in TIME_FIELDS then TIME
    else if name in BOOLEAN_FIELDS then BOOLEAN
    else Unsupported
  }

  /** The six primitive name sets share no name, so the order of the tests
      in MatchFieldType never decides a category. */
  lemma NameSetsDisjoint()
    ensures INTEGER_FIELDS !! DECIMAL_FIELDS && INTEGER_FIELDS !! STRING_FIELDS
    ensures INTEGER_FIELDS !! DATE_FIELDS && INTEGER_FIELDS !! TIME_FIELDS
    ensures INTEGER_FIELDS !! BOOLEAN_FIELDS
    ensures DECIMAL_FIELDS !! STRING_FIELDS && DECIMAL_FIELDS !! DATE_FIELDS
    ensures DECIMAL_FIELDS !! TIME_FIELDS && DECIMAL_FIELDS !! BOOLEAN_FIELDS
    ensures STRING_FIELDS !! DATE_FIELDS && STRING_FIELDS !! TIME_FIELDS
    ensures STRING_FIELDS !! BOOLEAN_FIELDS
    ensures DATE_FIELDS !! TIME_FIELDS && DATE_FIELDS !! BOOLEAN_FIELDS
    ensures TIME_FIELDS !! BOOLEAN_FIELDS
  {
  }

  /** Type names that differ only in the case of their letters classify alike. */
  lemma MatchIgnoresCase(a: string, b: string)
    requires SameIgnoringCase(a, b)
    ensures MatchFieldType(a) == MatchFieldType(b)
  {
    SameIgnoringCaseLower(a, b);
  }

  /** Every recognised name is already lower case. */
  lemma FieldTypeNamesLowerCase(name: string)
    requires name in FIELD_TYPES
    ensures IsLowerCase(name)
  {
    if name in BOOLEAN_FIELDS {
      BooleanNamesLowerCase(name);
    } else if name in DATETIME_FIELDS {
      DateTimeNamesLowerCase(name);
    } else if name in INTEGER_FIELDS {
      IntegerNamesLowerCase(name);
    } else if name in DECIMAL_FIELDS {
      DecimalNamesLowerCase(name);
    } else {
      StringNamesLowerCase(name);
    }
  }

  lemma BooleanNamesLowerCase(name: string)
    requires name in BOOLEAN_FIELDS
    ensures IsLowerCase(name)
  {
  }

  lemma DateTimeNamesLowerCase(name: string)
    requires name in DATETIME_FIELDS
    ensures IsLowerCase(name)
  {
  }

  lemma IntegerNamesLowerCase(name: string)
    requires name in INTEGER_FIELDS
    ensures IsLowerCase(name)
  {
  }

  lemma DecimalNamesLowerCase(name: string)
    requires name in DECIMAL_FIELDS
    ensures IsLowerCase(name)
  {
  }

  lemma StringNamesLowerCase(name: string)
    requires name in STRING_FIELDS
    ensures IsLowerCase(name)
  {
  }

  /** Every name of a primitive set, in any letter case, maps to that set's
      category. */
  lemma MatchEveryListedName(name: string, spelling: string)
    requires name in FIELD_TYPES
    requires SameIgnoringCase(spelling, name)
    ensures name in INTEGER_FIELDS ==> MatchFieldType(spelling) == INTEGER
    ensures name in DECIMAL_FIELDS ==> MatchFieldType(spelling) == DECIMAL
    ensures name in STRING_FIELDS ==> MatchFieldType(spelling) == STRING
    ensures name in DATE_FIELDS ==> MatchFieldType(spelling) == DATE
    ensures name in TIME_FIELDS ==> MatchFieldType(spelling) == TIME
    ensures name in BOOLEAN_FIELDS ==> MatchFieldType(spelling) == BOOLEAN
  {
    FieldTypeNamesLowerCase(name);
    LowerFixesLowerCase(name);
    SameIgnoringCaseLower(spelling, name);
  }

  /** The script at the end of core/utils.py: 'uint' is an INTEGER, so or-ing
      it with DECIMAL, not with INTEGER, gives NUMERIC. */
  lemma UintIsInteger()
    ensures MatchFieldType("uint") == INTEGER
    ensures MatchFieldType("UInt") == INTEGER
    ensures Or(MatchFieldType("uint"), INTEGER) != Some(NUMERIC)
    ensures Or(MatchFieldType("uint"), DECIMAL) == Some(NUMERIC)
  {
    assert Lower("UInt") == "uint" by {
      assert LowerChar('U') == 'u' && LowerChar('I') == 'i';
      assert Lower("UInt")[0] == 'u' && Lower("UInt")[1] == 'i';
      assert Lower("UInt")[2] == 'n' && Lower("UInt")[3] == 't';
    }
    assert Lower("uint") == "uint" by {
      assert Lower("uint")[0] == 'u' && Lower("uint")[1] == 'i';
      assert Lower("uint")[2] == 'n' && Lower("uint")[3] == 't';
    }
    assert {Integer} + {Decimal} == {Decimal, Integer};
    assert Decimal !in {Integer} + {Integer};
  }

  /** The composite name sets classify into the composite categories. */
  lemma CompositeNameSets(fieldType: string)
    ensures Lower(fieldType) in NUMERIC_FIELDS <==> Within(MatchFieldType(fieldType), NUMERIC)
    ensures Lower(fieldType) in DATETIME_FIELDS <==> Within(MatchFieldType(fieldType), DATETIME)
    ensures Lower(fieldType) in FIELD_TYPES <==> Within(MatchFieldType(fieldType), SUPPORTED_TYPES)
  {
  }

  // ---- get_sort_key ----------------------------------------------------------

  /** The Python type used as sort key: `float`, `int`, or `None` (text order). */
  datatype SortKey = FloatKey | IntKey | NoKey

  function GetSortKey(fieldType: FieldType): (k: SortKey)
    ensures k == FloatKey <==> fieldType == DECIMAL
    ensures k == IntKey <==> fieldType == INTEGER
  {
    if fieldType == DECIMAL then FloatKey
    else if fieldType == INTEGER then IntKey
    else NoKey
  }

  /** Only the two primitive numeric categories get a numeric key: the
      composites and UNSUPPORTED sort as text. */
  lemma SortKeyNumericOnlyForPrimitives()
    ensures GetSortKey(NUMERIC) == NoKey
    ensures GetSortKey(DATETIME) == NoKey
    ensures GetSortKey(SUPPORTED_TYPES) == NoKey
    ensures GetSortKey(Unsupported) == NoKey
    ensures forall t: FieldType :: GetSortKey(t) != NoKey ==> Within(t, NUMERIC) && |t.bits| == 1
  {
  }

  /** A classified type name gets a numeric key exactly when it names a
      numeric type. */
  lemma SortKeyOfTypeName(fieldType: string)
    ensures GetSortKey(MatchFieldType(fieldType)) != NoKey <==> Lower(fieldType) in NUMERIC_FIELDS
  {
  }
}

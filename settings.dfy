/** The plugin's settings (core/settings.py): a key/value store with
    defaults that can be restored, and lookup tables that turn the stored
    choice of separator or quote character into the character itself. */
module Settings {
  import opened Wrappers

  /** A stored setting: the defaults hold integers and strings. */
  datatype Value = Number(n: int) | Text(s: string)

  /** Looking up a stored value that is not a key of the table. */
  datatype SettingsError = KeyError

  const DEFAULTS: map<string, Value> := map[
    "background_proc" := Number(0),
    "copy_newline" := Number(2),
    "quote_char" := Text("'"),
    "quote_char_custom" := Text(""),
    "sep_char" := Text(","),
    "sep_char_custom" := Text(""),
    "sync_layer" := Number(2),
    "value_sort" := Number(2)
  ]

  /** The keys of DEFAULTS in their declaration order, the order in which
      restoring writes them. */
  const DEFAULT_KEYS: seq<string> := [
    "background_proc", "copy_newline", "quote_char", "quote_char_custom",
    "sep_char", "sep_char_custom", "sync_layer", "value_sort"
  ]

  const SEP_CHARS: map<string, string> := map[
    "None" := "",
    "Space" := " ",
    "Tab" := "\t",
    "," := ",",
    ";" := ";",
    "Other" := DEFAULTS["sep_char_custom"].s
  ]

  const QUOTE_CHARS: map<string, string> := map[
    "'" := "'",
    "\"" := "\"",
    "´" := "´",
    "`" := "`",
    "Space" := " ",
    "Other" := DEFAULTS["quote_char_custom"].s
  ]

  /** `table[value]` for the value stored under `key`. A missing key reads as
      `None`, which is not a key of either table; an integer is not either. */
  function LookupChar(table: map<string, string>, store: map<string, Value>, key: string): (r: Result<string, SettingsError>)
    ensures r.Ok? <==> key in store && store[key].Text? && store[key].s in table
    ensures r.Ok? ==> r.value == table[store[key].s]
  {
    if key in store && store[key].Text? && store[key].s in table
    then Ok(table[store[key].s])
    else Err(KeyError)
  }

  /** `get_quote_char`. */
  function GetQuoteChar(store: map<string, Value>): (r: Result<string, SettingsError>)
    ensures r.Ok? ==> r.value in QUOTE_CHARS.Values
  {
    LookupChar(QUOTE_CHARS, store, "quote_char")
  }

  /** `get_sep_char`. */
  function GetSepChar(store: map<string, Value>): (r: Result<string, SettingsError>)
    ensures r.Ok? ==> r.value in SEP_CHARS.Values
  {
    LookupChar(SEP_CHARS, store, "sep_char")
  }

  /** The values `store` holds after `restore_defaults`. */
  function Restored(store: map<string, Value>): (r: map<string, Value>)
    ensures r.Keys == store.Keys + DEFAULTS.Keys
  {
    store + DEFAULTS
  }

  /** After restoring, every default key holds its default and every other
      key is as before. */
  lemma RestoredKeepsOthers(store: map<string, Value>)
    ensures forall k :: k in DEFAULTS ==> k in Restored(store) && Restored(store)[k] == DEFAULTS[k]
    ensures forall k :: k !in DEFAULTS ==> (k in Restored(store) <==> k in store)
    ensures forall k :: k !in DEFAULTS && k in store ==> Restored(store)[k] == store[k]
  {
  }

  /** After restoring, the quote character is `'` and the separator `,`. */
  lemma RestoredChars(store: map<string, Value>)
    ensures GetQuoteChar(Restored(store)) == Ok("'")
    ensures GetSepChar(Restored(store)) == Ok(",")
  {
  }

  /** The separator names: 'None' and 'Other' both give the empty string,
      the literal separators give themselves. */
  lemma SeparatorTable()
    ensures SEP_CHARS["None"] == "" && SEP_CHARS["Other"] == ""
    ensures SEP_CHARS["Space"] == " " && SEP_CHARS["Tab"] == "\t"
    ensures forall k :: k in {",", ";"} ==> SEP_CHARS[k] == k
  {
  }

  /** Every literal quote key maps to itself. */
  lemma QuoteTable()
    ensures forall k :: k in QUOTE_CHARS && k !in {"Space", "Other"} ==> QUOTE_CHARS[k] == k
    ensures QUOTE_CHARS["Space"] == " " && QUOTE_CHARS["Other"] == ""
  {
  }

  /** A lookup is a KeyError exactly when the key is missing, holds a
      number, or holds a choice the table does not know. */
  lemma UnknownChoiceIsKeyError(store: map<string, Value>)
    ensures GetQuoteChar(store) == Err(KeyError) <==>
      !("quote_char" in store && store["quote_char"].Text? && store["quote_char"].s in QUOTE_CHARS)
    ensures GetSepChar(store) == Err(KeyError) <==>
      !("sep_char" in store && store["sep_char"].Text? && store["sep_char"].s in SEP_CHARS)
  {
  }

  /** For instance `Tab` is a separator choice but not a quote choice. */
  lemma TabIsNoQuoteChoice(store: map<string, Value>)
    requires "quote_char" in store && store["quote_char"] == Text("Tab")
    ensures GetQuoteChar(store) == Err(KeyError)
    ensures GetSepChar(store["sep_char" := Text("Tab")]) == Ok("\t")
  {
  }

  /** The defaults the first `n` iterations of `restore_defaults` write. */
  function DefaultsWritten(n: nat): (m: map<string, Value>)
    requires n <= |DEFAULT_KEYS|
    ensures m.Keys <= DEFAULTS.Keys
  {
    if n == 0 then map[]
    else DefaultsWritten(n - 1)[DEFAULT_KEYS[n - 1] := DEFAULTS[DEFAULT_KEYS[n - 1]]]
  }

  /** The loop over DEFAULT_KEYS writes all of DEFAULTS. */
  lemma AllDefaultsWritten()
    ensures DefaultsWritten(|DEFAULT_KEYS|) == DEFAULTS
  {
    DefaultsWrittenAt(|DEFAULT_KEYS|);
    assert DEFAULT_KEYS[..|DEFAULT_KEYS|] == DEFAULT_KEYS;
    var m := DefaultsWritten(|DEFAULT_KEYS|);
    assert forall k :: k in DEFAULTS ==> k in DEFAULT_KEYS;
    assert m.Keys == DEFAULTS.Keys;
  }

  /** The first `n` writes set exactly the first `n` keys, each to its default. */
  lemma {:induction false} DefaultsWrittenAt(n: nat)
    requires n <= |DEFAULT_KEYS|
    ensures forall k :: k in DefaultsWritten(n) <==> k in DEFAULT_KEYS[..n]
    ensures forall k :: k in DefaultsWritten(n) ==> DefaultsWritten(n)[k] == DEFAULTS[k]
  {
    if n > 0 {
      DefaultsWrittenAt(n - 1);
      assert DEFAULT_KEYS[..n] == DEFAULT_KEYS[..n - 1] + [DEFAULT_KEYS[n - 1]];
    }
  }

  /** One iteration of the restoring loop adds the next default. */
  lemma DefaultsWrittenStep(start: map<string, Value>, i: nat)
    requires i < |DEFAULT_KEYS|
    ensures DEFAULT_KEYS[i] in DEFAULTS
    ensures (start + DefaultsWritten(i))[DEFAULT_KEYS[i] := DEFAULTS[DEFAULT_KEYS[i]]]
      == start + DefaultsWritten(i + 1)
  {
  }

  /** The settings object of the plugin, backed by the host's store. */
  class UVVSettings {
    var store: map<string, Value>

    /** Opens the store as the host has it persisted. */
    constructor (persisted: map<string, Value>)
      ensures store == persisted
    {
      store := persisted;
    }

    /** `setValue(key, value)`. */
    method SetValue(key: string, value: Value)
      modifies this
      ensures store == old(store)[key := value]
    {
      store := store[key := value];
    }

    /** `restore_defaults`: writes every default, one key at a time. */
    method RestoreDefaults()
      modifies this
      ensures store == Restored(old(store))
    {
      ghost var start := store;
      var i := 0;
      while i < |DEFAULT_KEYS|
        invariant 0 <= i <= |DEFAULT_KEYS|
        invariant store == start + DefaultsWritten(i)
      {
        var key := DEFAULT_KEYS[i];
        DefaultsWrittenStep(start, i);
        SetValue(key, DEFAULTS[key]);
        i := i + 1;
      }
      AllDefaultsWritten();
    }
  }
}

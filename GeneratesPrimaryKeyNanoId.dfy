/** The `GeneratesPrimaryKeyNanoId` trait: its own, laxer declaration parser
    `parseColumns`, a creating hook that fills the declared columns and then runs the
    primary-key section, and the route-binding helpers `scopeWhereNanoId` and
    `getRouteKeyName`. */
module GeneratesPrimaryKeyNanoId {
  import opened Php
  import opened NanoIdLib
  import opened Columns
  import opened Records
  import opened GeneratesNanoId
  import opened GeneratesNanoIdAsPrimaryKey

  // ---------------------------------------------------------------------------
  // parseColumns
  // ---------------------------------------------------------------------------

  /** The arrow function `parseColumns` maps over the declaration, with its `null`
      results kept as None. Unlike `transformNanoIdColumns` it takes `'key'` as it
      is, whatever its type, and falls back on size and alphabets with a plain `?:`. */
  function ParseEntry(key: Key, value: Value, d: Defaults): (r: Result<Option<Column>>)
    // a bare name at a numeric key: that name with the default size and alphabet
    ensures IsNumeric(key) && value.PStr? ==> r == Ok(Some(Column(value, DefaultSize(d), DefaultAlphabet(d))))
    // a numeric key maps to null exactly when the value is neither a string nor a key-bearing array
    ensures IsNumeric(key) ==> (r == Ok(None) <==> !value.PStr? && !(value.PArr? && HasKey(value.entries, "key")))
    // under a string key only an array is accepted; it always yields a column
    ensures !IsNumeric(key) ==> (r.Ok? <==> value.PArr?) && (r.Ok? ==> r.value.Some?)
    ensures !IsNumeric(key) && !value.PArr? ==> r == Err(TypeError)
    // a declared 'key' is taken as is, and the map key is the name only when 'key' is absent
    ensures value.PArr? && HasKey(value.entries, "key") && r.Ok? ==> r.value.value.key == Lookup(value.entries, "key")
    ensures !IsNumeric(key) && value.PArr? && !HasKey(value.entries, "key") ==> r.value.value.key == PStr(key.s)
    // size and alphabets from an array are the declared ones when truthy, else the defaults
    ensures value.PArr? && r.Ok? && r.value.Some? ==>
              r.value.value.size == Elvis(Lookup(value.entries, "size"), DefaultSize(d)) &&
              r.value.value.alphabets == Elvis(Lookup(value.entries, "alphabets"), DefaultAlphabet(d))
    ensures r.Ok? ==> r.value.Some? || IsNumeric(key)
    // a numeric key never throws
    ensures IsNumeric(key) ==> r.Ok?
  {
    if IsNumeric(key) then
      if value.PStr? then Ok(Some(Column(value, DefaultSize(d), DefaultAlphabet(d))))
      else if value.PArr? && HasKey(value.entries, "key") then
        Ok(Some(Column(Lookup(value.entries, "key"), Elvis(Lookup(value.entries, "size"), DefaultSize(d)),
                       Elvis(Lookup(value.entries, "alphabets"), DefaultAlphabet(d)))))
      else Ok(None)
    // every array key that is not numeric is a string; `array_key_exists` on a non-array throws
    else if value.PArr? then
      Ok(Some(Column(if HasKey(value.entries, "key") then Lookup(value.entries, "key") else PStr(key.s),
                     Elvis(Lookup(value.entries, "size"), DefaultSize(d)),
                     Elvis(Lookup(value.entries, "alphabets"), DefaultAlphabet(d)))))
    else Err(TypeError)
  }

  /** The arrow function as written: it is declared `: array`, so returning `null`
      raises a TypeError instead of handing the null to `array_filter`. */
  function ParseEntryAsWritten(key: Key, value: Value, d: Defaults): (r: Result<Option<Column>>)
    ensures r.Ok? <==> ParseEntry(key, value, d).Ok? && ParseEntry(key, value, d).value.Some?
    ensures r.Ok? ==> r == ParseEntry(key, value, d)
    ensures ParseEntry(key, value, d) == Ok(None) ==> r == Err(TypeError)
    ensures ParseEntry(key, value, d).Err? ==> r == ParseEntry(key, value, d)
  {
    match ParseEntry(key, value, d)
    case Ok(None) => Err(TypeError)
    case other => other
  }

  function LaxEntry(d: Defaults): Mapper {
    (key: Key, value: Value) => ParseEntry(key, value, d)
  }

  function AsWrittenEntry(d: Defaults): Mapper {
    (key: Key, value: Value) => ParseEntryAsWritten(key, value, d)
  }

  /** `parseColumns($arr)` with the null results filtered out, as `array_filter` intends:
      it throws only for a string-keyed entry whose value is not an array. */
  function ParseColumns(decl: seq<(Key, Value)>, d: Defaults): (r: Result<seq<Column>>)
    ensures r.Ok? <==> forall i :: 0 <= i < |decl| ==> IsNumeric(decl[i].0) || decl[i].1.PArr?
    ensures r.Err? ==> r.error == TypeError
    ensures r.Ok? ==> |r.value| <= |decl|
  {
    Resolve(LaxEntry(d), decl)
  }

  /** `parseColumns($arr)` as written: it succeeds only when every entry yields a column. */
  function ParseColumnsAsWritten(decl: seq<(Key, Value)>, d: Defaults): (r: Result<seq<Column>>)
    ensures r.Ok? <==> forall i :: 0 <= i < |decl| ==>
                         ParseEntry(decl[i].0, decl[i].1, d).Ok? && ParseEntry(decl[i].0, decl[i].1, d).value.Some?
    ensures r.Err? ==> r.error == TypeError
  {
    Resolve(AsWrittenEntry(d), decl)
  }

  /** As written, any unrecognised entry at a numeric key aborts the whole parse,
      so the `array_filter` step never has a null to remove. */
  lemma AsWrittenFailsOnUnrecognised(decl: seq<(Key, Value)>, d: Defaults, i: nat)
    requires i < |decl| && IsNumeric(decl[i].0)
    requires !decl[i].1.PStr? && !(decl[i].1.PArr? && HasKey(decl[i].1.entries, "key"))
    ensures ParseColumnsAsWritten(decl, d) == Err(TypeError)
  {
    assert !AsWrittenEntry(d)(decl[i].0, decl[i].1).Ok?;
    var f := AsWrittenEntry(d);
    var r := MapEntries(f, decl);
    var j :| 0 <= j < |decl| && !f(decl[j].0, decl[j].1).Ok? &&
             (forall k :: 0 <= k < j ==> f(decl[k].0, decl[k].1).Ok?) && r == Err(f(decl[j].0, decl[j].1).error);
    assert f(decl[j].0, decl[j].1).error == TypeError;
  }

  /** When no entry maps to null the two versions agree. */
  lemma AsWrittenAgreesWhenNothingDropped(decl: seq<(Key, Value)>, d: Defaults)
    requires forall i :: 0 <= i < |decl| ==> ParseEntry(decl[i].0, decl[i].1, d) != Ok(None)
    ensures ParseColumnsAsWritten(decl, d) == ParseColumns(decl, d)
  {
    forall i | 0 <= i < |decl|
      ensures AsWrittenEntry(d)(decl[i].0, decl[i].1) == LaxEntry(d)(decl[i].0, decl[i].1)
    {
    }
    ResolvePointwise(AsWrittenEntry(d), LaxEntry(d), decl);
  }

  /** The input that shows the difference: `[42]` aborts as written, while the
      corrected parse drops the entry, as `transformNanoIdColumns` does. */
  lemma ParseColumnsNullEntry(d: Defaults)
    ensures ParseColumnsAsWritten([(IntKey(0), PInt(42))], d) == Err(TypeError)
    ensures ParseColumns([(IntKey(0), PInt(42))], d) == Ok([])
    ensures Transform([(IntKey(0), PInt(42))], d) == Ok([])
  {
    ResolveOne(AsWrittenEntry(d), IntKey(0), PInt(42));
    ResolveOne(LaxEntry(d), IntKey(0), PInt(42));
    ResolveOne(StrictEntry(d), IntKey(0), PInt(42));
  }

  /** The corrected parse drops an unrecognised entry without disturbing the others. */
  lemma ParseColumnsDropsUnrecognised(pre: seq<(Key, Value)>, key: Key, value: Value,
                                      post: seq<(Key, Value)>, d: Defaults)
    requires IsNumeric(key) && !value.PStr? && !(value.PArr? && HasKey(value.entries, "key"))
    ensures ParseColumns(pre + [(key, value)] + post, d) == ParseColumns(pre + post, d)
  {
    assert LaxEntry(d)(key, value) == Ok(None);
    ResolveSkipsNull(LaxEntry(d), pre, key, value, post);
  }

  /** The corrected parse keeps the declaration order: every recognised entry i sits
      at Position(i), and positions strictly grow. */
  lemma ParseColumnsInOrder(decl: seq<(Key, Value)>, d: Defaults)
    requires ParseColumns(decl, d).Ok?
    ensures |ParseColumns(decl, d).value| <= |decl|
    ensures forall i :: 0 <= i < |decl| && ParseEntry(decl[i].0, decl[i].1, d).value.Some? ==>
              Position(LaxEntry(d), decl, i) < |ParseColumns(decl, d).value| &&
              ParseColumns(decl, d).value[Position(LaxEntry(d), decl, i)] == ParseEntry(decl[i].0, decl[i].1, d).value.value
    ensures forall i, j :: 0 <= i < j < |decl| && ParseEntry(decl[i].0, decl[i].1, d).value.Some? ==>
              Position(LaxEntry(d), decl, i) < Position(LaxEntry(d), decl, j)
  {
    ResolveInOrder(LaxEntry(d), decl);
    forall i | 0 <= i < |decl| ensures LaxEntry(d)(decl[i].0, decl[i].1) == ParseEntry(decl[i].0, decl[i].1, d) {
    }
  }

  /** An entry on which the strict and the lax readings coincide: its size (if it is
      an array) is falsy or an int, and under a string key its `'key'` is absent or a
      string. */
  predicate StrictCompatible(key: Key, value: Value) {
    value.PArr? ==>
      (!Truthy(Lookup(value.entries, "size")) || Lookup(value.entries, "size").PInt?) &&
      (!IsNumeric(key) && HasKey(value.entries, "key") ==> Lookup(value.entries, "key").PStr?)
  }

  /** On declarations where the two readings coincide entry by entry, the corrected
      `parseColumns` resolves exactly as `transformNanoIdColumns`: the two parsers
      differ only in how they treat a non-int size and a non-string `'key'`. */
  lemma ParseMatchesTransform(decl: seq<(Key, Value)>, d: Defaults)
    requires forall i :: 0 <= i < |decl| ==> StrictCompatible(decl[i].0, decl[i].1)
    ensures ParseColumns(decl, d) == Transform(decl, d)
  {
    forall i | 0 <= i < |decl|
      ensures LaxEntry(d)(decl[i].0, decl[i].1) == StrictEntry(d)(decl[i].0, decl[i].1)
    {
      var key, value := decl[i].0, decl[i].1;
      assert StrictCompatible(key, value);
      if value.PArr? {
        var size := Lookup(value.entries, "size");
        assert Elvis(size, DefaultSize(d)) == SizeOrDefault(value.entries, d);
      }
    }
    ResolvePointwise(LaxEntry(d), StrictEntry(d), decl);
  }

  /** `parseColumns` as written matches `transformNanoIdColumns` too, provided
      additionally that no entry is unrecognised (which would make it throw). */
  lemma AsWrittenMatchesTransform(decl: seq<(Key, Value)>, d: Defaults)
    requires forall i :: 0 <= i < |decl| ==> StrictCompatible(decl[i].0, decl[i].1)
    requires forall i :: 0 <= i < |decl| ==> ParseEntry(decl[i].0, decl[i].1, d) != Ok(None)
    ensures ParseColumnsAsWritten(decl, d) == Transform(decl, d)
  {
    AsWrittenAgreesWhenNothingDropped(decl, d);
    ParseMatchesTransform(decl, d);
  }

  /** Where the readings part: a string size and a non-string `'key'` pass the lax
      parser unchanged, while the strict one substitutes the defaults. */
  lemma LaxParseExamples(d: Defaults)
    ensures ParseEntry(IntKey(0), PArr([(StrKey("key"), PStr("slug")), (StrKey("size"), PStr("10"))]), d) ==
            Ok(Some(Column(PStr("slug"), PStr("10"), DefaultAlphabet(d))))
    ensures MapColumn(IntKey(0), PArr([(StrKey("key"), PStr("slug")), (StrKey("size"), PStr("10"))]), d) ==
            Ok(Some(Column(PStr("slug"), DefaultSize(d), DefaultAlphabet(d))))
  {
    var a := [(StrKey("key"), PStr("slug")), (StrKey("size"), PStr("10"))];
    assert Find(a, StrKey("key")) == Some(PStr("slug"));
    assert Find(a[1..], StrKey("size")) == Some(PStr("10"));
    assert Find(a[1..][1..], StrKey("alphabets")) == None;
  }

  lemma LaxStringKeyExample(d: Defaults)
    ensures ParseEntry(StrKey("custom"), PArr([(StrKey("key"), PInt(5))]), d) ==
            Ok(Some(Column(PInt(5), DefaultSize(d), DefaultAlphabet(d))))
    ensures MapColumn(StrKey("custom"), PArr([(StrKey("key"), PInt(5))]), d) ==
            Ok(Some(Column(PStr("custom"), DefaultSize(d), DefaultAlphabet(d))))
    ensures ParseEntry(StrKey("custom"), PNull, d) == Err(TypeError)
  {
    LetterLedIsNotNumeric("custom");
  }

  // ---------------------------------------------------------------------------
  // The creating hook: bootGeneratesPrimaryKeyNanoId
  // ---------------------------------------------------------------------------

  /** The trait's default `nanoIdColumns()`: `[$this->nanoIdColumn()]`, i.e. `['id']`;
      both parsers read it as the default column `id`. */
  lemma DefaultDeclarationParses(d: Defaults)
    ensures ParseColumnsAsWritten(NanoIdColumns(PRIMARY_KEY_COLUMN), d) ==
            Ok([Column(PStr(PRIMARY_KEY_COLUMN), DefaultSize(d), DefaultAlphabet(d))])
    ensures ParseColumns(NanoIdColumns(PRIMARY_KEY_COLUMN), d) ==
            Ok([Column(PStr(PRIMARY_KEY_COLUMN), DefaultSize(d), DefaultAlphabet(d))])
  {
    ResolveOne(AsWrittenEntry(d), IntKey(0), PStr(PRIMARY_KEY_COLUMN));
    ResolveOne(LaxEntry(d), IntKey(0), PStr(PRIMARY_KEY_COLUMN));
  }

  /** The creating callback, given what `parseColumns` returned: a throwing parse
      leaves the model untouched; otherwise fill unset columns, then run the
      primary-key section. */
  function PrimaryKeyNanoIdHook(attrs: map<string, Value>, parsed: Result<seq<Column>>, column: string,
                                keyName: string, draw: (nat, Value, Value) -> string, n: nat, d: Defaults): (r: HookOut)
    ensures n <= r.calls
    ensures parsed.Err? ==> r == HookOut(attrs, n, Aborted(parsed.error))
    ensures r.outcome == Created <==> parsed.Ok? && forall c :: c in parsed.value ==> ColumnName(c.key).Some?
    // once created, the NanoID column holds a fresh default NanoID, even if it was set before
    ensures r.outcome == Created ==> HoldsDefaultId(r.attributes, column, draw, d, n, r.calls)
    ensures r.outcome == Created ==> keyName in r.attributes
  {
    match parsed
    case Err(e) => HookOut(attrs, n, Aborted(e))
    case Ok(cols) =>
      var f := Fill(attrs, cols, draw, n);
      if !f.ok then HookOut(f.attributes, f.calls, Aborted(IllegalOffset))
      else
        var k := PrimaryKeySection(f.attributes, column, keyName, draw, f.calls, d);
        HookOut(k.attributes, k.calls, Created)
  }

  /** `bootGeneratesPrimaryKeyNanoId`'s creating callback, with `parseColumns` as written. */
  method BootGeneratesPrimaryKeyNanoId(m: Record, gen: Generator) returns (outcome: Outcome)
    modifies m`attributes, m`keyType, m`incrementing, gen`calls
    ensures HookOut(m.attributes, gen.calls, outcome) ==
            PrimaryKeyNanoIdHook(old(m.attributes), ParseColumnsAsWritten(m.nanoIdColumns, gen.defaults),
                                 m.nanoIdColumn, m.keyName, gen.draw, old(gen.calls), gen.defaults)
    ensures outcome == Created ==> m.keyType == GetKeyType() && m.incrementing == GetIncrementing()
    ensures outcome != Created ==> m.keyType == old(m.keyType) && m.incrementing == old(m.incrementing)
  {
    var cols := ParseColumnsAsWritten(m.nanoIdColumns, gen.defaults);
    if cols.Err? {
      return Aborted(cols.error);
    }
    var ok := FillColumns(m, cols.value, gen);
    if !ok {
      return Aborted(IllegalOffset);
    }
    ConfigurePrimaryKey(m, gen);
    outcome := Created;
  }

  /** As written, a declaration holding `42` makes the hook throw before anything is
      written; with the corrected parse the entry is skipped and the model is created. */
  lemma HookNullEntry(attrs: map<string, Value>, column: string, keyName: string,
                      draw: (nat, Value, Value) -> string, n: nat, d: Defaults)
    ensures PrimaryKeyNanoIdHook(attrs, ParseColumnsAsWritten([(IntKey(0), PInt(42))], d), column, keyName, draw, n, d) ==
            HookOut(attrs, n, Aborted(TypeError))
    ensures PrimaryKeyNanoIdHook(attrs, ParseColumns([(IntKey(0), PInt(42))], d), column, keyName, draw, n, d) ==
            HookOut(PrimaryKeySection(attrs, column, keyName, draw, n, d).attributes,
                    PrimaryKeySection(attrs, column, keyName, draw, n, d).calls, Created)
  {
    ParseColumnsNullEntry(d);
  }

  /** When no entry is dropped the hook behaves the same with either parser. */
  lemma HookAgreesWhenNothingDropped(attrs: map<string, Value>, decl: seq<(Key, Value)>, column: string,
                                     keyName: string, draw: (nat, Value, Value) -> string, n: nat, d: Defaults)
    requires forall i :: 0 <= i < |decl| ==> ParseEntry(decl[i].0, decl[i].1, d) != Ok(None)
    ensures PrimaryKeyNanoIdHook(attrs, ParseColumnsAsWritten(decl, d), column, keyName, draw, n, d) ==
            PrimaryKeyNanoIdHook(attrs, ParseColumns(decl, d), column, keyName, draw, n, d)
  {
    AsWrittenAgreesWhenNothingDropped(decl, d);
  }

  /** End to end, for a default model (`nanoIdColumns()` is `['id']` and `id` is also
      the Eloquent key): whatever the fill loop wrote to `id`, the primary-key section
      replaces it with the next default NanoID, which then also serves as the key. */
  lemma DefaultModelCreation(attrs: map<string, Value>, draw: (nat, Value, Value) -> string, n: nat, d: Defaults)
    ensures var r := PrimaryKeyNanoIdHook(attrs, ParseColumnsAsWritten(NanoIdColumns(PRIMARY_KEY_COLUMN), d),
                                          PRIMARY_KEY_COLUMN, PRIMARY_KEY_COLUMN, draw, n, d);
            var m := if IsSet(attrs, PRIMARY_KEY_COLUMN) then n else n + 1;
            r.outcome == Created &&
            (Truthy(PStr(draw(m, DefaultSize(d), DefaultAlphabet(d)))) ==>
               r.attributes == attrs[PRIMARY_KEY_COLUMN := PStr(draw(m, DefaultSize(d), DefaultAlphabet(d)))] &&
               r.calls == m + 1)
  {
    var c := Column(PStr(PRIMARY_KEY_COLUMN), DefaultSize(d), DefaultAlphabet(d));
    DefaultDeclarationParses(d);
    assert [c][1..] == [];
    var m := if IsSet(attrs, PRIMARY_KEY_COLUMN) then n else n + 1;
    var next := if IsSet(attrs, PRIMARY_KEY_COLUMN) then attrs
                else attrs[PRIMARY_KEY_COLUMN := PStr(draw(n, DefaultSize(d), DefaultAlphabet(d)))];
    assert Fill(attrs, [c], draw, n) == Fill(next, [], draw, m);
  }

  /** Other declared columns that were already set keep their value, and attributes
      no parsed column names (other than the NanoID column and the key) are untouched. */
  lemma PrimaryKeyNanoIdHookFrame(attrs: map<string, Value>, decl: seq<(Key, Value)>, column: string, keyName: string,
                                  draw: (nat, Value, Value) -> string, n: nat, d: Defaults, name: string)
    requires name != column && name != keyName
    ensures var r := PrimaryKeyNanoIdHook(attrs, ParseColumnsAsWritten(decl, d), column, keyName, draw, n, d);
            IsSet(attrs, name) ==> name in r.attributes && r.attributes[name] == attrs[name]
    ensures var r := PrimaryKeyNanoIdHook(attrs, ParseColumnsAsWritten(decl, d), column, keyName, draw, n, d);
            ParseColumnsAsWritten(decl, d).Ok? &&
            (forall c :: c in ParseColumnsAsWritten(decl, d).value ==> ColumnName(c.key) != Some(name)) ==>
              (name in r.attributes <==> name in attrs) && (name in attrs ==> r.attributes[name] == attrs[name])
  {
    if ParseColumnsAsWritten(decl, d).Ok? {
      var cols := ParseColumnsAsWritten(decl, d).value;
      if IsSet(attrs, name) {
        FillKeepsSet(attrs, cols, draw, n, name);
      }
      if forall c :: c in cols ==> ColumnName(c.key) != Some(name) {
        forall i | 0 <= i < |cols| ensures ColumnName(cols[i].key) != Some(name) {
          assert cols[i] in cols;
        }
        FillLeavesOthers(attrs, cols, draw, n, name);
      }
    }
  }

  /** Declared columns other than the NanoID column and the key, unset before the
      hook, hold a NanoID drawn with the size and alphabets of the first entry that
      names them. */
  lemma PrimaryKeyNanoIdHookFillsColumns(attrs: map<string, Value>, decl: seq<(Key, Value)>, column: string,
                                         keyName: string, draw: (nat, Value, Value) -> string, n: nat, d: Defaults,
                                         i: nat, name: string)
    requires PrimaryKeyNanoIdHook(attrs, ParseColumnsAsWritten(decl, d), column, keyName, draw, n, d).outcome == Created
    requires name != column && name != keyName && !IsSet(attrs, name)
    requires i < |ParseColumnsAsWritten(decl, d).value|
    requires ColumnName(ParseColumnsAsWritten(decl, d).value[i].key) == Some(name)
    requires forall j :: 0 <= j < i ==> ColumnName(ParseColumnsAsWritten(decl, d).value[j].key) != Some(name)
    ensures var r := PrimaryKeyNanoIdHook(attrs, ParseColumnsAsWritten(decl, d), column, keyName, draw, n, d);
            var col := ParseColumnsAsWritten(decl, d).value[i];
            name in r.attributes &&
            exists k :: n <= k < r.calls && r.attributes[name] == PStr(draw(k, col.size, col.alphabets))
  {
    var cols := ParseColumnsAsWritten(decl, d).value;
    FillFirstWins(attrs, cols, draw, n, i, name);
  }

  // ---------------------------------------------------------------------------
  // Route binding: scopeWhereNanoId and getRouteKeyName
  // ---------------------------------------------------------------------------

  /** `getRouteKeyName()` */
  function RouteKeyName(m: Record): (name: string)
    reads m
    ensures name == m.nanoIdColumn
  {
    m.nanoIdColumn
  }

  /** With the default declaration, binding on the route key (or on no field) looks
      the model up by `nanoIdColumn()`. */
  lemma RouteKeyBindsBack(m: Record, field: Option<string>)
    requires m.nanoIdColumns == NanoIdColumns(m.nanoIdColumn)
    ensures WhereNanoIdColumn(field, m.nanoIdColumns) == PStr(RouteKeyName(m))
  {
    LookupDefaultColumn(m.nanoIdColumn, field);
  }
}

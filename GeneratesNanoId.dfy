/** The `GeneratesNanoId` trait: the strict declaration normaliser
    `transformNanoIdColumns` with its `getColumnFrom*` / `get*OrDefault*` helpers,
    the creating hook that fills unset NanoID columns, and the defaults of
    `nanoIdColumn()` / `nanoIdColumns()`. */
module GeneratesNanoId {
  import opened Php
  import opened NanoIdLib
  import opened Columns
  import opened Records

  /** The default `nanoIdColumn()`. */
  const NANOID_COLUMN: string := "nanoid"

  /** The default `nanoIdColumns()`: `[$this->nanoIdColumn()]`. */
  function NanoIdColumns(column: string): (decl: seq<(Key, Value)>)
    ensures IsList(decl) && |decl| == 1 && decl[0].1 == PStr(column)
  {
    [(IntKey(0), PStr(column))]
  }

  // ---------------------------------------------------------------------------
  // transformNanoIdColumns
  // ---------------------------------------------------------------------------

  /** `getKeyFromArrayValueOrDefaultKey`: the declared `'key'` when it is a string,
      otherwise the declaration's own array key. */
  function KeyOrDefault(key: string, value: seq<(Key, Value)>): (r: Value)
    ensures r.PStr?
    ensures Lookup(value, "key").PStr? ==> HasKey(value, "key") && r == Lookup(value, "key")
    ensures !Lookup(value, "key").PStr? ==> r == PStr(key)
  {
    if HasKey(value, "key") && Lookup(value, "key").PStr? then Lookup(value, "key") else PStr(key)
  }

  /** `getSizeFromArrayValueOrDefaultSize`: the declared size when it is a non-zero int;
      anything else (missing, null, 0, "10", 1.5, true) falls back to the default. */
  function SizeOrDefault(value: seq<(Key, Value)>, d: Defaults): (r: Value)
    ensures Lookup(value, "size").PInt? && Lookup(value, "size").i != 0 ==> r == Lookup(value, "size")
    ensures !(Lookup(value, "size").PInt? && Lookup(value, "size").i != 0) ==> r == DefaultSize(d)
  {
    var size := Lookup(value, "size");
    if Truthy(size) && size.PInt? then size else DefaultSize(d)
  }

  /** `getAlphabetsFromArrayValueOrDefaultAlphabets`: the declared alphabets when
      truthy, otherwise the default. */
  function AlphabetsOrDefault(value: seq<(Key, Value)>, d: Defaults): (r: Value)
    ensures Truthy(Lookup(value, "alphabets")) ==> r == Lookup(value, "alphabets")
    ensures !Truthy(Lookup(value, "alphabets")) ==> r == DefaultAlphabet(d)
  {
    Elvis(Lookup(value, "alphabets"), DefaultAlphabet(d))
  }

  /** `getColumnFromArrayValue` */
  function ColumnFromArrayValue(value: Value, d: Defaults): (r: Option<Column>)
    ensures r.Some? <==> value.PArr? && HasKey(value.entries, "key")
    ensures r.Some? ==> r.value.key == Lookup(value.entries, "key") &&
                        (r.value.size == DefaultSize(d) || (r.value.size.PInt? && r.value.size.i != 0))
    // a declared non-zero int size is kept, anything else falls back to the default
    ensures r.Some? && Lookup(value.entries, "size").PInt? && Lookup(value.entries, "size").i != 0 ==>
              r.value.size == Lookup(value.entries, "size")
    ensures r.Some? && !(Lookup(value.entries, "size").PInt? && Lookup(value.entries, "size").i != 0) ==>
              r.value.size == DefaultSize(d)
    // declared alphabets are kept when truthy, otherwise the default is used
    ensures r.Some? ==> r.value.alphabets == Elvis(Lookup(value.entries, "alphabets"), DefaultAlphabet(d))
  {
    if value.PArr? && HasKey(value.entries, "key") then
      Some(Column(Lookup(value.entries, "key"), SizeOrDefault(value.entries, d), AlphabetsOrDefault(value.entries, d)))
    else None
  }

  /** `getColumnFromStringValue` */
  function ColumnFromStringValue(value: Value, d: Defaults): (r: Option<Column>)
    ensures r.Some? <==> value.PStr? || (value.PArr? && HasKey(value.entries, "key"))
    ensures value.PStr? ==> r == Some(Column(value, DefaultSize(d), DefaultAlphabet(d)))
    ensures !value.PStr? ==> r == ColumnFromArrayValue(value, d)
  {
    if value.PStr? then Some(Column(value, DefaultSize(d), DefaultAlphabet(d)))
    else ColumnFromArrayValue(value, d)
  }

  /** `getColumnFromStringKey`; its helpers take `array $value`, so any other value
      raises a TypeError. */
  function ColumnFromStringKey(key: Key, value: Value, d: Defaults): (r: Result<Option<Column>>)
    ensures key.IntKey? ==> r == Ok(None)
    ensures key.StrKey? && !value.PArr? ==> r == Err(TypeError)
    ensures key.StrKey? && value.PArr? ==> r.Ok? && r.value.Some? && r.value.value.key.PStr?
    // named by a string 'key' or else the map key, with size and alphabets falling back
    ensures key.StrKey? && value.PArr? ==>
              r == Ok(Some(Column(KeyOrDefault(key.s, value.entries), SizeOrDefault(value.entries, d),
                                  AlphabetsOrDefault(value.entries, d))))
  {
    if key.StrKey? then
      if value.PArr? then
        Ok(Some(Column(KeyOrDefault(key.s, value.entries), SizeOrDefault(value.entries, d),
                       AlphabetsOrDefault(value.entries, d))))
      else Err(TypeError)
    else Ok(None)
  }

  /** `getColumnFromNumericKey`, the callback `transformNanoIdColumns` maps over the
      declaration's keys and values. */
  function MapColumn(key: Key, value: Value, d: Defaults): (r: Result<Option<Column>>)
    // a bare name at a numeric key: that name with the default size and alphabet
    ensures IsNumeric(key) && value.PStr? ==> r == Ok(Some(Column(value, DefaultSize(d), DefaultAlphabet(d))))
    // a key-bearing array at a numeric key: its 'key' as is, size and alphabets with fallback
    ensures IsNumeric(key) && value.PArr? && HasKey(value.entries, "key") ==>
              r == Ok(Some(Column(Lookup(value.entries, "key"), SizeOrDefault(value.entries, d),
                                  AlphabetsOrDefault(value.entries, d))))
    // anything else at a numeric key maps to null
    ensures IsNumeric(key) && !value.PStr? && !(value.PArr? && HasKey(value.entries, "key")) ==> r == Ok(None)
    // under a non-numeric key only an array is accepted, and it always yields a column with a string name
    ensures !IsNumeric(key) ==> key.StrKey? && (r.Ok? <==> value.PArr?)
    ensures !IsNumeric(key) && !value.PArr? ==> r == Err(TypeError)
    ensures !IsNumeric(key) && value.PArr? ==>
              r == Ok(Some(Column(KeyOrDefault(key.s, value.entries), SizeOrDefault(value.entries, d),
                                  AlphabetsOrDefault(value.entries, d))))
    // every resolved size is a non-zero int or the default, every alphabet truthy or the default
    ensures r.Ok? && r.value.Some? ==>
              (r.value.value.size == DefaultSize(d) || (r.value.value.size.PInt? && r.value.value.size.i != 0)) &&
              (r.value.value.alphabets == DefaultAlphabet(d) || Truthy(r.value.value.alphabets))
  {
    if IsNumeric(key) then Ok(ColumnFromStringValue(value, d))
    else ColumnFromStringKey(key, value, d)
  }

  function StrictEntry(d: Defaults): Mapper {
    (key: Key, value: Value) => MapColumn(key, value, d)
  }

  /** `transformNanoIdColumns($arr)`. The callback is applied to every entry, and a
      TypeError (a string-keyed entry whose value is not an array) aborts the whole call. */
  function Transform(decl: seq<(Key, Value)>, d: Defaults): (r: Result<seq<Column>>)
    ensures r.Err? <==> exists i :: 0 <= i < |decl| && !IsNumeric(decl[i].0) && !decl[i].1.PArr?
    ensures r.Err? ==> r.error == TypeError
    ensures r.Ok? ==> |r.value| <= |decl|
  {
    Resolve(StrictEntry(d), decl)
  }

  /** A list of bare names normalises, entry for entry, to those names with the
      default size and alphabet. */
  lemma {:induction false} BareNamesNormalise(decl: seq<(Key, Value)>, d: Defaults)
    requires forall i :: 0 <= i < |decl| ==> IsNumeric(decl[i].0) && decl[i].1.PStr?
    ensures Transform(decl, d).Ok? && |Transform(decl, d).value| == |decl|
    ensures forall i :: 0 <= i < |decl| ==>
              Transform(decl, d).value[i] == Column(decl[i].1, DefaultSize(d), DefaultAlphabet(d))
    decreases |decl|
  {
    if decl == [] {
      assert MapEntries(StrictEntry(d), decl) == Ok([]);
    } else {
      assert decl == [(decl[0].0, decl[0].1)] + decl[1..];
      ResolveAppend(StrictEntry(d), [(decl[0].0, decl[0].1)], decl[1..]);
      ResolveOne(StrictEntry(d), decl[0].0, decl[0].1);
      BareNamesNormalise(decl[1..], d);
    }
  }

  /** An entry the callback maps to null is simply absent from the result: removing it
      from the declaration changes nothing. */
  lemma TransformDropsUnrecognised(pre: seq<(Key, Value)>, key: Key, value: Value,
                                   post: seq<(Key, Value)>, d: Defaults)
    requires IsNumeric(key) && !value.PStr? && !(value.PArr? && HasKey(value.entries, "key"))
    ensures Transform(pre + [(key, value)] + post, d) == Transform(pre + post, d)
  {
    assert StrictEntry(d)(key, value) == Ok(None);
    ResolveSkipsNull(StrictEntry(d), pre, key, value, post);
  }

  /** `transformNanoIdColumns` returns the in-order subsequence of the recognised
      entries: each recognised entry i sits at Position(i), and positions strictly grow,
      so nothing is reordered or duplicated. */
  lemma TransformInOrder(decl: seq<(Key, Value)>, d: Defaults)
    requires Transform(decl, d).Ok?
    ensures |Transform(decl, d).value| <= |decl|
    ensures forall i :: 0 <= i < |decl| && MapColumn(decl[i].0, decl[i].1, d).value.Some? ==>
              Position(StrictEntry(d), decl, i) < |Transform(decl, d).value| &&
              Transform(decl, d).value[Position(StrictEntry(d), decl, i)] == MapColumn(decl[i].0, decl[i].1, d).value.value
    ensures forall i, j :: 0 <= i < j < |decl| && MapColumn(decl[i].0, decl[i].1, d).value.Some? ==>
              Position(StrictEntry(d), decl, i) < Position(StrictEntry(d), decl, j)
  {
    ResolveInOrder(StrictEntry(d), decl);
    forall i | 0 <= i < |decl| ensures StrictEntry(d)(decl[i].0, decl[i].1) == MapColumn(decl[i].0, decl[i].1, d) {
    }
  }

  /** Every resolved column is the mapping of one declaration entry, at its position. */
  lemma TransformOrigin(decl: seq<(Key, Value)>, d: Defaults, c: nat)
    requires Transform(decl, d).Ok? && c < |Transform(decl, d).value|
    ensures exists i :: 0 <= i < |decl| && Position(StrictEntry(d), decl, i) == c &&
                        MapColumn(decl[i].0, decl[i].1, d) == Ok(Some(Transform(decl, d).value[c]))
  {
    var f := StrictEntry(d);
    ResolveOrigin(f, decl, c);
    var i :| 0 <= i < |decl| && Position(f, decl, i) == c && f(decl[i].0, decl[i].1) == Ok(Some(Transform(decl, d).value[c]));
    assert MapColumn(decl[i].0, decl[i].1, d) == Ok(Some(Transform(decl, d).value[c]));
  }

  // ---------------------------------------------------------------------------
  // The creating hook: bootGeneratesNanoId
  // ---------------------------------------------------------------------------

  /** The state after the fill loop: attributes, generator calls made so far, and
      whether every column name could be used (otherwise the loop stopped there). */
  datatype FillOut = FillOut(attributes: map<string, Value>, calls: nat, ok: bool)

  /** The `foreach` of the creating hook over the resolved columns, starting with
      generator call number n: a column whose attribute is unset or null receives
      `NanoId::nanoId($size, $alphabets)`; a set attribute is left alone. */
  function Fill(attrs: map<string, Value>, cols: seq<Column>, draw: (nat, Value, Value) -> string, n: nat): (r: FillOut)
    ensures n <= r.calls <= n + |cols|
    ensures r.ok <==> forall i :: 0 <= i < |cols| ==> ColumnName(cols[i].key).Some?
    decreases |cols|
  {
    if cols == [] then FillOut(attrs, n, true)
    else match ColumnName(cols[0].key)
      case None => FillOut(attrs, n, false)
      case Some(name) =>
        if IsSet(attrs, name) then Fill(attrs, cols[1..], draw, n)
        else Fill(attrs[name := PStr(draw(n, cols[0].size, cols[0].alphabets))], cols[1..], draw, n + 1)
  }

  /** An attribute that is already set is never overwritten. */
  lemma {:induction false} FillKeepsSet(attrs: map<string, Value>, cols: seq<Column>,
                                        draw: (nat, Value, Value) -> string, n: nat, name: string)
    requires IsSet(attrs, name)
    ensures name in Fill(attrs, cols, draw, n).attributes
    ensures Fill(attrs, cols, draw, n).attributes[name] == attrs[name]
    decreases |cols|
  {
    if cols != [] && ColumnName(cols[0].key).Some? {
      var col := ColumnName(cols[0].key).value;
      if IsSet(attrs, col) {
        FillKeepsSet(attrs, cols[1..], draw, n, name);
      } else {
        FillKeepsSet(attrs[col := PStr(draw(n, cols[0].size, cols[0].alphabets))], cols[1..], draw, n + 1, name);
      }
    }
  }

  /** An attribute no resolved column names is untouched (present or absent alike). */
  lemma {:induction false} FillLeavesOthers(attrs: map<string, Value>, cols: seq<Column>,
                                            draw: (nat, Value, Value) -> string, n: nat, name: string)
    requires forall i :: 0 <= i < |cols| ==> ColumnName(cols[i].key) != Some(name)
    ensures name in Fill(attrs, cols, draw, n).attributes <==> name in attrs
    ensures name in attrs ==> Fill(attrs, cols, draw, n).attributes[name] == attrs[name]
    decreases |cols|
  {
    if cols != [] && ColumnName(cols[0].key).Some? {
      var col := ColumnName(cols[0].key).value;
      assert col != name;
      if IsSet(attrs, col) {
        FillLeavesOthers(attrs, cols[1..], draw, n, name);
      } else {
        FillLeavesOthers(attrs[col := PStr(draw(n, cols[0].size, cols[0].alphabets))], cols[1..], draw, n + 1, name);
      }
    }
  }

  /** When the loop completes, every resolved column's attribute is set. */
  lemma {:induction false} FillSetsEveryColumn(attrs: map<string, Value>, cols: seq<Column>,
                                               draw: (nat, Value, Value) -> string, n: nat, i: nat)
    requires Fill(attrs, cols, draw, n).ok && i < |cols|
    ensures IsSet(Fill(attrs, cols, draw, n).attributes, ColumnName(cols[i].key).value)
    decreases |cols|
  {
    var col := ColumnName(cols[0].key).value;
    var next := if IsSet(attrs, col) then attrs else attrs[col := PStr(draw(n, cols[0].size, cols[0].alphabets))];
    var m := if IsSet(attrs, col) then n else n + 1;
    assert Fill(attrs, cols, draw, n) == Fill(next, cols[1..], draw, m);
    if i == 0 {
      FillKeepsSet(next, cols[1..], draw, m, col);
    } else {
      FillSetsEveryColumn(next, cols[1..], draw, m, i - 1);
    }
  }

  /** An unset attribute ends up holding the output of a generator call made with the
      size and alphabets of the FIRST column that names it; later duplicates find it
      set and leave it alone. */
  lemma {:induction false} FillFirstWins(attrs: map<string, Value>, cols: seq<Column>,
                                         draw: (nat, Value, Value) -> string, n: nat, i: nat, name: string)
    requires Fill(attrs, cols, draw, n).ok && !IsSet(attrs, name)
    requires i < |cols| && ColumnName(cols[i].key) == Some(name)
    requires forall j :: 0 <= j < i ==> ColumnName(cols[j].key) != Some(name)
    ensures name in Fill(attrs, cols, draw, n).attributes
    ensures exists k :: n <= k < Fill(attrs, cols, draw, n).calls &&
              Fill(attrs, cols, draw, n).attributes[name] == PStr(draw(k, cols[i].size, cols[i].alphabets))
    decreases |cols|
  {
    var r := Fill(attrs, cols, draw, n);
    var col := ColumnName(cols[0].key).value;
    if i == 0 {
      var next := attrs[name := PStr(draw(n, cols[0].size, cols[0].alphabets))];
      assert r == Fill(next, cols[1..], draw, n + 1);
      FillKeepsSet(next, cols[1..], draw, n + 1, name);
      assert r.attributes[name] == PStr(draw(n, cols[i].size, cols[i].alphabets));
    } else {
      var next := if IsSet(attrs, col) then attrs else attrs[col := PStr(draw(n, cols[0].size, cols[0].alphabets))];
      var m := if IsSet(attrs, col) then n else n + 1;
      assert r == Fill(next, cols[1..], draw, m);
      assert cols[1..][i - 1] == cols[i];
      FillFirstWins(next, cols[1..], draw, m, i - 1, name);
    }
  }

  /** The fill loop of the creating hook, run on the model in place. */
  method FillColumns(m: Record, cols: seq<Column>, gen: Generator) returns (ok: bool)
    modifies m`attributes, gen`calls
    ensures FillOut(m.attributes, gen.calls, ok) == Fill(old(m.attributes), cols, gen.draw, old(gen.calls))
  {
    ok := true;
    var i := 0;
    while i < |cols|
      invariant 0 <= i <= |cols|
      invariant Fill(old(m.attributes), cols, gen.draw, old(gen.calls)) ==
                Fill(m.attributes, cols[i..], gen.draw, gen.calls)
    {
      assert cols[i..][0] == cols[i] && cols[i..][1..] == cols[i + 1..];
      var name := ColumnName(cols[i].key);
      if name.None? {
        ok := false;
        return;
      }
      if !IsSet(m.attributes, name.value) {
        var id := gen.NanoId(cols[i].size, cols[i].alphabets);
        m.attributes := m.attributes[name.value := PStr(id)];
      }
      i := i + 1;
    }
  }

  /** What a creating hook leaves behind: the model's attributes, the generator calls
      made, and whether the model is created or the hook threw. */
  datatype Outcome = Created | Aborted(error: PhpError)
  datatype HookOut = HookOut(attributes: map<string, Value>, calls: nat, outcome: Outcome)

  /** `bootGeneratesNanoId`'s creating callback: resolve the declaration, then fill. */
  function NanoIdHook(attrs: map<string, Value>, decl: seq<(Key, Value)>,
                      draw: (nat, Value, Value) -> string, n: nat, d: Defaults): (r: HookOut)
    ensures n <= r.calls
    ensures r.outcome == Created <==>
              Transform(decl, d).Ok? && forall c :: c in Transform(decl, d).value ==> ColumnName(c.key).Some?
  {
    match Transform(decl, d)
    case Err(e) => HookOut(attrs, n, Aborted(e))
    case Ok(cols) =>
      var f := Fill(attrs, cols, draw, n);
      HookOut(f.attributes, f.calls, if f.ok then Created else Aborted(IllegalOffset))
  }

  method BootGeneratesNanoId(m: Record, gen: Generator) returns (outcome: Outcome)
    modifies m`attributes, gen`calls
    ensures HookOut(m.attributes, gen.calls, outcome) ==
            NanoIdHook(old(m.attributes), m.nanoIdColumns, gen.draw, old(gen.calls), gen.defaults)
  {
    var cols := Transform(m.nanoIdColumns, gen.defaults);
    if cols.Err? {
      return Aborted(cols.error);
    }
    var ok := FillColumns(m, cols.value, gen);
    outcome := if ok then Created else Aborted(IllegalOffset);
  }

  /** The hook never overwrites a set attribute, and touches no attribute the
      declaration does not resolve to. */
  lemma NanoIdHookFrame(attrs: map<string, Value>, decl: seq<(Key, Value)>,
                        draw: (nat, Value, Value) -> string, n: nat, d: Defaults, name: string)
    ensures IsSet(attrs, name) ==>
              name in NanoIdHook(attrs, decl, draw, n, d).attributes &&
              NanoIdHook(attrs, decl, draw, n, d).attributes[name] == attrs[name]
    ensures Transform(decl, d).Ok? &&
            (forall c :: c in Transform(decl, d).value ==> ColumnName(c.key) != Some(name)) ==>
              (name in NanoIdHook(attrs, decl, draw, n, d).attributes <==> name in attrs) &&
              (name in attrs ==> NanoIdHook(attrs, decl, draw, n, d).attributes[name] == attrs[name])
  {
    if Transform(decl, d).Ok? {
      var cols := Transform(decl, d).value;
      if IsSet(attrs, name) {
        FillKeepsSet(attrs, cols, draw, n, name);
      }
      if forall c :: c in cols ==> ColumnName(c.key) != Some(name) {
        forall i | 0 <= i < |cols| ensures ColumnName(cols[i].key) != Some(name) {
          assert cols[i] in cols;
        }
        FillLeavesOthers(attrs, cols, draw, n, name);
      }
    }
  }

  /** End to end, for the default declaration `[$this->nanoIdColumn()]`: an unset column
      receives the first generator call's output at the default size and alphabet; a
      column the caller already set keeps its value. */
  lemma NanoIdHookDefaultColumn(attrs: map<string, Value>, column: string,
                                draw: (nat, Value, Value) -> string, n: nat, d: Defaults)
    ensures NanoIdHook(attrs, NanoIdColumns(column), draw, n, d).outcome == Created
    ensures !IsSet(attrs, column) ==>
              NanoIdHook(attrs, NanoIdColumns(column), draw, n, d).attributes ==
              attrs[column := PStr(draw(n, DefaultSize(d), DefaultAlphabet(d)))]
    ensures IsSet(attrs, column) ==> NanoIdHook(attrs, NanoIdColumns(column), draw, n, d).attributes == attrs
  {
    var c := Column(PStr(column), DefaultSize(d), DefaultAlphabet(d));
    ResolveOne(StrictEntry(d), IntKey(0), PStr(column));
    assert Transform(NanoIdColumns(column), d) == Ok([c]);
    assert [c][1..] == [];
    var next := if IsSet(attrs, column) then attrs else attrs[column := PStr(draw(n, DefaultSize(d), DefaultAlphabet(d)))];
    assert Fill(attrs, [c], draw, n) == Fill(next, [], draw, if IsSet(attrs, column) then n else n + 1);
  }

  // ---------------------------------------------------------------------------
  // scopeWhereNanoId's column choice on the strict model
  // ---------------------------------------------------------------------------

  /** The trait's own defaults, `nanoIdColumn()` = 'nanoid' and `nanoIdColumns()` =
      `['nanoid']`: one default column `nanoid`, which every lookup uses. */
  lemma NanoIdDefaults(d: Defaults, requested: Option<string>)
    ensures Transform(NanoIdColumns(NANOID_COLUMN), d) ==
            Ok([Column(PStr(NANOID_COLUMN), DefaultSize(d), DefaultAlphabet(d))])
    ensures WhereNanoIdColumn(requested, NanoIdColumns(NANOID_COLUMN)) == PStr("nanoid")
  {
    ResolveOne(StrictEntry(d), IntKey(0), PStr(NANOID_COLUMN));
    LookupDefaultColumn(NANOID_COLUMN, requested);
  }

  /** With the default declaration the lookup always uses `nanoIdColumn()`, whatever
      column the route asks for. */
  lemma LookupDefaultColumn(column: string, requested: Option<string>)
    ensures WhereNanoIdColumn(requested, NanoIdColumns(column)) == PStr(column)
  {
  }

  /** On a list of bare names the lookup as written agrees with a lookup among the
      resolved columns: the requested column if declared, otherwise the first. */
  lemma LookupAgreesOnNameLists(requested: Option<string>, decl: seq<(Key, Value)>, d: Defaults)
    requires IsList(decl) && decl != []
    requires forall i :: 0 <= i < |decl| ==> decl[i].1.PStr?
    ensures Transform(decl, d).Ok?
    ensures WhereResolvedColumn(requested, Transform(decl, d).value) == Some(WhereNanoIdColumn(requested, decl))
  {
    BareNamesNormalise(decl, d);
    var cols := Transform(decl, d).value;
    if requested.Some? {
      var v := PStr(requested.value);
      if InArray(v, decl) {
        var i :| 0 <= i < |decl| && decl[i].1 == v;
        assert cols[i].key == v;
      }
      if Declares(cols, v) {
        var i :| 0 <= i < |cols| && cols[i].key == v;
        assert decl[i].1 == v;
      }
    }
    assert cols[0].key == decl[0].1;
  }

  /** The declaration of tests/Fixtures/MultipleNanoIdRouteBoundPost.php: the route's
      `custom_nanoId` binds to that column; no request, or an undeclared one, uses `nanoId`. */
  function MultipleNanoIdDeclaration(): seq<(Key, Value)> {
    [(IntKey(0), PStr("nanoId")), (IntKey(1), PStr("custom_nanoId"))]
  }

  lemma LookupFixture()
    ensures WhereNanoIdColumn(Some("custom_nanoId"), MultipleNanoIdDeclaration()) == PStr("custom_nanoId")
    ensures WhereNanoIdColumn(None, MultipleNanoIdDeclaration()) == PStr("nanoId")
    ensures WhereNanoIdColumn(Some("uuid"), MultipleNanoIdDeclaration()) == PStr("nanoId")
  {
    assert MultipleNanoIdDeclaration()[1].1 == PStr("custom_nanoId");
    assert IsList(MultipleNanoIdDeclaration());
    assert !InArray(PStr("uuid"), MultipleNanoIdDeclaration());
  }

  /** As written, the lookup compares the request with the RAW declaration values and
      falls back to entry 0. For a string-keyed declaration such as
      `['nanoid' => ['size' => 10]]` neither matches: the column is null, although the
      declaration resolves to the column `nanoid`. */
  lemma LookupIgnoresResolvedNames(d: Defaults)
    ensures var decl := [(StrKey("nanoid"), PArr([(StrKey("size"), PInt(10))]))];
            Transform(decl, d) == Ok([Column(PStr("nanoid"), PInt(10), DefaultAlphabet(d))]) &&
            WhereNanoIdColumn(Some("nanoid"), decl) == PNull &&
            WhereNanoIdColumn(None, decl) == PNull &&
            WhereResolvedColumn(Some("nanoid"), Transform(decl, d).value) == Some(PStr("nanoid")) &&
            WhereResolvedColumn(None, Transform(decl, d).value) == Some(PStr("nanoid"))
  {
    var decl := [(StrKey("nanoid"), PArr([(StrKey("size"), PInt(10))]))];
    LetterLedIsNotNumeric("nanoid");
    var col := Column(PStr("nanoid"), PInt(10), DefaultAlphabet(d));
    assert MapColumn(StrKey("nanoid"), PArr([(StrKey("size"), PInt(10))]), d) == Ok(Some(col));
    ResolveOne(StrictEntry(d), StrKey("nanoid"), PArr([(StrKey("size"), PInt(10))]));
    assert !InArray(PStr("nanoid"), decl);
    assert [col][0].key == PStr("nanoid");
  }

  // ---------------------------------------------------------------------------
  // Examples
  // ---------------------------------------------------------------------------

  /** A bare name normalises to the default column; an entry that is neither a string
      nor a key-bearing array is dropped. */
  lemma TransformExamples(d: Defaults)
    ensures Transform([(IntKey(0), PStr("nanoid"))], d) ==
            Ok([Column(PStr("nanoid"), DefaultSize(d), DefaultAlphabet(d))])
    ensures Transform([(IntKey(0), PInt(42))], d) == Ok([])
  {
    ResolveOne(StrictEntry(d), IntKey(0), PStr("nanoid"));
    ResolveOne(StrictEntry(d), IntKey(0), PInt(42));
  }

  /** A bare name followed by a key-bearing array with a size override: two columns,
      the second with size 10 and the default alphabet. */
  lemma TransformOverrideExample(d: Defaults)
    ensures Transform([(IntKey(0), PStr("nanoid")),
                       (IntKey(1), PArr([(StrKey("key"), PStr("custom")), (StrKey("size"), PInt(10))]))], d) ==
            Ok([Column(PStr("nanoid"), DefaultSize(d), DefaultAlphabet(d)),
                Column(PStr("custom"), PInt(10), DefaultAlphabet(d))])
  {
    var f := StrictEntry(d);
    var e0 := (IntKey(0), PStr("nanoid"));
    var a := [(StrKey("key"), PStr("custom")), (StrKey("size"), PInt(10))];
    var e1 := (IntKey(1), PArr(a));
    var c0 := Column(PStr("nanoid"), DefaultSize(d), DefaultAlphabet(d));
    var c1 := Column(PStr("custom"), PInt(10), DefaultAlphabet(d));
    assert Find(a, StrKey("key")) == Some(PStr("custom"));
    assert Find(a[1..], StrKey("size")) == Some(PInt(10));
    assert Find(a[1..][1..], StrKey("alphabets")) == None;
    assert MapColumn(e1.0, e1.1, d) == Ok(Some(c1));
    ResolveOne(f, e0.0, e0.1);
    ResolveOne(f, e1.0, e1.1);
    ResolveAppend(f, [e0], [e1]);
    assert [e0] + [e1] == [e0, e1];
    assert [c0] + [c1] == [c0, c1];
  }

  /** String-keyed declarations: an empty override keeps the map key as the name. */
  lemma StringKeyExample(d: Defaults)
    ensures MapColumn(StrKey("nanoid"), PArr([]), d) ==
            Ok(Some(Column(PStr("nanoid"), DefaultSize(d), DefaultAlphabet(d))))
  {
    LetterLedIsNotNumeric("nanoid");
  }

  /** String-keyed declarations: a string `'key'` renames the column. */
  lemma StringKeyRenameExample(d: Defaults)
    ensures MapColumn(StrKey("custom"),
                      PArr([(StrKey("key"), PStr("other_name")), (StrKey("alphabets"), PStr("ABC"))]), d) ==
            Ok(Some(Column(PStr("other_name"), DefaultSize(d), PStr("ABC"))))
  {
    LetterLedIsNotNumeric("custom");
    var a := [(StrKey("key"), PStr("other_name")), (StrKey("alphabets"), PStr("ABC"))];
    assert Find(a, StrKey("key")) == Some(PStr("other_name"));
    assert Find(a[1..], StrKey("alphabets")) == Some(PStr("ABC"));
    assert Find(a[1..][1..], StrKey("size")) == None;
    assert KeyOrDefault("custom", a) == PStr("other_name");
    assert SizeOrDefault(a, d) == DefaultSize(d);
    assert AlphabetsOrDefault(a, d) == PStr("ABC");
  }

  /** String-keyed declarations: a non-string `'key'` is ignored, and a value that is
      not an array raises a TypeError. */
  lemma StringKeyRejections(d: Defaults)
    ensures MapColumn(StrKey("nanoid"), PArr([(StrKey("key"), PInt(5))]), d) ==
            Ok(Some(Column(PStr("nanoid"), DefaultSize(d), DefaultAlphabet(d))))
    ensures MapColumn(StrKey("nanoid"), PStr("slug"), d) == Err(TypeError)
  {
    LetterLedIsNotNumeric("nanoid");
  }

  /** The fallbacks: 0, null, a missing size and the string "10" give the default size
      while a negative int passes through; "" and "0" give the default alphabet. */
  lemma FallbackExamples(d: Defaults)
    ensures SizeOrDefault([(StrKey("size"), PInt(0))], d) == DefaultSize(d)
    ensures SizeOrDefault([(StrKey("size"), PNull)], d) == DefaultSize(d)
    ensures SizeOrDefault([], d) == DefaultSize(d)
    ensures SizeOrDefault([(StrKey("size"), PStr("10"))], d) == DefaultSize(d)
    ensures SizeOrDefault([(StrKey("size"), PInt(-3))], d) == PInt(-3)
    ensures AlphabetsOrDefault([(StrKey("alphabets"), PStr(""))], d) == DefaultAlphabet(d)
    ensures AlphabetsOrDefault([(StrKey("alphabets"), PStr("0"))], d) == DefaultAlphabet(d)
    ensures AlphabetsOrDefault([(StrKey("alphabets"), PStr("ABC"))], d) == PStr("ABC")
  {
  }
}

/** The `GeneratesNanoIdAsPrimaryKey` trait: a creating hook that gives `nanoIdColumn()`
    (here `id`) a fresh NanoID, switches the model to string, non-incrementing keys and
    fills the Eloquent primary key when it is empty. The trait also uses
    `GeneratesNanoId`, whose fill hook runs beside it. */
module GeneratesNanoIdAsPrimaryKey {
  import opened Php
  import opened NanoIdLib
  import opened Columns
  import opened Records
  import opened GeneratesNanoId

  /** `nanoIdColumn()` as this trait overrides it. */
  const PRIMARY_KEY_COLUMN: string := "id"

  /** `getIncrementing()` */
  function GetIncrementing(): (incrementing: bool)
    ensures !incrementing
  {
    false
  }

  /** `getKeyType()` */
  function GetKeyType(): (keyType: string)
    ensures keyType == "string"
  {
    "string"
  }

  /** The attributes after the primary-key section of a creating hook, and the
      generator calls made so far. */
  datatype KeyOut = KeyOut(attributes: map<string, Value>, calls: nat)

  /** The primary-key section of the creating hook, starting with generator call n:
      `nanoIdColumn()` is overwritten with a default-size NanoID whether or not it was
      set, then the Eloquent key keeps its value when truthy and otherwise receives a
      second default-size NanoID. */
  function PrimaryKeySection(attrs: map<string, Value>, column: string, keyName: string,
                             draw: (nat, Value, Value) -> string, n: nat, d: Defaults): (r: KeyOut)
    ensures r.calls == n + 1 || r.calls == n + 2
    // the NanoID column always holds a fresh default NanoID, set before or not
    ensures HoldsDefaultId(r.attributes, column, draw, d, n, r.calls)
    // the Eloquent key ends up truthy as it was, or holding a fresh default NanoID
    ensures keyName in r.attributes
    ensures Truthy(r.attributes[keyName]) || HoldsDefaultId(r.attributes, keyName, draw, d, n, r.calls)
    // when the two differ: the column gets the first call, the key keeps a truthy
    // value (and no second call is made) or gets the second call
    ensures keyName != column ==> r.attributes[column] == PStr(draw(n, DefaultSize(d), DefaultAlphabet(d)))
    ensures keyName != column && Truthy(Attribute(attrs, keyName)) ==>
              r.attributes[keyName] == attrs[keyName] && r.calls == n + 1
    ensures keyName != column && !Truthy(Attribute(attrs, keyName)) ==>
              r.attributes[keyName] == PStr(draw(n + 1, DefaultSize(d), DefaultAlphabet(d))) && r.calls == n + 2
    // when they are the same attribute (the default `id`): the first call is kept
    // when truthy, otherwise the second call replaces it
    ensures keyName == column ==>
              var first := PStr(draw(n, DefaultSize(d), DefaultAlphabet(d)));
              (Truthy(first) ==> r.attributes[column] == first && r.calls == n + 1) &&
              (!Truthy(first) ==> r.attributes[column] == PStr(draw(n + 1, DefaultSize(d), DefaultAlphabet(d))) &&
                                  r.calls == n + 2)
    // nothing else changes
    ensures forall a :: a != column && a != keyName ==>
              (a in r.attributes <==> a in attrs) && (a in attrs ==> r.attributes[a] == attrs[a])
  {
    var withId := attrs[column := PStr(draw(n, DefaultSize(d), DefaultAlphabet(d)))];
    var current := Attribute(withId, keyName);
    if Truthy(current) then KeyOut(withId[keyName := current], n + 1)
    else KeyOut(withId[keyName := PStr(draw(n + 1, DefaultSize(d), DefaultAlphabet(d)))], n + 2)
  }

  /** The primary-key section run on the model in place: the same attributes as the
      specification, and the model now uses string, non-incrementing keys. */
  method ConfigurePrimaryKey(m: Record, gen: Generator)
    modifies m`attributes, m`keyType, m`incrementing, gen`calls
    ensures KeyOut(m.attributes, gen.calls) ==
            PrimaryKeySection(old(m.attributes), m.nanoIdColumn, m.keyName, gen.draw, old(gen.calls), gen.defaults)
    ensures m.keyType == GetKeyType() && m.incrementing == GetIncrementing()
  {
    var id := gen.NanoId(DefaultSize(gen.defaults), DefaultAlphabet(gen.defaults));
    m.attributes := m.attributes[m.nanoIdColumn := PStr(id)];
    m.keyType := "string";
    m.incrementing := false;
    var current := Attribute(m.attributes, m.keyName);
    if !Truthy(current) {
      var key := gen.NanoId(DefaultSize(gen.defaults), DefaultAlphabet(gen.defaults));
      current := PStr(key);
    }
    m.attributes := m.attributes[m.keyName := current];
  }

  /** The inherited `nanoIdColumns()` is `['id']`, which resolves to the single column
      `id` at the default size and alphabet. */
  lemma DeclaresPrimaryKeyColumn(d: Defaults)
    ensures Transform(NanoIdColumns(PRIMARY_KEY_COLUMN), d) ==
            Ok([Column(PStr(PRIMARY_KEY_COLUMN), DefaultSize(d), DefaultAlphabet(d))])
  {
    ResolveOne(StrictEntry(d), IntKey(0), PStr(PRIMARY_KEY_COLUMN));
  }

  /** Fill hook first, then the primary-key section: the NanoID column ends up with a
      default-size NanoID whatever the fill hook wrote there. */
  lemma KeySectionAfterFill(attrs: map<string, Value>, decl: seq<(Key, Value)>, column: string, keyName: string,
                            draw: (nat, Value, Value) -> string, n: nat, d: Defaults)
    ensures var h := NanoIdHook(attrs, decl, draw, n, d);
            var k := PrimaryKeySection(h.attributes, column, keyName, draw, h.calls, d);
            HoldsDefaultId(k.attributes, column, draw, d, n, k.calls)
  {
    var h := NanoIdHook(attrs, decl, draw, n, d);
    var k := PrimaryKeySection(h.attributes, column, keyName, draw, h.calls, d);
    var i :| h.calls <= i < k.calls && k.attributes[column] == PStr(draw(i, DefaultSize(d), DefaultAlphabet(d)));
    assert n <= i;
  }

  /** Primary-key section first, then the fill hook: the fill hook finds the NanoID
      column and the Eloquent key set and leaves both alone, so the column keeps the
      primary-key section's NanoID. */
  lemma FillAfterKeySection(attrs: map<string, Value>, decl: seq<(Key, Value)>, column: string, keyName: string,
                            draw: (nat, Value, Value) -> string, n: nat, d: Defaults)
    ensures var k := PrimaryKeySection(attrs, column, keyName, draw, n, d);
            var h := NanoIdHook(k.attributes, decl, draw, k.calls, d);
            column in h.attributes && h.attributes[column] == k.attributes[column] &&
            keyName in h.attributes && h.attributes[keyName] == k.attributes[keyName] &&
            HoldsDefaultId(h.attributes, column, draw, d, n, h.calls)
  {
    var k := PrimaryKeySection(attrs, column, keyName, draw, n, d);
    var h := NanoIdHook(k.attributes, decl, draw, k.calls, d);
    assert IsSet(k.attributes, column);
    assert IsSet(k.attributes, keyName);
    NanoIdHookFrame(k.attributes, decl, draw, k.calls, d, column);
    NanoIdHookFrame(k.attributes, decl, draw, k.calls, d, keyName);
    var i :| n <= i < k.calls && k.attributes[column] == PStr(draw(i, DefaultSize(d), DefaultAlphabet(d)));
    assert i < h.calls;
  }

  /** Both creating hooks of a model using this trait, in either order (Eloquent's
      boot order decides which runs first); a hook that throws stops the creation.
      Whether the model is created does not depend on the order. */
  function CreatingHooks(attrs: map<string, Value>, decl: seq<(Key, Value)>, column: string, keyName: string,
                         draw: (nat, Value, Value) -> string, n: nat, d: Defaults, keyFirst: bool): (r: HookOut)
    ensures n <= r.calls
    ensures r.outcome == Created <==>
              Transform(decl, d).Ok? && forall c :: c in Transform(decl, d).value ==> ColumnName(c.key).Some?
    ensures r.outcome == Created ==> HoldsDefaultId(r.attributes, column, draw, d, n, r.calls)
    ensures r.outcome == Created ==> keyName in r.attributes
    // the key is set: it kept a truthy value or holds a fresh default NanoID
    ensures r.outcome == Created ==>
              IsSet(r.attributes, keyName) &&
              (Truthy(r.attributes[keyName]) || HoldsDefaultId(r.attributes, keyName, draw, d, n, r.calls))
    ensures r.outcome == Created && keyName != column && Truthy(Attribute(attrs, keyName)) ==>
              r.attributes[keyName] == attrs[keyName]
  {
    if keyFirst then
      var k := PrimaryKeySection(attrs, column, keyName, draw, n, d);
      FillAfterKeySection(attrs, decl, column, keyName, draw, n, d);
      NanoIdHook(k.attributes, decl, draw, k.calls, d)
    else
      var h := NanoIdHook(attrs, decl, draw, n, d);
      if h.outcome != Created then h
      else
        var k := PrimaryKeySection(h.attributes, column, keyName, draw, h.calls, d);
        KeySectionAfterFill(attrs, decl, column, keyName, draw, n, d);
        NanoIdHookFrame(attrs, decl, draw, n, d, keyName);
        HookOut(k.attributes, k.calls, Created)
  }

  /** In either order, an attribute other than the NanoID column and the key that was
      set before creation keeps its value. */
  lemma CreatingKeepsSet(attrs: map<string, Value>, decl: seq<(Key, Value)>, column: string, keyName: string,
                         draw: (nat, Value, Value) -> string, n: nat, d: Defaults, keyFirst: bool, name: string)
    requires name != column && name != keyName && IsSet(attrs, name)
    ensures name in CreatingHooks(attrs, decl, column, keyName, draw, n, d, keyFirst).attributes
    ensures CreatingHooks(attrs, decl, column, keyName, draw, n, d, keyFirst).attributes[name] == attrs[name]
  {
    if keyFirst {
      var k := PrimaryKeySection(attrs, column, keyName, draw, n, d);
      assert IsSet(k.attributes, name) && k.attributes[name] == attrs[name];
      NanoIdHookFrame(k.attributes, decl, draw, k.calls, d, name);
    } else {
      NanoIdHookFrame(attrs, decl, draw, n, d, name);
    }
  }

  /** The two hooks run on the model in place. */
  method Creating(m: Record, gen: Generator, keyFirst: bool) returns (outcome: Outcome)
    modifies m`attributes, m`keyType, m`incrementing, gen`calls
    ensures HookOut(m.attributes, gen.calls, outcome) ==
            CreatingHooks(old(m.attributes), m.nanoIdColumns, m.nanoIdColumn, m.keyName,
                          gen.draw, old(gen.calls), gen.defaults, keyFirst)
    ensures keyFirst || outcome == Created ==> m.keyType == GetKeyType() && m.incrementing == GetIncrementing()
    ensures !keyFirst && outcome != Created ==> m.keyType == old(m.keyType) && m.incrementing == old(m.incrementing)
  {
    if keyFirst {
      ConfigurePrimaryKey(m, gen);
      outcome := BootGeneratesNanoId(m, gen);
    } else {
      outcome := BootGeneratesNanoId(m, gen);
      if outcome == Created {
        ConfigurePrimaryKey(m, gen);
      }
    }
  }
}

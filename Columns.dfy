/** What both declaration normalisers share: the resolved column record, the
    `array_map` + `array_filter` pipeline that produces the list of columns, the
    conversion of a resolved `'key'` into an attribute name, and the lookup-column
    choice of `scopeWhereNanoId`, which both traits implement identically. */
module Columns {
  import opened Php

  /** A resolved declaration `['key' => …, 'size' => …, 'alphabets' => …]`. */
  datatype Column = Column(key: Value, size: Value, alphabets: Value)

  /** The callback handed to `array_map` with each key and value of the declaration:
      a column, `null` (None) for an entry it does not recognise, or a PHP error. */
  type Mapper = (Key, Value) -> Result<Option<Column>>

  // ---------------------------------------------------------------------------
  // array_map / array_filter
  // ---------------------------------------------------------------------------

  /** `array_filter` on the mapped entries: keeps the non-null ones, in order. */
  function Somes<T>(ms: seq<Option<T>>): (r: seq<T>)
    ensures |r| <= |ms|
  {
    if ms == [] then []
    else (if ms[0].Some? then [ms[0].value] else []) + Somes(ms[1..])
  }

  /** The position in the filtered list of the i-th mapped entry (when it is kept). */
  function Rank<T>(ms: seq<Option<T>>, i: nat): nat
    requires i <= |ms|
  {
    |Somes(ms[..i])|
  }

  /** `array_map($f, array_keys($arr), array_values($arr))`; the first error aborts. */
  function MapEntries(f: Mapper, e: seq<(Key, Value)>): (r: Result<seq<Option<Column>>>)
    ensures r.Ok? <==> forall i :: 0 <= i < |e| ==> f(e[i].0, e[i].1).Ok?
    ensures r.Ok? ==> |r.value| == |e| && forall i :: 0 <= i < |e| ==> f(e[i].0, e[i].1) == Ok(r.value[i])
    ensures r.Err? ==> exists i :: 0 <= i < |e| && f(e[i].0, e[i].1) == Err(r.error) &&
                                   forall j :: 0 <= j < i ==> f(e[j].0, e[j].1).Ok?
    decreases |e|
  {
    if e == [] then Ok([])
    else match f(e[0].0, e[0].1)
      case Err(x) => Err(x)
      case Ok(m) =>
        match MapEntries(f, e[1..])
        case Err(x) => Err(x)
        case Ok(ms) => Ok([m] + ms)
  }

  /** `array_filter(array_map(...))`: the resolved columns of a declaration. */
  function Resolve(f: Mapper, e: seq<(Key, Value)>): (r: Result<seq<Column>>)
    ensures r.Ok? <==> forall i :: 0 <= i < |e| ==> f(e[i].0, e[i].1).Ok?
    ensures r.Ok? ==> |r.value| <= |e|
  {
    match MapEntries(f, e)
    case Err(x) => Err(x)
    case Ok(ms) => Ok(Somes(ms))
  }

  /** Concatenation of two resolutions, keeping the first error. */
  function Concat(ra: Result<seq<Column>>, rb: Result<seq<Column>>): Result<seq<Column>> {
    match ra
    case Err(x) => Err(x)
    case Ok(ca) =>
      match rb
      case Err(y) => Err(y)
      case Ok(cb) => Ok(ca + cb)
  }

  lemma {:induction false} SomesAppend<T>(a: seq<Option<T>>, b: seq<Option<T>>)
    ensures Somes(a + b) == Somes(a) + Somes(b)
    decreases |a|
  {
    if a == [] {
      assert a + b == b;
    } else {
      assert (a + b)[0] == a[0] && (a + b)[1..] == a[1..] + b;
      SomesAppend(a[1..], b);
    }
  }

  /** A kept entry lands at its rank in the filtered list. */
  lemma RankPlaces<T>(ms: seq<Option<T>>, i: nat)
    requires i < |ms| && ms[i].Some?
    ensures Rank(ms, i) < |Somes(ms)| && Somes(ms)[Rank(ms, i)] == ms[i].value
  {
    assert ms == ms[..i] + [ms[i]] + ms[i + 1..];
    SomesAppend(ms[..i] + [ms[i]], ms[i + 1..]);
    SomesAppend(ms[..i], [ms[i]]);
  }

  /** Filtering never reorders: a kept entry ranks strictly below every later entry. */
  lemma RankMonotone<T>(ms: seq<Option<T>>, i: nat, j: nat)
    requires i < j <= |ms| && ms[i].Some?
    ensures Rank(ms, i) < Rank(ms, j)
  {
    assert ms[..j] == ms[..i] + [ms[i]] + ms[i + 1..j];
    SomesAppend(ms[..i] + [ms[i]], ms[i + 1..j]);
    SomesAppend(ms[..i], [ms[i]]);
  }

  /** Every element of the filtered list is a kept entry of the input. */
  lemma {:induction false} SomesOrigin<T>(ms: seq<Option<T>>, j: nat)
    requires j < |Somes(ms)|
    ensures exists i :: 0 <= i < |ms| && ms[i].Some? && Rank(ms, i) == j && Somes(ms)[j] == ms[i].value
    decreases |ms|
  {
    var last := |ms| - 1;
    assert ms == ms[..last] + [ms[last]];
    SomesAppend(ms[..last], [ms[last]]);
    if j < |Somes(ms[..last])| {
      SomesOrigin(ms[..last], j);
      var i :| 0 <= i < last && ms[..last][i].Some? && Rank(ms[..last], i) == j &&
               Somes(ms[..last])[j] == ms[..last][i].value;
      assert ms[..last][..i] == ms[..i];
    } else {
      assert ms[last].Some? && Rank(ms, last) == j;
    }
  }

  lemma {:induction false} MapEntriesAppend(f: Mapper, a: seq<(Key, Value)>, b: seq<(Key, Value)>)
    ensures MapEntries(f, a + b) ==
      match MapEntries(f, a)
      case Err(x) => Err(x)
      case Ok(ma) =>
        match MapEntries(f, b)
        case Err(y) => Err(y)
        case Ok(mb) => Ok(ma + mb)
    decreases |a|
  {
    if a == [] {
      assert a + b == b && MapEntries(f, a) == Ok([]);
      if MapEntries(f, b).Ok? {
        assert [] + MapEntries(f, b).value == MapEntries(f, b).value;
      }
    } else {
      assert (a + b)[0] == a[0] && (a + b)[1..] == a[1..] + b;
      MapEntriesAppend(f, a[1..], b);
      if f(a[0].0, a[0].1).Ok? && MapEntries(f, a[1..]).Ok? && MapEntries(f, b).Ok? {
        var m, ma, mb := f(a[0].0, a[0].1).value, MapEntries(f, a[1..]).value, MapEntries(f, b).value;
        assert [m] + (ma + mb) == ([m] + ma) + mb;
      }
    }
  }

  /** A one-entry declaration resolves to that entry's column, to nothing, or to its error. */
  lemma ResolveOne(f: Mapper, key: Key, value: Value)
    ensures Resolve(f, [(key, value)]) ==
      match f(key, value)
      case Err(x) => Err(x)
      case Ok(m) => Ok(if m.Some? then [m.value] else [])
  {
    var e := [(key, value)];
    assert e[0] == (key, value) && e[1..] == [];
    assert MapEntries(f, e[1..]) == Ok([]);
    if f(key, value).Ok? {
      var m := f(key, value).value;
      assert [m] + [] == [m];
      assert MapEntries(f, e) == Ok([m]);
      assert [m][1..] == [];
      assert Somes([m]) == if m.Some? then [m.value] else [];
    }
  }

  /** Resolving a concatenation resolves the two parts and concatenates them. */
  lemma ResolveAppend(f: Mapper, a: seq<(Key, Value)>, b: seq<(Key, Value)>)
    ensures Resolve(f, a + b) == Concat(Resolve(f, a), Resolve(f, b))
  {
    MapEntriesAppend(f, a, b);
    if MapEntries(f, a).Ok? && MapEntries(f, b).Ok? {
      SomesAppend(MapEntries(f, a).value, MapEntries(f, b).value);
    }
  }

  /** An entry the callback maps to null is simply absent from the result: removing it
      from the declaration changes nothing. */
  lemma ResolveSkipsNull(f: Mapper, pre: seq<(Key, Value)>, key: Key, value: Value, post: seq<(Key, Value)>)
    requires f(key, value) == Ok(None)
    ensures Resolve(f, pre + [(key, value)] + post) == Resolve(f, pre + post)
  {
    ResolveAppend(f, pre + [(key, value)], post);
    ResolveAppend(f, pre, [(key, value)]);
    ResolveAppend(f, pre, post);
    ResolveOne(f, key, value);
    if Resolve(f, pre).Ok? {
      assert Resolve(f, pre).value + [] == Resolve(f, pre).value;
    }
  }

  /** The resolved list is exactly the in-order subsequence of the recognised entries:
      each recognised entry i appears at position Position(f, e, i), positions grow with
      i, and every resolved column comes from such an entry. */
  function Position(f: Mapper, e: seq<(Key, Value)>, i: nat): nat
    requires MapEntries(f, e).Ok? && i <= |e|
  {
    Rank(MapEntries(f, e).value, i)
  }

  lemma ResolveInOrder(f: Mapper, e: seq<(Key, Value)>)
    requires Resolve(f, e).Ok?
    ensures forall i :: 0 <= i < |e| && f(e[i].0, e[i].1).value.Some? ==>
              Position(f, e, i) < |Resolve(f, e).value| &&
              Resolve(f, e).value[Position(f, e, i)] == f(e[i].0, e[i].1).value.value
    ensures forall i, j :: 0 <= i < j < |e| && f(e[i].0, e[i].1).value.Some? ==>
              Position(f, e, i) < Position(f, e, j)
  {
    var ms := MapEntries(f, e).value;
    forall i | 0 <= i < |e| && f(e[i].0, e[i].1).value.Some?
      ensures Position(f, e, i) < |Resolve(f, e).value| &&
              Resolve(f, e).value[Position(f, e, i)] == f(e[i].0, e[i].1).value.value
    {
      RankPlaces(ms, i);
    }
    forall i, j | 0 <= i < j < |e| && f(e[i].0, e[i].1).value.Some?
      ensures Position(f, e, i) < Position(f, e, j)
    {
      RankMonotone(ms, i, j);
    }
  }

  /** Every resolved column comes from one recognised entry, at that entry's position. */
  lemma ResolveOrigin(f: Mapper, e: seq<(Key, Value)>, c: nat)
    requires Resolve(f, e).Ok? && c < |Resolve(f, e).value|
    ensures exists i :: 0 <= i < |e| && Position(f, e, i) == c &&
                        f(e[i].0, e[i].1) == Ok(Some(Resolve(f, e).value[c]))
  {
    var ms := MapEntries(f, e).value;
    assert Resolve(f, e).value == Somes(ms);
    SomesOrigin(ms, c);
    var i :| 0 <= i < |ms| && ms[i].Some? && Rank(ms, i) == c && Somes(ms)[c] == ms[i].value;
    assert f(e[i].0, e[i].1) == Ok(ms[i]);
    assert Position(f, e, i) == c;
  }

  /** Two callbacks that agree on every entry resolve the declaration identically. */
  lemma {:induction false} ResolvePointwise(f: Mapper, g: Mapper, e: seq<(Key, Value)>)
    requires forall i :: 0 <= i < |e| ==> f(e[i].0, e[i].1) == g(e[i].0, e[i].1)
    ensures MapEntries(f, e) == MapEntries(g, e) && Resolve(f, e) == Resolve(g, e)
    decreases |e|
  {
    if e != [] {
      ResolvePointwise(f, g, e[1..]);
    }
  }

  // ---------------------------------------------------------------------------
  // From a resolved 'key' to an attribute name
  // ---------------------------------------------------------------------------

  function DigitChar(n: nat): char
    requires n < 10
  {
    ('0' as int + n) as char
  }

  /** The value of a decimal digit character. */
  function DigitValue(c: char): nat {
    if '0' <= c <= '9' then c as int - '0' as int else 0
  }

  function Digits(n: nat): (s: string)
    ensures |s| > 0
  {
    if n < 10 then [DigitChar(n)] else Digits(n / 10) + [DigitChar(n % 10)]
  }

  /** PHP's int-to-string conversion. */
  function DecimalString(n: int): string {
    if n < 0 then "-" + Digits(-n) else Digits(n)
  }

  /** Reading a run of decimal digits back as a number. */
  function ParseDigits(s: string): nat {
    if s == [] then 0 else ParseDigits(s[..|s| - 1]) * 10 + DigitValue(s[|s| - 1])
  }

  /** The digits of n read back as n. */
  lemma {:induction false} DigitsRoundTrip(n: nat)
    ensures ParseDigits(Digits(n)) == n
  {
    if n >= 10 {
      var s := Digits(n);
      assert s[..|s| - 1] == Digits(n / 10);
      DigitsRoundTrip(n / 10);
    }
  }

  /** The digits of n never start with a minus sign. */
  lemma {:induction false} DigitsUnsigned(n: nat)
    ensures Digits(n)[0] != '-'
  {
    if n >= 10 {
      DigitsUnsigned(n / 10);
    }
  }

  /** Distinct ints name distinct attributes. */
  lemma DecimalStringInjective(a: int, b: int)
    requires DecimalString(a) == DecimalString(b)
    ensures a == b
  {
    if a < 0 && b < 0 {
      assert Digits(-a) == DecimalString(a)[1..] == DecimalString(b)[1..] == Digits(-b);
      DigitsRoundTrip(-a);
      DigitsRoundTrip(-b);
    } else if a >= 0 && b >= 0 {
      DigitsRoundTrip(a);
      DigitsRoundTrip(b);
    } else if a < 0 {
      DigitsUnsigned(b);
      assert false;
    } else {
      DigitsUnsigned(a);
      assert false;
    }
  }

  /** PHP spells an int key in decimal with a leading minus for negatives. */
  lemma DecimalStringExamples()
    ensures DecimalString(42) == "42" && DecimalString(-3) == "-3" && DecimalString(0) == "0"
    ensures ColumnName(PInt(42)) == Some("42")
  {
  }

  /** The attribute a resolved `'key'` names when used as `$model->attributes[$key]`
      and `$model->{$key}`: a string names itself, an int its decimal spelling; any
      other value is not a usable attribute name. */
  function ColumnName(key: Value): (name: Option<string>)
    ensures name.Some? <==> key.PStr? || key.PInt?
    ensures key.PStr? ==> name == Some(key.s)
    ensures key.PInt? ==> name.Some? && name.value != []
    ensures key.PInt? ==> name == Some(DecimalString(key.i))
  {
    match key
    case PStr(s) => Some(s)
    case PInt(i) => Some(DecimalString(i))
    case _ => None
  }

  // ---------------------------------------------------------------------------
  // scopeWhereNanoId's column choice
  // ---------------------------------------------------------------------------

  /** `$this->nanoIdColumns()[0]`: the value stored under key 0, or null. */
  function FirstDeclared(declared: seq<(Key, Value)>): (c: Value)
    ensures c == PNull || InArray(c, declared)
    ensures IsList(declared) && declared != [] ==> c == declared[0].1
    // the value stored under key 0 when there is one, null otherwise
    ensures (exists i :: 0 <= i < |declared| && declared[i].0 == IntKey(0)) ==>
              exists i :: 0 <= i < |declared| && declared[i] == (IntKey(0), c)
    ensures (forall i :: 0 <= i < |declared| ==> declared[i].0 != IntKey(0)) ==> c == PNull
  {
    match Find(declared, IntKey(0))
    case Some(v) => v
    case None => PNull
  }

  /** The column `scopeWhereNanoId` filters on, as written: the requested column if it is
      non-null and `in_array` of the raw declaration, otherwise the declaration's entry 0. */
  function WhereNanoIdColumn(requested: Option<string>, declared: seq<(Key, Value)>): (c: Value)
    ensures requested.Some? && InArray(PStr(requested.value), declared) ==> c == PStr(requested.value)
    ensures c == PNull || InArray(c, declared)
    ensures IsList(declared) && declared != [] &&
              !(requested.Some? && InArray(PStr(requested.value), declared))
            ==> c == declared[0].1
    // otherwise the entry under key 0, or null when key 0 is absent
    ensures !(requested.Some? && InArray(PStr(requested.value), declared)) ==>
              ((exists i :: 0 <= i < |declared| && declared[i].0 == IntKey(0)) ==>
                 exists i :: 0 <= i < |declared| && declared[i] == (IntKey(0), c))
    ensures !(requested.Some? && InArray(PStr(requested.value), declared)) ==>
              ((forall i :: 0 <= i < |declared| ==> declared[i].0 != IntKey(0)) ==> c == PNull)
  {
    if requested.Some? && InArray(PStr(requested.value), declared)
    then PStr(requested.value)
    else FirstDeclared(declared)
  }

  predicate Declares(cols: seq<Column>, key: Value) {
    exists i :: 0 <= i < |cols| && cols[i].key == key
  }

  /** The lookup column chosen among the RESOLVED columns: the requested one if some
      resolved column has that name, otherwise the first resolved column; None when
      the declaration resolves to nothing. */
  function WhereResolvedColumn(requested: Option<string>, cols: seq<Column>): (c: Option<Value>)
    ensures c.None? <==> cols == []
    ensures c.Some? ==> Declares(cols, c.value)
    ensures requested.Some? && Declares(cols, PStr(requested.value)) ==> c == Some(PStr(requested.value))
    ensures !(requested.Some? && Declares(cols, PStr(requested.value))) && cols != [] ==> c == Some(cols[0].key)
  {
    if requested.Some? && Declares(cols, PStr(requested.value)) then Some(PStr(requested.value))
    else if cols == [] then None
    else Some(cols[0].key)
  }
}

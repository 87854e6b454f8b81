/** The external NanoID generator library (`NanoId::nanoId`, `SIZE_DEFAULT`,
    `ALPHABET_DEFAULT`), kept abstract: the model never depends on what a
    generated string contains, only on which call produced it. */
module NanoIdLib {
  import opened Php

  /** The library's `SIZE_DEFAULT` and `ALPHABET_DEFAULT`. Their values belong to
      the library and are deliberately left as parameters. */
  datatype Defaults = Defaults(size: int, alphabet: string)

  /** The arguments `NanoId::nanoId()` receives when called without any. */
  function DefaultSize(d: Defaults): Value { PInt(d.size) }
  function DefaultAlphabet(d: Defaults): Value { PStr(d.alphabet) }

  /** The random source. `draw(k, size, alphabet)` is the string the k-th call
      returns for those arguments; any function is a possible random source, so
      every property proved here holds whatever the generator produces. */
  class Generator {
    const draw: (nat, Value, Value) -> string
    const defaults: Defaults
    var calls: nat

    constructor (draw: (nat, Value, Value) -> string, defaults: Defaults)
      ensures this.draw == draw && this.defaults == defaults && calls == 0
    {
      this.draw := draw;
      this.defaults := defaults;
      calls := 0;
    }

    /** `NanoId::nanoId(size: $size, alphabet: $alphabet)`: one more call. */
    method NanoId(size: Value, alphabet: Value) returns (id: string)
      modifies this`calls
      ensures calls == old(calls) + 1
      ensures id == draw(old(calls), size, alphabet)
    {
      id := draw(calls, size, alphabet);
      calls := calls + 1;
    }
  }

  /** `attrs[name]` holds the output of one of the calls `lo .. hi-1` made with
      the library's default size and alphabet. */
  ghost predicate HoldsDefaultId(attrs: map<string, Value>, name: string,
                                 draw: (nat, Value, Value) -> string, d: Defaults, lo: nat, hi: nat)
  {
    name in attrs &&
    exists k :: lo <= k < hi && attrs[name] == PStr(draw(k, DefaultSize(d), DefaultAlphabet(d)))
  }
}

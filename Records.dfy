/** The Eloquent model the creating hooks run on: its attribute map and the two
    primary-key settings the hooks write, plus what the model class declares. */
module Records {
  import opened Php

  class Record {
    /** `$model->attributes` */
    var attributes: map<string, Value>
    /** `$model->keyType` */
    var keyType: string
    /** `$model->incrementing` */
    var incrementing: bool
    /** `$model->getKeyName()`, the Eloquent primary-key column. */
    const keyName: string
    /** `$model->nanoIdColumn()` as the model class declares it. */
    const nanoIdColumn: string
    /** `$model->nanoIdColumns()` as the model class declares it (a PHP array). */
    const nanoIdColumns: seq<(Key, Value)>

    /** A fresh model with Eloquent's own defaults: integer, auto-incrementing keys. */
    constructor (attributes: map<string, Value>, keyName: string, nanoIdColumn: string,
                 nanoIdColumns: seq<(Key, Value)>)
      ensures this.attributes == attributes && keyType == "int" && incrementing
      ensures this.keyName == keyName && this.nanoIdColumn == nanoIdColumn
      ensures this.nanoIdColumns == nanoIdColumns
    {
      this.attributes := attributes;
      keyType := "int";
      incrementing := true;
      this.keyName := keyName;
      this.nanoIdColumn := nanoIdColumn;
      this.nanoIdColumns := nanoIdColumns;
    }
  }

  /** `isset($model->attributes[$name])`: present and not null. */
  predicate IsSet(attrs: map<string, Value>, name: string) {
    name in attrs && attrs[name] != PNull
  }

  /** An attribute holding null counts as unset, while a falsy non-null value such as
      `""` or `false` counts as set. */
  lemma IsSetExamples()
    ensures !IsSet(map[], "id") && !IsSet(map["id" := PNull], "id")
    ensures IsSet(map["id" := PStr("")], "id") && IsSet(map["id" := PBool(false)], "id")
  {
  }

  /** Reading `$model->{$name}`: the attribute, or null when it is missing. */
  function Attribute(attrs: map<string, Value>, name: string): (v: Value)
    ensures IsSet(attrs, name) ==> v == attrs[name]
    ensures v != PNull ==> IsSet(attrs, name) && attrs[name] == v
    ensures !IsSet(attrs, name) ==> v == PNull
  {
    if name in attrs then attrs[name] else PNull
  }
}

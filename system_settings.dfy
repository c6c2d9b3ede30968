/**
 * The `SystemSetting` model: a key-value table (the key is the primary key)
 * whose values are stored as JSON, with the static `getValue` and
 * `setValue` accessors.
 */
module SystemSettings {
  import opened Common

  /** A JSON value as the `array` cast hands it back; a stored null stays null. */
  datatype Value = Null | Bool(b: bool) | Number(n: int) | Text(s: string) | List(items: seq<Value>)

  /** A row of `system_settings` without its key; the table keeps no other timestamps. */
  datatype Setting = Setting(value: Value, updatedAt: Option<Time>)

  /** `find($key)?->value ?? $default` over the rows, by key. */
  function Lookup(rows: map<string, Setting>, key: string, default: Value): (v: Value)
    ensures key !in rows ==> v == default
    ensures key in rows && rows[key].value.Null? ==> v == default
    ensures key in rows && !rows[key].value.Null? ==> v == rows[key].value
  {
    if key in rows && !rows[key].value.Null? then rows[key].value else default
  }

  /** `updateOrCreate(['key' => $key], ['value' => $value, 'updated_at' => now()])` over the rows. */
  function Upsert(rows: map<string, Setting>, key: string, value: Value, now: Time): (r: map<string, Setting>)
    ensures key in r && r[key] == Setting(value, Some(now))
    ensures r.Keys == rows.Keys + {key}
    ensures forall k :: k in rows && k != key ==> r[k] == rows[k]
  {
    rows[key := Setting(value, Some(now))]
  }

  class SettingsTable {
    var rows: map<string, Setting>

    constructor (rows: map<string, Setting>)
      ensures this.rows == rows
    {
      this.rows := rows;
    }

    /** `getValue`: the stored value, or `default` when the key is missing or holds null. */
    function GetValue(key: string, default: Value): (v: Value)
      reads this
      ensures v == Lookup(rows, key, default)
    {
      Lookup(rows, key, default)
    }

    /** `setValue`: write (or create) the row and answer it. */
    method SetValue(key: string, value: Value, now: Time) returns (row: Setting)
      modifies this
      ensures rows == Upsert(old(rows), key, value, now)
      ensures row == Setting(value, Some(now))
    {
      rows := rows[key := Setting(value, Some(now))];
      row := rows[key];
    }
  }

  /**
   * Reading back a written key gives the written value, `false`, `0` and
   * `""` included; only a written null reads as the default.
   */
  lemma GetAfterSet(rows: map<string, Setting>, key: string, value: Value, now: Time, default: Value)
    ensures value != Null ==> Lookup(Upsert(rows, key, value, now), key, default) == value
    ensures value == Null ==> Lookup(Upsert(rows, key, value, now), key, default) == default
  {
  }

  /** Writing one key leaves every other key reading as before. */
  lemma SetLeavesOthers(rows: map<string, Setting>, key: string, other: string, value: Value, now: Time,
                        default: Value)
    requires other != key
    ensures Lookup(Upsert(rows, key, value, now), other, default) == Lookup(rows, other, default)
  {
  }

  /** Writing the same key twice is the same as writing only the second value. */
  lemma LastWriteWins(rows: map<string, Setting>, key: string, first: Value, second: Value, t1: Time, t2: Time)
    ensures Upsert(Upsert(rows, key, first, t1), key, second, t2) == Upsert(rows, key, second, t2)
  {
  }

  /** A falsy stored value is still returned: `?? ` falls back only on null. */
  lemma FalseIsNotMissing(rows: map<string, Setting>, key: string)
    requires key in rows && rows[key].value == Bool(false)
    ensures Lookup(rows, key, Bool(true)) == Bool(false)
  {
  }
}

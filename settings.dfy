/** Bot settings: a `settings` table of text values keyed by name, with a
    cache in front of it. Values are typed by the caller: booleans are
    stored as "0"/"1", integers in decimal, texts as they are. The
    `Settings` enumeration keys each setting by its full name and uses its
    value as the default. */
module Settings {
  import opened Wrappers
  import opened Text
  import opened NoAliasEnum

  /** The Python types a setting can have. */
  datatype DType = BoolType | IntType | StrType

  datatype SettingValue = BoolV(b: bool) | IntV(i: int) | StrV(s: string)

  function TypeOf(v: SettingValue): DType {
    match v
    case BoolV(_) => BoolType
    case IntV(_) => IntType
    case StrV(_) => StrType
  }

  /** The stored text of a value (`_create`): a boolean goes through `int`
      first, anything else through `str`. */
  function Encode(v: SettingValue): (r: string)
    ensures v.BoolV? ==> r == (if v.b then "1" else "0")
    ensures v.IntV? ==> ParseInt(r) == Some(v.i)
    ensures v.StrV? ==> r == v.s
  {
    match v
    case BoolV(b) => if b then "1" else "0"
    case IntV(i) => ParseShow(i); Show(i)
    case StrV(s) => s
  }

  /** `dtype(out)`, with `int(out)` first for booleans; `None` where `int`
      raises `ValueError`. */
  function Decode(dtype: DType, text: string): (r: Option<SettingValue>)
    ensures r.Some? ==> TypeOf(r.value) == dtype
    ensures dtype == StrType ==> r == Some(StrV(text))
    ensures dtype != StrType ==> (r.Some? <==> ParseInt(text).Some?)
  {
    match dtype
    case BoolType => if ParseInt(text).Some? then Some(BoolV(ParseInt(text).value != 0)) else None
    case IntType => if ParseInt(text).Some? then Some(IntV(ParseInt(text).value)) else None
    case StrType => Some(StrV(text))
  }

  /** A stored value reads back as itself. */
  lemma DecodeEncode(v: SettingValue)
    ensures Decode(TypeOf(v), Encode(v)) == Some(v)
  {
    if v.BoolV? {
      assert ParseDigits("0") == 0;
      assert ParseDigits("1") == 1;
    }
  }

  /** "0" reads as false, "1" as true, and any other integer text as true
      exactly when it is not zero. */
  lemma BoolDecoding(n: int)
    ensures Decode(BoolType, "0") == Some(BoolV(false))
    ensures Decode(BoolType, "1") == Some(BoolV(true))
    ensures Decode(BoolType, Show(n)) == Some(BoolV(n != 0))
  {
    DecodeEncode(BoolV(false));
    DecodeEncode(BoolV(true));
    ParseShow(n);
  }

  /** What `get` answers for a stored text: the value, or the text `int`
      could not read. */
  function Answer(dtype: DType, text: string): (r: Result<Option<SettingValue>, string>)
    ensures r.Ok? ==> r.value.Some? && TypeOf(r.value.value) == dtype
    ensures r.Err? ==> r.error == text
  {
    match Decode(dtype, text)
    case Some(v) => Ok(Some(v))
    case None => Err(text)
  }

  /** `SettingsModel`: the table and the cache of its rows. */
  class SettingsStore {
    var table: map<string, string>
    var cache: map<string, string>

    /** A cached row is the row in the table. */
    ghost predicate Valid()
      reads this
    {
      forall k :: k in cache ==> k in table && cache[k] == table[k]
    }

    constructor (table: map<string, string>)
      ensures Valid() && this.table == table && cache == map[]
    {
      this.table := table;
      cache := map[];
    }

    /** `_create`: inserts a new row holding the encoded value. */
    method Create(key: string, value: SettingValue)
      requires Valid() && key !in table
      modifies this
      ensures Valid()
      ensures table == old(table)[key := Encode(value)] && cache == old(cache)
    {
      table := table[key := Encode(value)];
    }

    /** `get`: a cached text is used as it is; otherwise the row is read,
        created from the default if there is one, and cached. Without a row
        and without a default nothing is created and the answer is `None`. */
    method Get(dtype: DType, key: string, default: Option<SettingValue>)
      returns (r: Result<Option<SettingValue>, string>)
      requires Valid()
      requires default.Some? ==> TypeOf(default.value) == dtype
      modifies this
      ensures Valid()
      ensures key in old(cache) ==>
        table == old(table) && cache == old(cache) && r == Answer(dtype, old(cache)[key])
      ensures key !in old(cache) && key in old(table) ==>
        table == old(table) && cache == old(cache)[key := old(table)[key]] && r == Answer(dtype, old(table)[key])
      ensures key !in old(table) && default.None? ==>
        table == old(table) && cache == old(cache) && r == Ok(None)
      ensures key !in old(table) && default.Some? ==>
        && table == old(table)[key := Encode(default.value)]
        && cache == old(cache)[key := Encode(default.value)]
        && r == Ok(Some(default.value))
    {
      var out: string;
      if key in cache {
        out := cache[key];
      } else {
        if key !in table {
          if default.None? {
            return Ok(None);
          }
          Create(key, default.value);
          DecodeEncode(default.value);
        }
        out := table[key];
        cache := cache[key := out];
      }
      r := Answer(dtype, out);
    }

    /** `set`: the row is created or overwritten, and the cache refreshed. */
    method Set(dtype: DType, key: string, value: SettingValue)
      requires Valid()
      requires TypeOf(value) == dtype
      modifies this
      ensures Valid()
      ensures table == old(table)[key := Encode(value)]
      ensures cache == old(cache)[key := Encode(value)]
    {
      if key !in table {
        Create(key, value);
        cache := cache[key := table[key]];
        return;
      }
      var text := if dtype == BoolType then (if value.b then "1" else "0") else Encode(value);
      table := table[key := text];
      cache := cache[key := text];
    }

    /** A cache entry expires. */
    method Evict(key: string)
      requires Valid()
      modifies this
      ensures Valid()
      ensures table == old(table) && cache == old(cache) - {key}
    {
      cache := cache - {key};
    }

    /** `Settings.get`: the setting under its full name, its own value as
        the default. */
    method EnumGet(m: EnumMember<SettingValue>) returns (r: Result<Option<SettingValue>, string>)
      requires Valid()
      modifies this
      ensures Valid()
      ensures Fullname(m) in old(table) ==>
        table == old(table) && r == Answer(TypeOf(m.value), old(table)[Fullname(m)])
      ensures Fullname(m) !in old(table) ==>
        table == old(table)[Fullname(m) := Encode(m.value)] && r == Ok(Some(m.value))
    {
      r := Get(TypeOf(m.value), Fullname(m), Some(m.value));
    }

    /** `Settings.set` as written: it calls `get` with the new value as the
        default, so an existing setting keeps its stored value. */
    method SetAsWritten(m: EnumMember<SettingValue>, value: SettingValue) returns (r: SettingValue)
      requires Valid()
      requires TypeOf(value) == TypeOf(m.value)
      modifies this
      ensures Valid()
      ensures r == value
      ensures Fullname(m) in old(table) ==> table == old(table)
      ensures Fullname(m) !in old(table) ==> table == old(table)[Fullname(m) := Encode(value)]
    {
      var _ := Get(TypeOf(m.value), Fullname(m), Some(value));
      r := value;
    }

    /** `Settings.set` as intended: the setting is written. */
    method EnumSet(m: EnumMember<SettingValue>, value: SettingValue) returns (r: SettingValue)
      requires Valid()
      requires TypeOf(value) == TypeOf(m.value)
      modifies this
      ensures Valid()
      ensures r == value
      ensures table == old(table)[Fullname(m) := Encode(value)]
      ensures cache == old(cache)[Fullname(m) := Encode(value)]
    {
      Set(TypeOf(m.value), Fullname(m), value);
      r := value;
    }

    /** `Settings.reset`: setting the default, through the corrected `set`.
        As written, `reset` is `SetAsWritten(m, m.value)` and leaves an
        existing row unchanged. */
    method Reset(m: EnumMember<SettingValue>) returns (r: SettingValue)
      requires Valid()
      modifies this
      ensures Valid()
      ensures r == m.value
      ensures table == old(table)[Fullname(m) := Encode(m.value)]
    {
      r := EnumSet(m, m.value);
    }
  }

  /** After `set`, `get` reads the value set. */
  method SetThenGet(store: SettingsStore, m: EnumMember<SettingValue>, value: SettingValue)
    returns (r: Result<Option<SettingValue>, string>)
    requires store.Valid()
    requires TypeOf(value) == TypeOf(m.value)
    modifies store
    ensures store.Valid()
    ensures r == Ok(Some(value))
  {
    var _ := store.EnumSet(m, value);
    DecodeEncode(value);
    r := store.EnumGet(m);
  }

  /** A setting read once (so created at its default 1) and then set to 2:
      as written it still reads 1, as intended it reads 2. */
  method SetDiscrepancy() returns (asWritten: Result<Option<SettingValue>, string>,
                                   intended: Result<Option<SettingValue>, string>)
    ensures asWritten == Ok(Some(IntV(1)))
    ensures intended == Ok(Some(IntV(2)))
  {
    var m := EnumMember("AlbertoX3.settings", "Level", IntV(1));
    DecodeEncode(IntV(1));
    DecodeEncode(IntV(2));

    var written := new SettingsStore(map[]);
    var _ := written.EnumGet(m);
    var _ := written.SetAsWritten(m, IntV(2));
    asWritten := written.EnumGet(m);

    var fixed := new SettingsStore(map[]);
    var _ := fixed.EnumGet(m);
    var _ := fixed.EnumSet(m, IntV(2));
    intended := fixed.EnumGet(m);
  }
}

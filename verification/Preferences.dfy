/** One NVS namespace, seen through the Preferences API. Keys are strings where
    the firmware builds them (the numbered chunk keys), names otherwise. */
module NvsPreferences {

  datatype Entry =
    | Text(s: string)
    | UShort(n: nat)
    | Flag(b: bool)
    | Int(i: int)
    | UInt(u: nat)

  type Entries<K> = map<K, Entry>

  function GetString<K>(e: Entries<K>, key: K, default: string): string
  {
    if key in e && e[key].Text? then e[key].s else default
  }

  function GetUShort<K>(e: Entries<K>, key: K, default: nat): nat
  {
    if key in e && e[key].UShort? then e[key].n else default
  }

  function GetBool<K>(e: Entries<K>, key: K, default: bool): bool
  {
    if key in e && e[key].Flag? then e[key].b else default
  }

  function GetInt<K>(e: Entries<K>, key: K, default: int): int
  {
    if key in e && e[key].Int? then e[key].i else default
  }

  function GetUInt<K>(e: Entries<K>, key: K, default: nat): nat
  {
    if key in e && e[key].UInt? then e[key].u else default
  }

  predicate SameAt<K(==)>(key: K, a: Entries<K>, b: Entries<K>)
  {
    (key in a <==> key in b) && (key in a ==> a[key] == b[key])
  }

  /** A write may fail, before or after the entry changed, unless healthy. */
  class Preferences<K(==)> {
    var entries: Entries<K>
    const healthy: bool

    constructor (healthy: bool)
      ensures this.healthy == healthy && entries == map[]
    {
      this.healthy := healthy;
      entries := map[];
    }

    method Begin() returns (ok: bool)
      ensures healthy ==> ok
    {
      ok := *;
      if healthy { ok := true; }
    }

    method Put(key: K, value: Entry) returns (ok: bool)
      modifies this`entries
      ensures ok ==> entries == old(entries)[key := value]
      ensures !ok ==> !healthy && (entries == old(entries) || entries == old(entries)[key := value])
    {
      var fails, changed: bool := *, *;
      ok := healthy || !fails;
      if ok || changed { entries := entries[key := value]; }
    }

    /** Returns the string's length, so 0 for a failure and for "" alike. */
    method PutString(key: K, value: string) returns (written: nat)
      modifies this`entries
      ensures written > 0 ==> written == |value| && entries == old(entries)[key := Text(value)]
      ensures written == 0 && healthy ==> value == "" && entries == old(entries)[key := Text(value)]
      ensures entries == old(entries) || entries == old(entries)[key := Text(value)]
    {
      var ok := Put(key, Text(value));
      written := if ok then |value| else 0;
    }

    method Remove(key: K)
      modifies this`entries
      ensures entries == old(entries) || entries == old(entries) - {key}
      ensures healthy ==> entries == old(entries) - {key}
    {
      var fails: bool := *;
      if healthy || !fails { entries := entries - {key}; }
    }
  }
}

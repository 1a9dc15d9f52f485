/** The timed key store and the rate limiter built on its counters. Time is in seconds. */
module RedisClient {
  import opened Numbers

  /** A stored value with an optional expiry instant, from which on it is gone. */
  datatype Entry = Entry(value: string, expiry: Option<int>)

  datatype Store = Store(now: int, entries: map<string, Entry>)

  predicate Live(e: Entry, now: int) { e.expiry.None? || now < e.expiry.value }

  function Get(s: Store, key: string): Option<string> {
    if key in s.entries && Live(s.entries[key], s.now) then Some(s.entries[key].value) else None
  }

  /** A lifetime of zero counts as none given, so the key never expires. */
  function Set(s: Store, key: string, value: string, ttlSeconds: int): Store
    requires ttlSeconds >= 0
  {
    s.(entries := s.entries[key := Entry(value, if ttlSeconds != 0 then Some(s.now + ttlSeconds) else None)])
  }

  // ---------------------------------------------------------------------------
  // Kill-switch keys

  function SwitchKey(broker: string): string { "ks:" + broker }

  /** The switch of all brokers is kept under this name, next to those of single ones. */
  const ALL_BROKERS := "global"

  function SetSwitch(s: Store, broker: string, active: bool): Store {
    Set(s, SwitchKey(broker), if active then "1" else "0", 0)
  }

  predicate SwitchOn(s: Store, broker: string) { Get(s, SwitchKey(broker)) == Some("1") }

  lemma SwitchKeysDiffer(a: string, b: string)
    ensures SwitchKey(a) == SwitchKey(b) <==> a == b
  {
    assert SwitchKey(a)[3..] == a && SwitchKey(b)[3..] == b;
  }

  // ---------------------------------------------------------------------------
  // The client object

  class Redis {
    var now: int
    var entries: map<string, Entry>

    function Contents(): Store
      reads this
    {
      Store(now, entries)
    }

    constructor ()
      ensures Contents() == Store(0, map[])
    {
      now, entries := 0, map[];
    }

    method SetValue(key: string, value: string, ttlSeconds: int)
      requires ttlSeconds >= 0
      modifies this
      ensures Contents() == Set(old(Contents()), key, value, ttlSeconds)
    {
      if ttlSeconds != 0 {
        entries := entries[key := Entry(value, Some(now + ttlSeconds))];
      } else {
        entries := entries[key := Entry(value, None)];
      }
    }

    method GetValue(key: string) returns (value: Option<string>)
      ensures value == Get(Contents(), key)
    {
      if key in entries && Live(entries[key], now) {
        value := Some(entries[key].value);
      } else {
        value := None;
      }
    }

    method SetKillSwitch(broker: string, active: bool)
      modifies this
      ensures Contents() == SetSwitch(old(Contents()), broker, active)
    {
      SetValue(SwitchKey(broker), if active then "1" else "0", 0);
    }

    method IsKillSwitchActive(broker: string) returns (active: bool)
      ensures active == SwitchOn(Contents(), broker)
    {
      var value := GetValue(SwitchKey(broker));
      active := value == Some("1");
    }
  }
}

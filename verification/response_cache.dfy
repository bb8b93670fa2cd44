/** The response cache that every backend reads through: positive and negative
    entries with their own lifetimes, two keyspaces per endpoint, write-driven
    invalidation and a cooldown. The expiring map underneath is modelled by its
    contract: an item is there until its lifetime has passed. */
module ResponseCache {
  import opened Common

  /** A cached answer. A negative entry records that the endpoint has none. */
  datatype Entry<+V> = Positive(timestamp: int, value: V) | Negative(timestamp: int)

  datatype Item<+V> = Item(entry: Entry<V>, expiresAt: int)

  type Items<V> = map<string, Item<V>>

  datatype Hit<+V> = Miss | NegativeHit | PositiveHit(value: V)

  // -------------------------------------------------------------- keyspaces

  const RAW_PREFIX := "raw\0"

  /** Where the undecoded representation of an endpoint is kept. */
  function RawKey(key: string): (raw: string)
    ensures RAW_PREFIX <= raw && |raw| == |key| + |RAW_PREFIX|
  {
    RAW_PREFIX + key
  }

  lemma RawKeyIsInjective(a: string, b: string)
    requires RawKey(a) == RawKey(b)
    ensures a == b
  {
    assert a == RawKey(a)[|RAW_PREFIX|..] == RawKey(b)[|RAW_PREFIX|..] == b;
  }

  /** The read keys that a write to an endpoint makes stale. */
  function ReadKeys(api: string): (keys: seq<string>)
    ensures api in keys
  {
    if api == "/api/operation" then ["/api/operation", "SITE_CONFIG"] else [api]
  }

  /** Both keyspaces of the given keys. */
  function BothKeyspaces(keys: seq<string>): (all: set<string>) {
    (set k | k in keys) + (set k | k in keys :: RawKey(k))
  }

  // ---------------------------------------------------------------- lookups

  function Lookup<V>(items: Items<V>, key: string, now: int, limit: Option<int>): (hit: Hit<V>) {
    if key !in items || items[key].expiresAt < now then Miss
    else if limit.Some? && limit.value > 0 && now - items[key].entry.timestamp > limit.value then Miss
    else if items[key].entry.Negative? then NegativeHit
    else PositiveHit(items[key].entry.value)
  }

  /** What a write leaves behind: everything but the endpoint it went to, in both
      representations, and the site configuration after a change of operation. */
  lemma WriteForgets<V>(items: Items<V>, api: string, key: string)
    ensures key in items - BothKeyspaces(ReadKeys(api))
            <==> key in items && key != api && key != "raw\0" + api
                 && (api == "/api/operation" ==> key != "SITE_CONFIG" && key != "raw\0SITE_CONFIG")
    ensures key in items - BothKeyspaces(ReadKeys(api)) ==> (items - BothKeyspaces(ReadKeys(api)))[key] == items[key]
  {
    assert RawKey("SITE_CONFIG") == "raw\0SITE_CONFIG" && RawKey(api) == "raw\0" + api;
    assert forall k :: k in ReadKeys(api) <==> k == api || (api == "/api/operation" && k == "SITE_CONFIG");
  }

  predicate Cooling(until: Option<int>, now: int) { until.Some? && now < until.value }

  /** A cache of answers. In `Get`, `limit` is the reader's own age limit; zero or
      less means none. */
  class Cache<V> {
    var items: Items<V>
    var cooldownTime: Option<int>
    const defaultTTL: int

    constructor (defaultTTL: int)
      requires defaultTTL > 0
      ensures items == map[] && this.defaultTTL == defaultTTL && cooldownTime == None
    {
      items, cooldownTime, this.defaultTTL := map[], None, defaultTTL;
    }

    method Get(key: string, now: int, limit: Option<int>) returns (hit: Hit<V>)
      ensures hit == Lookup(items, key, now, limit)
    {
      if key !in items || items[key].expiresAt < now {
        return Miss;
      }
      var entry := items[key].entry;
      if limit.Some? && limit.value > 0 {
        if now - entry.timestamp > limit.value {
          return Miss;
        }
      }
      match entry
      case Negative(_) => return NegativeHit;
      case Positive(_, v) => return PositiveHit(v);
    }

    method Set(key: string, value: V, now: int)
      modifies `items
      ensures items == old(items)[key := Item(Positive(now, value), now + defaultTTL)]
    {
      items := items[key := Item(Positive(now, value), now + defaultTTL)];
    }

    method SetWithTimestamp(key: string, value: V, ts: int, ttl: int, now: int)
      requires ttl > 0
      modifies `items
      ensures items == old(items)[key := Item(Positive(ts, value), now + ttl)]
    {
      items := items[key := Item(Positive(ts, value), now + ttl)];
    }

    method SetNegative(key: string, ttl: int, now: int)
      requires ttl > 0
      modifies `items
      ensures items == old(items)[key := Item(Negative(now), now + ttl)]
    {
      items := items[key := Item(Negative(now), now + ttl)];
    }

    method Delete(key: string)
      modifies `items
      ensures items == old(items) - BothKeyspaces([key])
    {
      items := items - {key};
      items := items - {RawKey(key)};
      assert BothKeyspaces([key]) == {key, RawKey(key)};
    }

    /** A write leaves no stale representation behind in either keyspace. */
    method Invalidate(api: string)
      modifies `items
      ensures items == old(items) - BothKeyspaces(ReadKeys(api))
    {
      var keys := ReadKeys(api);
      for i := 0 to |keys|
        invariant items == old(items) - BothKeyspaces(keys[..i])
      {
        items := items - {keys[i]};
        items := items - {RawKey(keys[i])};
        BothKeyspacesGrow(keys, i);
      }
      assert keys[..|keys|] == keys;
    }

    method Clear()
      modifies `items
      ensures items == map[]
    {
      items := map[];
    }

    method SetCooldown(d: int, now: int)
      modifies `cooldownTime
      ensures cooldownTime == Some(now + d)
    {
      cooldownTime := Some(now + d);
    }

    method InCooldown(now: int) returns (b: bool)
      ensures b <==> Cooling(cooldownTime, now)
    {
      return cooldownTime.Some? && now < cooldownTime.value;
    }
  }

  lemma BothKeyspacesGrow(keys: seq<string>, i: nat)
    requires i < |keys|
    ensures BothKeyspaces(keys[..i + 1]) == BothKeyspaces(keys[..i]) + {keys[i], RawKey(keys[i])}
  {
    assert keys[..i + 1] == keys[..i] + [keys[i]];
    var small, big := keys[..i], keys[..i + 1];
    forall k | k in big ensures k in small || k == keys[i] {
    }
  }
}

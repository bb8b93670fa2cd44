/** The proxy's two caches of response bodies: a short-lived one for routes, and
    one that keeps the last good answer of every endpoint until it is overwritten
    or cleared. */
module FallbackCache {
  import opened Common

  datatype Saved = Saved(timestamp: int, text: string)

  datatype Body = Body(text: string, expiresAt: int)

  class DegradationCache {
    var entries: map<string, Saved>
    const ttl: int

    constructor (ttl: int)
      ensures entries == map[] && this.ttl == ttl
    {
      entries, this.ttl := map[], ttl;
    }

    /** An expired entry is handed out like any other, with a mark. */
    method Get(key: string, now: int) returns (text: Option<string>, expired: bool)
      ensures text == if key in entries then Some(entries[key].text) else None
      ensures expired <==> key !in entries || now - entries[key].timestamp >= ttl
    {
      if key !in entries {
        return None, true;
      }
      return Some(entries[key].text), now - entries[key].timestamp >= ttl;
    }

    method Set(key: string, text: string, now: int)
      modifies this
      ensures entries == old(entries)[key := Saved(now, text)]
    {
      entries := entries[key := Saved(now, text)];
    }

    method Clear() returns (count: nat)
      modifies this
      ensures entries == map[] && count == |old(entries)|
    {
      count := |entries|;
      entries := map[];
    }
  }

  function BodyAt(bodies: map<string, Body>, key: string, now: int): (text: Option<string>) {
    if key in bodies && now <= bodies[key].expiresAt then Some(bodies[key].text) else None
  }

  class PerformanceCache {
    var bodies: map<string, Body>
    const ttl: int

    constructor (ttl: int)
      ensures bodies == map[] && this.ttl == ttl
    {
      bodies, this.ttl := map[], ttl;
    }

    method Get(key: string, now: int) returns (text: Option<string>)
      ensures text == BodyAt(bodies, key, now)
    {
      if key !in bodies || bodies[key].expiresAt < now {
        return None;
      }
      return Some(bodies[key].text);
    }

    method Set(key: string, text: string, now: int)
      requires ttl > 0
      modifies this
      ensures bodies == old(bodies)[key := Body(text, now + ttl)]
    {
      bodies := bodies[key := Body(text, now + ttl)];
    }
  }
}

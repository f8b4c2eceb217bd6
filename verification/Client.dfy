/** The client library: cache with a server-driven time to live, refresh, and
    id lookup (gateboard/client.go).  Times are nanoseconds. */
module Client {
  import opened GoLib
  import IdList

  const SECOND := 1_000_000_000
  const CACHE_TTL_MINIMUM := 60 * SECOND
  const CACHE_TTL_MAX := 20 * 60 * SECOND
  const CACHE_TTL_DEFAULT := 5 * 60 * SECOND

  datatype Options = Options(ttlMin: int, ttlMax: int, ttlDefault: int)

  /** Unspecified (zero) options take their defaults, each on its own. */
  function Effective(o: Options): Options {
    Options(if o.ttlMin == 0 then CACHE_TTL_MINIMUM else o.ttlMin,
            if o.ttlMax == 0 then CACHE_TTL_MAX else o.ttlMax,
            if o.ttlDefault == 0 then CACHE_TTL_DEFAULT else o.ttlDefault)
  }

  datatype CacheEntry = CacheEntry(id: string, creation: int)

  /** What a client remembers. */
  datatype Memory = Memory(options: Options, cache: map<string, CacheEntry>, ttl: int)

  /** What queryServer returns; an empty id and a zero TTL on any failure. */
  datatype ServerReply = ServerReply(id: string, ttl: int)

  function Fresh(o: Options): Memory { Memory(Effective(o), map[], Effective(o).ttlDefault) }

  /** The TTL after the server suggests `seconds`: the product wraps like an
      int64, then is clamped. */
  function NewTTL(o: Options, ttl: int, seconds: int): int {
    if seconds < 1 then ttl
    else
      var t := Wrap64(SECOND * seconds);
      if t < o.ttlMin then o.ttlMin else if t > o.ttlMax then o.ttlMax else t
  }

  function WithTTL(m: Memory, seconds: int): Memory { m.(ttl := NewTTL(m.options, m.ttl, seconds)) }

  function WithEntry(m: Memory, name: string, id: string, now: int): Memory {
    m.(cache := m.cache[name := CacheEntry(id, now)])
  }

  function Refreshed(m: Memory, name: string, reply: ServerReply, now: int): Memory {
    var m' := WithTTL(m, reply.ttl);
    if reply.id == "" then m' else WithEntry(m', name, reply.id, now)
  }

  predicate Servable(m: Memory, name: string, now: int) {
    name in m.cache && now - m.cache[name].creation < m.ttl
  }

  class Client {
    const options: Options
    var cache: map<string, CacheEntry>
    var ttl: int

    constructor (o: Options)
      ensures Value() == Fresh(o)
    {
      options := Effective(o);
      cache := map[];
      ttl := Effective(o).ttlDefault;
    }

    function Value(): Memory
      reads this
    {
      Memory(options, cache, ttl)
    }

    method UpdateTTL(seconds: int)
      modifies this`ttl
      ensures Value() == WithTTL(old(Value()), seconds)
    {
      if seconds < 1 {
        return;
      }
      var t := Wrap64(SECOND * seconds);
      if t < options.ttlMin {
        t := options.ttlMin;
      } else if t > options.ttlMax {
        t := options.ttlMax;
      }
      ttl := t;
    }

    method CachePut(name: string, id: string, now: int)
      modifies this`cache
      ensures Value() == WithEntry(old(Value()), name, id, now)
    {
      var entry := CacheEntry(id, now);
      cache := cache[name := entry];
    }

    /** refresh: even a failed one updates the TTL. */
    method Refresh(name: string, reply: ServerReply, now: int) returns (id: string, failed: bool)
      modifies this
      ensures Value() == Refreshed(old(Value()), name, reply, now)
      ensures id == reply.id && failed == (reply.id == "")
      ensures cache == if reply.id == "" then old(cache) else old(cache)[name := CacheEntry(reply.id, now)]
    {
      UpdateTTL(reply.ttl);
      if reply.id == "" {
        return "", true;
      }
      CachePut(name, reply.id, now);
      return reply.id, false;
    }

    /** getID: `now` is when the entry's age is taken, `reply` and `later` the
        server's answer and the time it is stored, should it be asked. */
    method GetID(name: string, now: int, reply: ServerReply, later: int) returns (list: string, fromCache: bool)
      modifies this
      ensures fromCache == Servable(old(Value()), name, now)
      ensures fromCache ==> Value() == old(Value()) && list == old(cache)[name].id
      ensures !fromCache ==> Value() == Refreshed(old(Value()), name, reply, later) && list == reply.id
      ensures !fromCache ==>
                cache == if reply.id == "" then old(cache) else old(cache)[name := CacheEntry(reply.id, later)]
    {
      if name in cache {
        var entry := cache[name];
        var elapsed := now - entry.creation;
        if elapsed < ttl {
          return entry.id, true;
        }
      }
      var failed;
      list, failed := Refresh(name, reply, later);
      return list, false;
    }

    /** GatewayID: an id picked from the list, nothing when there is no list. */
    method GatewayID(name: string, now: int, reply: ServerReply, later: int, draw: nat) returns (p: IdList.Pick)
      modifies this
      ensures var list := if Servable(old(Value()), name, now) then old(cache)[name].id else reply.id;
              if list == "" then p == IdList.Picked("")
              else
                match IdList.Parse(list)
                case Err(e) => p == IdList.ListError(e)
                case Ok(l) =>
                  l.entries != []
                  && p == if l.sum < 1 then IdList.Panics else IdList.Picked(IdList.PickedId(l, draw))
    {
      var list, _ := GetID(name, now, reply, later);
      if list == "" {
        return IdList.Picked("");
      }
      p := IdList.PickOne(list, draw);
    }
  }

  // ----- what a refresh leaves -----

  /** A refresh that got a list replaces the name's entry by that list, stamped
      now, whatever was there; it keeps every other entry and the options.  One
      that got none keeps the whole cache. */
  lemma RefreshReplaces(m: Memory, name: string, reply: ServerReply, now: int, other: string)
    ensures var m' := Refreshed(m, name, reply, now);
            && m'.options == m.options
            && (reply.id != "" ==> name in m'.cache && m'.cache[name].id == reply.id && m'.cache[name].creation == now)
            && (other != name || reply.id == "" ==>
                  && (other in m'.cache <==> other in m.cache)
                  && (other in m.cache ==> m'.cache[other] == m.cache[other]))
            && (reply.ttl < 1 ==> m'.ttl == m.ttl)
  {
  }

  /** So lookups serve the new list from the cache, without asking, for exactly as
      long as it is younger than the TTL. */
  lemma LookupAfterRefresh(m: Memory, name: string, reply: ServerReply, now: int, later: int)
    requires reply.id != ""
    ensures var m' := Refreshed(m, name, reply, now);
            && (Servable(m', name, later) <==> later - now < NewTTL(m.options, m.ttl, reply.ttl))
            && name in m'.cache && m'.cache[name].id == reply.id
  {
  }

  // ----- the TTL range -----

  /** The options that are not set: one minute, twenty and five. */
  lemma DefaultOptions(o: Options)
    ensures Effective(o).ttlMin == if o.ttlMin == 0 then 60_000_000_000 else o.ttlMin
    ensures Effective(o).ttlMax == if o.ttlMax == 0 then 1_200_000_000_000 else o.ttlMax
    ensures Effective(o).ttlDefault == if o.ttlDefault == 0 then 300_000_000_000 else o.ttlDefault
    ensures Fresh(o).cache == map[] && Fresh(o).ttl == Effective(o).ttlDefault
  {
  }

  /** A suggestion below one second is ignored; any other gives the number in
      nanoseconds, taken modulo 2^64 into the range of an int64 and then clamped. */
  lemma TTLExactly(o: Options, ttl: int, seconds: int, turns: int)
    requires var t := 1_000_000_000 * seconds - turns * TWO_64; -MAX_INT - 1 <= t <= MAX_INT
    ensures seconds < 1 ==> NewTTL(o, ttl, seconds) == ttl
    ensures var t := 1_000_000_000 * seconds - turns * TWO_64;
            seconds >= 1 && o.ttlMin <= o.ttlMax ==>
              && o.ttlMin <= NewTTL(o, ttl, seconds) <= o.ttlMax
              && (o.ttlMin <= t <= o.ttlMax ==> NewTTL(o, ttl, seconds) == t)
              && (t < o.ttlMin ==> NewTTL(o, ttl, seconds) == o.ttlMin)
              && (t > o.ttlMax ==> NewTTL(o, ttl, seconds) == o.ttlMax)
  {
    WrapPeriod(1_000_000_000 * seconds, -turns);
  }

  predicate Consistent(o: Options) { o.ttlMin <= o.ttlDefault <= o.ttlMax }

  predicate InRange(o: Options, ttl: int) { o.ttlMin <= ttl <= o.ttlMax }

  /** The most a TTL can ever be: the maximum, when the options are consistent. */
  function Cap(o: Options): (cap: int)
    ensures Consistent(o) ==> cap == o.ttlMax
  {
    var cap := if o.ttlMin > o.ttlMax then o.ttlMin else o.ttlMax;
    if o.ttlDefault > cap then o.ttlDefault else cap
  }

  /** Whatever the server suggests, wrapping included, the TTL stays within its
      limits; from a fresh client on, exactly when the options are consistent. */
  lemma TTLRange(o: Options)
    ensures Consistent(o) <==> forall seconds :: InRange(o, NewTTL(o, o.ttlDefault, seconds))
    ensures Consistent(o) ==> forall ttl, seconds :: InRange(o, ttl) ==> InRange(o, NewTTL(o, ttl, seconds))
  {
    if forall seconds :: InRange(o, NewTTL(o, o.ttlDefault, seconds)) {
      assert InRange(o, NewTTL(o, o.ttlDefault, 0));
    }
  }

  /** Setting only a maximum below five minutes makes the options inconsistent:
      the fresh client's TTL is above its own maximum. */
  lemma DefaultAboveMaximum(max: int)
    requires 0 < max < CACHE_TTL_DEFAULT
    ensures Fresh(Options(0, max, 0)).ttl > Fresh(Options(0, max, 0)).options.ttlMax
    ensures !Consistent(Effective(Options(0, max, 0)))
  {
  }

  function Clamp(o: Options, t: int): int {
    if t < o.ttlMin then o.ttlMin else if t > o.ttlMax then o.ttlMax else t
  }

  /** The TTL is the suggestion clamped exactly when the product in nanoseconds
      fits an int64, or wraps to something at both limits or above, or there is
      only one value to clamp to. */
  lemma ClampedUnlessWrapped(o: Options, ttl: int, seconds: int)
    requires seconds >= 1 && o.ttlMin <= MAX_INT && o.ttlMax <= MAX_INT
    ensures NewTTL(o, ttl, seconds) == Clamp(o, SECOND * seconds)
            <==> || SECOND * seconds <= MAX_INT || o.ttlMin == o.ttlMax
                 || (Wrap64(SECOND * seconds) >= o.ttlMax && Wrap64(SECOND * seconds) >= o.ttlMin)
  {
  }

  /** The smallest suggestion that goes wrong ends at the minimum. */
  lemma HugeSuggestionShrinks(o: Options, ttl: int)
    requires 0 <= o.ttlMin < o.ttlMax <= MAX_INT
    ensures NewTTL(o, ttl, 9_223_372_037) == o.ttlMin
    ensures Clamp(o, SECOND * 9_223_372_037) == o.ttlMax
  {
  }

  /** A failed refresh keeps the cache but moves the TTL: it revives an expired
      entry exactly when the TTL is raised above the entry's age. */
  lemma FailedRefreshRevives(m: Memory, name: string, seconds: int, now: int)
    requires name in m.cache
    ensures var m' := Refreshed(m, name, ServerReply("", seconds), now);
            && m'.cache == m.cache
            && (!Servable(m, name, now) && Servable(m', name, now)
                <==> m.ttl <= now - m.cache[name].creation < NewTTL(m.options, m.ttl, seconds))
  {
  }
}

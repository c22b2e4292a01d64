/**
 * The alias cache of the client: which addresses `get_aliases` may answer
 * from the cache, which it asks the server for in one batch, and the expiry
 * it writes back (one hour for an address without alias, one day otherwise).
 * Times are integer milliseconds.
 */
module AliasCache {

  /** One cached lookup: the alias (the address itself when it has none) and its expiry. */
  datatype AliasEntry = AliasEntry(alias: string, expiresAt: int)

  /** Cache lifetime of an address that resolved to itself (no alias yet): one hour. */
  const NoAliasTtl: int := 3600 * 1000
  /** Cache lifetime of a resolved alias: one day. */
  const AliasTtl: int := 3600 * 24 * 1000

  /** No address occurs twice. */
  predicate Distinct(xs: seq<string>) {
    forall i, j :: 0 <= i < j < |xs| ==> xs[i] != xs[j]
  }

  /** The `set(addresses)` of the source, iterated in first-occurrence order. */
  function Dedup(xs: seq<string>): (r: seq<string>)
    ensures Distinct(r)
    ensures forall a :: a in r <==> a in xs
  {
    if xs == [] then []
    else
      var front := Dedup(xs[..|xs| - 1]);
      var last := xs[|xs| - 1];
      assert xs == xs[..|xs| - 1] + [last];
      if last in front then front else front + [last]
  }

  /** The address has an entry that has not expired: strictly later than `now`. */
  predicate Fresh(cache: map<string, AliasEntry>, a: string, now: int) {
    a in cache && cache[a].expiresAt > now
  }

  /** The `cached` comprehension: the still-valid aliases of the requested addresses. */
  function Hits(cache: map<string, AliasEntry>, addrs: seq<string>, now: int): (r: map<string, string>)
    ensures forall a :: a in r <==> a in addrs && Fresh(cache, a, now)
    ensures forall a :: a in r ==> a in cache && r[a] == cache[a].alias
  {
    map a | a in addrs && Fresh(cache, a, now) :: cache[a].alias
  }

  /** The `unknown` comprehension: the requested addresses without a valid entry, in order. */
  function Misses(cache: map<string, AliasEntry>, addrs: seq<string>, now: int): (r: seq<string>)
    ensures forall a :: a in r <==> a in addrs && !Fresh(cache, a, now)
    ensures Distinct(addrs) ==> Distinct(r)
  {
    if addrs == [] then []
    else
      var front := Misses(cache, addrs[..|addrs| - 1], now);
      var last := addrs[|addrs| - 1];
      assert addrs == addrs[..|addrs| - 1] + [last];
      if Fresh(cache, last, now) then front else front + [last]
  }

  /** `dict(zip(keys, values))`: pairs up to the shorter length, a later key overriding an earlier one. */
  function ZipMap(keys: seq<string>, values: seq<string>): (m: map<string, string>)
    ensures forall a :: a in m ==> a in keys
    ensures forall i :: 0 <= i < |keys| && i < |values| ==> keys[i] in m
    ensures |values| >= |keys| ==> m.Keys == set a | a in keys
  {
    if keys == [] || values == [] then map[]
    else map[keys[0] := values[0]] + ZipMap(keys[1..], values[1..])
  }

  /** For distinct keys, each paired key maps to the value at its own position. */
  lemma {:induction false} ZipMapAt(keys: seq<string>, values: seq<string>, i: nat)
    requires Distinct(keys) && i < |keys| && i < |values|
    ensures ZipMap(keys, values)[keys[i]] == values[i]
  {
    if i > 0 {
      ZipMapAt(keys[1..], values[1..], i - 1);
      assert keys[1..][i - 1] == keys[i];
    } else {
      assert keys[0] !in keys[1..];
    }
  }

  /** The expiry written back for a freshly looked-up address. */
  function Expiry(address: string, alias: string, now: int): (t: int)
    ensures address == alias ==> t == now + NoAliasTtl
    ensures address != alias ==> t == now + AliasTtl
    ensures t > now
  {
    if address == alias then now + NoAliasTtl else now + AliasTtl
  }

  /** The cache after the write-back loop over the new lookups. */
  function WriteBack(cache: map<string, AliasEntry>, found: map<string, string>, now: int): (r: map<string, AliasEntry>)
    ensures r.Keys == cache.Keys + found.Keys
    ensures forall a :: a in found ==> r[a].alias == found[a] && r[a].expiresAt > now
    ensures forall a :: a in cache && a !in found ==> r[a] == cache[a]
  {
    map a | a in cache.Keys + found.Keys ::
      if a in found then AliasEntry(found[a], Expiry(a, found[a], now)) else cache[a]
  }

  /** `{**cached, **new}`: a new lookup takes precedence over a cached one. */
  function Answer(hits: map<string, string>, found: map<string, string>): (r: map<string, string>)
    ensures r.Keys == hits.Keys + found.Keys
    ensures forall a :: a in found ==> r[a] == found[a]
    ensures forall a :: a in hits && a !in found ==> r[a] == hits[a]
  {
    hits + found
  }

  /**
   * What `get_aliases` answers: exactly the requested addresses when the
   * server returned one alias per miss (fewer replies leave the last misses
   * out), the cached alias for each hit and the server's alias for each miss.
   */
  lemma AnswerCovers(cache: map<string, AliasEntry>, addrs: seq<string>, now: int, replies: seq<string>)
    ensures var d := Dedup(addrs);
      var misses := Misses(cache, d, now);
      var r := Answer(Hits(cache, d, now), ZipMap(misses, replies));
      && (forall a :: a in r ==> a in addrs)
      && (|replies| >= |misses| ==> forall a :: a in addrs ==> a in r)
      && (forall a :: a in addrs && Fresh(cache, a, now) ==> a in r && r[a] == cache[a].alias)
      && (forall i :: 0 <= i < |misses| && i < |replies| ==> r[misses[i]] == replies[i])
  {
    var d := Dedup(addrs);
    var misses := Misses(cache, d, now);
    var found := ZipMap(misses, replies);
    var r := Answer(Hits(cache, d, now), found);
    forall i | 0 <= i < |misses| && i < |replies| ensures r[misses[i]] == replies[i] {
      ZipMapAt(misses, replies, i);
    }
    forall a | a in addrs && Fresh(cache, a, now) ensures a in r && r[a] == cache[a].alias {
      assert a !in misses;
      assert a !in found;
    }
  }

  /** The one batched lookup asks for no address that still has a valid cache entry, and for every one that has not. */
  lemma BatchIsMisses(cache: map<string, AliasEntry>, addrs: seq<string>, now: int)
    ensures var batch := Misses(cache, Dedup(addrs), now);
      && Distinct(batch)
      && forall a :: a in batch <==> a in addrs && !Fresh(cache, a, now)
  {
  }

  /**
   * After the write-back, an address looked up now is cached for one hour
   * when it has no alias and for one day otherwise; every other entry is
   * unchanged.
   */
  lemma WriteBackExpiry(cache: map<string, AliasEntry>, found: map<string, string>, now: int, a: string)
    ensures a in found ==>
      && a in WriteBack(cache, found, now)
      && WriteBack(cache, found, now)[a].alias == found[a]
      && WriteBack(cache, found, now)[a].expiresAt == (if found[a] == a then now + 3_600_000 else now + 86_400_000)
    ensures a !in found ==> (a in WriteBack(cache, found, now) <==> a in cache)
    ensures a !in found && a in cache ==> WriteBack(cache, found, now)[a] == cache[a]
  {
  }

  /**
   * A looked-up address is not asked again before its entry expires: one
   * without alias for the next hour, one with an alias for the next day.
   */
  lemma NoRequeryBeforeExpiry(cache: map<string, AliasEntry>, found: map<string, string>, now: int, later: int, a: string)
    requires a in found && now <= later
    requires later < now + (if found[a] == a then NoAliasTtl else AliasTtl)
    ensures Fresh(WriteBack(cache, found, now), a, later)
    ensures a !in Misses(WriteBack(cache, found, now), [a], later)
  {
    assert [a][..0] == [];
  }
}

/**
 * The client that talks to Bismuth wallet servers (class BisClient of
 * bisclient.py): its short-lived session cache, first-fit server selection,
 * the merge of rediscovered servers into the known list, the alias cache,
 * the timestamp and reply handling of `send`, the clock drift measured by
 * `status`, and the cache invalidation when the selected address changes.
 *
 * Times are integer milliseconds. Reachability, discovery, server replies
 * and signing are parameters of the operations that use them.
 */
module Client {
  import opened Wrappers
  import opened WalletLists
  import opened Wallet
  import opened ServerList
  import opened AliasCache

  /** Default lifetime of a session-cache entry: 30 seconds. */
  const SessionTtl: int := 30 * 1000
  /** Safety margin subtracted from a send timestamp when the local clock is ahead: 0.1 second. */
  const SafetyMargin: int := 100
  /** Length of a transaction id: the leading characters of the signature. */
  const TxIdLength: nat := 56
  /** Session-cache key of the server status. */
  const StatusKey: string := "status"

  /** The addresses (exchanges) that require a message with every transfer. */
  const RejectEmptyMsgList: seq<string> := [
    "f6c0363ca1c5aa28cc584252e65a63998493ff0a5ec1bb16beda9bac",
    "49ca873779b36c4a503562ebf5697fca331685d79fd3deef64a46888",
    "edf2d63cdf0b6275ead22c9e6d66aa8ea31dc0ccb367fad2e7c08a25"]

  /** What `statusjson` returns, as far as the client reads it. */
  datatype ServerStatus = ServerStatus(uptime: Option<int>, serverTimestamp: Option<int>)

  /** The status dict `status` returns and caches: the reply, the extended status and the drift. */
  datatype StatusView = StatusView(uptime: Option<int>, serverTimestamp: Option<int>, extended: Option<string>, timeDrift: int)

  /** A session-cache value: a page of transactions or the server status. */
  datatype CacheValue = TxList(txs: seq<string>) | StatusValue(status: StatusView)

  /** A session-cache entry: when it was stored and what. */
  datatype CacheEntry = CacheEntry(storedAt: int, value: CacheValue)

  /** An open connection to a wallet server. */
  datatype Connection = Connection(server: string)

  /** The request `latest_transactions` sends: from the newest transaction, or from an offset. */
  datatype TxQuery = AddListLim(sender: string, num: nat) | AddListLimFrom(sender: string, num: nat, offset: nat)

  /** The fields a transaction signature covers. */
  datatype Unsigned = Unsigned(timestamp: int, sender: Option<string>, recipient: string, amount: string, operation: string, data: string)

  /** The exceptions of the client operations. */
  datatype ClientError =
    | NotMultiWallet      // RuntimeWarning("Not a MultiWallet")
    | NoServerList        // `list(None)`: no server list was ever built
    | MissingPort         // a configured server without ':' (the IndexError)
    | CommandFailed       // the server command raised
    | WalletFailed(cause: WalletError)

  /**
   * `_get_cached`: the stored value when the key is present and was stored
   * at most `timeoutMs` ago (the bound is inclusive), otherwise nothing.
   */
  function Lookup(cache: map<string, CacheEntry>, key: string, timeoutMs: int, now: int): (r: Option<CacheValue>)
    ensures r.Some? <==> key in cache && now - cache[key].storedAt <= timeoutMs
    ensures r.Some? ==> r.value == cache[key].value
  {
    if key in cache && cache[key].storedAt + timeoutMs >= now then Some(cache[key].value) else None
  }

  /**
   * A value stored at `at` reads back for exactly `timeoutMs` after, not
   * later; storing under one key leaves every other key as it was.
   */
  lemma LookupAfterStore(cache: map<string, CacheEntry>, key: string, other: string, v: CacheValue, at: int, timeoutMs: int, now: int)
    ensures Lookup(cache[key := CacheEntry(at, v)], key, timeoutMs, now) == if now <= at + timeoutMs then Some(v) else None
    ensures other != key ==> Lookup(cache[key := CacheEntry(at, v)], other, timeoutMs, now) == Lookup(cache, other, timeoutMs, now)
  {
  }

  /** Python truthiness of a cached value: an empty page is false, a status dict is never empty. */
  function Truthy(v: CacheValue): (t: bool)
    ensures v.StatusValue? ==> t
    ensures v.TxList? ==> (t <==> |v.txs| > 0)
  {
    match v
    case TxList(txs) => txs != []
    case StatusValue(_) => true
  }

  /** The status lives under its own key; every other key holds a page of transactions. */
  predicate CacheShaped(cache: map<string, CacheEntry>) {
    forall k :: k in cache ==> (cache[k].value.StatusValue? <==> k == StatusKey)
  }

  /** The character of one decimal digit. */
  function DigitChar(d: nat): (c: char)
    requires d < 10
    ensures '0' <= c <= '9'
  {
    (48 + d) as char
  }

  /** `str(n)` for a non-negative integer. */
  function Decimal(n: nat): (s: string)
    ensures |s| >= 1 && (|s| == 1 <==> n < 10)
    ensures forall i :: 0 <= i < |s| ==> '0' <= s[i] <= '9'
  {
    if n < 10 then [DigitChar(n)] else Decimal(n / 10) + [DigitChar(n % 10)]
  }

  /** Different numbers print differently. */
  lemma {:induction false} DecimalInjective(a: nat, b: nat)
    requires Decimal(a) == Decimal(b)
    ensures a == b
    decreases a
  {
    if a >= 10 {
      var s := Decimal(a);
      assert Decimal(a / 10) == s[..|s| - 1] == Decimal(b / 10);
      DecimalInjective(a / 10, b / 10);
      assert DigitChar(a % 10) == s[|s| - 1] == DigitChar(b % 10);
    }
  }

  /** A text made of two parts around the first '-' determines both parts. */
  lemma SplitAtDash(x: string, y: string, x': string, y': string)
    requires '-' !in x && '-' !in x'
    requires x + "-" + y == x' + "-" + y'
    ensures x == x' && y == y'
  {
    var s := x + "-" + y;
    assert s[..|x|] == x && s[|x|] == '-';
    assert s[..|x'|] == x' && s[|x'|] == '-';
    var i := IndexOfChar(s, '-');
    assert i == |x| == |x'|;
    assert x == s[..|x|] == x';
    assert y == s[|x| + 1..] == y';
  }

  /** The session-cache key of one page of transactions: "tx{num}-{offset}". */
  function TxKey(num: nat, offset: nat): (k: string)
    ensures k != StatusKey
  {
    var k := "tx" + Decimal(num) + "-" + Decimal(offset);
    assert k[0] == 't' != StatusKey[0];
    k
  }

  /** Two different pages never share a cache entry. */
  lemma TxKeyInjective(num: nat, offset: nat, num': nat, offset': nat)
    requires TxKey(num, offset) == TxKey(num', offset')
    ensures num == num' && offset == offset'
  {
    var k := TxKey(num, offset);
    assert k[2..] == Decimal(num) + "-" + Decimal(offset);
    assert k[2..] == Decimal(num') + "-" + Decimal(offset');
    SplitAtDash(Decimal(num), Decimal(offset), Decimal(num'), Decimal(offset'));
    DecimalInjective(num, num');
    DecimalInjective(offset, offset');
  }

  /**
   * The timestamp `send` signs: when the local clock is ahead of the
   * server's (`drift > 0`), moved back by the drift and the safety margin.
   */
  function SendTimestamp(now: int, drift: int): (t: int)
    ensures t <= now
    ensures drift > 0 ==> now - t == drift + SafetyMargin
    ensures drift <= 0 ==> t == now
  {
    if drift > 0 then now - (drift + SafetyMargin) else now
  }

  /**
   * With the drift `status` measured at `statusNow` against the server time
   * `serverTs`, a transaction sent `elapsed` later is never stamped after the
   * server's clock, and is stamped exactly the margin before it when the
   * local clock was ahead.
   */
  lemma SendNotInFuture(statusNow: int, serverTs: int, elapsed: nat)
    ensures SendTimestamp(statusNow + elapsed, statusNow - serverTs) <= serverTs + elapsed
    ensures statusNow > serverTs ==> SendTimestamp(statusNow + elapsed, statusNow - serverTs) == serverTs + elapsed - SafetyMargin
  {
  }

  /** `signature[:56]`: the transaction id. */
  function TxId(signature: string): (id: string)
    ensures id <= signature
    ensures |id| == if |signature| < TxIdLength then |signature| else TxIdLength
  {
    if |signature| < TxIdLength then signature else signature[..TxIdLength]
  }

  /** `reject_empty_msg`: the recipient is one of the hard-coded addresses that need a message. */
  function RejectEmptyMsg(recipient: string): (r: bool)
    ensures r <==> recipient == RejectEmptyMsgList[0] || recipient == RejectEmptyMsgList[1] || recipient == RejectEmptyMsgList[2]
  {
    recipient in RejectEmptyMsgList
  }

  /**
   * The write-back loop of `get_aliases` over the new lookups: each gets
   * its alias and an expiry of one hour (no alias) or one day.
   */
  method StoreAliases(cache: map<string, AliasEntry>, found: map<string, string>, now: int) returns (c: map<string, AliasEntry>)
    ensures c == WriteBack(cache, found, now)
  {
    c := cache;
    var pending := found.Keys;
    ghost var done: map<string, string> := map[];
    while pending != {}
      invariant pending <= found.Keys
      invariant done == map k | k in found.Keys - pending :: found[k]
      invariant c == WriteBack(cache, done, now)
      decreases pending
    {
      var a :| a in pending;
      WriteBackStep(cache, done, a, found[a], now);
      c := c[a := AliasEntry(found[a], Expiry(a, found[a], now))];
      done := done[a := found[a]];
      pending := pending - {a};
    }
    assert done == found;
  }

  /** One more lookup written back is one more cache entry. */
  lemma WriteBackStep(cache: map<string, AliasEntry>, done: map<string, string>, a: string, alias: string, now: int)
    ensures WriteBack(cache, done[a := alias], now) == WriteBack(cache, done, now)[a := AliasEntry(alias, Expiry(a, alias, now))]
  {
    var l := WriteBack(cache, done[a := alias], now);
    var r := WriteBack(cache, done, now)[a := AliasEntry(alias, Expiry(a, alias, now))];
    assert l.Keys == r.Keys;
  }

  /**
   * The probing loop of `get_server`: probes the servers in list order and
   * stops at the first reachable one.
   */
  method ProbeInOrder(servers: seq<string>, reachable: string -> bool) returns (hit: Option<nat>)
    ensures hit == FirstReachable(servers, reachable)
    ensures hit.Some? ==>
      && hit.value < |servers| && reachable(servers[hit.value])
      && forall j :: 0 <= j < hit.value ==> !reachable(servers[j])
    ensures hit.None? ==> forall j :: 0 <= j < |servers| ==> !reachable(servers[j])
  {
    var i := 0;
    while i < |servers|
      invariant 0 <= i <= |servers|
      invariant forall j :: 0 <= j < i ==> !reachable(servers[j])
    {
      if reachable(servers[i]) {
        return Some(i);
      }
      i := i + 1;
    }
    hit := None;
  }

  /** The connection-side fields of the client. */
  datatype ServerState = ServerState(
    initialServers: seq<string>,
    servers: seq<string>,
    fullServers: Option<seq<ServerInfo>>,
    currentServer: Option<string>,
    connection: Option<Connection>)

  /** The wallet- and cache-side fields of the client. */
  datatype SessionState = SessionState(
    address: Option<string>,
    walletFile: Option<string>,
    wallet: MultiWallet?,
    cache: map<string, CacheEntry>,
    aliasCache: map<string, AliasEntry>,
    timeDrift: int)

  class BisClient {
    /** `initial_servers`: the configured "ip:port" list. */
    var initialServers: seq<string>
    /** `servers`: the "ip:port" list probed in order. */
    var servers: seq<string>
    /** `full_servers`: the server records, `None` until a list was built. */
    var fullServers: Option<seq<ServerInfo>>
    /** `_current_server`. */
    var currentServer: Option<string>
    /** `_connection`. */
    var connection: Option<Connection>
    /** `_cache`: the session cache. */
    var cache: map<string, CacheEntry>
    /** `_alias_cache`. */
    var aliasCache: map<string, AliasEntry>
    /** `time_drift`: local time minus server time at the last status. */
    var timeDrift: int
    /** `address`: the selected address. */
    var address: Option<string>
    /** `_wallet`. */
    var wallet: MultiWallet?
    /** `wallet_file`. */
    var walletFile: Option<string>
    /** The servers probed for reachability, in probing order. */
    ghost var probes: seq<string>

    ghost function Servers(): ServerState
      reads this
    {
      ServerState(initialServers, servers, fullServers, currentServer, connection)
    }

    ghost function Session(): SessionState
      reads this
    {
      SessionState(address, walletFile, wallet, cache, aliasCache, timeDrift)
    }

    /**
     * The client's invariant: a connection is open exactly while a current
     * server is set, and to that server; the status and the transaction
     * pages keep to their keys; a loaded wallet keeps its own invariant.
     */
    ghost predicate Valid()
      reads this, wallet
    {
      && (connection.Some? <==> currentServer.Some?)
      && (connection.Some? ==> connection.value.server == currentServer.value)
      && CacheShaped(cache)
      && (wallet != null ==> wallet.Valid())
    }

    /** The fields `__init__` sets before it loads the wallet file. */
    constructor (configured: seq<string>)
      ensures Valid()
      ensures initialServers == configured && servers == configured && fullServers == None
      ensures currentServer == None && connection == None && cache == map[] && aliasCache == map[]
      ensures timeDrift == 0 && address == None && wallet == null && walletFile == None && probes == []
    {
      initialServers, servers, fullServers := configured, configured, None;
      currentServer, connection := None, None;
      cache, aliasCache := map[], map[];
      timeDrift, address, wallet, walletFile := 0, None, null, None;
      probes := [];
    }

    /** `_set_cache`: stamps the value with the current time. */
    method SetCache(key: string, value: CacheValue, now: int)
      requires Valid() && (value.StatusValue? <==> key == StatusKey)
      modifies this
      ensures Valid()
      ensures cache == old(cache)[key := CacheEntry(now, value)]
      ensures Lookup(cache, key, SessionTtl, now) == Some(value)
      ensures Servers() == old(Servers()) && probes == old(probes)
      ensures Session() == old(Session()).(cache := cache)
    {
      cache := cache[key := CacheEntry(now, value)];
    }

    /** `clear_cache`: afterwards every key reads as absent, whatever the timeout. */
    method ClearCache()
      requires Valid()
      modifies this
      ensures Valid()
      ensures cache == map[]
      ensures forall k, t, now :: Lookup(cache, k, t, now).None?
      ensures Servers() == old(Servers()) && probes == old(probes)
      ensures Session() == old(Session()).(cache := map[])
    {
      cache := map[];
    }

    /**
     * `set_server`: probes `ipport`; a reachable server becomes the current
     * one with a connection, an unreachable one leaves none.
     */
    method SetServer(ipport: string, reachable: string -> bool) returns (r: Option<string>)
      requires Valid()
      modifies this
      ensures Valid()
      ensures r == if reachable(ipport) then Some(ipport) else None
      ensures currentServer == r
      ensures connection == if reachable(ipport) then Some(Connection(ipport)) else None
      ensures probes == old(probes) + [ipport]
      ensures Session() == old(Session())
      ensures initialServers == old(initialServers) && servers == old(servers) && fullServers == old(fullServers)
    {
      probes := probes + [ipport];
      if !reachable(ipport) {
        currentServer, connection := None, None;
        return None;
      }
      currentServer, connection := Some(ipport), Some(Connection(ipport));
      r := Some(ipport);
    }

    /**
     * The lists `get_server` probes: the configured servers as they are, with
     * their records parsed from "ip:port" (the previous records stay when one
     * has no port), or the discovered servers when none is configured.
     */
    ghost predicate ServerListBuilt(oldFull: Option<seq<ServerInfo>>, discovered: seq<ServerInfo>)
      reads this
    {
      && servers == (if initialServers == [] then RenderAll(discovered) else initialServers)
      && (initialServers == [] ==> fullServers == Some(discovered))
      && (initialServers != [] ==>
            fullServers == if ConfiguredAll(initialServers).Some? then ConfiguredAll(initialServers) else oldFull)
    }

    /**
     * The first half of `get_server`: the configured servers as they are,
     * with their records parsed from "ip:port", or the discovered servers
     * when none is configured.
     */
    method BuildServerList(discovered: seq<ServerInfo>) returns (st: Outcome<ClientError>)
      requires Valid()
      modifies this
      ensures Valid()
      ensures st.Fail? <==> initialServers != [] && ConfiguredAll(initialServers).None?
      ensures st.Fail? ==> st.error == MissingPort
      ensures ServerListBuilt(old(fullServers), discovered)
      ensures Session() == old(Session()) && probes == old(probes) && initialServers == old(initialServers)
      ensures currentServer == old(currentServer) && connection == old(connection)
    {
      if |initialServers| == 0 {
        fullServers := Some(discovered);
        servers := RenderAll(discovered);
        return Pass;
      }
      servers := initialServers;
      var full := ConfiguredAll(servers);
      if full.None? {
        return Fail(MissingPort);
      }
      fullServers := full;
      st := Pass;
    }

    /**
     * `get_server`: builds the server list, then probes it in order and
     * commits to the first reachable server, probing none after it; with
     * none reachable it is left without server and connection.
     */
    method GetServer(reachable: string -> bool, discovered: seq<ServerInfo>) returns (r: Result<Option<string>, ClientError>)
      requires Valid()
      modifies this
      ensures Valid()
      ensures Session() == old(Session()) && initialServers == old(initialServers)
      ensures ServerListBuilt(old(fullServers), discovered)
      ensures r.Failure? <==> initialServers != [] && ConfiguredAll(initialServers).None?
      ensures r.Failure? ==>
        && r.error == MissingPort && probes == old(probes)
        && currentServer == old(currentServer) && connection == old(connection)
      ensures r.Success? ==>
        match FirstReachable(servers, reachable)
        case None =>
          r.value == None && currentServer == None && connection == None && probes == old(probes) + servers
        case Some(i) =>
          && r.value == Some(servers[i]) && currentServer == Some(servers[i])
          && connection == Some(Connection(servers[i])) && probes == old(probes) + servers[..i + 1]
    {
      var st := BuildServerList(discovered);
      if st.Fail? {
        return Failure(MissingPort);
      }
      var chosen := ConnectFirst(servers, reachable);
      r := Success(chosen);
    }

    /**
     * The second half of `get_server`: probes `list` in order and connects
     * to the first reachable server, probing none after it; with none
     * reachable it is left without server and connection.
     */
    method ConnectFirst(list: seq<string>, reachable: string -> bool) returns (chosen: Option<string>)
      requires Valid()
      modifies this
      ensures Valid()
      ensures Session() == old(Session())
      ensures initialServers == old(initialServers) && servers == old(servers) && fullServers == old(fullServers)
      ensures match FirstReachable(list, reachable)
        case None =>
          chosen == None && currentServer == None && connection == None && probes == old(probes) + list
        case Some(i) =>
          && chosen == Some(list[i]) && currentServer == chosen
          && connection == Some(Connection(list[i])) && probes == old(probes) + list[..i + 1]
    {
      var hit := ProbeInOrder(list, reachable);
      chosen := if hit.Some? then Some(list[hit.value]) else None;
      probes := probes + if hit.Some? then list[..hit.value + 1] else list;
      currentServer, connection := chosen, if hit.Some? then Some(Connection(list[hit.value])) else None;
    }

    /**
     * `refresh_servers`: the discovered servers, in order, followed by every
     * previously known server whose endpoint discovery did not report.
     */
    method RefreshServers(discovered: seq<ServerInfo>) returns (st: Outcome<ClientError>)
      requires Valid()
      modifies this
      ensures Valid()
      ensures st.Fail? <==> old(fullServers).None?
      ensures st.Fail? ==> st.error == NoServerList && servers == old(servers) && fullServers == old(fullServers)
      ensures st.Pass? ==> && fullServers == Some(MergeKnown(discovered, old(fullServers).value))
                           && servers == RenderAll(fullServers.value)
      ensures st.Pass? ==> && |discovered| <= |fullServers.value|
                           && fullServers.value[..|discovered|] == discovered
                           && (forall s :: s in old(fullServers).value ==> Listed(fullServers.value, s))
                           && (forall s :: s in fullServers.value ==> s in discovered || s in old(fullServers).value)
      ensures Session() == old(Session()) && probes == old(probes)
      ensures initialServers == old(initialServers) && currentServer == old(currentServer) && connection == old(connection)
    {
      if fullServers.None? {
        return Fail(NoServerList);
      }
      var merged := MergeServers(discovered, fullServers.value);
      fullServers := Some(merged);
      servers := RenderAll(merged);
      st := Pass;
    }

    /**
     * `get_aliases`: answers the still-valid cached aliases from the cache,
     * asks for all other requested addresses in one batch, caches the
     * answers and returns both, a new answer taking precedence.
     */
    method GetAliases(addrs: seq<string>, now: int, replies: Option<seq<string>>)
      returns (batch: seq<string>, r: Result<map<string, string>, ClientError>)
      requires Valid()
      modifies this
      ensures Valid()
      ensures batch == Misses(old(aliasCache), Dedup(addrs), now)
      ensures replies.None? ==> r == Failure(CommandFailed) && aliasCache == old(aliasCache)
      ensures replies.Some? ==>
        && r == Success(Answer(Hits(old(aliasCache), Dedup(addrs), now), ZipMap(batch, replies.value)))
        && aliasCache == WriteBack(old(aliasCache), ZipMap(batch, replies.value), now)
      ensures Servers() == old(Servers()) && probes == old(probes)
      ensures Session() == old(Session()).(aliasCache := aliasCache)
    {
      var unique := Dedup(addrs);
      var cached := Hits(aliasCache, unique, now);
      batch := Misses(aliasCache, unique, now);
      if replies.None? {
        return batch, Failure(CommandFailed);
      }
      var found := ZipMap(batch, replies.value);
      aliasCache := StoreAliases(aliasCache, found, now);
      r := Success(Answer(cached, found));
    }

    /**
     * `latest_transactions`: nothing without a selected address and a
     * wallet; a non-empty page cached in the last 30 seconds is returned as
     * it is; otherwise the page is requested (an empty one when the request
     * fails) and cached.
     */
    method LatestTransactions(num: nat, offset: nat, now: int, reply: Option<seq<string>>)
      returns (query: Option<TxQuery>, txs: seq<string>)
      requires Valid()
      modifies this
      ensures Valid()
      ensures old(address).None? || old(address) == Some("") || wallet == null ==>
        query == None && txs == [] && cache == old(cache)
      ensures old(address).Some? && old(address) != Some("") && wallet != null ==>
        var key := TxKey(num, offset);
        var hit := Lookup(old(cache), key, SessionTtl, now);
        if hit.Some? && Truthy(hit.value) then
          query == None && hit.value.TxList? && txs == hit.value.txs && cache == old(cache)
        else
          && query == Some(if offset == 0 then AddListLim(old(address).value, num) else AddListLimFrom(old(address).value, num, offset))
          && txs == (if reply.Some? then reply.value else [])
          && cache == old(cache)[key := CacheEntry(now, TxList(txs))]
      ensures Servers() == old(Servers()) && probes == old(probes)
      ensures Session() == old(Session()).(cache := cache)
    {
      if address.None? || address == Some("") || wallet == null {
        return None, [];
      }
      var key := TxKey(num, offset);
      var cached := Lookup(cache, key, SessionTtl, now);
      if cached.Some? && Truthy(cached.value) {
        return None, cached.value.txs;
      }
      query := Some(if offset == 0 then AddListLim(address.value, num) else AddListLimFrom(address.value, num, offset));
      txs := if reply.Some? then reply.value else [];
      SetCache(key, TxList(txs), now);
    }

    /**
     * `status`: the status cached in the last 30 seconds, or a fresh one
     * whose drift (local time minus the server's timestamp, 0 without one)
     * becomes the client's drift and is cached; nothing when the request fails.
     */
    method Status(now: int, reply: Option<ServerStatus>, extended: Option<string>) returns (r: Option<StatusView>)
      requires Valid()
      modifies this
      ensures Valid()
      ensures Lookup(old(cache), StatusKey, SessionTtl, now).Some? ==>
        && old(cache)[StatusKey].value.StatusValue?
        && r == Some(old(cache)[StatusKey].value.status)
        && cache == old(cache) && timeDrift == old(timeDrift)
      ensures Lookup(old(cache), StatusKey, SessionTtl, now).None? && reply.None? ==>
        r == None && cache == old(cache) && timeDrift == old(timeDrift)
      ensures Lookup(old(cache), StatusKey, SessionTtl, now).None? && reply.Some? ==>
        && timeDrift == (if reply.value.serverTimestamp.Some? then now - reply.value.serverTimestamp.value else 0)
        && r == Some(StatusView(reply.value.uptime, reply.value.serverTimestamp, extended, timeDrift))
        && cache == old(cache)[StatusKey := CacheEntry(now, StatusValue(r.value))]
      ensures Servers() == old(Servers()) && probes == old(probes)
      ensures Session() == old(Session()).(cache := cache, timeDrift := timeDrift)
    {
      var cached := Lookup(cache, StatusKey, SessionTtl, now);
      if cached.Some? && Truthy(cached.value) {
        return Some(cached.value.status);
      }
      if reply.None? {
        return None;
      }
      var status := reply.value;
      timeDrift := if status.serverTimestamp.Some? then now - status.serverTimestamp.value else 0;
      var view := StatusView(status.uptime, status.serverTimestamp, extended, timeDrift);
      SetCache(StatusKey, StatusValue(view), now);
      r := Some(view);
    }

    /**
     * `send`: signs the transfer at the drift-corrected time; the id (the
     * signature's first 56 characters) is returned only when the server's
     * last reply element is "Success", and that element is appended to
     * `errorReply` otherwise. A missing wallet or key, a failed request or
     * an empty reply gives nothing and appends nothing.
     */
    method Send(recipient: string, amount: string, operation: string, data: string, now: int,
                sign: (Unsigned, string) -> string, reply: Option<seq<string>>, errorReply: seq<string>)
      returns (txid: Option<string>, errors: seq<string>)
      ensures var signed := wallet != null && wallet.key.Some?;
        var answered := signed && reply.Some? && reply.value != [];
        && (txid.Some? <==> answered && reply.value[|reply.value| - 1] == "Success")
        && (txid.Some? ==> txid.value == TxId(sign(Unsigned(SendTimestamp(now, timeDrift), address, recipient, amount, operation, data), wallet.key.value)))
        && errors == if answered && reply.value[|reply.value| - 1] != "Success"
                     then errorReply + [reply.value[|reply.value| - 1]] else errorReply
    {
      errors := errorReply;
      var timestamp := SendTimestamp(now, timeDrift);
      if wallet == null || wallet.key.None? {
        return None, errors;
      }
      var signature := sign(Unsigned(timestamp, address, recipient, amount, operation, data), wallet.key.value);
      var id := TxId(signature);
      if reply.None? || reply.value == [] {
        return None, errors;
      }
      var last := reply.value[|reply.value| - 1];
      if last != "Success" {
        errors := errors + [last];
        return None, errors;
      }
      txid := Some(id);
    }

    /**
     * `set_address`: selects `target` in the wallet; the session cache is
     * cleared exactly when the selected address changes, and the client's
     * address then follows the wallet's.
     */
    method SetAddress(target: string) returns (st: Outcome<ClientError>)
      requires Valid()
      modifies this, wallet
      ensures Valid()
      ensures wallet == old(wallet)
      ensures st.Pass? <==> && old(wallet) != null
                            && !(old(wallet.encrypted) && old(wallet.locked))
                            && HasAddress(old(wallet.addresses), target)
      ensures old(wallet) == null ==> st == Fail(NotMultiWallet)
      ensures st.Fail? ==> cache == old(cache) && address == old(address)
      ensures st.Fail? && wallet != null ==> unchanged(wallet)
      ensures st.Pass? ==> && address == wallet.address == Some(target)
                           && cache == if old(address) != Some(target) then map[] else old(cache)
      ensures st.Pass? ==>
        var k := FirstIndex(old(wallet.addresses), target);
        && wallet.addresses == MoveToFront(old(wallet.addresses), k)
        && (wallet.encrypted ==> wallet.stored == old(wallet.stored))
        && (!wallet.encrypted ==> k < |old(wallet.stored)| && wallet.stored == MoveToFront(old(wallet.stored), k))
        && wallet.key == Some(old(wallet.addresses)[k].privateKey)
        && wallet.publicKey == old(wallet.addresses)[k].publicKey
      ensures wallet != null ==>
        && wallet.encrypted == old(wallet.encrypted) && wallet.locked == old(wallet.locked)
        && wallet.masterPassword == old(wallet.masterPassword)
        && wallet.spend == old(wallet.spend) && wallet.spendInfo == old(wallet.spendInfo)
      ensures Servers() == old(Servers()) && probes == old(probes)
      ensures aliasCache == old(aliasCache) && timeDrift == old(timeDrift) && walletFile == old(walletFile)
    {
      if wallet == null {
        return Fail(NotMultiWallet);
      }
      var ws := wallet.SetAddress(target);
      if ws.Fail? {
        return Fail(WalletFailed(ws.error));
      }
      if address != wallet.address {
        ClearCache();
      }
      address := wallet.address;
      st := Pass;
    }

    /**
     * `load_multi_wallet`: opens the wallet file (with no password), creates
     * a "default" address in a wallet without any, and selects the wallet's
     * address; the session cache is cleared exactly when that address is set.
     * An encrypted file cannot be opened without its password: the client is
     * then left without wallet, file or address.
     */
    method LoadMultiWallet(file: WalletFile, fileName: string, keys: KeyPair, nowMs: nat) returns (st: Outcome<ClientError>)
      requires Valid() && WellFormed(file)
      modifies this
      ensures Valid()
      ensures st.Pass? <==> !file.encrypted
      ensures st.Fail? ==> wallet == null && walletFile == None && address == None && cache == old(cache)
      ensures st.Pass? ==> && wallet != null && fresh(wallet) && walletFile == Some(fileName)
                           && !wallet.encrypted && !wallet.locked && wallet.masterPassword == ""
                           && wallet.key == None && wallet.publicKey == ""
                           && wallet.addresses == (if file.entries == [] then [NewRecord(keys, "default", nowMs)]
                                                   else PlainRecords(file.entries))
                           && address == wallet.address
                           && address == (if file.entries == [] then None else Some(PlainRecords(file.entries)[0].address))
                           && cache == if address != None then map[] else old(cache)
      ensures Servers() == old(Servers()) && probes == old(probes)
      ensures aliasCache == old(aliasCache) && timeDrift == old(timeDrift)
    {
      walletFile, address, wallet := None, None, null;
      var w := new MultiWallet();
      var ws := w.Load(file, None);
      if ws.Fail? {
        return Fail(WalletFailed(ws.error));
      }
      wallet := w;
      if |w.stored| == 0 {
        ws := w.NewAddress("default", keys, nowMs);
        assert ws.Pass?;
      }
      walletFile := Some(fileName);
      if address != w.address {
        ClearCache();
      }
      address := w.address;
      st := Pass;
    }
  }

  /** `BisClient(wallet_file, servers)`: a client over the configured servers with its wallet loaded. */
  method NewClient(configured: seq<string>, file: WalletFile, fileName: string, keys: KeyPair, nowMs: nat)
    returns (c: BisClient, st: Outcome<ClientError>)
    requires WellFormed(file)
    ensures fresh(c) && c.Valid()
    ensures c.initialServers == configured && c.servers == configured && c.fullServers == None
    ensures c.currentServer == None && c.connection == None && c.probes == []
    ensures c.cache == map[] && c.aliasCache == map[] && c.timeDrift == 0
    ensures st.Pass? <==> !file.encrypted
    ensures st.Fail? ==> c.wallet == null && c.walletFile == None && c.address == None
    ensures st.Pass? ==> && c.wallet != null && fresh(c.wallet) && c.walletFile == Some(fileName)
                         && !c.wallet.encrypted && !c.wallet.locked && c.wallet.masterPassword == ""
                         && c.wallet.key == None && c.wallet.publicKey == ""
                         && c.wallet.addresses == (if file.entries == [] then [NewRecord(keys, "default", nowMs)]
                                                   else PlainRecords(file.entries))
                         && c.address == c.wallet.address
                         && c.address == (if file.entries == [] then None else Some(PlainRecords(file.entries)[0].address))
  {
    c := new BisClient(configured);
    st := c.LoadMultiWallet(file, fileName, keys, nowMs);
  }
}

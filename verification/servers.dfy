/**
 * The wallet-server lists of the client: "ip:port" strings, the parsed
 * server records, and the merge that keeps previously known servers.
 */
module ServerList {
  import opened Wrappers

  /** One entry of `full_servers`: a server as discovery reports it. */
  datatype ServerInfo = ServerInfo(ip: string, port: string, load: string, height: string)

  /** The "ip:port" text the client connects to. */
  function Render(s: ServerInfo): (r: string)
    ensures |r| == |s.ip| + 1 + |s.port| && r[|s.ip|] == ':'
    ensures r[..|s.ip|] == s.ip && r[|s.ip| + 1..] == s.port
  {
    s.ip + ":" + s.port
  }

  /** `servers`: the rendering of every entry of `full_servers`, in order. */
  function RenderAll(infos: seq<ServerInfo>): (r: seq<string>)
    ensures |r| == |infos|
  {
    seq(|infos|, i requires 0 <= i < |infos| => Render(infos[i]))
  }

  /** Index of the first `c` in `s`. */
  function IndexOfChar(s: string, c: char): (i: nat)
    requires c in s
    ensures i < |s| && s[i] == c && c !in s[..i]
  {
    if s[0] == c then 0
    else
      assert c in s[1..] by { assert s == [s[0]] + s[1..]; }
      var k := 1 + IndexOfChar(s[1..], c);
      assert s[..k] == [s[0]] + s[1..][..k - 1];
      k
  }

  /** Python's `s.split(sep)` for a one-character separator. */
  function Split(s: string, sep: char): (parts: seq<string>)
    ensures |parts| >= 1
    ensures forall i :: 0 <= i < |parts| ==> sep !in parts[i]
    decreases |s|
  {
    if sep !in s then [s]
    else
      var i := IndexOfChar(s, sep);
      [s[..i]] + Split(s[i + 1..], sep)
  }

  /** `sep.join(parts)`. */
  function Join(parts: seq<string>, sep: char): string
    requires |parts| >= 1
  {
    if |parts| == 1 then parts[0] else parts[0] + [sep] + Join(parts[1..], sep)
  }

  /** Splitting loses nothing: joining the pieces gives back the text. */
  lemma {:induction false} JoinSplit(s: string, sep: char)
    ensures Join(Split(s, sep), sep) == s
    decreases |s|
  {
    if sep in s {
      var i := IndexOfChar(s, sep);
      var rest := Split(s[i + 1..], sep);
      var parts := Split(s, sep);
      assert parts == [s[..i]] + rest;
      assert parts[1..] == rest;
      assert Join(parts, sep) == s[..i] + [sep] + Join(rest, sep);
      JoinSplit(s[i + 1..], sep);
      assert s == s[..i] + [sep] + s[i + 1..];
    }
  }

  /** A rendered server splits back into its ip and its port. */
  lemma SplitRender(s: ServerInfo)
    requires ':' !in s.ip && ':' !in s.port
    ensures Split(Render(s), ':') == [s.ip, s.port]
  {
    var t := Render(s);
    assert t[|s.ip|] == ':';
    assert t[..|s.ip|] == s.ip;
    var i := IndexOfChar(t, ':');
    assert i == |s.ip|;
    assert t[i + 1..] == s.port;
  }

  /**
   * The entry `get_server` builds for a configured "ip:port": the first two
   * ':'-separated fields, load and height "N/A"; `None` when there is no
   * second field (the IndexError).
   */
  function Configured(server: string): (r: Option<ServerInfo>)
    ensures r.Some? <==> ':' in server
    ensures r.Some? ==> r.value.load == "N/A" && r.value.height == "N/A" && ':' !in r.value.ip
  {
    var fields := Split(server, ':');
    if |fields| < 2 then None else Some(ServerInfo(fields[0], fields[1], "N/A", "N/A"))
  }

  /** The `full_servers` comprehension over the configured servers; `None` when one of them raises. */
  function ConfiguredAll(servers: seq<string>): (r: Option<seq<ServerInfo>>)
    ensures r.Some? <==> forall i :: 0 <= i < |servers| ==> ':' in servers[i]
    ensures r.Some? ==> |r.value| == |servers| && forall i :: 0 <= i < |servers| ==> Some(r.value[i]) == Configured(servers[i])
  {
    if forall i :: 0 <= i < |servers| ==> ':' in servers[i]
    then Some(seq(|servers|, i requires 0 <= i < |servers| && ':' in servers[i] => Configured(servers[i]).value))
    else None
  }

  /** Configuring the rendering of a server list gives back its ips and ports. */
  lemma ConfiguredRender(infos: seq<ServerInfo>)
    requires forall i :: 0 <= i < |infos| ==> ':' !in infos[i].ip && ':' !in infos[i].port
    ensures ConfiguredAll(RenderAll(infos)).Some?
    ensures forall i :: 0 <= i < |infos| ==>
      ConfiguredAll(RenderAll(infos)).value[i] == infos[i].(load := "N/A", height := "N/A")
  {
    var rendered := RenderAll(infos);
    forall i | 0 <= i < |infos|
      ensures ':' in rendered[i] && Configured(rendered[i]) == Some(infos[i].(load := "N/A", height := "N/A"))
    {
      SplitRender(infos[i]);
      assert rendered[i][|infos[i].ip|] == ':';
    }
  }

  /** Two entries denote the same server: equal ip and equal port. */
  predicate SameEndpoint(a: ServerInfo, b: ServerInfo) {
    a.ip == b.ip && a.port == b.port
  }

  /** Some entry of `list` denotes server `s`. */
  predicate Listed(list: seq<ServerInfo>, s: ServerInfo) {
    exists i :: 0 <= i < |list| && SameEndpoint(list[i], s)
  }

  /**
   * The merge of `refresh_servers`: each previously known server, in order,
   * is appended unless the list built so far already has its endpoint.
   */
  function MergeKnown(merged: seq<ServerInfo>, backup: seq<ServerInfo>): (r: seq<ServerInfo>)
    ensures |merged| <= |r| <= |merged| + |backup|
    decreases |backup|
  {
    if backup == [] then merged
    else MergeKnown(if Listed(merged, backup[0]) then merged else merged + [backup[0]], backup[1..])
  }

  /** The discovered list stays in front, in order, and at most the known servers are added. */
  lemma {:induction false} MergeKeepsFresh(merged: seq<ServerInfo>, backup: seq<ServerInfo>)
    ensures |merged| <= |MergeKnown(merged, backup)| <= |merged| + |backup|
    ensures MergeKnown(merged, backup)[..|merged|] == merged
    decreases |backup|
  {
    if backup != [] {
      var next := if Listed(merged, backup[0]) then merged else merged + [backup[0]];
      MergeKeepsFresh(next, backup[1..]);
      assert next[..|merged|] == merged;
    }
  }

  /** No known server is dropped: every previous endpoint is in the merged list. */
  lemma {:induction false} MergeKeepsKnown(merged: seq<ServerInfo>, backup: seq<ServerInfo>, s: ServerInfo)
    requires Listed(merged, s) || s in backup
    ensures Listed(MergeKnown(merged, backup), s)
    decreases |backup|
  {
    if backup != [] {
      var next := if Listed(merged, backup[0]) then merged else merged + [backup[0]];
      if Listed(merged, s) {
        var i :| 0 <= i < |merged| && SameEndpoint(merged[i], s);
        assert next[i] == merged[i];
      } else if s == backup[0] {
        if !Listed(merged, backup[0]) {
          assert SameEndpoint(next[|merged|], s);
        }
      } else {
        assert s in backup[1..];
      }
      MergeKeepsKnown(next, backup[1..], s);
    }
  }

  /** Nothing is invented: every merged entry is a discovered or a previously known one. */
  lemma {:induction false} MergeOnlyKnown(merged: seq<ServerInfo>, backup: seq<ServerInfo>, s: ServerInfo)
    requires s in MergeKnown(merged, backup)
    ensures s in merged || s in backup
    decreases |backup|
  {
    if backup != [] {
      var next := if Listed(merged, backup[0]) then merged else merged + [backup[0]];
      MergeOnlyKnown(next, backup[1..], s);
      if s in backup[1..] {
        assert s in backup;
      }
    }
  }

  /** No two entries denote the same server. */
  predicate DistinctEndpoints(list: seq<ServerInfo>) {
    forall i, j :: 0 <= i < j < |list| ==> !SameEndpoint(list[i], list[j])
  }

  /** A known server whose endpoint is already listed is not appended again. */
  lemma MergeSkipsListed(merged: seq<ServerInfo>, s: ServerInfo, rest: seq<ServerInfo>)
    requires Listed(merged, s)
    ensures MergeKnown(merged, [s] + rest) == MergeKnown(merged, rest)
  {
  }

  /** The merge adds no duplicate endpoint: a list without duplicates stays without duplicates. */
  lemma {:induction false} MergeNoDuplicates(merged: seq<ServerInfo>, backup: seq<ServerInfo>)
    requires DistinctEndpoints(merged)
    ensures DistinctEndpoints(MergeKnown(merged, backup))
    decreases |backup|
  {
    if backup != [] {
      var b := backup[0];
      var next := if Listed(merged, b) then merged else merged + [b];
      if !Listed(merged, b) {
        forall i, j | 0 <= i < j < |next| ensures !SameEndpoint(next[i], next[j]) {
          if j == |merged| {
            assert next[i] == merged[i] && next[j] == b;
          } else {
            assert next[i] == merged[i] && next[j] == merged[j];
          }
        }
      }
      MergeNoDuplicates(next, backup[1..]);
    }
  }

  /**
   * The nested loop of `refresh_servers`: for each previously known server,
   * scan the whole list built so far for its endpoint and append it if absent.
   */
  method MergeServers(discovered: seq<ServerInfo>, backup: seq<ServerInfo>) returns (merged: seq<ServerInfo>)
    ensures merged == MergeKnown(discovered, backup)
    ensures |discovered| <= |merged| && merged[..|discovered|] == discovered
    ensures forall s :: s in backup ==> Listed(merged, s)
    ensures forall s :: s in merged ==> s in discovered || s in backup
  {
    merged := discovered;
    var i := 0;
    while i < |backup|
      invariant 0 <= i <= |backup|
      invariant MergeKnown(merged, backup[i..]) == MergeKnown(discovered, backup)
    {
      var server := backup[i];
      var isThere := false;
      var k := 0;
      while k < |merged|
        invariant 0 <= k <= |merged|
        invariant isThere <==> exists j :: 0 <= j < k && SameEndpoint(merged[j], server)
      {
        if merged[k].ip == server.ip && merged[k].port == server.port {
          isThere := true;
        }
        k := k + 1;
      }
      assert backup[i..][1..] == backup[i + 1..];
      if !isThere {
        merged := merged + [server];
      }
      i := i + 1;
    }
    MergeKeepsFresh(discovered, backup);
    forall s | s in backup ensures Listed(merged, s) {
      MergeKeepsKnown(discovered, backup, s);
    }
    forall s | s in merged ensures s in discovered || s in backup {
      MergeOnlyKnown(discovered, backup, s);
    }
  }

  /** Index of the first server the reachability probe accepts, probing in list order. */
  function FirstReachable(servers: seq<string>, reachable: string -> bool): (r: Option<nat>)
    ensures r.Some? ==> r.value < |servers| && reachable(servers[r.value])
    ensures r.Some? ==> forall j :: 0 <= j < r.value ==> !reachable(servers[j])
    ensures r.None? ==> forall j :: 0 <= j < |servers| ==> !reachable(servers[j])
  {
    if servers == [] then None
    else if reachable(servers[0]) then Some(0)
    else match FirstReachable(servers[1..], reachable)
      case None => None
      case Some(i) => Some(i + 1)
  }
}

/**
 * Configuration records (src/config.rs) and the hostname table `Config::to_map`
 * builds from them. Reading and deserialising the TOML file is not modelled.
 */
module Config {
  import opened Wrappers
  import opened Bytes
  import opened Net

  /** One `[[server]]` entry: a virtual host. */
  datatype Server = Server(
    hostname: Str,
    dir: Str,
    key: Str,
    cert: Str,
    index: Option<Str>,
    lang: Option<Str>,
    cgi: Option<bool>,
    cgipath: Option<Str>,
    cgienv: Option<map<Str, Str>>,
    usrdir: Option<bool>,
    proxy: Option<map<Str, Str>>,
    redirect: Option<map<Str, Str>>,
    scgi: Option<map<Str, Str>>)

  datatype Config = Config(port: Port, host: Str, log: Option<Str>, server: seq<Server>)

  /** A virtual host together with the global listening port. */
  datatype ServerCfg = ServerCfg(port: Port, server: Server)

  function Hostnames(servers: seq<Server>): set<Str> {
    set i | 0 <= i < |servers| :: servers[i].hostname
  }

  /** Index of the last server named `h`, or -1 when none is. */
  function LastWith(servers: seq<Server>, h: Str): (r: int)
    ensures -1 <= r < |servers|
    ensures r >= 0 ==> servers[r].hostname == h
    ensures forall j :: r < j < |servers| ==> servers[j].hostname != h
    decreases |servers|
  {
    if servers == [] then -1
    else if servers[|servers| - 1].hostname == h then |servers| - 1
    else LastWith(servers[..|servers| - 1], h)
  }

  /** A name is configured exactly when some server carries it. */
  lemma LastWithFound(servers: seq<Server>, h: Str)
    ensures LastWith(servers, h) >= 0 <==> h in Hostnames(servers)
  {
    if h in Hostnames(servers) {
      var i :| 0 <= i < |servers| && servers[i].hostname == h;
      assert i <= LastWith(servers, h);
    }
  }

  /** Extending the list by one server: that server wins its own name, the others keep theirs. */
  lemma LastWithSnoc(servers: seq<Server>, i: nat, h: Str)
    requires i < |servers|
    ensures LastWith(servers[..i + 1], h) == if servers[i].hostname == h then i else LastWith(servers[..i], h)
  {
    assert servers[..i + 1][..i] == servers[..i];
  }

  /** `to_map`: each server inserted in turn under its hostname, with the global port. */
  method ToMap(cfg: Config) returns (m: map<Str, ServerCfg>)
    ensures m.Keys == Hostnames(cfg.server)
    ensures forall h :: h in m ==> m[h].port == cfg.port && m[h].server.hostname == h
    ensures forall h :: h in m ==> 0 <= LastWith(cfg.server, h) && m[h].server == cfg.server[LastWith(cfg.server, h)]
  {
    m := map[];
    var i := 0;
    while i < |cfg.server|
      invariant 0 <= i <= |cfg.server|
      invariant m.Keys == Hostnames(cfg.server[..i])
      invariant forall h :: h in m ==> 0 <= LastWith(cfg.server[..i], h) && m[h] == ServerCfg(cfg.port, cfg.server[LastWith(cfg.server[..i], h)])
    {
      var srv := cfg.server[i];
      m := m[srv.hostname := ServerCfg(cfg.port, srv)];
      forall h | h in m
        ensures 0 <= LastWith(cfg.server[..i + 1], h)
        ensures m[h] == ServerCfg(cfg.port, cfg.server[LastWith(cfg.server[..i + 1], h)])
      {
        LastWithSnoc(cfg.server, i, h);
      }
      assert Hostnames(cfg.server[..i + 1]) == Hostnames(cfg.server[..i]) + {srv.hostname} by {
        assert forall j :: 0 <= j < i ==> cfg.server[..i + 1][j] == cfg.server[..i][j];
      }
      i := i + 1;
    }
    assert cfg.server[..i] == cfg.server;
  }

  /** There are at most as many names as servers, and exactly as many when no name repeats. */
  lemma {:induction false} HostnameCount(servers: seq<Server>)
    ensures |Hostnames(servers)| <= |servers|
    ensures (forall i, j :: 0 <= i < j < |servers| ==> servers[i].hostname != servers[j].hostname)
            ==> |Hostnames(servers)| == |servers|
    decreases |servers|
  {
    if servers != [] {
      var n := |servers| - 1;
      var init := servers[..n];
      HostnameCount(init);
      assert Hostnames(servers) == Hostnames(init) + {servers[n].hostname} by {
        assert forall j :: 0 <= j < n ==> init[j] == servers[j];
      }
      if forall i, j :: 0 <= i < j < |servers| ==> servers[i].hostname != servers[j].hostname {
        assert servers[n].hostname !in Hostnames(init);
      }
    }
  }
}

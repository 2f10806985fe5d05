/**
 * Server-name selection (src/tls.rs), the server side of section 3 of RFC 6066.
 * `acceptor_conf` builds one TLS context per configured server and a table from
 * hostname to context, with the extra name "default" bound to the first server's
 * context; the servername callback picks the context for the name the client sent.
 * A context is represented by the index of the server whose key and certificate it
 * was built from, and loading a key or certificate file by a success flag.
 */
module Tls {
  import opened Wrappers
  import opened Bytes
  import opened Config

  const DEFAULT: Str := Ascii("default")

  datatype LoadError = KeyFileError(server: nat) | CertFileError(server: nat)

  /** The context "default" ends up bound to: the last server named "default", else the first server. */
  function DefaultContext(servers: seq<Server>): nat {
    if LastWith(servers, DEFAULT) >= 0 then LastWith(servers, DEFAULT) else 0
  }

  /** The table built from `servers`: every hostname to its last server, "default" as above. */
  ghost predicate SniTable(servers: seq<Server>, m: map<Str, nat>) {
    && m.Keys == Hostnames(servers) + (if |servers| > 0 then {DEFAULT} else {})
    && (forall h :: h in m && h != DEFAULT ==> m[h] == LastWith(servers, h))
    && (DEFAULT in m ==> m[DEFAULT] == DefaultContext(servers))
  }

  /** The first load that fails, scanning the servers in order from `from`, each key before its certificate. */
  function FirstFailure(keyLoads: seq<bool>, certLoads: seq<bool>, from: nat): Option<LoadError>
    requires |keyLoads| == |certLoads|
    decreases |keyLoads| - from
  {
    if from >= |keyLoads| then None
    else if !keyLoads[from] then Some(KeyFileError(from))
    else if !certLoads[from] then Some(CertFileError(from))
    else FirstFailure(keyLoads, certLoads, from + 1)
  }

  /**
   * There is no failure exactly when every key and certificate loads; a failure
   * names a server whose predecessors all loaded, and the file that did not.
   */
  lemma {:induction false} FirstFailureMeans(keyLoads: seq<bool>, certLoads: seq<bool>, from: nat)
    requires |keyLoads| == |certLoads| && from <= |keyLoads|
    ensures FirstFailure(keyLoads, certLoads, from).None? <==>
      forall i :: from <= i < |keyLoads| ==> keyLoads[i] && certLoads[i]
    ensures match FirstFailure(keyLoads, certLoads, from)
      case None => true
      case Some(e) =>
        && from <= e.server < |keyLoads|
        && (forall j :: from <= j < e.server ==> keyLoads[j] && certLoads[j])
        && (e.KeyFileError? <==> !keyLoads[e.server])
        && (e.CertFileError? ==> !certLoads[e.server])
    decreases |keyLoads| - from
  {
    if from < |keyLoads| && keyLoads[from] && certLoads[from] {
      FirstFailureMeans(keyLoads, certLoads, from + 1);
    }
  }

  /**
   * The table-building loop of `acceptor_conf`: for each server, load its key,
   * then its certificate (the first failure aborts with that error), bind its
   * hostname, and bind "default" on the first pass only, as the counter `num` says.
   */
  method AcceptorConf(servers: seq<Server>, keyLoads: seq<bool>, certLoads: seq<bool>)
    returns (r: Result<map<Str, nat>, LoadError>)
    requires |keyLoads| == |servers| && |certLoads| == |servers|
    ensures r.Err? <==> FirstFailure(keyLoads, certLoads, 0).Some?
    ensures r.Err? ==> r.error == FirstFailure(keyLoads, certLoads, 0).value
    ensures r.Ok? ==> SniTable(servers, r.value)
  {
    var m: map<Str, nat> := map[];
    var num := 1;
    var i := 0;
    assert Hostnames(servers[..0]) == {};
    while i < |servers|
      invariant 0 <= i <= |servers|
      invariant num == if i == 0 then 1 else 2
      invariant FirstFailure(keyLoads, certLoads, i) == FirstFailure(keyLoads, certLoads, 0)
      invariant SniTable(servers[..i], m)
    {
      if !keyLoads[i] {
        return Err(KeyFileError(i));
      }
      if !certLoads[i] {
        return Err(CertFileError(i));
      }
      m, num := Bind(servers, i, m, num);
      i := i + 1;
    }
    assert servers[..i] == servers;
    return Ok(m);
  }

  /** The binding half of one pass: the server's hostname, and "default" while `num` is 1. */
  method Bind(servers: seq<Server>, i: nat, m: map<Str, nat>, num: nat) returns (after: map<Str, nat>, num': nat)
    requires i < |servers| && num == (if i == 0 then 1 else 2)
    requires SniTable(servers[..i], m)
    ensures num' == 2 && SniTable(servers[..i + 1], after)
  {
    after := m[servers[i].hostname := i];
    num' := num;
    if num == 1 {
      assert m.Keys == {};
      after := after[DEFAULT := i];
      num' := num + 1;
    }
    TableStep(servers, i, m, after);
  }

  /** One pass of the loop keeps `SniTable` for the servers seen so far. */
  lemma TableStep(servers: seq<Server>, i: nat, before: map<Str, nat>, after: map<Str, nat>)
    requires i < |servers|
    requires i == 0 ==> before == map[] && after == before[servers[i].hostname := i][DEFAULT := i]
    requires i > 0 ==> SniTable(servers[..i], before) && after == before[servers[i].hostname := i]
    ensures SniTable(servers[..i + 1], after)
  {
    var s := servers[..i + 1];
    var hi := servers[i].hostname;
    assert Hostnames(s) == Hostnames(servers[..i]) + {hi} by {
      assert forall j :: 0 <= j < i ==> s[j] == servers[..i][j];
    }
    LastWithSnoc(servers, i, DEFAULT);
    assert after.Keys == Hostnames(s) + {DEFAULT};
    forall h | h in after && h != DEFAULT
      ensures after[h] == LastWith(s, h)
    {
      LastWithSnoc(servers, i, h);
    }
    assert DefaultContext(s) == after[DEFAULT];
  }

  /**
   * The servername callback: the context bound to the name the client sent,
   * else the one bound to "default"; `None` where the callback's `expect` panics
   * because not even "default" is bound.
   */
  function SelectContext(m: map<Str, nat>, sni: Option<Str>): (r: Option<nat>)
    ensures sni.Some? && sni.value in m ==> r == Some(m[sni.value])
    ensures sni.None? || sni.value !in m ==> r == if DEFAULT in m then Some(m[DEFAULT]) else None
  {
    match sni
    case Some(host) =>
      if host in m then Some(m[host])
      else if DEFAULT in m then Some(m[DEFAULT]) else None
    case None =>
      if DEFAULT in m then Some(m[DEFAULT]) else None
  }

  /** A configured name other than "default" selects the context of the last server with that name. */
  lemma SelectNamedHost(servers: seq<Server>, m: map<Str, nat>, host: Str)
    requires SniTable(servers, m)
    requires host in Hostnames(servers) && host != DEFAULT
    ensures SelectContext(m, Some(host)) == Some(LastWith(servers, host))
    ensures servers[LastWith(servers, host)].hostname == host
  {
    LastWithFound(servers, host);
  }

  /** No name, or an unknown one, selects the first server when no server is named "default". */
  lemma SelectFallsBackToFirst(servers: seq<Server>, m: map<Str, nat>, sni: Option<Str>)
    requires SniTable(servers, m)
    requires |servers| > 0 && DEFAULT !in Hostnames(servers)
    requires sni.None? || sni.value !in Hostnames(servers)
    ensures SelectContext(m, sni) == Some(0)
  {
    LastWithFound(servers, DEFAULT);
  }

  /** With no server configured, the table is empty and every selection panics. */
  lemma SelectWithoutServers(m: map<Str, nat>, sni: Option<Str>)
    requires SniTable([], m)
    ensures SelectContext(m, sni) == None
  {
    assert m.Keys == {};
  }

  /** The client-certificate verify callback: every certificate is accepted, whatever the chain check said. */
  function VerifyClientCert(preverified: bool): (accept: bool)
    ensures accept
  {
    true
  }
}

/**
 The live routing table of codis-fe (`ReverseProxy` in cmd/fe/main.go).

 The table maps a dashboard name to a forwarding target. A target is the
 single-host reverse proxy for `http://<host>`; it is represented here by its
 host. Before the first `Update` the Go map is nil, which is `None` here.
 The mutex is not modelled: every operation is one atomic transition.
 */
module Proxy {

  import opened Wrappers

  /** The reverse proxy that forwards to `http://host`. */
  datatype Target = Target(host: string)

  /** The table; `None` until the first `Update` installs one. */
  datatype ReverseProxy = ReverseProxy(routes: Option<map<string, Target>>)

  /** The table as `&ReverseProxy{}` creates it. */
  const Empty: ReverseProxy := ReverseProxy(None)

  /** `Update` builds a route for `name`: it is a key with a non-empty name and a non-empty host. */
  predicate Routable(hosts: map<string, string>, name: string)
  {
    name in hosts && name != "" && hosts[name] != ""
  }

  /** The names `Update` installs from `hosts`. */
  function RoutableNames(hosts: map<string, string>): set<string>
  {
    // `name in hosts` is repeated so that Dafny sees the comprehension is finite.
    set name | name in hosts && Routable(hosts, name)
  }

  /** The target for `name`, or `None` when it is not routed or no table was ever installed. */
  function GetProxy(p: ReverseProxy, name: string): (r: Option<Target>)
    ensures r.Some? <==> p.routes.Some? && name in p.routes.value
    ensures r.Some? ==> r.value == p.routes.value[name]
  {
    match p.routes
    case None => None
    case Some(routes) => if name in routes then Some(routes[name]) else None
  }

  /**
   Replaces the whole table with one built from `hosts`: a routable name is
   looked up as the target for its host, anything else as `None`, whatever
   the previous table held, and the table holds exactly as many routes as
   `hosts` has routable names.
   */
  function Update(p: ReverseProxy, hosts: map<string, string>): (q: ReverseProxy)
    ensures q.routes.Some?
    ensures forall name :: GetProxy(q, name) == if Routable(hosts, name) then Some(Target(hosts[name])) else None
    ensures |q.routes.value| == |RoutableNames(hosts)|
  {
    var routes := map name | name in hosts && Routable(hosts, name) :: Target(hosts[name]);
    assert routes.Keys == RoutableNames(hosts);
    ReverseProxy(Some(routes))
  }

  /**
   `Update` as the Go loop performs it: ranging over `hosts` in an arbitrary
   order, skipping an entry with an empty name or host and adding a route
   for every other one. Every order yields the table `Update` describes.
   */
  method UpdateByRange(p: ReverseProxy, hosts: map<string, string>) returns (q: ReverseProxy)
    ensures q == Update(p, hosts)
  {
    var routes: map<string, Target> := map[];
    var pending := hosts.Keys;
    while pending != {}
      invariant pending <= hosts.Keys
      invariant routes.Keys == RoutableNames(hosts) - pending
      invariant forall name :: name in routes ==> routes[name] == Target(hosts[name])
      decreases pending
    {
      var name :| name in pending;
      var host := hosts[name];
      pending := pending - {name};
      if name == "" || host == "" {
        continue;
      }
      routes := routes[name := Target(host)];
    }
    q := ReverseProxy(Some(routes));
    assert routes == Update(p, hosts).routes.value;
  }

  /**
   The names of the current table in an arbitrary order: each routed name
   exactly once and nothing else; no names before the first `Update`.
   */
  method Names(p: ReverseProxy) returns (names: seq<string>)
    ensures p.routes.None? ==> names == []
    ensures forall name :: name in names <==> GetProxy(p, name).Some?
    ensures forall i, j :: 0 <= i < j < |names| ==> names[i] != names[j]
  {
    names := [];
    if p.routes.Some? {
      var routes := p.routes.value;
      var pending := routes.Keys;
      while pending != {}
        invariant pending <= routes.Keys
        invariant forall name :: name in names <==> name in routes && name !in pending
        invariant forall i, j :: 0 <= i < j < |names| ==> names[i] != names[j]
        decreases pending
      {
        var name :| name in pending;
        names := names + [name];
        pending := pending - {name};
      }
    }
  }

  /**
   After an `Update` the previous table has no influence: all that matters is
   `hosts`. This records that `Update` never reads its receiver, as the Go
   code starts from a fresh map.
   */
  lemma UpdateReplacesWholeTable(p1: ReverseProxy, p2: ReverseProxy, hosts: map<string, string>)
    ensures Update(p1, hosts) == Update(p2, hosts)
  {
  }

  /** Entries with an empty name or an empty host never become routes. */
  lemma UpdateFiltersInvalidEntries()
    ensures Update(Empty, map["" := "h1:1", "a" := "", "b" := "h2:2"]).routes == Some(map["b" := Target("h2:2")])
  {
    var hosts := map["" := "h1:1", "a" := "", "b" := "h2:2"];
    var q := Update(Empty, hosts);
    forall name | name in q.routes.value ensures name == "b" {
      assert GetProxy(q, name).Some?;
      assert Routable(hosts, name);
    }
    assert GetProxy(q, "b") == Some(Target("h2:2"));
    assert q.routes.value == map["b" := Target("h2:2")];
  }

}

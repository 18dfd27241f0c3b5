/**
 One iteration of the codis-fe background loop that keeps the routing table
 in step with the dashboard list: poll the loader, install a fresh map into
 the table only when the poll produced one, then sleep, longer after a
 failure. The sleep itself is not modelled; its length is part of the result.
 */
module ReloadLoop {

  import opened Wrappers
  import opened Loader
  import opened Proxy

  /** Seconds slept after a failed poll. */
  const BackoffSeconds: nat := 5

  /** Seconds slept after a poll that did not fail. */
  const PollSeconds: nat := 1

  /** The state the loop threads through its iterations: the loader and the router. */
  datatype FrontEnd = FrontEnd(loader: ConfigLoader, router: ReverseProxy)

  /** The state right after start-up, before the first poll. */
  const Start: FrontEnd := FrontEnd(Loader.Initial, Proxy.Empty)

  /** The state after one iteration, what the poll returned and how long the loop then sleeps. */
  datatype Cycle = Cycle(next: FrontEnd, result: ReloadResult, sleepSeconds: nat)

  /**
   One loop iteration. The router is replaced exactly when the poll returned
   a fresh map, and then by the table built from that map; otherwise it is
   left as it was.
   */
  function Step(s: FrontEnd, stat: Stat, contents: Contents): (c: Cycle)
    ensures c.result == Reload(s.loader, stat, contents).result
    ensures c.next.loader == Reload(s.loader, stat, contents).loader
    ensures c.result.Changed? ==> c.next.router == Update(s.router, c.result.hosts)
    ensures !c.result.Changed? ==> c.next.router == s.router
    ensures c.sleepSeconds == if c.result.Failed? then BackoffSeconds else PollSeconds
  {
    var reloaded := Reload(s.loader, stat, contents);
    match reloaded.result
    case Failed(_) => Cycle(FrontEnd(reloaded.loader, s.router), reloaded.result, BackoffSeconds)
    case Unchanged => Cycle(FrontEnd(reloaded.loader, s.router), reloaded.result, PollSeconds)
    case Changed(hosts) => Cycle(FrontEnd(reloaded.loader, Update(s.router, hosts)), reloaded.result, PollSeconds)
  }

  /**
   A name is routed after loading `list` when some record carries it, it is
   not empty, and the last record carrying it has a non-empty dashboard.
   */
  ghost predicate RoutedBy(list: seq<Record>, name: string, host: string)
  {
    name != "" && host != "" && IsLastRecord(list, name, host)
  }

  /**
   A failed poll changes nothing a request can observe: every lookup gives
   what it gave before, and the loader keeps its remembered time.
   */
  lemma FailedStepKeepsRoutes(s: FrontEnd, stat: Stat, contents: Contents, name: string)
    requires Step(s, stat, contents).result.Failed?
    ensures Step(s, stat, contents).next == s
    ensures GetProxy(Step(s, stat, contents).next.router, name) == GetProxy(s.router, name)
  {
  }

  /**
   A poll that sees a new modification time and decodes the list installs
   exactly that list: a name is routed to `host` if and only if the last
   record with that name has dashboard `host` and neither is empty.
   */
  lemma ChangedStepInstallsList(s: FrontEnd, t: Time, list: seq<Record>, name: string, host: string)
    requires t != s.loader.last
    ensures Step(s, Stat(t), Decoded(list)).next.loader == ConfigLoader(t)
    ensures GetProxy(Step(s, Stat(t), Decoded(list)).next.router, name) == Some(Target(host))
      <==> RoutedBy(list, name, host)
  {
  }

  /**
   A second poll that sees the same modification time as a poll that did not
   fail is a no-op, whatever the file would decode to: nothing is re-read,
   nothing is installed, and the loop sleeps the short interval.
   */
  lemma RepeatedStepIsStable(s: FrontEnd, stat: Stat, first: Contents, second: Contents)
    requires !Step(s, stat, first).result.Failed?
    ensures var c1 := Step(s, stat, first);
      Step(c1.next, stat, second) == Cycle(c1.next, Unchanged, PollSeconds)
  {
  }

  /** The state after running the loop body once per poll outcome, in order. */
  function Run(s: FrontEnd, polls: seq<(Stat, Contents)>): FrontEnd
    decreases |polls|
  {
    if |polls| == 0 then s
    else Run(Step(s, polls[0].0, polls[0].1).next, polls[1..])
  }

  /** No poll in `polls`, run from `s`, returned a fresh map. */
  predicate NoChange(s: FrontEnd, polls: seq<(Stat, Contents)>)
    decreases |polls|
  {
    |polls| == 0 ||
      (var c := Step(s, polls[0].0, polls[0].1);
       !c.result.Changed? && NoChange(c.next, polls[1..]))
  }

  /**
   Until a poll returns a fresh map, nothing is routed: failed and unchanged
   polls after start-up leave every lookup returning none.
   */
  lemma {:induction false} RunWithoutChangeRoutesNothing(s: FrontEnd, polls: seq<(Stat, Contents)>, name: string)
    requires s.router == Proxy.Empty
    requires NoChange(s, polls)
    ensures GetProxy(Run(s, polls).router, name) == None
    decreases |polls|
  {
    if |polls| > 0 {
      RunWithoutChangeRoutesNothing(Step(s, polls[0].0, polls[0].1).next, polls[1..], name);
    }
  }

  /**
   The filter runs after the last-wins fold, so a later record with an empty
   dashboard removes the route an earlier record of the same name would give.
   */
  lemma EmptyLaterRecordRemovesRoute()
    ensures GetProxy(Step(Start, Stat(1), Decoded([Record("a", "h1:1"), Record("a", "")])).next.router, "a") == None
  {
  }

}

/**
 * main.py: the entry point. Parsing the command line (`argparse`) and the
 * worker processes (`multiprocessing.Process`, `start`, `join`) are not
 * modelled: the dispatch starts from the parsed flags, and a started worker
 * is the pair of ids it is given.
 */
module Entry {
  import opened Common
  import opened LinkTable
  import opened ProxyTable
  import opened CrawlSession

  // ---------------------------------------------------------------------
  // Looking up a link and a proxy by id
  // ---------------------------------------------------------------------

  /** The positions holding `x`, in ascending order: what
      `list(filter(lambda r: r.id == x, rows))` keeps. */
  function IndicesOf(ids: seq<string>, x: string): (ks: seq<nat>)
    ensures forall a :: 0 <= a < |ks| ==> ks[a] < |ids| && ids[ks[a]] == x
    ensures forall j :: 0 <= j < |ids| && ids[j] == x ==> j in ks
    ensures forall a, b :: 0 <= a < b < |ks| ==> ks[a] < ks[b]
  {
    if ids == [] then []
    else
      var ks := IndicesOf(ids[..|ids| - 1], x);
      if ids[|ids| - 1] == x then ks + [|ids| - 1] else ks
  }

  /** Exactly one row has id `x` when one position holds it and no other. */
  lemma ExactlyOne(ids: seq<string>, x: string)
    ensures |IndicesOf(ids, x)| == 1 <==>
            exists k :: 0 <= k < |ids| && ids[k] == x && forall j :: 0 <= j < |ids| && j != k ==> ids[j] != x
  {
    var ks := IndicesOf(ids, x);
    if |ks| == 1 {
      forall j | 0 <= j < |ids| && j != ks[0]
        ensures ids[j] != x
      {
        assert ids[j] == x ==> j in ks;
      }
    } else if |ks| == 0 {
      assert forall j :: 0 <= j < |ids| ==> (ids[j] == x ==> j in ks);
    } else {
      assert ks[0] != ks[1] && ids[ks[0]] == x && ids[ks[1]] == x;
    }
  }

  function LinkMessage(linkId: string): string {
    "Link with id=" + linkId + " does not exist in input/links.csv"
  }

  /** The proxy check's message names the link id, as `run_parser` words it. */
  function ProxyMessage(linkId: string): string {
    "Proxy with id=" + linkId + " does not exist in input/proxies.csv"
  }

  /** The link lookup of `run_parser`: the one link with the id, or the
      failed assertion when there is none or more than one. */
  function FindLink(links: seq<Link>, linkId: string): (r: Result<Link>)
    ensures r.Ok? <==> |IndicesOf(Project(links, LinkId), linkId)| == 1
    ensures r.Ok? ==> r.value in links && r.value.id == linkId
    ensures r.Err? ==> r.error == AssertionError(LinkMessage(linkId))
  {
    var ks := IndicesOf(Project(links, LinkId), linkId);
    if |ks| == 1 then Ok(links[ks[0]]) else Err(AssertionError(LinkMessage(linkId)))
  }

  /** The proxy lookup of `run_parser`. */
  function FindProxy(proxies: seq<Proxy>, proxyId: string, linkId: string): (r: Result<Proxy>)
    ensures r.Ok? <==> |IndicesOf(Project(proxies, ProxyId), proxyId)| == 1
    ensures r.Ok? ==> r.value in proxies && r.value.id == proxyId
    ensures r.Err? ==> r.error == AssertionError(ProxyMessage(linkId))
  {
    var ks := IndicesOf(Project(proxies, ProxyId), proxyId);
    if |ks| == 1 then Ok(proxies[ks[0]]) else Err(AssertionError(ProxyMessage(linkId)))
  }

  /** The links table guarantees unique ids, so every link is found by its id. */
  lemma LinkFound(links: seq<Link>, k: nat)
    requires Distinct(Project(links, LinkId)) && k < |links|
    ensures FindLink(links, links[k].id) == Ok(links[k])
  {
    var ids := Project(links, LinkId);
    forall j | 0 <= j < |ids| && j != k
      ensures ids[j] != ids[k]
    {
      if j < k {
        assert ids[j] != ids[k];
      } else {
        assert ids[k] != ids[j];
      }
    }
    ExactlyOne(ids, links[k].id);
    var ks := IndicesOf(ids, links[k].id);
    assert ks[0] == k by {
      assert k in ks;
    }
  }

  /** Nothing makes proxy ids unique: a proxy whose id another row repeats is
      never found, and its worker fails the lookup. */
  lemma DuplicateProxyNotFound(proxies: seq<Proxy>, j: nat, k: nat, linkId: string)
    requires j < k < |proxies| && proxies[j].id == proxies[k].id
    ensures FindProxy(proxies, proxies[k].id, linkId) == Err(AssertionError(ProxyMessage(linkId)))
  {
    var ids := Project(proxies, ProxyId);
    var ks := IndicesOf(ids, proxies[k].id);
    assert j in ks && k in ks;
    var a :| 0 <= a < |ks| && ks[a] == j;
    var b :| 0 <= b < |ks| && ks[b] == k;
    assert a != b;
  }

  // ---------------------------------------------------------------------
  // Running the parsers
  // ---------------------------------------------------------------------

  /** What the session reads from outside the process: the files, whether
      its checkpoint directory exists, and the answers of the network, the
      captcha service and the coin. */
  datatype World = World(
    files: map<Path, Blob>,
    checkpointDir: bool,
    replies: seq<Reply>,
    solverAnswers: seq<Option<string>>,
    coins: seq<bool>,
    jsonDecodes: string -> bool,
    joinUrl: (string, string) -> string)

  /** How a `with` block ends: the exception of `__exit__` if it raised,
      otherwise the exception of the body, if any. */
  function WithOutcome(body: Status, exit: Status): (st: Status)
    ensures st.Success? <==> body.Success? && exit.Success?
    ensures exit.Failure? ==> st == exit
    ensures exit.Success? ==> st == body
  {
    if exit.Failure? then exit else body
  }

  /** `run_parser`: the link and the proxy must each be found exactly once;
      then a session is built for the link's URL and resume point and run
      in a `with` block. When `__enter__` raises, `__exit__` is not called;
      otherwise it is told whether `run` raised. */
  method RunParser(linkId: string, proxyId: string, links: seq<Link>, proxies: seq<Proxy>, world: World)
    returns (st: Status, session: Parser?)
    requires CheckpointConsistent(world.files, world.checkpointDir)
    ensures FindLink(links, linkId).Err? ==> st == Failure(AssertionError(LinkMessage(linkId))) && session == null
    ensures FindLink(links, linkId).Ok? && FindProxy(proxies, proxyId, linkId).Err? ==>
              st == Failure(AssertionError(ProxyMessage(linkId))) && session == null
    ensures FindLink(links, linkId).Ok? && FindProxy(proxies, proxyId, linkId).Ok? ==>
              session != null && fresh(session) &&
              session.id == linkId && session.baseUrl == FindLink(links, linkId).value.url &&
              session.fromLink == FindLink(links, linkId).value.fromItem &&
              session.proxyUrl == ProxyUrl(FindProxy(proxies, proxyId, linkId).value)
    ensures st.Failure?
  {
    var link := FindLink(links, linkId);
    if link.Err? {
      return Failure(link.error), null;
    }
    var proxy := FindProxy(proxies, proxyId, linkId);
    if proxy.Err? {
      return Failure(proxy.error), null;
    }
    session := new Parser(linkId, link.value.url, proxy.value, link.value.fromItem, world.files,
                          world.checkpointDir, world.replies, world.solverAnswers, world.coins,
                          world.jsonDecodes, world.joinUrl);
    st := session.Enter();
    if st.Failure? {
      return;
    }
    var body, _, _ := session.ParseCatalogItems();
    var exit := session.Exit(body.Failure?);
    st := WithOutcome(body, exit);
  }

  const CapacityMessage: string :=
    "Number of proxies in input/proxies.csv must be more or equal than number of links in input/links.csv"

  /** `run_parsers`: at least as many proxies as links, or the assertion
      fails before anything starts; then one worker per link, the `k`-th
      link paired with the `k`-th proxy. Surplus proxies stay unused. */
  method RunParsers(links: seq<Link>, proxies: seq<Proxy>) returns (r: Result<seq<(string, string)>>)
    ensures r.Err? <==> |proxies| < |links|
    ensures r.Err? ==> r.error == AssertionError(CapacityMessage)
    ensures r.Ok? ==> |r.value| == |links| &&
                      forall k :: 0 <= k < |links| ==> r.value[k] == (links[k].id, proxies[k].id)
  {
    if |proxies| < |links| {
      return Err(AssertionError(CapacityMessage));
    }
    var processes: seq<(string, string)> := [];
    var k := 0;
    while k < |links|
      invariant 0 <= k <= |links|
      invariant |processes| == k
      invariant forall j :: 0 <= j < k ==> processes[j] == (links[j].id, proxies[j].id)
    {
      processes := processes + [(links[k].id, proxies[k].id)];
      k := k + 1;
    }
    return Ok(processes);
  }

  /** The workers of a loaded links table find their link. */
  lemma WorkersFindTheirLinks(links: seq<Link>, proxies: seq<Proxy>, workers: seq<(string, string)>)
    requires Distinct(Project(links, LinkId)) && |workers| == |links| && |links| <= |proxies|
    requires forall k :: 0 <= k < |links| ==> workers[k] == (links[k].id, proxies[k].id)
    ensures forall k :: 0 <= k < |workers| ==> FindLink(links, workers[k].0) == Ok(links[k])
  {
    forall k | 0 <= k < |workers|
      ensures FindLink(links, workers[k].0) == Ok(links[k])
    {
      LinkFound(links, k);
    }
  }

  // ---------------------------------------------------------------------
  // The command line
  // ---------------------------------------------------------------------

  /** What `main` does with the parsed flags. */
  datatype Command =
    | RunOne(linkId: string, proxyId: string)
    | RunAll
    | Usage(message: string, exitCode: int)

  const UsageMessage: string :=
    "You need either to specify --link-id and --proxy-id parameters or do not specify both"

  /** A flag that was given with a non-empty value: Python's truthiness of
      the parsed string. */
  predicate Given(flag: Option<string>) {
    flag.Some? && flag.value != ""
  }

  /** `main`: both ids run one parser, neither runs them all, and exactly
      one prints the usage message and exits with status 1. */
  function Dispatch(linkId: Option<string>, proxyId: Option<string>): (c: Command)
    ensures c.RunOne? <==> Given(linkId) && Given(proxyId)
    ensures c.RunOne? ==> c == RunOne(linkId.value, proxyId.value)
    ensures c.RunAll? <==> !Given(linkId) && !Given(proxyId)
    ensures c.Usage? <==> Given(linkId) != Given(proxyId)
    ensures c.Usage? ==> c == Usage(UsageMessage, 1)
  {
    if Given(linkId) && Given(proxyId) then RunOne(linkId.value, proxyId.value)
    else if !Given(linkId) && !Given(proxyId) then RunAll
    else Usage(UsageMessage, 1)
  }
}

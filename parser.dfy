/**
 * parser/parser.py: one crawl session over one catalog.
 *
 * The session is a class whose fields are the three lists the crawler fills
 * in place (`_links`, `_tires`, `_disks`), the `referer` entries of its two
 * header dictionaries, and its cookie jar. What lies outside the process is
 * also held in fields, so that every method states what it changes:
 *   - the checkpoint directory `tmp/parser_<id>/` and the two XML outputs, as
 *     a map from file to content (`files`) and a flag for the directory;
 *   - the network, as the stream of replies it will give (`replies`); an
 *     exhausted stream is a refused connection;
 *   - the captcha service, as the stream of its answers (`solverAnswers`;
 *     `None` or an exhausted stream is a solver that raises);
 *   - `random.getrandbits(1)`, as a stream of coins (`coins`; exhausted reads
 *     as 0);
 *   - `json.loads` of the telemetry text, as a predicate (`jsonDecodes`);
 *     `urljoin`, as a function (`joinUrl`).
 * Two ghost logs record what the session did: every request it sent, in
 * order (`sent`), and every response `_request` handed back (`answered`).
 */
module CrawlSession {
  import opened Common
  import opened ParseHtml
  import opened ProxyTable

  // ---------------------------------------------------------------------
  // The world outside the session
  // ---------------------------------------------------------------------

  /** What the crawler reads from a response. The BeautifulSoup and JSON
      lookups are not modelled: their results are part of the response. */
  datatype Page = Page(
    url: string,                    // `response.url`, after redirects
    text: string,                   // `response.text`
    hiddenS: Option<string>,        // the `value` of the hidden input `s`, if present
    hiddenT: Option<string>,        // the `value` of the hidden input `t`, if present
    hrefs: seq<string>,             // `get_links_from_html(response.text)`
    feed: Result<seq<string>>,      // `get_links_from_html(response.json()['feed'])`
    itemsCount: Result<int>,        // the `data-count` number `get_number_of_items` reads
    breadcrumbs: Option<string>,    // the text of the breadcrumbs block, if present
    tire: Result<Tire>,             // `parse_tire(response.text)`
    disk: Result<Disk>)             // `parse_disk(response.text)`

  /** One answer of the network to a GET or POST. */
  datatype Reply = Served(page: Page) | TimedOut | Refused

  /** The telemetry events sent to `/mmy.txt`; the timestamps are not kept. */
  datatype Telemetry =
    | GoodShow                                            // viewdir_ppc_good_show__in_0
    | PageClicked(page: int)                              // page_clicked
    | ItemClick(searchPos: int, bullId: string, params: string)  // viewdir_item_click
    | SimilarExists                                       // viewbull_similar_block_bottom__exists
    | AskVisible                                          // viewbull_ask_button_is_visible
    | SimilarShow                                         // viewbull_similar_block_bottom__show

  /** What a GET asks for: a page, or `/mmy.txt` with the query of an event
      (`urlencode` is not modelled: the event stands for its query). */
  datatype Target = Url(url: string) | Mmy(event: Telemetry)

  /** One request on the wire. A GET records the header set it used, the
      `referer` that set held, and whether it was the retry after a timeout. */
  datatype Sent =
    | Get(target: Target, script: bool, referer: Option<string>, retry: bool)
    | Post(url: string, s: string, t: string, code: string, postReferer: string)

  /** The files the session touches. All but the two XML outputs live in the
      checkpoint directory `tmp/parser_<id>/`. */
  datatype Path = CookiesFile | LinksFile | DisksTmpFile | TiresTmpFile | DisksXmlFile | TiresXmlFile

  predicate InCheckpoint(p: Path) {
    !(p.DisksXmlFile? || p.TiresXmlFile?)
  }

  /** A file system can hold checkpoint files only inside an existing
      checkpoint directory. */
  predicate CheckpointConsistent(files: map<Path, Blob>, checkpointDir: bool) {
    forall p :: p in files && InCheckpoint(p) ==> checkpointDir
  }

  /** The content of a file: a pickled cookie jar, link list or list of
      record dictionaries, or an XML document. */
  datatype Blob =
    | CookieJar(jar: map<string, string>)
    | LinkList(links: seq<string>)
    | RecordDicts(dicts: seq<map<string, Field>>)
    | Document(text: string)

  /** How a step of the session ends: normally, or by raising. */
  datatype Status = Success | Failure(error: Exc)

  /** A page that carries the recaptcha form's hidden inputs `s` and `t`. */
  predicate HasCaptcha(p: Page) {
    p.hiddenS.Some? && p.hiddenT.Some?
  }

  /** What `requests` makes of a reply: the response, or the exception it raises. */
  function ReplyOutcome(reply: Reply): Result<Option<Page>> {
    match reply
    case Served(p) => Ok(Some(p))
    case TimedOut => Err(ConnectTimeout)
    case Refused => Err(ConnectionError)
  }

  /** What one attempt of `_request` comes to, read off the streams: the
      GET's reply, then for a captcha page the solver's answer and the reply
      to the POST. */
  function AttemptOutcome(replies: seq<Reply>, answers: seq<Option<string>>): (r: Result<Option<Page>>)
    ensures r.Err? ==> r.error == ConnectTimeout || r.error == ConnectionError
    ensures r.Ok? && r.value.Some? ==>
              (NextReply(replies) == Served(r.value.value) && !HasCaptcha(r.value.value)) ||
              (NextReply(replies).Served? && HasCaptcha(NextReply(replies).page) &&
               NextAnswer(answers).Some? && NextReply(Rest(replies)) == Served(r.value.value))
    ensures r == Ok(None) <==>
              NextReply(replies).Served? && HasCaptcha(NextReply(replies).page) && NextAnswer(answers).None?
  {
    match NextReply(replies)
    case Served(p) =>
      if !HasCaptcha(p) then Ok(Some(p))
      else if NextAnswer(answers).None? then Ok(None)
      else ReplyOutcome(NextReply(Rest(replies)))
    case other => ReplyOutcome(other)
  }

  function NextReply(rs: seq<Reply>): Reply {
    if rs == [] then Refused else rs[0]
  }

  function NextAnswer(answers: seq<Option<string>>): Option<string> {
    if answers == [] then None else answers[0]
  }

  function NextCoin(coins: seq<bool>): bool {
    coins != [] && coins[0]
  }

  /** A stream after its head is used; an exhausted stream stays empty. */
  function Rest<T>(s: seq<T>): (r: seq<T>)
    ensures s != [] ==> |r| == |s| - 1
  {
    if s == [] then [] else s[1..]
  }

  // ---------------------------------------------------------------------
  // Reading the logs
  // ---------------------------------------------------------------------

  /** The `_request` calls a stretch of the log records, in order: the first
      GET of each call (a retry belongs to the call that timed out). */
  function Calls(log: seq<Sent>): seq<Target> {
    if log == [] then []
    else
      var last := log[|log| - 1];
      Calls(log[..|log| - 1]) + (if last.Get? && !last.retry then [last.target] else [])
  }

  lemma {:induction false} CallsAppend(a: seq<Sent>, b: seq<Sent>)
    ensures Calls(a + b) == Calls(a) + Calls(b)
  {
    if b != [] {
      assert (a + b)[..|a + b| - 1] == a + b[..|b| - 1];
      assert (a + b)[|a + b| - 1] == b[|b| - 1];
      CallsAppend(a, b[..|b| - 1]);
    } else {
      assert a + b == a;
    }
  }

  /** The catalog and item pages `_request` handed back, with their URLs
      (responses to telemetry calls are dropped). */
  function UrlPages(log: seq<(Target, Page)>): seq<(string, Page)> {
    if log == [] then []
    else
      var last := log[|log| - 1];
      UrlPages(log[..|log| - 1]) + (if last.0.Url? then [(last.0.url, last.1)] else [])
  }

  lemma {:induction false} UrlPagesAppend(a: seq<(Target, Page)>, b: seq<(Target, Page)>)
    ensures UrlPages(a + b) == UrlPages(a) + UrlPages(b)
  {
    if b != [] {
      assert (a + b)[..|a + b| - 1] == a + b[..|b| - 1];
      assert (a + b)[|a + b| - 1] == b[|b| - 1];
      UrlPagesAppend(a, b[..|b| - 1]);
    } else {
      assert a + b == a;
    }
  }

  /** The call a single log entry records. */
  lemma CallsOne(x: Sent)
    ensures Calls([x]) == if x.Get? && !x.retry then [x.target] else []
  {
    assert [x][..0] == [];
  }

  /** What a log held from position `s0` grows by when it grows. */
  lemma CallsExtend(before: seq<Sent>, after: seq<Sent>, s0: nat)
    requires s0 <= |before| && before <= after
    ensures Calls(after[s0..]) == Calls(before[s0..]) + Calls(after[|before|..])
  {
    assert after[s0..] == before[s0..] + after[|before|..];
    CallsAppend(before[s0..], after[|before|..]);
  }

  /** A log grown by one GET and then at most one POST: the GET is the one
      call it records. */
  lemma GetThenPost(log: seq<Sent>, g: Sent, tail: seq<Sent>)
    requires |tail| <= 1 && forall k :: 0 <= k < |tail| ==> tail[k].Post?
    ensures log <= log + [g] + tail && (log + [g] + tail)[|log|] == g
    ensures forall k :: |log| < k < |log + [g] + tail| ==> (log + [g] + tail)[k].Post?
    ensures Calls((log + [g] + tail)[|log|..]) == Calls([g])
  {
    assert (log + [g] + tail)[|log|..] == [g] + tail;
    CallsAppend([g], tail);
    if tail != [] {
      CallsOne(tail[0]);
      assert tail == [tail[0]];
    }
  }

  lemma UrlPagesExtend(before: seq<(Target, Page)>, after: seq<(Target, Page)>, s0: nat)
    requires s0 <= |before| && before <= after
    ensures UrlPages(after[s0..]) == UrlPages(before[s0..]) + UrlPages(after[|before|..])
  {
    assert after[s0..] == before[s0..] + after[|before|..];
    UrlPagesAppend(before[s0..], after[|before|..]);
  }

  /** Two stretches of the log, one after the other. */
  lemma CallsJoin(s0: seq<Sent>, s1: seq<Sent>, s2: seq<Sent>)
    requires s0 <= s1 <= s2
    ensures s0 <= s2 && Calls(s2[|s0|..]) == Calls(s1[|s0|..]) + Calls(s2[|s1|..])
  {
    CallsExtend(s1, s2, |s0|);
  }

  /** Two stretches of the log, one after the other, make up the whole. */
  lemma LogJoin(s0: seq<Sent>, s1: seq<Sent>, s2: seq<Sent>)
    requires s0 <= s1 <= s2
    ensures s2[|s0|..] == s1[|s0|..] + s2[|s1|..]
  {
    assert s2[|s0|..] == s2[|s0|..|s1|] + s2[|s1|..];
  }

  lemma PagesJoin(a0: seq<(Target, Page)>, a1: seq<(Target, Page)>, a2: seq<(Target, Page)>)
    requires a0 <= a1 <= a2
    ensures a0 <= a2 && UrlPages(a2[|a0|..]) == UrlPages(a1[|a0|..]) + UrlPages(a2[|a1|..])
  {
    UrlPagesExtend(a1, a2, |a0|);
  }

  /** A call followed by further calls. */
  lemma CallsThen(s0: seq<Sent>, s1: seq<Sent>, s2: seq<Sent>, a: Target)
    requires s0 <= s1 <= s2 && Calls(s1[|s0|..]) == [a]
    ensures s0 <= s2 && Calls(s2[|s0|..]) == [a] + Calls(s2[|s1|..])
  {
    CallsExtend(s1, s2, |s0|);
  }

  /** A page call followed by calls that hand back no page. */
  lemma PageThen(a0: seq<(Target, Page)>, a1: seq<(Target, Page)>, a2: seq<(Target, Page)>, url: string, p: Page)
    requires a1 == a0 + [(Url(url), p)] && a1 <= a2 && UrlPages(a2[|a1|..]) == []
    ensures a0 <= a2 && UrlPages(a2[|a0|..]) == [(url, p)]
  {
    UrlPagesExtend(a1, a2, |a0|);
    assert a1[|a0|..] == [(Url(url), p)];
    UrlPagesOne((Url(url), p));
  }

  lemma UrlPagesOne(x: (Target, Page))
    ensures UrlPages([x]) == if x.0.Url? then [(x.0.url, x.1)] else []
  {
    assert [x][..0] == [];
  }

  // ---------------------------------------------------------------------
  // URLs
  // ---------------------------------------------------------------------

  /** The socks5 proxy URL `__init__` builds, used for both schemes. */
  function ProxyUrl(p: Proxy): string {
    "socks5://" + p.username + ":" + p.password + "@" + p.ip + ":" + p.portSocks5
  }

  const LightweightQuery: string := "?_lightweight=1&ajax=1&async=1&city=0&page="
  const ActualStatus: string := "&status=actual"

  /** The lightweight (JSON) request for catalog page `i`. */
  function PageUrl(baseUrl: string, i: nat): string {
    baseUrl + LightweightQuery + NatToString(i) + ActualStatus
  }

  /** Different pages are asked for by different URLs. */
  lemma PageUrlInjective(baseUrl: string, i: nat, j: nat)
    requires PageUrl(baseUrl, i) == PageUrl(baseUrl, j)
    ensures i == j
  {
    var u, v := PageUrl(baseUrl, i), PageUrl(baseUrl, j);
    var n := |baseUrl + LightweightQuery|;
    assert |NatToString(i)| == |NatToString(j)| by {
      assert |u| == n + |NatToString(i)| + |ActualStatus|;
      assert |v| == n + |NatToString(j)| + |ActualStatus|;
    }
    var m := n + |NatToString(i)|;
    assert NatToString(i) == u[n..m];
    assert NatToString(j) == v[n..m];
    NatToStringInjective(i, j);
  }

  /** The browser URL of catalog page `p`, used as a referer. */
  function CatalogPageUrl(baseUrl: string, p: nat): string {
    baseUrl + "?page=" + NatToString(p)
  }

  /** The catalog page that lists the item at zero-based position `i`: the
      exact ceiling of `(i + 1) / 50`, which `math.ceil` of the rounded
      double quotient equals for every `i + 1 < 2^53` (see `CeilPages`). */
  function ItemPage(i: nat): (p: nat)
    ensures p >= 1
    ensures PageSize * (p - 1) <= i < PageSize * p
  {
    CeilPages(i + 1)
  }

  /** The absolute URL of an item link. */
  function ItemUrl(link: string): string {
    "https://www.farpost.ru" + link
  }

  // ---------------------------------------------------------------------
  // Harvesting
  // ---------------------------------------------------------------------

  /** The number of catalog pages the harvest reads: the first page, then
      pages 2 to the page count. */
  function HarvestSize(count: int): (n: nat)
    ensures n >= 1
    ensures n == 1 <==> CeilPages(count) <= 1
    ensures n > 1 ==> n == CeilPages(count)
  {
    var pages := NumberOfItems(count).1;
    if pages >= 2 then pages else 1
  }

  /** The calls the harvest makes for pages 2 to `n`: the page itself, then
      the two telemetry events. */
  function HarvestCalls(baseUrl: string, n: nat): (cs: seq<Target>)
    ensures |cs| == if n < 2 then 0 else 3 * (n - 1)
  {
    if n < 2 then []
    else HarvestCalls(baseUrl, n - 1) + [Url(PageUrl(baseUrl, n)), Mmy(GoodShow), Mmy(PageClicked(n))]
  }

  /** Pages are asked for in ascending order, each followed by its two
      telemetry events. */
  lemma {:induction false} HarvestCallsAt(baseUrl: string, n: nat, k: nat)
    requires 2 <= k <= n
    ensures HarvestCalls(baseUrl, n)[3 * (k - 2)] == Url(PageUrl(baseUrl, k))
    ensures HarvestCalls(baseUrl, n)[3 * (k - 2) + 1] == Mmy(GoodShow)
    ensures HarvestCalls(baseUrl, n)[3 * (k - 2) + 2] == Mmy(PageClicked(k))
  {
    if k < n {
      HarvestCallsAt(baseUrl, n - 1, k);
    }
  }

  /** The links of the JSON feeds of the later catalog pages, page after page. */
  function FeedLinks(got: seq<(string, Page)>): seq<string> {
    if got == [] then []
    else
      var last := got[|got| - 1].1;
      FeedLinks(got[..|got| - 1]) + (if last.feed.Ok? then last.feed.value else [])
  }

  /** The state of the page loop after `n` pages: page `k + 2` was read
      `k`-th, every feed was readable, and the links grew by the feeds'
      links, page after page. */
  ghost predicate Harvested(baseUrl: string, links0: seq<string>, links: seq<string>,
                            got: seq<(string, Page)>, n: nat)
  {
    |got| == n &&
    (forall k :: 0 <= k < n ==> got[k].0 == PageUrl(baseUrl, k + 2) && got[k].1.feed.Ok?) &&
    links == links0 + FeedLinks(got)
  }

  /** Reading page `n + 2` extends the harvest of `n` pages. */
  lemma HarvestStep(baseUrl: string, links0: seq<string>, links: seq<string>, got: seq<(string, Page)>, n: nat,
                    page: seq<(string, Page)>)
    requires Harvested(baseUrl, links0, links, got, n)
    requires |page| == 1 && page[0].0 == PageUrl(baseUrl, n + 2) && page[0].1.feed.Ok?
    ensures Harvested(baseUrl, links0, links + page[0].1.feed.value, got + page, n + 1)
  {
    assert (got + page)[..n] == got;
  }

  /** A whole harvest of the catalog, read off the logs: the first page was
      the catalog URL itself, with a readable item count; its links came
      first, then the feeds of pages 2 to the page count, page after page;
      and the calls were the first page, then each later page with its two
      telemetry events. */
  ghost predicate CatalogHarvested(baseUrl: string, links0: seq<string>, links: seq<string>,
                                   got: seq<(string, Page)>, calls: seq<Target>)
  {
    |got| >= 1 && got[0].0 == baseUrl && got[0].1.itemsCount.Ok? &&
    Harvested(baseUrl, links0 + got[0].1.hrefs, links, got[1..], HarvestSize(got[0].1.itemsCount.value) - 1) &&
    calls == [Url(baseUrl)] + HarvestCalls(baseUrl, |got|)
  }

  // ---------------------------------------------------------------------
  // Visiting items
  // ---------------------------------------------------------------------

  /** `list.index`: the first position of `x` in `s`, or `None`. */
  function IndexOf(s: seq<string>, x: string): (r: Option<nat>)
    ensures r.Some? ==> r.value < |s| && s[r.value] == x
    ensures r.Some? ==> forall j :: 0 <= j < r.value ==> s[j] != x
    ensures r.None? <==> forall j :: 0 <= j < |s| ==> s[j] != x
  {
    if s == [] then None
    else if s[0] == x then Some(0)
    else match IndexOf(s[1..], x)
      case None => None
      case Some(k) => Some(k + 1)
  }

  /** Where `_parse_catalog_items` starts: at the first occurrence of a
      non-empty `from_link`, at 0 without one; `ValueError` when the link is
      not among the harvested ones. */
  function ResumeIndex(links: seq<string>, fromLink: Option<string>): (r: Result<nat>)
    ensures r.Err? <==> fromLink.Some? && fromLink.value != "" && fromLink.value !in links
    ensures r.Err? ==> r.error == ValueError
    ensures r.Ok? && fromLink.Some? && fromLink.value != "" ==>
              r.value < |links| && links[r.value] == fromLink.value &&
              forall j :: 0 <= j < r.value ==> links[j] != fromLink.value
    ensures r.Ok? && (fromLink.None? || fromLink.value == "") ==> r.value == 0
  {
    if fromLink.Some? && fromLink.value != "" then
      match IndexOf(links, fromLink.value)
      case None => Err(ValueError)
      case Some(k) => Ok(k)
    else Ok(0)
  }

  /** An item page without the telemetry separator: it was deleted or
      replaced, and the loop skips it. */
  predicate Stale(p: Page) {
    ParamsText(p.text).Err?
  }

  /** The classification of an item page (only when it has breadcrumbs). */
  function Kind(p: Page): Option<ItemType> {
    if p.breadcrumbs.Some? then ResolveItemType(p.breadcrumbs.value) else None
  }

  /** The tire a visited page adds: one for a current TIRE page, none otherwise. */
  function PageTires(p: Page): seq<Tire> {
    if !Stale(p) && Kind(p) == Some(TIRE) && p.tire.Ok? then [p.tire.value] else []
  }

  /** The disk a visited page adds: one for a current DISK page, none otherwise. */
  function PageDisks(p: Page): seq<Disk> {
    if !Stale(p) && Kind(p) == Some(DISK) && p.disk.Ok? then [p.disk.value] else []
  }

  /** A page of which a record of its kind could be read. */
  predicate Recordable(p: Page) {
    (!Stale(p) && Kind(p) == Some(TIRE) ==> p.tire.Ok?) &&
    (!Stale(p) && Kind(p) == Some(DISK) ==> p.disk.Ok?)
  }

  function ItemTires(got: seq<(string, Page)>): seq<Tire> {
    if got == [] then [] else ItemTires(got[..|got| - 1]) + PageTires(got[|got| - 1].1)
  }

  function ItemDisks(got: seq<(string, Page)>): seq<Disk> {
    if got == [] then [] else ItemDisks(got[..|got| - 1]) + PageDisks(got[|got| - 1].1)
  }

  /** A page adds at most one record, and never both kinds. */
  lemma PageRecords(p: Page)
    ensures |PageTires(p)| + |PageDisks(p)| <= 1
    ensures Recordable(p) ==> (|PageTires(p)| == 1 <==> !Stale(p) && Kind(p) == Some(TIRE))
    ensures Recordable(p) ==> (|PageDisks(p)| == 1 <==> !Stale(p) && Kind(p) == Some(DISK))
  {
  }

  /** The records the visited pages add number at most the pages. */
  lemma {:induction false} ItemRecordsBound(got: seq<(string, Page)>)
    ensures |ItemTires(got)| + |ItemDisks(got)| <= |got|
  {
    if got != [] {
      ItemRecordsBound(got[..|got| - 1]);
      PageRecords(got[|got| - 1].1);
    }
  }

  /** The state of the item loop: the pages of the links from `start` on
      were read in list order, one page per link. */
  ghost predicate Visited(links: seq<string>, start: nat, got: seq<(string, Page)>)
  {
    start + |got| <= |links| &&
    forall k :: 0 <= k < |got| ==> got[k].0 == ItemUrl(links[start + k])
  }

  /** The state of the item loop before position `i`: the records grew by
      the records of the pages read, in order. */
  ghost predicate ItemsRead(links: seq<string>, start: nat, i: nat, got: seq<(string, Page)>,
                            tires0: seq<Tire>, tires: seq<Tire>, disks0: seq<Disk>, disks: seq<Disk>)
  {
    start + |got| == i && Visited(links, start, got) &&
    tires == tires0 + ItemTires(got) && disks == disks0 + ItemDisks(got)
  }

  /** Visiting the link at `i` extends the state of the item loop. */
  lemma ItemsReadStep(links: seq<string>, start: nat, i: nat, got: seq<(string, Page)>,
                      tires0: seq<Tire>, tires: seq<Tire>, disks0: seq<Disk>, disks: seq<Disk>,
                      page: seq<(string, Page)>)
    requires ItemsRead(links, start, i, got, tires0, tires, disks0, disks) && i < |links|
    requires |page| == 1 && page[0].0 == ItemUrl(links[i])
    ensures ItemsRead(links, start, i + 1, got + page, tires0, tires + PageTires(page[0].1),
                      disks0, disks + PageDisks(page[0].1))
  {
    ItemStep(links, start, got, page);
    assert page == [page[0]];
    TiresStep(tires0, tires, got, page[0]);
    DisksStep(disks0, disks, got, page[0]);
  }

  lemma TiresStep(tires0: seq<Tire>, tires: seq<Tire>, got: seq<(string, Page)>, x: (string, Page))
    requires tires == tires0 + ItemTires(got)
    ensures tires + PageTires(x.1) == tires0 + ItemTires(got + [x])
  {
    ItemRecordsSnoc(got, x);
    AppendAssoc(tires0, ItemTires(got), PageTires(x.1));
  }

  lemma DisksStep(disks0: seq<Disk>, disks: seq<Disk>, got: seq<(string, Page)>, x: (string, Page))
    requires disks == disks0 + ItemDisks(got)
    ensures disks + PageDisks(x.1) == disks0 + ItemDisks(got + [x])
  {
    ItemRecordsSnoc(got, x);
    AppendAssoc(disks0, ItemDisks(got), PageDisks(x.1));
  }

  /** Visiting the next link extends the visit. */
  lemma ItemStep(links: seq<string>, start: nat, got: seq<(string, Page)>, page: seq<(string, Page)>)
    requires Visited(links, start, got) && start + |got| < |links|
    requires |page| == 1 && page[0].0 == ItemUrl(links[start + |got|])
    ensures Visited(links, start, got + page)
  {
  }

  /** Concatenation regroups. */
  lemma AppendAssoc<T>(a: seq<T>, b: seq<T>, c: seq<T>)
    ensures a + b + c == a + (b + c)
  {
  }

  /** Visiting one more item adds its page's records at the end. */
  lemma ItemRecordsSnoc(got: seq<(string, Page)>, x: (string, Page))
    ensures ItemTires(got + [x]) == ItemTires(got) + PageTires(x.1)
    ensures ItemDisks(got + [x]) == ItemDisks(got) + PageDisks(x.1)
  {
    assert (got + [x])[..|got|] == got;
  }

  /** The telemetry of a current item, in the order it is sent. */
  function ItemTelemetry(i: nat, bullId: string, params: string, coin: bool): seq<Target> {
    [Mmy(ItemClick(i + 1, bullId, params)), Mmy(SimilarExists), Mmy(AskVisible)] +
    (if coin then [Mmy(SimilarShow)] else [])
  }

  /** What visiting the link at position `i` did, when it ended normally:
      the item page had an id and breadcrumbs; a stale page was skipped
      after its request alone; a current one had parameters `json.loads`
      accepts, was followed by its telemetry, and used one coin. */
  ghost predicate ItemVisit(i: nat, link: string, p: Page, decodes: string -> bool,
                            coins0: seq<bool>, coins: seq<bool>, calls: seq<Target>)
  {
    GetItemId(link).Some? && p.breadcrumbs.Some? && Recordable(p) &&
    if Stale(p) then
      coins == coins0 && calls == [Url(ItemUrl(link))]
    else
      decodes(ParamsText(p.text).value) && coins == Rest(coins0) &&
      calls == [Url(ItemUrl(link))] + ItemTelemetry(i, GetItemId(link).value, ParamsText(p.text).value, NextCoin(coins0))
  }

  /** The visit of the link at absolute position `i` as the wire saw it: the
      item GET with the user headers, whose referer is the catalog page that
      lists position `i`, then what `ItemVisit` says of the visit. */
  ghost predicate VisitLogged(baseUrl: string, i: nat, link: string, p: Page, decodes: string -> bool,
                              coins0: seq<bool>, coins: seq<bool>, block: seq<Sent>)
  {
    block != [] &&
    block[0] == Get(Url(ItemUrl(link)), false, Some(CatalogPageUrl(baseUrl, ItemPage(i))), false) &&
    ItemVisit(i, link, p, decodes, coins0, coins, Calls(block))
  }

  /** `VisitLogged` with the crawl's base URL and decoder fixed, as a
      relation on (position, link, page, coins before, coins after, block). */
  ghost function VisitOf(baseUrl: string, decodes: string -> bool)
    : (nat, string, Page, seq<bool>, seq<bool>, seq<Sent>) -> bool
  {
    (i: nat, link, p, coins0, coins, block) => VisitLogged(baseUrl, i, link, p, decodes, coins0, coins, block)
  }

  /** The `k`-th block of a log cut at the positions `cuts`. */
  function Block<T>(log: seq<T>, cuts: seq<nat>, k: nat): seq<T>
    requires k + 1 < |cuts| && cuts[k] <= cuts[k + 1] <= |log|
  {
    log[cuts[k]..cuts[k + 1]]
  }

  /** A log cut into one block per page read, the `k`-th page the visit of
      the link at absolute position `start + k` as `ok` relates it to its
      block (from `cuts[k]` to `cuts[k + 1]`); each visit draws its coins
      where the previous one stopped (`trail[k]` before the `k`-th visit),
      the first from `coins0`, the last leaving `coins`. */
  ghost predicate Tiled(ok: (nat, string, Page, seq<bool>, seq<bool>, seq<Sent>) -> bool,
                        links: seq<string>, start: nat, got: seq<(string, Page)>,
                        cuts: seq<nat>, trail: seq<seq<bool>>, log: seq<Sent>, coins0: seq<bool>, coins: seq<bool>)
  {
    start + |got| <= |links| && |cuts| == |got| + 1 && |trail| == |got| + 1 &&
    cuts[0] == 0 && cuts[|got|] == |log| && trail[0] == coins0 && trail[|got|] == coins &&
    (forall j, k :: 0 <= j <= k <= |got| ==> cuts[j] <= cuts[k]) &&
    forall k {:trigger Block(log, cuts, k)} :: 0 <= k < |got| ==>
      ok(start + k, links[start + k], got[k].1, trail[k], trail[k + 1], Block(log, cuts, k))
  }

  /** One more page read, related by `ok` to the block it appended, extends
      the tiling by that block. */
  lemma TiledStep(ok: (nat, string, Page, seq<bool>, seq<bool>, seq<Sent>) -> bool,
                  links: seq<string>, start: nat, got: seq<(string, Page)>,
                  cuts: seq<nat>, trail: seq<seq<bool>>, log: seq<Sent>, coins0: seq<bool>, coins: seq<bool>,
                  i: nat, page: seq<(string, Page)>, block: seq<Sent>, coins': seq<bool>)
    requires Tiled(ok, links, start, got, cuts, trail, log, coins0, coins)
    requires i == start + |got| && i < |links| && |page| == 1
    requires ok(i, links[i], page[0].1, coins, coins', block)
    ensures Tiled(ok, links, start, got + page, cuts + [|log| + |block|], trail + [coins'], log + block, coins0, coins')
  {
    var got', cuts', trail', log' := got + page, cuts + [|log| + |block|], trail + [coins'], log + block;
    forall k | 0 <= k < |got'|
      ensures ok(start + k, links[start + k], got'[k].1, trail'[k], trail'[k + 1], Block(log', cuts', k))
    {
      if k < |got| {
        assert Block(log', cuts', k) == Block(log, cuts, k);
      } else {
        assert Block(log', cuts', k) == block;
      }
    }
  }

  /** The `k`-th page of a tiling, related by `ok` to its block. */
  lemma TiledAt(ok: (nat, string, Page, seq<bool>, seq<bool>, seq<Sent>) -> bool,
                links: seq<string>, start: nat, got: seq<(string, Page)>,
                cuts: seq<nat>, trail: seq<seq<bool>>, log: seq<Sent>, coins0: seq<bool>, coins: seq<bool>, k: nat)
    requires Tiled(ok, links, start, got, cuts, trail, log, coins0, coins) && k < |got|
    ensures start + k < |links| && |cuts| == |trail| == |got| + 1 && cuts[k] <= cuts[k + 1] <= |log|
    ensures ok(start + k, links[start + k], got[k].1, trail[k], trail[k + 1], log[cuts[k]..cuts[k + 1]])
  {
    assert Block(log, cuts, k) == log[cuts[k]..cuts[k + 1]];
  }

  /** The log of the item loop: every page read is the visit of the link at
      its absolute position, logged as its own block of the log, the visits
      chained through the coins. */
  ghost predicate ItemsLogged(baseUrl: string, links: seq<string>, start: nat, got: seq<(string, Page)>,
                              decodes: string -> bool, cuts: seq<nat>, trail: seq<seq<bool>>,
                              log: seq<Sent>, coins0: seq<bool>, coins: seq<bool>)
  {
    Tiled(VisitOf(baseUrl, decodes), links, start, got, cuts, trail, log, coins0, coins)
  }

  /** Visiting the next link extends the log of the item loop by its block. */
  lemma ItemsLoggedStep(baseUrl: string, links: seq<string>, start: nat, got: seq<(string, Page)>,
                        decodes: string -> bool, cuts: seq<nat>, trail: seq<seq<bool>>,
                        log: seq<Sent>, coins0: seq<bool>, coins: seq<bool>,
                        i: nat, page: seq<(string, Page)>, block: seq<Sent>, coins': seq<bool>)
    requires ItemsLogged(baseUrl, links, start, got, decodes, cuts, trail, log, coins0, coins)
    requires i == start + |got| && i < |links| && |page| == 1
    requires VisitLogged(baseUrl, i, links[i], page[0].1, decodes, coins, coins', block)
    ensures ItemsLogged(baseUrl, links, start, got + page, decodes, cuts + [|log| + |block|], trail + [coins'],
                        log + block, coins0, coins')
  {
    TiledStep(VisitOf(baseUrl, decodes), links, start, got, cuts, trail, log, coins0, coins, i, page, block, coins');
  }

  /** What the log of the item loop says of its `k`-th page: the visit of
      the link at position `start + k`, whose requests are the `k`-th block. */
  lemma ItemsLoggedAt(baseUrl: string, links: seq<string>, start: nat, got: seq<(string, Page)>,
                      decodes: string -> bool, cuts: seq<nat>, trail: seq<seq<bool>>,
                      log: seq<Sent>, coins0: seq<bool>, coins: seq<bool>, k: nat)
    requires ItemsLogged(baseUrl, links, start, got, decodes, cuts, trail, log, coins0, coins)
    requires k < |got|
    ensures start + k < |links| && |cuts| == |trail| == |got| + 1 && cuts[k] <= cuts[k + 1] <= |log|
    ensures VisitOf(baseUrl, decodes)(start + k, links[start + k], got[k].1, trail[k], trail[k + 1],
                                      log[cuts[k]..cuts[k + 1]])
  {
    TiledAt(VisitOf(baseUrl, decodes), links, start, got, cuts, trail, log, coins0, coins, k);
  }

  /** One turn of the item loop: the page read at `i` extends both the
      records and the log of the loop. */
  lemma ItemsLoopStep(baseUrl: string, links: seq<string>, start: nat, i: nat, got: seq<(string, Page)>,
                      decodes: string -> bool, tires0: seq<Tire>, tires: seq<Tire>, disks0: seq<Disk>, disks: seq<Disk>,
                      cuts: seq<nat>, trail: seq<seq<bool>>, log: seq<Sent>, coins0: seq<bool>, coins: seq<bool>,
                      page: seq<(string, Page)>, block: seq<Sent>, coins': seq<bool>)
    requires ItemsRead(links, start, i, got, tires0, tires, disks0, disks) && i < |links|
    requires ItemsLogged(baseUrl, links, start, got, decodes, cuts, trail, log, coins0, coins)
    requires |page| == 1 && page[0].0 == ItemUrl(links[i])
    requires VisitLogged(baseUrl, i, links[i], page[0].1, decodes, coins, coins', block)
    ensures ItemsLogged(baseUrl, links, start, got + page, decodes, cuts + [|log| + |block|], trail + [coins'],
                        log + block, coins0, coins')
    ensures ItemsRead(links, start, i + 1, got + page, tires0, tires + PageTires(page[0].1),
                      disks0, disks + PageDisks(page[0].1))
  {
    ItemsReadStep(links, start, i, got, tires0, tires, disks0, disks, page);
    ItemsLoggedStep(baseUrl, links, start, got, decodes, cuts, trail, log, coins0, coins, i, page, block, coins');
  }

  // ---------------------------------------------------------------------
  // Checkpoint and output contents
  // ---------------------------------------------------------------------

  /** Applies a fallible conversion to every element, in order; the first
      failure is what a list comprehension over the elements raises. */
  function AllOk<A, B>(f: A -> Result<B>, xs: seq<A>): (r: Result<seq<B>>)
    ensures r.Ok? <==> forall k :: 0 <= k < |xs| ==> f(xs[k]).Ok?
    ensures r.Ok? ==> |r.value| == |xs| && forall k :: 0 <= k < |xs| ==> f(xs[k]) == Ok(r.value[k])
    ensures r.Err? ==> exists k :: 0 <= k < |xs| && f(xs[k]) == Err(r.error) &&
                                   forall j :: 0 <= j < k ==> f(xs[j]).Ok?
  {
    if xs == [] then Ok([])
    else match f(xs[0])
      case Err(x) => Err(x)
      case Ok(y) =>
        match AllOk(f, xs[1..])
        case Err(x) => (var k :| 0 <= k < |xs[1..]| && f(xs[1..][k]) == Err(x) &&
                                 forall j :: 0 <= j < k ==> f(xs[1..][j]).Ok?;
                        assert f(xs[k + 1]) == Err(x);
                        Err(x))
        case Ok(ys) => Ok([y] + ys)
  }

  /** When every element converts to the matching one of `ys`, the whole
      conversion gives `ys`. */
  lemma AllOkInverse<A, B>(f: A -> Result<B>, xs: seq<A>, ys: seq<B>)
    requires |xs| == |ys|
    requires forall k :: 0 <= k < |xs| ==> f(xs[k]) == Ok(ys[k])
    ensures AllOk(f, xs) == Ok(ys)
  {
    var r := AllOk(f, xs);
    assert r.value == ys;
  }

  /** `[tire.__dict__() for tire in tires]`. */
  function TireDicts(ts: seq<Tire>): (ds: seq<map<string, Field>>)
    ensures |ds| == |ts| && forall k :: 0 <= k < |ts| ==> ds[k] == TireToDict(ts[k])
  {
    seq(|ts|, k requires 0 <= k < |ts| => TireToDict(ts[k]))
  }

  /** `[disk.__dict__() for disk in disks]`. */
  function DiskDicts(ds: seq<Disk>): (ms: seq<map<string, Field>>)
    ensures |ms| == |ds| && forall k :: 0 <= k < |ds| ==> ms[k] == DiskToDict(ds[k])
  {
    seq(|ds|, k requires 0 <= k < |ds| => DiskToDict(ds[k]))
  }

  /** The tires a checkpoint dump holds are the ones the reload gives back. */
  lemma TireDictsRoundTrip(ts: seq<Tire>)
    ensures AllOk(TireFromDict, TireDicts(ts)) == Ok(ts)
  {
    TiresInverse(ts);
    AllOkInverse(TireFromDict, TireDicts(ts), ts);
  }

  lemma TiresInverse(ts: seq<Tire>)
    ensures forall k :: 0 <= k < |ts| ==> TireFromDict(TireToDict(ts[k])) == Ok(ts[k])
  {
    forall k | 0 <= k < |ts| {
      TireDictRoundTrip(ts[k]);
    }
  }

  /** The disks a checkpoint dump holds are the ones the reload gives back. */
  lemma DiskDictsRoundTrip(ds: seq<Disk>)
    ensures AllOk(DiskFromDict, DiskDicts(ds)) == Ok(ds)
  {
    DisksInverse(ds);
    AllOkInverse(DiskFromDict, DiskDicts(ds), ds);
  }

  lemma DisksInverse(ds: seq<Disk>)
    ensures forall k :: 0 <= k < |ds| ==> DiskFromDict(DiskToDict(ds[k])) == Ok(ds[k])
  {
    forall k | 0 <= k < |ds| {
      DiskDictRoundTrip(ds[k]);
    }
  }

  /** What the reload of a checkpoint of records gives: nothing when the file
      is absent, the converted records, the conversion's error, or
      `UnpicklingError` for a file that holds something else. */
  function Reload<B>(files: map<Path, Blob>, p: Path, f: map<string, Field> -> Result<B>): Option<Result<seq<B>>> {
    if p !in files then None
    else match files[p]
      case RecordDicts(ds) => Some(AllOk(f, ds))
      case _ => Some(Err(UnpicklingError))
  }

  /** A checkpoint of tires, once written, reloads as the same tires. */
  lemma TiresCheckpointRoundTrip(files: map<Path, Blob>, ts: seq<Tire>)
    ensures Reload(files[TiresTmpFile := RecordDicts(TireDicts(ts))], TiresTmpFile, TireFromDict) == Some(Ok(ts))
  {
    TireDictsRoundTrip(ts);
  }

  /** A checkpoint of disks, once written, reloads as the same disks. */
  lemma DisksCheckpointRoundTrip(files: map<Path, Blob>, ds: seq<Disk>)
    ensures Reload(files[DisksTmpFile := RecordDicts(DiskDicts(ds))], DisksTmpFile, DiskFromDict) == Some(Ok(ds))
  {
    DiskDictsRoundTrip(ds);
  }

  /** The records a session holds after trying to reload a checkpoint:
      the reloaded ones, or the ones it had when there is none. */
  function Restored<B>(files: map<Path, Blob>, p: Path, f: map<string, Field> -> Result<B>, current: seq<B>): seq<B> {
    match Reload(files, p, f)
    case Some(Ok(rs)) => rs
    case _ => current
  }

  /** What the load of the cookie checkpoint does to a jar: the stored
      cookies are merged in, the stored ones winning. */
  function LoadedCookies(files: map<Path, Blob>, cookies: map<string, string>): Result<map<string, string>> {
    if CookiesFile !in files then Ok(cookies)
    else match files[CookiesFile]
      case CookieJar(jar) => Ok(cookies + jar)
      case _ => Err(UnpicklingError)
  }

  /** A fresh session that loads a written cookie checkpoint holds exactly
      the cookies written. */
  lemma CookiesCheckpointRoundTrip(files: map<Path, Blob>, jar: map<string, string>)
    ensures LoadedCookies(files[CookiesFile := CookieJar(jar)], map[]) == Ok(jar)
  {
    assert map[] + jar == jar;
  }

  /** The links checkpoint: `None` when there is none. */
  function LoadedLinks(files: map<Path, Blob>): Option<Result<seq<string>>> {
    if LinksFile !in files then None
    else match files[LinksFile]
      case LinkList(ls) => Some(Ok(ls))
      case _ => Some(Err(UnpicklingError))
  }

  /** The files after the links are dumped: an empty list writes nothing. */
  function DumpedLinks(files: map<Path, Blob>, links: seq<string>): map<Path, Blob> {
    if links == [] then files else files[LinksFile := LinkList(links)]
  }

  /** Dumping the links leaves the record checkpoints as they were. */
  lemma DumpKeepsRecords(files: map<Path, Blob>, links: seq<string>)
    ensures Reload(DumpedLinks(files, links), DisksTmpFile, DiskFromDict) == Reload(files, DisksTmpFile, DiskFromDict)
    ensures Reload(DumpedLinks(files, links), TiresTmpFile, TireFromDict) == Reload(files, TiresTmpFile, TireFromDict)
  {
  }

  /** Harvested links survive a restart: once dumped, a non-empty list is
      what the next session loads instead of harvesting; an empty one leaves
      the next session to harvest again. */
  lemma LinksCheckpointRoundTrip(files: map<Path, Blob>, links: seq<string>)
    requires LinksFile !in files
    ensures LoadedLinks(DumpedLinks(files, links)) == if links == [] then None else Some(Ok(links))
  {
  }

  /** No file is left in the checkpoint directory. */
  predicate CheckpointEmpty(files: map<Path, Blob>) {
    CookiesFile !in files && LinksFile !in files && DisksTmpFile !in files && TiresTmpFile !in files
  }

  /** The text the output header writes before the first record: the XML
      declaration, a newline, `<products>` indented by 20 spaces, a newline
      and 16 spaces. */
  const XmlHeader: string :=
    "<?xml version=\"1.0\" encoding=\"UTF-8\"?>\n                    <products>\n                "

  const XmlFooter: string := "</products>"

  function ConcatAll(ss: seq<string>): string {
    if ss == [] then "" else ConcatAll(ss[..|ss| - 1]) + ss[|ss| - 1]
  }

  lemma {:induction false} ConcatAllAppend(a: seq<string>, b: seq<string>)
    ensures ConcatAll(a + b) == ConcatAll(a) + ConcatAll(b)
  {
    if b != [] {
      assert (a + b)[..|a + b| - 1] == a + b[..|b| - 1];
      assert (a + b)[|a + b| - 1] == b[|b| - 1];
      ConcatAllAppend(a, b[..|b| - 1]);
    } else {
      assert a + b == a;
    }
  }

  /** An output document: the header, every record's XML in list order, then
      the closing tag. */
  function XmlDocument(records: seq<string>): string {
    XmlHeader + ConcatAll(records) + XmlFooter
  }

  /** Record `k` sits in the document right after the records before it. */
  lemma XmlDocumentAt(records: seq<string>, k: nat)
    requires k < |records|
    ensures XmlDocument(records) ==
            XmlHeader + ConcatAll(records[..k]) + records[k] + ConcatAll(records[k + 1..]) + XmlFooter
  {
    assert records == records[..k] + [records[k]] + records[k + 1..];
    ConcatAllAppend(records[..k] + [records[k]], records[k + 1..]);
    ConcatAllAppend(records[..k], [records[k]]);
    assert ConcatAll([records[k]]) == records[k] by {
      assert [records[k]][..0] == [];
    }
  }

  function TiresXml(ts: seq<Tire>): (rs: seq<string>)
    ensures |rs| == |ts| && forall k :: 0 <= k < |ts| ==> rs[k] == TireToXml(ts[k])
  {
    seq(|ts|, k requires 0 <= k < |ts| => TireToXml(ts[k]))
  }

  function DisksXml(ds: seq<Disk>): (rs: seq<string>)
    ensures |rs| == |ds| && forall k :: 0 <= k < |ds| ==> rs[k] == DiskToXml(ds[k])
  {
    seq(|ds|, k requires 0 <= k < |ds| => DiskToXml(ds[k]))
  }

  // ---------------------------------------------------------------------
  // The session
  // ---------------------------------------------------------------------

  class Parser {
    const id: string
    const baseUrl: string
    const fromLink: Option<string>
    const proxyUrl: string
    const jsonDecodes: string -> bool
    const joinUrl: (string, string) -> string

    var links: seq<string>
    var tires: seq<Tire>
    var disks: seq<Disk>
    var userReferer: string             // `_user_headers['referer']`
    var scriptReferer: Option<string>   // `_script_headers['referer']`, absent at first
    var cookies: map<string, string>

    var files: map<Path, Blob>
    var checkpointDir: bool             // `tmp/parser_<id>/` exists
    var replies: seq<Reply>
    var solverAnswers: seq<Option<string>>
    var coins: seq<bool>
    ghost var sent: seq<Sent>
    ghost var answered: seq<(Target, Page)>

    /** `__init__`: a fresh session with empty lists, the user headers'
        referer at the catalog URL and no script referer yet. */
    constructor (id: string, baseUrl: string, proxy: Proxy, fromLink: Option<string>,
                 files: map<Path, Blob>, checkpointDir: bool, replies: seq<Reply>,
                 solverAnswers: seq<Option<string>>, coins: seq<bool>,
                 jsonDecodes: string -> bool, joinUrl: (string, string) -> string)
      requires CheckpointConsistent(files, checkpointDir)
      ensures this.id == id && this.baseUrl == baseUrl && this.fromLink == fromLink
      ensures proxyUrl == ProxyUrl(proxy)
      ensures links == [] && tires == [] && disks == [] && cookies == map[]
      ensures userReferer == baseUrl && scriptReferer == None
      ensures this.files == files && this.checkpointDir == checkpointDir
      ensures this.replies == replies && this.solverAnswers == solverAnswers && this.coins == coins
      ensures this.jsonDecodes == jsonDecodes && this.joinUrl == joinUrl
      ensures sent == [] && answered == []
    {
      this.id := id;
      this.baseUrl := baseUrl;
      this.fromLink := fromLink;
      proxyUrl := ProxyUrl(proxy);
      this.jsonDecodes := jsonDecodes;
      this.joinUrl := joinUrl;
      links := [];
      tires := [];
      disks := [];
      userReferer := baseUrl;
      scriptReferer := None;
      cookies := map[];
      this.files := files;
      this.checkpointDir := checkpointDir;
      this.replies := replies;
      this.solverAnswers := solverAnswers;
      this.coins := coins;
      sent := [];
      answered := [];
    }

    /** The referer the chosen header set carries. */
    function Referer(isScript: bool): Option<string>
      reads this
    {
      if isScript then scriptReferer else Some(userReferer)
    }

    // -------------------------------------------------------------------
    // Requests
    // -------------------------------------------------------------------

    /** `_solve_recaptcha_if_recaptcha`. Without both hidden inputs the
        response is returned as it is. Otherwise the solver is asked once: if
        it raises, the method falls off its end and yields `None`; if it
        answers, the user headers' referer becomes the page URL and the form
        is POSTed, whose response (or exception) is the outcome. */
    method SolveRecaptchaIfRecaptcha(response: Page) returns (r: Result<Option<Page>>)
      modifies this`sent, this`replies, this`solverAnswers, this`userReferer
      ensures r.Err? ==> r.error == ConnectTimeout || r.error == ConnectionError
      ensures |replies| <= |old(replies)|
      ensures !HasCaptcha(response) ==>
                r == Ok(Some(response)) && sent == old(sent) && replies == old(replies) &&
                solverAnswers == old(solverAnswers) && userReferer == old(userReferer)
      ensures HasCaptcha(response) ==> solverAnswers == Rest(old(solverAnswers))
      ensures HasCaptcha(response) && NextAnswer(old(solverAnswers)).None? ==>
                r == Ok(None) && sent == old(sent) && replies == old(replies) &&
                userReferer == old(userReferer)
      ensures HasCaptcha(response) && NextAnswer(old(solverAnswers)).Some? ==>
                userReferer == response.url && replies == Rest(old(replies)) &&
                sent == old(sent) + [Post(response.url, response.hiddenS.value, response.hiddenT.value,
                                          NextAnswer(old(solverAnswers)).value, response.url)] &&
                r == ReplyOutcome(NextReply(old(replies)))
    {
      if !HasCaptcha(response) {
        return Ok(Some(response));
      }
      var answer := NextAnswer(solverAnswers);
      solverAnswers := Rest(solverAnswers);
      if answer.None? {
        return Ok(None);
      }
      userReferer := response.url;
      sent := sent + [Post(response.url, response.hiddenS.value, response.hiddenT.value, answer.value, userReferer)];
      var reply := NextReply(replies);
      replies := Rest(replies);
      return ReplyOutcome(reply);
    }

    /** The `try` block of `_request`: one GET with the chosen header set,
        then the captcha step on its response. */
    method Attempt(target: Target, isScript: bool, ghost isRetry: bool) returns (outcome: Result<Option<Page>>)
      modifies this`sent, this`replies, this`solverAnswers, this`userReferer
      ensures outcome == AttemptOutcome(old(replies), old(solverAnswers))
      ensures old(sent) <= sent && |old(sent)| < |sent| <= |old(sent)| + 2
      ensures sent[|old(sent)|] == Get(target, isScript, old(Referer(isScript)), isRetry)
      ensures forall k :: |old(sent)| < k < |sent| ==> sent[k].Post?
      ensures Calls(sent[|old(sent)|..]) == if isRetry then [] else [target]
      ensures |replies| <= |old(replies)| && (old(replies) != [] ==> |replies| < |old(replies)|)
    {
      ghost var get := Get(target, isScript, Referer(isScript), isRetry);
      sent := sent + [get];
      var reply := NextReply(replies);
      replies := Rest(replies);
      match reply {
        case Served(page) =>
          outcome := SolveRecaptchaIfRecaptcha(page);
        case _ =>
          outcome := ReplyOutcome(reply);
      }
      ghost var tail := sent[|old(sent)| + 1..];
      assert sent == old(sent) + [get] + tail;
      GetThenPost(old(sent), get, tail);
      CallsOne(get);
    }

    /** `_request`: the attempt, whose outcome it returns; but a
        `ConnectTimeout` in it is caught and the call repeated, and the
        repeat's response is dropped: the outcome is then `None`, or whatever
        the repeat raised. `isRetry` marks the repeat in the log. */
    method Request(target: Target, isScript: bool, ghost isRetry: bool) returns (r: Result<Option<Page>>)
      modifies this`sent, this`answered, this`replies, this`solverAnswers, this`userReferer
      decreases |replies|
      ensures AttemptOutcome(old(replies), old(solverAnswers)) != Err(ConnectTimeout) ==>
                r == AttemptOutcome(old(replies), old(solverAnswers))
      ensures AttemptOutcome(old(replies), old(solverAnswers)) == Err(ConnectTimeout) ==>
                r == Ok(None) || r == Err(ConnectionError)
      ensures old(sent) <= sent && |sent| > |old(sent)|
      ensures sent[|old(sent)|] == Get(target, isScript, old(Referer(isScript)), isRetry)
      ensures Calls(sent[|old(sent)|..]) == if isRetry then [] else [target]
      ensures answered == old(answered) + if !isRetry && r.Ok? && r.value.Some? then [(target, r.value.value)] else []
      ensures |replies| <= |old(replies)| && (old(replies) != [] ==> |replies| < |old(replies)|)
    {
      var outcome := Attempt(target, isScript, isRetry);
      if outcome == Err(ConnectTimeout) {
        ghost var before := sent;
        var retried := Request(target, isScript, true);
        CallsExtend(before, sent, |old(sent)|);
        r := if retried.Err? then retried else Ok(None);
      } else {
        r := outcome;
      }
      if !isRetry && r.Ok? && r.value.Some? {
        answered := answered + [(target, r.value.value)];
      }
    }

    /** `_mmy_request`: a telemetry event, sent with the script headers; its
        response is dropped. */
    method MmyRequest(event: Telemetry) returns (st: Status)
      modifies this`sent, this`answered, this`replies, this`solverAnswers, this`userReferer
      ensures st.Failure? ==> st.error == ConnectionError
      ensures old(sent) <= sent && |sent| > |old(sent)|
      ensures sent[|old(sent)|] == Get(Mmy(event), true, scriptReferer, false)
      ensures Calls(sent[|old(sent)|..]) == [Mmy(event)]
      ensures old(answered) <= answered && UrlPages(answered[|old(answered)|..]) == []
    {
      var r := Request(Mmy(event), true, false);
      if r.Err? {
        st := Failure(r.error);
      } else {
        st := Success;
      }
      if r.Ok? && r.value.Some? {
        assert answered[|old(answered)|..] == [(Mmy(event), r.value.value)];
        UrlPagesOne((Mmy(event), r.value.value));
      } else {
        assert answered[|old(answered)|..] == [];
      }
    }

    // -------------------------------------------------------------------
    // Harvesting the catalog
    // -------------------------------------------------------------------

    /** The two telemetry events that follow catalog page `i`; after them the
        script referer names page `i`. */
    method PageTelemetry(i: nat) returns (st: Status)
      modifies this`sent, this`answered, this`replies, this`solverAnswers, this`userReferer,
               this`scriptReferer
      ensures old(sent) <= sent && old(answered) <= answered
      ensures UrlPages(answered[|old(answered)|..]) == []
      ensures st.Success? ==>
                Calls(sent[|old(sent)|..]) == [Mmy(GoodShow), Mmy(PageClicked(i))] &&
                scriptReferer == Some(CatalogPageUrl(baseUrl, i))
    {
      st := MmyRequest(GoodShow);
      ghost var s1, a1 := sent, answered;
      if st.Success? {
        st := MmyRequest(PageClicked(i));
        if st.Success? {
          scriptReferer := Some(CatalogPageUrl(baseUrl, i));
          CallsExtend(s1, sent, |old(sent)|);
        }
      }
      UrlPagesExtend(a1, answered, |old(answered)|);
    }

    /** A `_request` whose response is read: a missing response (`None`)
        raises `AttributeError` at `response.text`. */
    method Fetch(target: Target, isScript: bool) returns (r: Result<Page>)
      modifies this`sent, this`answered, this`replies, this`solverAnswers, this`userReferer
      ensures r.Err? ==> r.error == ConnectionError || r.error == AttributeError
      ensures r.Ok? ==> AttemptOutcome(old(replies), old(solverAnswers)) == Ok(Some(r.value))
      ensures old(sent) <= sent && |sent| > |old(sent)|
      ensures sent[|old(sent)|] == Get(target, isScript, old(Referer(isScript)), false)
      ensures Calls(sent[|old(sent)|..]) == [target]
      ensures answered == old(answered) + if r.Ok? then [(target, r.value)] else []
    {
      var response := Request(target, isScript, false);
      if response.Err? {
        r := Err(response.error);
      } else if response.value.None? {
        r := Err(AttributeError);
      } else {
        r := Ok(response.value.value);
      }
    }

    /** One turn of the page loop of `_parse_catalog_links`: page `i` as a
        lightweight script request whose feed links are appended, then the
        two telemetry events. */
    method HarvestPage(i: nat) returns (st: Status)
      modifies this`links, this`sent, this`answered, this`replies, this`solverAnswers, this`userReferer,
               this`scriptReferer
      ensures old(links) <= links && old(sent) <= sent && old(answered) <= answered
      ensures |sent| > |old(sent)| && sent[|old(sent)|] == Get(Url(PageUrl(baseUrl, i)), true, old(scriptReferer), false)
      ensures st.Success? ==>
                var got := UrlPages(answered[|old(answered)|..]);
                |got| == 1 && got[0].0 == PageUrl(baseUrl, i) && got[0].1.feed.Ok? &&
                links == old(links) + got[0].1.feed.value &&
                Calls(sent[|old(sent)|..]) == [Url(PageUrl(baseUrl, i)), Mmy(GoodShow), Mmy(PageClicked(i))] &&
                scriptReferer == Some(CatalogPageUrl(baseUrl, i))
    {
      var r := Fetch(Url(PageUrl(baseUrl, i)), true);
      if r.Err? {
        return Failure(r.error);
      }
      var page := r.value;
      if page.feed.Err? {
        return Failure(page.feed.error);
      }
      links := links + page.feed.value;
      ghost var s1, a1 := sent, answered;
      st := PageTelemetry(i);
      CallsThen(old(sent), s1, sent, Url(PageUrl(baseUrl, i)));
      PageThen(old(answered), a1, answered, PageUrl(baseUrl, i), page);
    }

    /** The page loop of `_parse_catalog_links`: pages 2 to `pages`, in
        ascending order. */
    method HarvestPages(pages: int) returns (st: Status)
      modifies this`links, this`sent, this`answered, this`replies, this`solverAnswers, this`userReferer,
               this`scriptReferer
      ensures old(links) <= links && old(sent) <= sent && old(answered) <= answered
      ensures st.Success? ==>
                var got := UrlPages(answered[|old(answered)|..]);
                Harvested(baseUrl, old(links), links, got, if pages < 2 then 0 else pages - 1) &&
                Calls(sent[|old(sent)|..]) == HarvestCalls(baseUrl, |got| + 1)
    {
      assert answered[|old(answered)|..] == [] && sent[|old(sent)|..] == [];
      var i := 2;
      while i <= pages
        invariant 2 <= i && (i <= pages + 1 || i == 2)
        invariant old(links) <= links && old(sent) <= sent && old(answered) <= answered
        invariant Calls(sent[|old(sent)|..]) == HarvestCalls(baseUrl, i - 1)
        invariant Harvested(baseUrl, old(links), links, UrlPages(answered[|old(answered)|..]), i - 2)
      {
        ghost var s0, a0, l0 := sent, answered, links;
        st := HarvestPage(i);
        if st.Failure? {
          return;
        }
        CallsExtend(s0, sent, |old(sent)|);
        UrlPagesExtend(a0, answered, |old(answered)|);
        HarvestStep(baseUrl, old(links), l0, UrlPages(a0[|old(answered)|..]), i - 2,
                    UrlPages(answered[|a0|..]));
        i := i + 1;
      }
      return Success;
    }

    /** `_parse_catalog_links`: the first catalog page with the user
        headers, whose links are appended and whose item count gives the
        number of pages; then pages 2 to that number. Nothing is
        deduplicated. */
    method ParseCatalogLinks() returns (st: Status)
      modifies this`links, this`sent, this`answered, this`replies, this`solverAnswers, this`userReferer,
               this`scriptReferer
      ensures old(links) <= links && old(sent) <= sent && old(answered) <= answered
      ensures |sent| > |old(sent)| && sent[|old(sent)|] == Get(Url(baseUrl), false, Some(old(userReferer)), false)
      ensures st.Success? ==>
                CatalogHarvested(baseUrl, old(links), links, UrlPages(answered[|old(answered)|..]),
                                 Calls(sent[|old(sent)|..]))
    {
      var r := Fetch(Url(baseUrl), false);
      if r.Err? {
        return Failure(r.error);
      }
      var first := r.value;
      links := links + first.hrefs;
      assert old(links) <= links;
      if first.itemsCount.Err? {
        return Failure(first.itemsCount.error);
      }
      var (_, pages) := NumberOfItems(first.itemsCount.value);
      ghost var s1, a1 := sent, answered;
      UrlPagesOne((Url(baseUrl), first));
      assert answered[|old(answered)|..] == [(Url(baseUrl), first)];
      st := HarvestPages(pages);
      CallsThen(old(sent), s1, sent, Url(baseUrl));
      UrlPagesExtend(a1, answered, |old(answered)|);
    }

    // -------------------------------------------------------------------
    // Visiting the items
    // -------------------------------------------------------------------

    /** The three telemetry events sent for a current item: the click with
        its position and the page's parameters, then the two view events. */
    method ItemEvents(i: nat, bullId: string, params: string) returns (st: Status)
      modifies this`sent, this`answered, this`replies, this`solverAnswers, this`userReferer
      ensures st.Failure? ==> st.error == ConnectionError
      ensures old(sent) <= sent && old(answered) <= answered
      ensures UrlPages(answered[|old(answered)|..]) == []
      ensures st.Success? ==>
                Calls(sent[|old(sent)|..]) == [Mmy(ItemClick(i + 1, bullId, params)), Mmy(SimilarExists), Mmy(AskVisible)]
    {
      st := MmyRequest(ItemClick(i + 1, bullId, params));
      if st.Failure? {
        return;
      }
      ghost var s1, a1 := sent, answered;
      st := MmyRequest(SimilarExists);
      if st.Failure? {
        UrlPagesExtend(a1, answered, |old(answered)|);
        return;
      }
      ghost var s2, a2 := sent, answered;
      st := MmyRequest(AskVisible);
      CallsExtend(s1, s2, |old(sent)|);
      CallsExtend(s2, sent, |old(sent)|);
      UrlPagesExtend(a1, a2, |old(answered)|);
      UrlPagesExtend(a2, answered, |old(answered)|);
    }

    /** The `match item_type` of the item loop: a TIRE page appends its
        tire, a DISK page its disk, any other page nothing; a record that
        cannot be read raises its error and nothing is appended. */
    method AppendRecord(page: Page) returns (st: Status)
      requires !Stale(page)
      modifies this`tires, this`disks
      ensures st.Success? <==> Recordable(page)
      ensures st.Success? ==> tires == old(tires) + PageTires(page) && disks == old(disks) + PageDisks(page)
      ensures st.Failure? ==> tires == old(tires) && disks == old(disks)
      ensures st.Failure? && Kind(page) == Some(TIRE) ==> page.tire == Err(st.error)
      ensures st.Failure? && Kind(page) == Some(DISK) ==> page.disk == Err(st.error)
    {
      match Kind(page) {
        case Some(TIRE) =>
          if page.tire.Err? {
            return Failure(page.tire.error);
          }
          tires := tires + [page.tire.value];
        case Some(DISK) =>
          if page.disk.Err? {
            return Failure(page.disk.error);
          }
          disks := disks + [page.disk.value];
        case None =>
      }
      return Success;
    }

    /** The random scroll: a coin is drawn, and on heads the scroll event
        is sent. */
    method Scroll() returns (st: Status)
      modifies this`coins, this`sent, this`answered, this`replies, this`solverAnswers, this`userReferer
      ensures coins == Rest(old(coins))
      ensures st.Failure? ==> st.error == ConnectionError
      ensures old(sent) <= sent && old(answered) <= answered
      ensures UrlPages(answered[|old(answered)|..]) == []
      ensures st.Success? ==> Calls(sent[|old(sent)|..]) == if NextCoin(old(coins)) then [Mmy(SimilarShow)] else []
    {
      var coin := NextCoin(coins);
      coins := Rest(coins);
      if coin {
        st := MmyRequest(SimilarShow);
      } else {
        st := Success;
      }
    }

    /** The part of an item visit after its parameters were read: the three
        telemetry events, the record, then the random scroll. */
    method ViewItem(i: nat, bullId: string, params: string, page: Page) returns (st: Status)
      requires !Stale(page)
      modifies this`tires, this`disks, this`coins, this`sent, this`answered, this`replies, this`solverAnswers,
               this`userReferer
      ensures old(sent) <= sent && old(answered) <= answered && old(tires) <= tires && old(disks) <= disks
      ensures UrlPages(answered[|old(answered)|..]) == []
      ensures st.Success? ==>
                Recordable(page) &&
                tires == old(tires) + PageTires(page) && disks == old(disks) + PageDisks(page) &&
                coins == Rest(old(coins)) &&
                Calls(sent[|old(sent)|..]) == ItemTelemetry(i, bullId, params, NextCoin(old(coins)))
    {
      st := ItemEvents(i, bullId, params);
      if st.Failure? {
        return;
      }
      ghost var s1, a1 := sent, answered;
      st := AppendRecord(page);
      if st.Failure? {
        return;
      }
      st := Scroll();
      CallsJoin(old(sent), s1, sent);
      PagesJoin(old(answered), a1, answered);
    }

    /** The request for the item at absolute position `i` and the reads of
        its response that come before the telemetry parameters. The user
        referer names the catalog page that lists the item and the script
        referer the item itself; the page is requested with the user
        headers. Then, in this order: an id-less link raises `TypeError` (a
        subscript of `None`), a missing response or breadcrumbs block
        `AttributeError`. */
    method OpenItem(i: nat, link: string) returns (r: Result<(string, Page)>)
      modifies this`sent, this`answered, this`replies, this`solverAnswers, this`userReferer, this`scriptReferer
      ensures old(sent) <= sent && old(answered) <= answered
      ensures |sent| > |old(sent)| &&
              sent[|old(sent)|] == Get(Url(ItemUrl(link)), false, Some(CatalogPageUrl(baseUrl, ItemPage(i))), false)
      ensures Calls(sent[|old(sent)|..]) == [Url(ItemUrl(link))]
      ensures scriptReferer == Some(joinUrl(baseUrl, link))
      ensures GetItemId(link).None? ==> r.Err?
      ensures r.Ok? ==>
                GetItemId(link) == Some(r.value.0) && r.value.1.breadcrumbs.Some? &&
                answered == old(answered) + [(Url(ItemUrl(link)), r.value.1)]
    {
      userReferer := CatalogPageUrl(baseUrl, ItemPage(i));
      scriptReferer := Some(joinUrl(baseUrl, link));
      var response := Request(Url(ItemUrl(link)), false, false);
      if response.Err? {
        return Err(response.error);
      }
      var bullId := GetItemId(link);
      if bullId.None? {
        return Err(TypeError);
      }
      if response.value.None? {
        return Err(AttributeError);
      }
      var page := response.value.value;
      if page.breadcrumbs.None? {
        return Err(AttributeError);
      }
      return Ok((bullId.value, page));
    }

    /** One turn of the item loop of `_parse_catalog_items`, for the link at
        absolute position `i`: the item is opened; a page without telemetry
        parameters is skipped, parameters `json.loads` refuses raise, and a
        current page is viewed. */
    method VisitItem(i: nat, link: string) returns (st: Status)
      modifies this`tires, this`disks, this`coins, this`sent, this`answered, this`replies, this`solverAnswers,
               this`userReferer, this`scriptReferer
      ensures old(sent) <= sent && old(answered) <= answered && old(tires) <= tires && old(disks) <= disks
      ensures |sent| > |old(sent)| &&
              sent[|old(sent)|] == Get(Url(ItemUrl(link)), false, Some(CatalogPageUrl(baseUrl, ItemPage(i))), false)
      ensures scriptReferer == Some(joinUrl(baseUrl, link))
      ensures GetItemId(link).None? ==> st.Failure?
      ensures st.Success? ==>
                var got := UrlPages(answered[|old(answered)|..]);
                |got| == 1 && got[0].0 == ItemUrl(link) &&
                VisitLogged(baseUrl, i, link, got[0].1, jsonDecodes, old(coins), coins, sent[|old(sent)|..]) &&
                tires == old(tires) + PageTires(got[0].1) && disks == old(disks) + PageDisks(got[0].1)
    {
      var r := OpenItem(i, link);
      if r.Err? {
        return Failure(r.error);
      }
      var (bullId, page) := r.value;
      ghost var s1, a1 := sent, answered;
      var params := GetItemParams(page.text, jsonDecodes);
      if params.Err? {
        if params.error != IndexError {
          return Failure(params.error);
        }
        PageThen(old(answered), a1, answered, ItemUrl(link), page);
        return Success;
      }
      st := ViewItem(i, bullId, params.value, page);
      CallsThen(old(sent), s1, sent, Url(ItemUrl(link)));
      PageThen(old(answered), a1, answered, ItemUrl(link), page);
    }

    /** One turn of the item loop of `_parse_catalog_items`: the link at
        `i` is visited, and the records and the log of the loop since the
        marks `s0`, `a0`, `t0`, `d0`, `c0` grow by that visit. */
    method NextItem(ghost s0: seq<Sent>, ghost a0: seq<(Target, Page)>, ghost t0: seq<Tire>, ghost d0: seq<Disk>,
                    ghost c0: seq<bool>, start: nat, i: nat, ghost cuts: seq<nat>, ghost trail: seq<seq<bool>>)
      returns (st: Status, ghost cuts': seq<nat>, ghost trail': seq<seq<bool>>)
      requires i < |links| && s0 <= sent && a0 <= answered && t0 <= tires && d0 <= disks
      requires ItemsLogged(baseUrl, links, start, UrlPages(answered[|a0|..]), jsonDecodes, cuts, trail, sent[|s0|..], c0, coins)
      requires ItemsRead(links, start, i, UrlPages(answered[|a0|..]), t0, tires, d0, disks)
      modifies this`tires, this`disks, this`coins, this`sent, this`answered, this`replies, this`solverAnswers,
               this`userReferer, this`scriptReferer
      ensures s0 <= sent && a0 <= answered && t0 <= tires && d0 <= disks
      ensures st.Success? ==>
                ItemsLogged(baseUrl, links, start, UrlPages(answered[|a0|..]), jsonDecodes, cuts', trail', sent[|s0|..], c0, coins) &&
                ItemsRead(links, start, i + 1, UrlPages(answered[|a0|..]), t0, tires, d0, disks)
    {
      ghost var s1, a1, t1, d1, c1 := sent, answered, tires, disks, coins;
      st := VisitItem(i, links[i]);
      cuts', trail' := cuts + [|s1[|s0|..]| + |sent[|s1|..]|], trail + [coins];
      if st.Success? {
        PagesJoin(a0, a1, answered);
        LogJoin(s0, s1, sent);
        ItemsLoopStep(baseUrl, links, start, i, UrlPages(a1[|a0|..]), jsonDecodes, t0, t1, d0, d1,
                      cuts, trail, s1[|s0|..], c0, c1, UrlPages(answered[|a1|..]), sent[|s1|..], coins);
      }
    }

    /** `_parse_catalog_items`: the links from the resume point on, in list
        order, each visited once with its absolute position; a `from_link`
        that was not harvested raises `ValueError` before any request. */
    method ParseCatalogItems() returns (st: Status, ghost cuts: seq<nat>, ghost trail: seq<seq<bool>>)
      modifies this`tires, this`disks, this`coins, this`sent, this`answered, this`replies, this`solverAnswers,
               this`userReferer, this`scriptReferer
      ensures old(sent) <= sent && old(answered) <= answered && old(tires) <= tires && old(disks) <= disks
      ensures ResumeIndex(links, fromLink).Err? ==>
                st == Failure(ValueError) && sent == old(sent) && tires == old(tires) && disks == old(disks)
      ensures st.Success? ==>
                var got := UrlPages(answered[|old(answered)|..]);
                ResumeIndex(links, fromLink).Ok? &&
                ItemsLogged(baseUrl, links, ResumeIndex(links, fromLink).value, got, jsonDecodes, cuts, trail,
                            sent[|old(sent)|..], old(coins), coins) &&
                ItemsRead(links, ResumeIndex(links, fromLink).value, |links|, got, old(tires), tires, old(disks), disks)
    {
      cuts, trail := [0], [coins];
      var start := ResumeIndex(links, fromLink);
      if start.Err? {
        return Failure(start.error), cuts, trail;
      }
      var i := start.value;
      assert answered[|old(answered)|..] == [] && sent[|old(sent)|..] == [];
      while i < |links|
        invariant start.value <= i <= |links|
        invariant old(sent) <= sent && old(answered) <= answered && old(tires) <= tires && old(disks) <= disks
        invariant ItemsLogged(baseUrl, links, start.value, UrlPages(answered[|old(answered)|..]), jsonDecodes,
                              cuts, trail, sent[|old(sent)|..], old(coins), coins)
        invariant ItemsRead(links, start.value, i, UrlPages(answered[|old(answered)|..]),
                            old(tires), tires, old(disks), disks)
      {
        st, cuts, trail := NextItem(old(sent), old(answered), old(tires), old(disks), old(coins), start.value, i, cuts, trail);
        if st.Failure? {
          return;
        }
        i := i + 1;
      }
      return Success, cuts, trail;
    }


    // -------------------------------------------------------------------
    // Checkpoints and output files
    // -------------------------------------------------------------------

    /** `_load_session_cookies_if_exists`: the stored jar is merged into the
        session's. */
    method LoadSessionCookiesIfExists() returns (st: Status)
      modifies this`cookies
      ensures LoadedCookies(files, old(cookies)).Ok? ==> st == Success && cookies == LoadedCookies(files, old(cookies)).value
      ensures LoadedCookies(files, old(cookies)).Err? ==>
                st == Failure(LoadedCookies(files, old(cookies)).error) && cookies == old(cookies)
    {
      if CookiesFile in files {
        match files[CookiesFile] {
          case CookieJar(jar) =>
            cookies := cookies + jar;
          case _ =>
            return Failure(UnpicklingError);
        }
      }
      return Success;
    }

    /** `_dump_session_cookies`: the jar is written into the checkpoint
        directory, which must exist. */
    method DumpSessionCookies() returns (st: Status)
      modifies this`files
      ensures !checkpointDir ==> st == Failure(FileNotFoundError) && files == old(files)
      ensures checkpointDir ==> st == Success && files == old(files)[CookiesFile := CookieJar(cookies)]
      ensures checkpointDir ==> LoadedCookies(files, map[]) == Ok(cookies)
    {
      if !checkpointDir {
        return Failure(FileNotFoundError);
      }
      files := files[CookiesFile := CookieJar(cookies)];
      CookiesCheckpointRoundTrip(old(files), cookies);
      return Success;
    }

    /** `_dump_catalog_links`: the checkpoint directory is created when
        missing, and the links are written only when there are any. */
    method DumpCatalogLinks()
      modifies this`files, this`checkpointDir
      ensures checkpointDir
      ensures files == DumpedLinks(old(files), links)
    {
      if !checkpointDir {
        checkpointDir := true;
      }
      if |links| > 0 {
        files := files[LinksFile := LinkList(links)];
      }
    }

    /** `_load_catalog_links`: the stored links replace the session's, and
        no request is made; without a links checkpoint the catalog is
        harvested and then dumped. */
    method LoadCatalogLinks() returns (st: Status)
      modifies this`links, this`files, this`checkpointDir, this`sent, this`answered, this`replies,
               this`solverAnswers, this`userReferer, this`scriptReferer
      ensures old(sent) <= sent && old(answered) <= answered
      ensures LoadedLinks(old(files)).Some? ==>
                sent == old(sent) && answered == old(answered) && files == old(files) &&
                checkpointDir == old(checkpointDir)
      ensures LoadedLinks(old(files)) == Some(Err(UnpicklingError)) ==>
                st == Failure(UnpicklingError) && links == old(links)
      ensures LoadedLinks(old(files)).Some? && LoadedLinks(old(files)).value.Ok? ==>
                st == Success && links == LoadedLinks(old(files)).value.value
      ensures LoadedLinks(old(files)).None? ==>
                old(links) <= links && |sent| > |old(sent)| &&
                sent[|old(sent)|] == Get(Url(baseUrl), false, Some(old(userReferer)), false)
      ensures LoadedLinks(old(files)).None? && st.Success? ==>
                CatalogHarvested(baseUrl, old(links), links, UrlPages(answered[|old(answered)|..]),
                                 Calls(sent[|old(sent)|..])) &&
                checkpointDir && files == DumpedLinks(old(files), links)
    {
      if LinksFile in files {
        match files[LinksFile] {
          case LinkList(ls) =>
            links := ls;
            return Success;
          case _ =>
            return Failure(UnpicklingError);
        }
      }
      st := ParseCatalogLinks();
      if st.Success? {
        DumpCatalogLinks();
      }
    }

    /** `_load_tires_from_tmp_if_exists`: a tires checkpoint replaces the
        session's tires. */
    method LoadTiresFromTmpIfExists() returns (st: Status)
      modifies this`tires
      ensures tires == Restored(files, TiresTmpFile, TireFromDict, old(tires))
      ensures st.Failure? <==>
                (Reload(files, TiresTmpFile, TireFromDict).Some? && Reload(files, TiresTmpFile, TireFromDict).value.Err?)
      ensures st.Failure? ==> Reload(files, TiresTmpFile, TireFromDict).value == Err(st.error)
    {
      match Reload(files, TiresTmpFile, TireFromDict) {
        case None =>
          st := Success;
        case Some(Ok(ts)) =>
          tires := ts;
          st := Success;
        case Some(Err(e)) =>
          st := Failure(e);
      }
    }

    /** `_load_disks_from_tmp_if_exists`: a disks checkpoint replaces the
        session's disks. */
    method LoadDisksFromTmpIfExists() returns (st: Status)
      modifies this`disks
      ensures disks == Restored(files, DisksTmpFile, DiskFromDict, old(disks))
      ensures st.Failure? <==>
                (Reload(files, DisksTmpFile, DiskFromDict).Some? && Reload(files, DisksTmpFile, DiskFromDict).value.Err?)
      ensures st.Failure? ==> Reload(files, DisksTmpFile, DiskFromDict).value == Err(st.error)
    {
      match Reload(files, DisksTmpFile, DiskFromDict) {
        case None =>
          st := Success;
        case Some(Ok(ds)) =>
          disks := ds;
          st := Success;
        case Some(Err(e)) =>
          st := Failure(e);
      }
    }

    /** `_dump_tires_to_tmp`: the tires, as dictionaries, into the
        checkpoint directory; the next session reloads them unchanged. */
    method DumpTiresToTmp() returns (st: Status)
      modifies this`files
      ensures !checkpointDir ==> st == Failure(FileNotFoundError) && files == old(files)
      ensures checkpointDir ==> st == Success && files == old(files)[TiresTmpFile := RecordDicts(TireDicts(tires))]
      ensures checkpointDir ==> Reload(files, TiresTmpFile, TireFromDict) == Some(Ok(tires))
    {
      if !checkpointDir {
        return Failure(FileNotFoundError);
      }
      files := files[TiresTmpFile := RecordDicts(TireDicts(tires))];
      TiresCheckpointRoundTrip(old(files), tires);
      return Success;
    }

    /** `_dump_disks_to_tmp`: the disks, as dictionaries, into the
        checkpoint directory; the next session reloads them unchanged. */
    method DumpDisksToTmp() returns (st: Status)
      modifies this`files
      ensures !checkpointDir ==> st == Failure(FileNotFoundError) && files == old(files)
      ensures checkpointDir ==> st == Success && files == old(files)[DisksTmpFile := RecordDicts(DiskDicts(disks))]
      ensures checkpointDir ==> Reload(files, DisksTmpFile, DiskFromDict) == Some(Ok(disks))
    {
      if !checkpointDir {
        return Failure(FileNotFoundError);
      }
      files := files[DisksTmpFile := RecordDicts(DiskDicts(disks))];
      DisksCheckpointRoundTrip(old(files), disks);
      return Success;
    }

    /** The writing loop of `_dump_tires` and `_dump_disks`: the header, each
        record's XML in list order, then the closing tag. The output
        directory is taken to exist. */
    method WriteDocument(p: Path, records: seq<string>)
      requires !InCheckpoint(p)
      modifies this`files
      ensures files == old(files)[p := Document(XmlDocument(records))]
    {
      var text := XmlHeader;
      var k := 0;
      while k < |records|
        invariant 0 <= k <= |records|
        invariant text == XmlHeader + ConcatAll(records[..k])
      {
        assert records[..k + 1][..k] == records[..k];
        text := text + records[k];
        k := k + 1;
      }
      assert records[..k] == records;
      files := files[p := Document(text + XmlFooter)];
    }

    /** `_dump_tires`. */
    method DumpTires()
      modifies this`files
      ensures files == old(files)[TiresXmlFile := Document(XmlDocument(TiresXml(tires)))]
    {
      WriteDocument(TiresXmlFile, TiresXml(tires));
    }

    /** `_dump_disks`. */
    method DumpDisks()
      modifies this`files
      ensures files == old(files)[DisksXmlFile := Document(XmlDocument(DisksXml(disks)))]
    {
      WriteDocument(DisksXmlFile, DisksXml(disks));
    }

    /** `os.rmdir` of the checkpoint directory: it must exist and be empty. */
    method RemoveCheckpointDir() returns (st: Status)
      modifies this`checkpointDir
      ensures !old(checkpointDir) ==> st == Failure(FileNotFoundError) && !checkpointDir
      ensures old(checkpointDir) && !CheckpointEmpty(files) ==> st == Failure(DirectoryNotEmpty) && checkpointDir
      ensures old(checkpointDir) && CheckpointEmpty(files) ==> st == Success && !checkpointDir
    {
      if !checkpointDir {
        return Failure(FileNotFoundError);
      }
      if !CheckpointEmpty(files) {
        return Failure(DirectoryNotEmpty);
      }
      checkpointDir := false;
      return Success;
    }

    // -------------------------------------------------------------------
    // The context manager
    // -------------------------------------------------------------------

    /** `__enter__`: cookies, then links, then disks, then tires; the first
        step that raises ends it, so the tires are restored only when
        everything else was. */
    method Enter() returns (st: Status)
      modifies this`cookies, this`links, this`files, this`checkpointDir, this`tires, this`disks, this`sent,
               this`answered, this`replies, this`solverAnswers, this`userReferer, this`scriptReferer
      ensures LoadedCookies(old(files), old(cookies)).Err? ==>
                st.Failure? && sent == old(sent) && links == old(links) && files == old(files) &&
                disks == old(disks)
      ensures LoadedCookies(old(files), old(cookies)).Ok? && LoadedLinks(old(files)).None? ==>
                |sent| > |old(sent)| && sent[|old(sent)|] == Get(Url(baseUrl), false, Some(old(userReferer)), false)
      ensures st.Failure? ==> tires == old(tires)
      ensures st.Success? ==>
                cookies == LoadedCookies(old(files), old(cookies)).value &&
                (LoadedLinks(old(files)).Some? ==>
                   LoadedLinks(old(files)).value.Ok? && links == LoadedLinks(old(files)).value.value &&
                   sent == old(sent) && files == old(files) && checkpointDir == old(checkpointDir)) &&
                disks == Restored(old(files), DisksTmpFile, DiskFromDict, old(disks)) &&
                tires == Restored(old(files), TiresTmpFile, TireFromDict, old(tires))
      ensures st.Success? && LoadedLinks(old(files)).None? ==>
                old(sent) <= sent && old(answered) <= answered &&
                CatalogHarvested(baseUrl, old(links), links, UrlPages(answered[|old(answered)|..]),
                                 Calls(sent[|old(sent)|..])) &&
                checkpointDir && files == DumpedLinks(old(files), links)
    {
      st := LoadSessionCookiesIfExists();
      if st.Success? {
        st := LoadCatalogLinks();
        if st.Success? {
          DumpKeepsRecords(old(files), links);
          st := LoadDisksFromTmpIfExists();
          if st.Success? {
            st := LoadTiresFromTmpIfExists();
          }
        }
      }
    }

    /** `__exit__`: the cookies are always dumped first. After an exception
        in the session the records go to the checkpoint; otherwise they are
        written as XML and the checkpoint directory is removed with
        `os.rmdir`, which fails as written, since the cookies were just
        written into it. */
    method Exit(raised: bool) returns (st: Status)
      modifies this`files, this`checkpointDir
      ensures !old(checkpointDir) ==> st == Failure(FileNotFoundError) && files == old(files) && !checkpointDir
      ensures old(checkpointDir) && raised ==>
                st == Success && checkpointDir &&
                files == old(files)[CookiesFile := CookieJar(cookies)]
                                   [DisksTmpFile := RecordDicts(DiskDicts(disks))]
                                   [TiresTmpFile := RecordDicts(TireDicts(tires))]
      ensures old(checkpointDir) && !raised ==>
                st == Failure(DirectoryNotEmpty) && checkpointDir &&
                files == old(files)[CookiesFile := CookieJar(cookies)]
                                   [DisksXmlFile := Document(XmlDocument(DisksXml(disks)))]
                                   [TiresXmlFile := Document(XmlDocument(TiresXml(tires)))]
    {
      st := DumpSessionCookies();
      if st.Failure? {
        return;
      }
      if raised {
        st := DumpDisksToTmp();
        st := DumpTiresToTmp();
      } else {
        DumpDisks();
        DumpTires();
        st := RemoveCheckpointDir();
      }
    }
  }
}

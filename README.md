# farpost-parser, modelled in Dafny

A model of the crawler in `ikalinenko/farpost-parser`. The crawler:

- reads a links table and a proxies table;
- pairs the k-th link with the k-th proxy;
- runs one crawl session per pair.

A session (the `Parser` class of `parser/parser.py`) goes through four stages:

1. It restores its checkpoint: cookies, then links, then disks, then tires.
2. It harvests the catalog's item links page by page, unless a links checkpoint exists.
3. It visits every item from an optional resume point. Each visit sends browser-like telemetry and appends at most one tire or disk record.
4. On exit it writes the records:
   - as XML documents after a normal end;
   - as checkpoint snapshots after an exception.

The record layer (`helpers/parse_html.py`) contains:

- the `Tire` and `Disk` records, with their dictionary and XML forms;
- the page-count arithmetic;
- the breadcrumb classification;
- item-id and telemetry-parameter extraction;
- the two small text cleaners.

Modules, one per source file:

| module | file | form |
|---|---|---|
| `Common` (`common.dfy`) | shared | `Option`, `Result`, the Python exceptions as the datatype `Exc`, decimal and substring helpers |
| `ParseHtml` (`parse_html.dfy`) | `helpers/parse_html.py` | datatypes and pure functions with lemmas |
| `LinkTable` (`link.dfy`) | `core/link.py` | a row function and the loading loop as a method |
| `ProxyTable` (`proxy.dfy`) | `core/proxy.py` | a row function and the loading loop as a method |
| `CrawlSession` (`parser.dfy`) | `parser/parser.py` | the class `Parser`, with the specification functions and lemmas it is proved against |
| `Entry` (`main.dfy`) | `main.py` | the id lookups, the pairing loop as a method, the command-line dispatch |

How the outside world is represented:

- **Parser state.** `Parser` holds, as mutable fields:
  - the three lists the crawler fills in place (`links`, `tires`, `disks`);
  - the `referer` entries of its two header dictionaries;
  - its cookie jar.
- **Outside world as fields.** What lies outside the process is also held in fields, so that every method's `modifies` and `ensures` say what it changes:
  - The files are a map from path to content (`files`). A flag records whether the checkpoint directory exists.
  - The network is the stream of replies it will give (`replies`). A reply is a page, a connect timeout or a refused connection. An exhausted stream refuses.
  - The captcha service is the stream of its answers (`solverAnswers`). `None` stands for a solver that raises.
  - `random.getrandbits(1)` is a stream of coins (`coins`).
- **Library calls as constants.** `json.loads` of the telemetry parameters and `urljoin` are function-valued constants of the session.
- **Ghost logs.** Two ghost logs record what the session did:
  - `sent` records every GET and POST on the wire, with its header set and referer.
  - `answered` records every response `_request` handed back.
- **Log views.** Two functions read the logs:
  - `Calls` lists the `_request` calls in order.
  - `UrlPages` lists the pages received, with their URLs.
- **Contracts.** The methods' contracts are stated through these functions and the ghost predicates `Harvested` and `ItemsRead`, about whole runs. Lemmas prove their properties.

## Model

| member | source | states |
|---|---|---|
| `ParseHtml.TireToDict` | helpers/parse_html.py:34-49 | The dictionary has exactly the thirteen camelCase tire keys, each bound to the field in the same position. |
| `ParseHtml.DiskToDict` | helpers/parse_html.py:102-116 | The dictionary has exactly the twelve disk keys, each bound to the field in the same position. |
| `ParseHtml.TireFromDict` | helpers/parse_html.py:51-67 | It succeeds iff every tire key is present. The fields are then the values of those keys, in order. Otherwise it gives `KeyError` for the first missing key in reading order. |
| `ParseHtml.DiskFromDict` | helpers/parse_html.py:118-133 | The same for disks: success iff every key is present, or `KeyError` for the first missing key. |
| `ParseHtml.TireDictRoundTrip` | helpers/parse_html.py:34-67 | `Tire.from_dict(t.__dict__()) == t` for every tire. |
| `ParseHtml.DiskDictRoundTrip` | helpers/parse_html.py:102-133 | `Disk.from_dict(d.__dict__()) == d` for every disk. |
| `ParseHtml.TireDictRoundTripBack` | helpers/parse_html.py:34-67 | Take a dictionary holding every tire key. Reading it and converting back gives exactly those keys with the same values. |
| `ParseHtml.DiskDictRoundTripBack` | helpers/parse_html.py:102-133 | The same for disks. |
| `ParseHtml.ElementsAppend` | helpers/parse_html.py:69-84 | The children of a record concatenate field by field. |
| `ParseHtml.TireXmlChild` | helpers/parse_html.py:69-84 | A tire's XML is `<Tire>`, then one child element per field in declaration order, then `</Tire>`. The `i`-th child is the `i`-th key around the raw rendered value. |
| `ParseHtml.DiskXmlChild` | helpers/parse_html.py:135-149 | The same for a disk, between `<Disk>` tags. |
| `ParseHtml.CeilPages` | helpers/parse_html.py:174 | `ceil(n / 50)` is a `p` with `50p >= n > 50(p - 1)`. |
| `ParseHtml.NumberOfItems` | helpers/parse_html.py:167-174 | It returns the count and the least page number `p` with `50p >= count`. For a non-negative count, that page number is 0 exactly when the count is 0. |
| `ParseHtml.ResolveItemType` | helpers/parse_html.py:177-188 | DISK iff `\nДиски\n` occurs. TIRE iff it does not occur and `\nШины\n` does. `None` iff neither occurs. |
| `ParseHtml.IdMatchEnd` | helpers/parse_html.py:194 | A match of `\d+.html` at a position is found whenever one exists, and it is the longest (greedy) one. |
| `ParseHtml.SearchId` | helpers/parse_html.py:194 | `re.search` reports the leftmost match with its greedy end. No match starts earlier, and `None` means no match at all. |
| `ParseHtml.GetItemId` | helpers/parse_html.py:191-196 | The result is `None` (the source then raises) iff the link has no match. Otherwise it is the first match without its last five characters, a non-empty run of digits. |
| `ParseHtml.FirstIdMatchUnique` | helpers/parse_html.py:194 | The first match is unique. |
| `ParseHtml.ItemIdOfLink` | helpers/parse_html.py:191-196 | Take a link of digit-free text, then an id, then `.html`, then anything. Its id reads back as that id. |
| `ParseHtml.SepEnd` | helpers/parse_html.py:202 | A `Number\(\d+\), ` match at a position is found whenever one exists, and its end is unique. |
| `ParseHtml.FindSep` | helpers/parse_html.py:202 | It finds the leftmost separator at or after a position, or reports that there is none. |
| `ParseHtml.FindSepIs` | helpers/parse_html.py:202 | A separator match with no match starting between `from` and it is the one found. |
| `ParseHtml.Piece` | helpers/parse_html.py:202 | The piece of `re.split` after a match ending at `e1` runs from `e1` to where the next match starts, or to the end of the text. |
| `ParseHtml.CutClose` | helpers/parse_html.py:203 | `re.split(r'\);', t)[0]` is the prefix of `t` up to its first `);`, or all of `t` without one. It holds no `);`. |
| `ParseHtml.ParamsStop` | helpers/parse_html.py:202-203 | From `e1` on, the parameters stop at the first position where a separator starts or `);` occurs, or at the end of the text. That is where the piece of `re.split`, cut at its first `);`, ends. |
| `ParseHtml.ParamsEndUnique` | helpers/parse_html.py:202-203 | That stopping point is unique. |
| `ParseHtml.ParamsText` | helpers/parse_html.py:199-203 | `IndexError` iff the text has no separator. Otherwise the text handed to `json.loads` runs from the end of the first separator to the `ParamsStop` after it, and contains no `);`. |
| `ParseHtml.ParamsBetween` | helpers/parse_html.py:202-203 | Given the first separator `s[a..e1]`, the text handed to `json.loads` is `s[e1..q]` iff `q` is where the parameters stop: no separator starts and no `);` occurs from `e1` up to `q`, and at `q` one of them does or the text ends. |
| `ParseHtml.ParamsOfScript` | helpers/parse_html.py:199-203 | Take a script `…Number(<digits>), <params>);…` with no separator before `Number(`, and params holding neither a separator start nor `);`. Its first separator ends right before the params, and the params stop at the `);`. By `ParamsBetween`, the text handed to `json.loads` is exactly the params. |
| `ParseHtml.GetItemParams` | helpers/parse_html.py:199-205 | It fails iff the slicing fails or `json.loads` refuses the piece. A refused piece gives `JsonDecodeError`. Otherwise it returns the piece. |
| `ParseHtml.RemoveChar` | helpers/parse_html.py:214 | `str.replace(c, '')` leaves no `c` and keeps every other character. |
| `ParseHtml.RemoveCharAppend` | helpers/parse_html.py:214 | Removing a character distributes over concatenation. |
| `ParseHtml.ProcessParsedString` | helpers/parse_html.py:208-214 | `None` stays `None`. A string comes out free of newline, tab and no-break space. |
| `ParseHtml.ProcessIsFilter` | helpers/parse_html.py:214 | The three `replace` calls keep exactly the other characters, in order. |
| `ParseHtml.ProcessIdempotent` | helpers/parse_html.py:208-214 | Cleaning twice is cleaning once. |
| `ParseHtml.FirstDigit` | helpers/parse_html.py:220 | It returns the leftmost digit at or after a position, or reports that there is none. |
| `ParseHtml.GetIntegerFromString` | helpers/parse_html.py:217-220 | The result is the value of the first maximal run of digits. `AttributeError` iff the string has no digit. |
| `ParseHtml.IntegerOfRendered` | helpers/parse_html.py:217-220 | A number written after digit-free text, and not followed by a digit, reads back as itself. |
| `LinkTable.RowLink` | core/link.py:23-24 | Id and URL come from the first two fields. `from_item` is `None` iff the third field is empty, and otherwise it is that field verbatim. |
| `LinkTable.RowError` | core/link.py:23-24 | A row with fewer than three fields raises `IndexError` at `row[2]`. A row with more than three raises `TypeError` in `Link(*row)`. |
| `LinkTable.DistinctIffNoCollapse` | core/link.py:27 | `len(ids) == len(set(ids))` holds iff no id repeats. |
| `LinkTable.TableLinks` | core/link.py:22-25 | There is one link per data row, in row order, the header excluded. |
| `LinkTable.LoadLinks` | core/link.py:13-29 | An empty table gives `StopIteration`. The first bad row raises its error. Otherwise the result succeeds iff the ids are distinct, and is then the rows' links in order; repeated ids fail the unique-id assertion. |
| `ProxyTable.RowProxy` | core/proxy.py:7-14 | The seven fields are assigned by position. |
| `ProxyTable.LoadProxies` | core/proxy.py:17-28 | An empty table gives `StopIteration`. The load succeeds iff every data row has seven fields, and then yields one proxy per row in order. Any other row gives `TypeError`. Ids are not checked. |
| `CrawlSession.AttemptOutcome` | parser/parser.py:262-269 | An attempt raises only a timeout or a connection error. A page comes back either unchallenged or as the POST's reply after a solved captcha. The result is `None` iff the page had a captcha and the solver raised. |
| `CrawlSession.PageUrlInjective` | parser/parser.py:303-304 | Different catalog pages are asked for by different URLs. |
| `CrawlSession.ItemPage` | parser/parser.py:357 | Zero-based item `i` lies on catalog page `ceil((i + 1) / 50)`: `50(p - 1) <= i < 50p`. |
| `CrawlSession.HarvestSize` | parser/parser.py:295-303 | The harvest reads one page when the count gives at most one page. Otherwise it reads as many pages as the count gives. |
| `CrawlSession.HarvestCalls` | parser/parser.py:303-334 | Pages 2 to n make three calls each. |
| `CrawlSession.HarvestCallsAt` | parser/parser.py:303-334 | Page `k` is requested at position `3(k - 2)`, followed by the `viewdir_ppc_good_show__in_0` and `page_clicked(k)` events. |
| `CrawlSession.HarvestStep` | parser/parser.py:303-314 | Reading page `n + 2` with its feed extends the harvest of `n` pages. |
| `CrawlSession.IndexOf` | parser/parser.py:348 | `list.index` gives the first position of the element, or `None` iff it is absent. |
| `CrawlSession.ResumeIndex` | parser/parser.py:347-356 | The loop starts at the first occurrence of a non-empty `from_link`, or at 0 without one. A `from_link` that was not harvested gives `ValueError`. |
| `CrawlSession.PageRecords` | parser/parser.py:402-413 | A current TIRE page adds exactly one tire, a DISK page exactly one disk, any other page nothing. No page adds both. |
| `CrawlSession.ItemRecordsBound` | parser/parser.py:356-413 | The records added number at most the pages visited. |
| `CrawlSession.ItemRecordsSnoc` | parser/parser.py:402-413 | One more visit appends its page's records at the end and leaves earlier ones in place. |
| `CrawlSession.ItemsReadStep` | parser/parser.py:356-432 | Visiting the link at `i` extends the loop state: one more page read in list order, with its records appended. |
| `CrawlSession.TiledStep` | parser/parser.py:356-432 | A log cut into one block per page read stays so cut when one more page and the block it appended are added: earlier blocks are untouched and the new one starts where the log ended. |
| `CrawlSession.ItemsLoggedStep` | parser/parser.py:356-432 | Visiting the link at the next absolute position extends the log of the item loop by that visit's block, its coins starting where the previous visit's stopped. |
| `CrawlSession.ItemsLoggedAt` | parser/parser.py:356-432 | In the log of the item loop, the `k`-th page read is the link at absolute position `start + k`. Its block opens with the item GET whose referer is the catalog page listing that position, and holds exactly that visit's calls. |
| `CrawlSession.ItemsLoopStep` | parser/parser.py:356-432 | One turn of the item loop extends both the record lists and the log by the page read at `i`. |
| `CrawlSession.AllOk` | parser/parser.py:156 | A list comprehension of a conversion succeeds iff every element converts, giving the converted elements in order. Otherwise it raises the first failure. |
| `CrawlSession.AllOkInverse` | parser/parser.py:156 | When every element converts to the matching element of a list, the comprehension gives that list. |
| `CrawlSession.TireDicts` | parser/parser.py:174 | Each tire is mapped to its dictionary, in order. |
| `CrawlSession.DiskDicts` | parser/parser.py:183 | Each disk is mapped to its dictionary, in order. |
| `CrawlSession.TireDictsRoundTrip` | parser/parser.py:148-175 | The dictionaries dumped from a tire list convert back to the same list. |
| `CrawlSession.DiskDictsRoundTrip` | parser/parser.py:158-184 | The dictionaries dumped from a disk list convert back to the same list. |
| `CrawlSession.TiresCheckpointRoundTrip` | parser/parser.py:148-175 | A tires checkpoint, once written, reloads as the same tires. |
| `CrawlSession.DisksCheckpointRoundTrip` | parser/parser.py:158-184 | A disks checkpoint, once written, reloads as the same disks. |
| `CrawlSession.CookiesCheckpointRoundTrip` | parser/parser.py:131-146 | A fresh session that loads a written cookie jar holds exactly that jar. |
| `CrawlSession.LinksCheckpointRoundTrip` | parser/parser.py:109-129 | A dumped non-empty link list is what the next session loads. An empty list writes nothing, so the next session harvests again. |
| `CrawlSession.ConcatAllAppend` | parser/parser.py:198-199 | Writing records one after another concatenates their texts. |
| `CrawlSession.XmlDocumentAt` | parser/parser.py:186-201 | Record `k` sits in the document right after the records before it. They all come between the header and `</products>`. |
| `CrawlSession.TiresXml` | parser/parser.py:198-199 | Each tire's `to_xml`, in list order. |
| `CrawlSession.DisksXml` | parser/parser.py:215-216 | Each disk's `to_xml`, in list order. |
| `CrawlSession.Parser.constructor` | parser/parser.py:38-88 | The session starts with empty lists, the socks5 proxy URL, the user referer at the catalog URL and no script referer. Its world holds checkpoint files only when the checkpoint directory exists. |
| `CrawlSession.Parser.SolveRecaptchaIfRecaptcha` | parser/parser.py:220-251 | Without both hidden inputs, the response comes back unchanged and nothing else changes. When the solver raises, the result is `None`. Otherwise the user referer becomes the page URL, one POST with `s`, `t` and the answer is sent, and its reply is the outcome. |
| `CrawlSession.Parser.Attempt` | parser/parser.py:262-269 | The outcome is `AttemptOutcome` of the streams. One GET is logged with the chosen header set's referer, followed by at most one POST. |
| `CrawlSession.Parser.Request` | parser/parser.py:253-272 | Without a timeout, the outcome is the attempt's. After a timeout, the repeat's response is dropped: the outcome is `None` or the repeat's connection error. Exactly one call is logged, and only a returned page is recorded as answered. |
| `CrawlSession.Parser.MmyRequest` | parser/parser.py:274-278 | The call is one telemetry call with the script headers. No page is recorded, and only a connection error escapes. |
| `CrawlSession.Parser.PageTelemetry` | parser/parser.py:316-336 | The `good_show` and `page_clicked(i)` events are sent. After them the script referer names page `i`. |
| `CrawlSession.Parser.Fetch` | parser/parser.py:286-293 | A `None` response raises `AttributeError`. A page is the attempt's page and is recorded as answered. |
| `CrawlSession.Parser.HarvestPage` | parser/parser.py:303-336 | Page `i` is requested as `base + "?_lightweight=1&ajax=1&async=1&city=0&page=i&status=actual"` with the script headers. Its feed links are appended, and the two events follow. |
| `CrawlSession.Parser.HarvestPages` | parser/parser.py:303-341 | Pages 2 to N are read in ascending order. The links grow by each page's feed, page after page, and the calls are `HarvestCalls`. |
| `CrawlSession.Parser.ParseCatalogLinks` | parser/parser.py:280-341 | The first page is read with the user headers and its links appended. Then pages 2 to `ceil(count / 50)` follow. The links are page 1's, then each later page's, in order, without deduplication. |
| `CrawlSession.Parser.ItemEvents` | parser/parser.py:383-400 | The events are the click with `searchPos = i + 1`, the item id and the page's parameters, then the two view events. A page whose parameters carry the keys `searchPos`, `bullId` or `action` is not distinguished (see "Left out"). |
| `CrawlSession.Parser.AppendRecord` | parser/parser.py:402-413 | It succeeds iff the page's record of its kind can be read. It appends exactly `PageTires` and `PageDisks`. On failure nothing is appended and the record's error is raised. |
| `CrawlSession.Parser.Scroll` | parser/parser.py:415-427 | One coin is drawn. The `similar_block_bottom__show` event is sent on heads only. |
| `CrawlSession.Parser.ViewItem` | parser/parser.py:383-427 | The telemetry of a current item is sent, its record appended and the scroll done. The calls are `ItemTelemetry`. |
| `CrawlSession.Parser.OpenItem` | parser/parser.py:357-369 | The user referer is `base + "?page=" + ceil((i + 1) / 50)` and the script referer is `urljoin(base, link)`. The item is fetched with the user headers. An id-less link fails, and a success carries the id and a page with breadcrumbs. |
| `CrawlSession.Parser.VisitItem` | parser/parser.py:356-432 | One item page is read, with the catalog page that lists position `i` as referer. A stale page is skipped after its request alone: no telemetry, no coin, no record. A current page has decodable parameters, then its telemetry with `searchPos = i + 1` (unless the parameters carry that key themselves, see "Left out"), one coin drawn, and its records appended. |
| `CrawlSession.Parser.NextItem` | parser/parser.py:356-432 | One turn of the item loop: after a normal visit of the link at `i`, the record lists and the log of the loop both hold one more visit, at position `i`. |
| `CrawlSession.Parser.ParseCatalogItems` | parser/parser.py:343-437 | An unknown `from_link` gives `ValueError` before any request. Otherwise every link from the resume point is visited once, in order. The `k`-th page read is the link at absolute position `start + k`, whose referer is the catalog page listing it. Its telemetry carries `searchPos = start + k + 1` (unless the page's parameters carry that key, see "Left out"), and a stale page has none. The log is these visits' blocks in order, each visit drawing its coins where the previous one stopped. The record lists grow by the visited pages' records. |
| `CrawlSession.Parser.LoadSessionCookiesIfExists` | parser/parser.py:131-140 | The stored jar is merged into the session's. A file that holds no jar raises. |
| `CrawlSession.Parser.DumpSessionCookies` | parser/parser.py:142-146 | The jar is written into the checkpoint directory, and a fresh session reloads it unchanged. Without the directory, `FileNotFoundError` is raised. |
| `CrawlSession.Parser.DumpCatalogLinks` | parser/parser.py:121-129 | The directory is created when missing. The links are written only when there are any. |
| `CrawlSession.Parser.LoadCatalogLinks` | parser/parser.py:109-119 | A links checkpoint replaces the links and no request is made. Without a checkpoint, the catalog is harvested and then dumped. A completed harvest appends page 1's links, then each later page's feed in page order, with exactly the calls `ParseCatalogLinks` makes. |
| `CrawlSession.Parser.LoadTiresFromTmpIfExists` | parser/parser.py:148-156 | A tires checkpoint replaces the tires. The load raises iff that checkpoint cannot be converted. |
| `CrawlSession.Parser.LoadDisksFromTmpIfExists` | parser/parser.py:158-166 | A disks checkpoint replaces the disks. The load raises iff that checkpoint cannot be converted. |
| `CrawlSession.Parser.DumpTiresToTmp` | parser/parser.py:168-175 | The tires are written as dictionaries, and the next session reloads them unchanged. |
| `CrawlSession.Parser.DumpDisksToTmp` | parser/parser.py:177-184 | The disks are written as dictionaries, and the next session reloads them unchanged. |
| `CrawlSession.Parser.WriteDocument` | parser/parser.py:191-201 | The loop writes the header, every record in order, then `</products>`. |
| `CrawlSession.Parser.DumpTires` | parser/parser.py:186-201 | The tires document is the header, every tire's XML in list order, then `</products>`. |
| `CrawlSession.Parser.DumpDisks` | parser/parser.py:203-218 | The disks document is the header, every disk's XML in list order, then `</products>`. |
| `CrawlSession.Parser.RemoveCheckpointDir` | parser/parser.py:107 | `os.rmdir` raises for a missing directory and for a non-empty one. It removes only an empty one. |
| `CrawlSession.Parser.Enter` | parser/parser.py:90-95 | State is restored in the order cookies, links, disks, tires. The first failure stops it, and tires are touched only when everything before succeeded. With a links checkpoint, a successful restore leaves the files and the checkpoint directory as they were. Without one, a successful restore has harvested the catalog as `ParseCatalogLinks` states: page 1's links, then each later page's feed, with its calls. The checkpoint directory then exists, and the files are the old ones with the links dumped. |
| `CrawlSession.Parser.Exit` | parser/parser.py:97-107 | The cookies are always dumped first. After an exception, the tmp disks and tires are written and no XML. Otherwise both XML files are written and `rmdir` then fails on the non-empty directory. |
| `Entry.IndicesOf` | main.py:24 | The filter keeps exactly the positions holding the id, in ascending order. |
| `Entry.ExactlyOne` | main.py:26 | `len(filtered) == 1` holds iff exactly one row has the id. |
| `Entry.FindLink` | main.py:24-27 | The lookup succeeds iff exactly one link has the id, and returns that link. Otherwise the assertion fails with the link message. |
| `Entry.FindProxy` | main.py:30-33 | The lookup succeeds iff exactly one proxy has the id. Otherwise the assertion fails, with a message that names the link id. |
| `Entry.LinkFound` | main.py:24-27 | With the unique ids the links table guarantees, every link is found by its own id. |
| `Entry.DuplicateProxyNotFound` | main.py:30-33 | A proxy whose id another row repeats is never found. |
| `Entry.WithOutcome` | main.py:36-40 | A `with` block ends normally iff its body and `__exit__` both do. An exception from `__exit__` replaces the body's. |
| `Entry.RunParser` | main.py:17-40 | The lookup errors come before any session is built. The session gets `_id=link_id`, `base_url=link.url`, `from_link=link.from_item` and the proxy's URL. The world it runs in holds checkpoint files only when the checkpoint directory exists. The call never ends normally. |
| `Entry.RunParsers` | main.py:43-53 | It fails iff there are fewer proxies than links. Otherwise there is one worker per link, the k-th getting `(links[k].id, proxies[k].id)`, and surplus proxies are unused. |
| `Entry.WorkersFindTheirLinks` | main.py:49-53 | Every worker started for a loaded links table finds its link. |
| `Entry.Dispatch` | main.py:71-77 | With both ids it runs one parser, and with neither it runs them all. With exactly one, it gives the usage message and exit status 1. |

## Where the code differs from its evident intent

The model follows the code in each of these places.

- **Timeout retry.** After a `ConnectTimeout`, `_request` (parser/parser.py:270-272) calls itself again but drops the result. Its other path returns the response (parser/parser.py:269), so the retry was evidently meant to return too. As written, the caller gets `None` and then fails on `response.text` with `AttributeError` (`CrawlSession.Parser.Request`, `CrawlSession.Parser.Fetch`).
- **Captcha.** `_solve_recaptcha_if_recaptcha` (parser/parser.py:220-251) makes one solver call. When the solver raises, the exception is logged and the method falls off its end, so `None` comes back (`CrawlSession.AttemptOutcome`). There is no retry, and the e-mail helper `helpers/send_email.py` is never imported by `parser/parser.py`.
- **Proxy ids.** `load_links` asserts that the link ids are unique (core/link.py:27). `load_proxies` (core/proxy.py:17-28) has no such check, although `main.py` looks up both tables (main.py:24-33) by id in the same way. `Entry.DuplicateProxyNotFound` shows the effect: a repeated proxy id is never found.
- **Checkpoint removal.** In `__exit__`, the success branch calls `os.rmdir` on the checkpoint directory (parser/parser.py:107). The cookie jar was written into that directory at the start of `__exit__` (parser/parser.py:98), so the directory is never empty and `rmdir` always raises. As a result, `Entry.RunParser` never ends normally: a session that completes still raises from `__exit__`.
- **Proxy message.** The proxy lookup's failure message names the link id instead of the proxy id (main.py:32).

## Left out

- **HTTP transport:** `requests` sessions, headers other than `referer`, proxies as a transport, user agents and redirects. A request is its target, its header set and its referer. Its answer comes from the `replies` stream.
- **Cookies set by responses:** not modelled. The jar changes only by loading a checkpoint.
- **BeautifulSoup lookups:** `get_links_from_html`, the `data-count` span, the hidden captcha inputs, the breadcrumbs `div` and the field extraction of `parse_tire` and `parse_disk` (helpers/parse_html.py:152-164, 223-347). Their results are fields of the abstract `Page`. A link element without `href`, which adds `None` to the list, is not represented.
- **`json.loads` and `response.json()['feed']`:** `json.loads` is a predicate on the parameter text. The feed links are a page field that may hold an error.
- **`float` price arithmetic in `parse_tire` and `parse_disk`:** this is floating point, and those functions are not part of this model.
- **Pacing and timestamps:** `time.sleep`, `random.randint`, `time.time` and the `_` timestamps of the telemetry queries. `urlencode` is not modelled either: an event stands for its query string.
- **Logging:** all log output.
- **Pickle:** the binary format. A file holds a typed value, and a file of the wrong kind reads as `UnpicklingError`.
- **Output directory:** the `output/` directory is assumed to exist.
- **Process mechanics and I/O:** `multiprocessing` start and join, `argparse` itself, `sys.exit`, stderr and reading the CSV files. The tables arrive as rows of fields. The two tables' file paths and the process-wide `LINKS` and `PROXIES` constants are not modelled.
- **Out-of-scope files:** `helpers/send_email.py` and `core/settings.py` are not part of this model.
- **XML escaping:** values are interpolated raw, and no well-formedness is claimed.
- **`Parser.run`:** it only calls `_parse_catalog_items` and is modelled by `CrawlSession.Parser.ParseCatalogItems`.
- CrawlSession.Parser.Request: after a timeout, the contract says only that the outcome is `None` or a connection error. It does not say which of the two.
- CrawlSession.Parser.Request: the model always ends, because the reply stream is finite. In the source, a server that times out forever makes `_request` call itself again and again (parser/parser.py:270-272), sleeping 5 seconds each time, until Python raises `RecursionError`.
- CrawlSession.Parser.ParseCatalogLinks: when it fails, the contract says only that the first GET was sent and that links, requests and pages only grew. The partial harvest is not described.
- CrawlSession.Parser.ParseCatalogItems: when a visit fails, the contract says only that the lists and logs grew. Which items were visited is stated for a completed loop only.
- CrawlSession.Parser.VisitItem: when it fails, the contract does not say which read raised, beyond the id-less link.
- CrawlSession.Parser.Enter: when it fails, the contract states the cookie-load case and that the tires are untouched. It does not describe the other partial restores.
- ParseHtml.GetItemParams: the result is the parameter text that `json.loads` accepts, not the decoded dictionary.
- ParseHtml.GetItemId: digits are the ASCII digits `0`-`9`. Python's `\d` also matches every other Unicode decimal digit.
- ParseHtml.FindSep: the same ASCII reading of `\d` as `ParseHtml.GetItemId`.
- ParseHtml.GetIntegerFromString: `\d` and `int` are read as ASCII digits only. Python accepts every Unicode decimal digit in both.
- ParseHtml.CeilPages: the model takes the exact integer ceiling of `n / 50`. `math.ceil(n / 50)` rounds the quotient to a double first. The two agree for every `|n| < 2^53`: a quotient that is not an integer lies at least 1/50 from every integer, and rounding moves it by at most half an ulp, at most 1/64 there. Beyond 2^53, `n` itself is no longer exact and the two can differ.
- CrawlSession.ItemPage: the same exact ceiling as `ParseHtml.CeilPages`, for `math.ceil((i + 1) / 50)`. It agrees with the double computation for every `i + 1 < 2^53`.
- CrawlSession.Parser.ItemEvents: the click event is modelled as the crawler's own fields plus the parameter text. In the source (parser/parser.py:371-378), the decoded parameters are merged last with `**`. A key `searchPos`, `bullId` or `action` in the page's JSON therefore overrides the crawler's value, and the model does not represent that. JSON that decodes to something other than an object raises an uncaught `TypeError` at that `**`. The model reports it as `JsonDecodeError`, which also ends the session.
- CrawlSession.HasCaptcha: a hidden input is present exactly when it has a `value`. The source tries the captcha whenever both inputs exist, even one without a `value`, which it then posts as `None` (parser/parser.py:226-227). The model cannot represent that case.
- CrawlSession.Parser.DumpCatalogLinks: creating the checkpoint directory always succeeds. `os.mkdir` (parser/parser.py:125) raises `FileNotFoundError` when `tmp/` itself is missing, and the model does not represent that.

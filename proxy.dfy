/**
 * core/proxy.py: the proxies table. As for the links table, the file and its
 * `;`-separated fields arrive as rows of fields, the header row first.
 */
module ProxyTable {
  import opened Common

  /** One proxy, its seven fields in the order of the table's columns. */
  datatype Proxy = Proxy(
    id: string,
    ip: string,
    portHttp: string,
    portSocks5: string,
    username: string,
    password: string,
    internalIp: string)

  function ProxyId(p: Proxy): string {
    p.id
  }

  /** The number of fields a proxy row must have. */
  const ProxyFields: nat := 7

  /** The proxy a seven-field row describes, field by field in column order. */
  function RowProxy(row: seq<string>): (p: Proxy)
    requires |row| == ProxyFields
    ensures [p.id, p.ip, p.portHttp, p.portSocks5, p.username, p.password, p.internalIp] == row
  {
    Proxy(row[0], row[1], row[2], row[3], row[4], row[5], row[6])
  }

  /** `load_proxies`: skips the header row and turns each data row into a
      proxy, in order. `Proxy(*row)` raises `TypeError` on the first row
      without exactly seven fields; an empty table makes the header skip
      raise `StopIteration`. Nothing checks that ids are unique: two rows
      with the same id give two proxies with that id. */
  method LoadProxies(table: seq<seq<string>>) returns (r: Result<seq<Proxy>>)
    ensures table == [] ==> r == Err(StopIteration)
    ensures r.Ok? <==> table != [] && forall i :: 1 <= i < |table| ==> |table[i]| == ProxyFields
    ensures r.Err? && table != [] ==> r.error == TypeError
    ensures r.Ok? ==> |r.value| == |table| - 1 &&
                      forall i :: 0 <= i < |r.value| ==> r.value[i] == RowProxy(table[i + 1])
  {
    if table == [] {
      return Err(StopIteration);
    }
    var proxies: seq<Proxy> := [];
    var n := 1;
    while n < |table|
      invariant 1 <= n <= |table|
      invariant |proxies| == n - 1
      invariant forall i :: 1 <= i < n ==> |table[i]| == ProxyFields && proxies[i - 1] == RowProxy(table[i])
    {
      var row := table[n];
      if |row| != ProxyFields {
        return Err(TypeError);
      }
      proxies := proxies + [Proxy(row[0], row[1], row[2], row[3], row[4], row[5], row[6])];
      n := n + 1;
    }
    return Ok(proxies);
  }
}

/**
 * The record and string layer of helpers/parse_html.py: the two record
 * kinds with their dictionary and XML forms, the page-count arithmetic,
 * breadcrumb classification, item-id and telemetry-parameter extraction, and
 * the two small text cleaners. The BeautifulSoup lookups are not modelled:
 * the functions here start from the text those lookups return.
 */
module ParseHtml {
  import opened Common

  /** The two kinds of catalog item the crawler keeps. */
  datatype ItemType = TIRE | DISK

  /** A record field as the extractor leaves it: a string, or Python's `None`. */
  type Field = Option<string>

  /** How an f-string interpolates a field: `None` prints as `None`. */
  function Render(f: Field): string {
    match f
    case Some(s) => s
    case None => "None"
  }

  // ---------------------------------------------------------------------
  // Records
  // ---------------------------------------------------------------------

  datatype Tire = Tire(
    title: Field,
    price: Field,
    theNumberOfTiresInAnIndivisibleSet: Field,
    totalSets: Field,
    tireYear: Field,
    tread: Field,
    productCondition: Field,
    landingDiameter: Field,
    profileWidth: Field,
    profileHeight: Field,
    frame: Field,
    availabilityOfGoods: Field,
    tireType: Field)

  datatype Disk = Disk(
    title: Field,
    price: Field,
    numberOfDiscsIncluded: Field,
    numberOfSets: Field,
    productCondition: Field,
    diameter: Field,
    discWidth: Field,
    departureEt: Field,
    drillingPcd: Field,
    typeOf: Field,
    chDiameterDia: Field,
    productAvailability: Field)

  /** The dictionary keys (and XML child tags) of a tire, in declaration order. */
  const TireKeys: seq<string> := [
    "title", "price", "theNumberOfTiresInAnIndivisibleSet", "totalSets", "tireYear",
    "tread", "productCondition", "landingDiameter", "profileWidth", "profileHeight",
    "frame", "availabilityOfGoods", "tireType"]

  /** The dictionary keys (and XML child tags) of a disk, in declaration order. */
  const DiskKeys: seq<string> := [
    "title", "price", "NumberOfDiscsIncluded", "NumberOfSets", "ProductCondition",
    "Diameter", "DiscWidth", "DepartureET", "DrillingPCD", "TypeOf", "CHDiameterDIA",
    "ProductAvailability"]

  /** A tire's field values in declaration order. */
  function TireValues(t: Tire): (vs: seq<Field>)
    ensures |vs| == |TireKeys|
  {
    [t.title, t.price, t.theNumberOfTiresInAnIndivisibleSet, t.totalSets, t.tireYear,
     t.tread, t.productCondition, t.landingDiameter, t.profileWidth, t.profileHeight,
     t.frame, t.availabilityOfGoods, t.tireType]
  }

  /** A disk's field values in declaration order. */
  function DiskValues(d: Disk): (vs: seq<Field>)
    ensures |vs| == |DiskKeys|
  {
    [d.title, d.price, d.numberOfDiscsIncluded, d.numberOfSets, d.productCondition,
     d.diameter, d.discWidth, d.departureEt, d.drillingPcd, d.typeOf, d.chDiameterDia,
     d.productAvailability]
  }

  /** The two key lists name every field once. */
  lemma KeysDistinct()
    ensures Distinct(TireKeys) && Distinct(DiskKeys)
  {
  }

  /** The dictionary that pairs each key with the value in the same position,
      as a Python dict display does. */
  function Zip(keys: seq<string>, values: seq<Field>): (m: map<string, Field>)
    requires |keys| == |values|
    ensures m.Keys == set k | k in keys
  {
    if keys == [] then map[]
    else
      var rest := Zip(keys[1..], values[1..]);
      assert forall k :: k in keys <==> k == keys[0] || k in keys[1..];
      rest[keys[0] := values[0]]
  }

  /** With distinct keys, each key of the display maps to its own value. */
  lemma {:induction false} ZipAt(keys: seq<string>, values: seq<Field>, i: nat)
    requires |keys| == |values| && Distinct(keys) && i < |keys|
    ensures Zip(keys, values)[keys[i]] == values[i]
  {
    if i > 0 {
      assert keys[1..][i - 1] == keys[i] && values[1..][i - 1] == values[i];
      ZipAt(keys[1..], values[1..], i - 1);
    }
  }

  /** The values `m` holds for `keys`, read in order. */
  function ValuesAt(m: map<string, Field>, keys: seq<string>): (vs: seq<Field>)
    requires forall k :: k in keys ==> k in m
    ensures |vs| == |keys| && forall i :: 0 <= i < |keys| ==> vs[i] == m[keys[i]]
  {
    seq(|keys|, i requires 0 <= i < |keys| => m[keys[i]])
  }

  /** `Tire.__dict__`: the camelCase dictionary of a tire. */
  function TireToDict(t: Tire): (m: map<string, Field>)
    ensures m.Keys == set k | k in TireKeys
    ensures forall i :: 0 <= i < |TireKeys| ==> m[TireKeys[i]] == TireValues(t)[i]
  {
    KeysDistinct();
    var m := Zip(TireKeys, TireValues(t));
    assert forall i :: 0 <= i < |TireKeys| ==> m[TireKeys[i]] == TireValues(t)[i] by {
      forall i | 0 <= i < |TireKeys| { ZipAt(TireKeys, TireValues(t), i); }
    }
    m
  }

  /** `Disk.__dict__`: the dictionary of a disk. */
  function DiskToDict(d: Disk): (m: map<string, Field>)
    ensures m.Keys == set k | k in DiskKeys
    ensures forall i :: 0 <= i < |DiskKeys| ==> m[DiskKeys[i]] == DiskValues(d)[i]
  {
    KeysDistinct();
    var m := Zip(DiskKeys, DiskValues(d));
    assert forall i :: 0 <= i < |DiskKeys| ==> m[DiskKeys[i]] == DiskValues(d)[i] by {
      forall i | 0 <= i < |DiskKeys| { ZipAt(DiskKeys, DiskValues(d), i); }
    }
    m
  }

  /** The tire whose fields, in declaration order, are `vs`. */
  function TireOf(vs: seq<Field>): (t: Tire)
    requires |vs| == |TireKeys|
    ensures TireValues(t) == vs
  {
    Tire(vs[0], vs[1], vs[2], vs[3], vs[4], vs[5], vs[6], vs[7], vs[8], vs[9], vs[10], vs[11], vs[12])
  }

  /** The disk whose fields, in declaration order, are `vs`. */
  function DiskOf(vs: seq<Field>): (d: Disk)
    requires |vs| == |DiskKeys|
    ensures DiskValues(d) == vs
  {
    Disk(vs[0], vs[1], vs[2], vs[3], vs[4], vs[5], vs[6], vs[7], vs[8], vs[9], vs[10], vs[11])
  }

  /** The position of the first of `keys` that `m` lacks, in the order the keys are read. */
  function FirstMissing(m: map<string, Field>, keys: seq<string>): (r: Option<nat>)
    ensures r.None? <==> forall k :: k in keys ==> k in m
    ensures r.Some? ==> r.value < |keys| && keys[r.value] !in m
    ensures r.Some? ==> forall j :: 0 <= j < r.value ==> keys[j] in m
  {
    if keys == [] then None
    else if keys[0] !in m then Some(0)
    else
      match FirstMissing(m, keys[1..])
      case None =>
        assert forall k :: k in keys && k != keys[0] ==> k in keys[1..];
        None
      case Some(i) =>
        assert keys[1..][i] == keys[i + 1];
        Some(i + 1)
  }

  /** `Tire.from_dict`: reads the keys in declaration order, raising `KeyError`
      on the first that is missing. */
  function TireFromDict(m: map<string, Field>): (r: Result<Tire>)
    ensures r.Ok? <==> forall k :: k in TireKeys ==> k in m
    ensures r.Ok? ==> forall i :: 0 <= i < |TireKeys| ==> TireValues(r.value)[i] == m[TireKeys[i]]
    ensures r.Err? ==> r.error.KeyError? && r.error.key in TireKeys && r.error.key !in m
    ensures r.Err? ==> exists i :: 0 <= i < |TireKeys| && TireKeys[i] == r.error.key &&
                          forall j :: 0 <= j < i ==> TireKeys[j] in m
  {
    match FirstMissing(m, TireKeys)
    case Some(i) => Err(KeyError(TireKeys[i]))
    case None => Ok(TireOf(ValuesAt(m, TireKeys)))
  }

  /** `Disk.from_dict`. */
  function DiskFromDict(m: map<string, Field>): (r: Result<Disk>)
    ensures r.Ok? <==> forall k :: k in DiskKeys ==> k in m
    ensures r.Ok? ==> forall i :: 0 <= i < |DiskKeys| ==> DiskValues(r.value)[i] == m[DiskKeys[i]]
    ensures r.Err? ==> r.error.KeyError? && r.error.key in DiskKeys && r.error.key !in m
    ensures r.Err? ==> exists i :: 0 <= i < |DiskKeys| && DiskKeys[i] == r.error.key &&
                          forall j :: 0 <= j < i ==> DiskKeys[j] in m
  {
    match FirstMissing(m, DiskKeys)
    case Some(i) => Err(KeyError(DiskKeys[i]))
    case None => Ok(DiskOf(ValuesAt(m, DiskKeys)))
  }

  /** `Tire.from_dict(t.__dict__()) == t`. */
  lemma TireDictRoundTrip(t: Tire)
    ensures TireFromDict(TireToDict(t)) == Ok(t)
  {
    var m := TireToDict(t);
    assert forall k :: k in TireKeys ==> k in m;
    assert ValuesAt(m, TireKeys) == TireValues(t);
  }

  /** `Disk.from_dict(d.__dict__()) == d`. */
  lemma DiskDictRoundTrip(d: Disk)
    ensures DiskFromDict(DiskToDict(d)) == Ok(d)
  {
    var m := DiskToDict(d);
    assert forall k :: k in DiskKeys ==> k in m;
    assert ValuesAt(m, DiskKeys) == DiskValues(d);
  }

  /** The other direction: from a dictionary holding every tire key,
      `from_dict` followed by `__dict__` gives back exactly those keys, each
      with the value it had. */
  lemma TireDictRoundTripBack(m: map<string, Field>)
    requires forall i :: 0 <= i < |TireKeys| ==> TireKeys[i] in m
    ensures TireFromDict(m).Ok?
    ensures TireToDict(TireFromDict(m).value).Keys == set k | k in TireKeys
    ensures forall i :: 0 <= i < |TireKeys| ==> TireToDict(TireFromDict(m).value)[TireKeys[i]] == m[TireKeys[i]]
  {
    var r := TireFromDict(m);
    assert forall i :: 0 <= i < |TireKeys| ==> TireValues(r.value)[i] == m[TireKeys[i]];
  }

  /** The other direction for disks. */
  lemma DiskDictRoundTripBack(m: map<string, Field>)
    requires forall i :: 0 <= i < |DiskKeys| ==> DiskKeys[i] in m
    ensures DiskFromDict(m).Ok?
    ensures DiskToDict(DiskFromDict(m).value).Keys == set k | k in DiskKeys
    ensures forall i :: 0 <= i < |DiskKeys| ==> DiskToDict(DiskFromDict(m).value)[DiskKeys[i]] == m[DiskKeys[i]]
  {
    var r := DiskFromDict(m);
    assert forall i :: 0 <= i < |DiskKeys| ==> DiskValues(r.value)[i] == m[DiskKeys[i]];
  }

  // ---------------------------------------------------------------------
  // XML rendering
  // ---------------------------------------------------------------------

  /** One child element as `to_xml` writes it: on its own line, twelve spaces
      in, the value interpolated raw (no escaping of `&` or `<`). */
  function Element(key: string, value: Field): string {
    "\n            <" + key + ">" + Render(value) + "</" + key + ">"
  }

  /** The child elements for `keys` and `values`, in order. */
  function Elements(keys: seq<string>, values: seq<Field>): string
    requires |keys| == |values|
  {
    if keys == [] then "" else Element(keys[0], values[0]) + Elements(keys[1..], values[1..])
  }

  /** The layout of both `to_xml` templates: the opening tag, one child per
      field, the closing tag eight spaces in on a line of its own. */
  function RecordXml(tag: string, keys: seq<string>, values: seq<Field>): string
    requires |keys| == |values|
  {
    "<" + tag + ">" + Elements(keys, values) + "\n        </" + tag + ">"
  }

  /** `Tire.to_xml`. */
  function TireToXml(t: Tire): string {
    RecordXml("Tire", TireKeys, TireValues(t))
  }

  /** `Disk.to_xml`. */
  function DiskToXml(d: Disk): string {
    RecordXml("Disk", DiskKeys, DiskValues(d))
  }

  lemma {:induction false} ElementsAppend(k1: seq<string>, v1: seq<Field>, k2: seq<string>, v2: seq<Field>)
    requires |k1| == |v1| && |k2| == |v2|
    ensures Elements(k1 + k2, v1 + v2) == Elements(k1, v1) + Elements(k2, v2)
  {
    if k1 == [] {
      assert k1 + k2 == k2 && v1 + v2 == v2;
    } else {
      assert (k1 + k2)[0] == k1[0] && (v1 + v2)[0] == v1[0];
      assert (k1 + k2)[1..] == k1[1..] + k2 && (v1 + v2)[1..] == v1[1..] + v2;
      ElementsAppend(k1[1..], v1[1..], k2, v2);
    }
  }

  /** The children of a record split around the `i`-th one. */
  lemma ElementsAt(keys: seq<string>, values: seq<Field>, i: nat)
    requires |keys| == |values| && i < |keys|
    ensures Elements(keys, values) ==
            Elements(keys[..i], values[..i]) + Element(keys[i], values[i]) +
            Elements(keys[i + 1..], values[i + 1..])
  {
    assert keys == keys[..i] + keys[i..] && values == values[..i] + values[i..];
    ElementsAppend(keys[..i], values[..i], keys[i..], values[i..]);
    assert keys[i..][1..] == keys[i + 1..] && values[i..][1..] == values[i + 1..];
    var a, b, c := Elements(keys[..i], values[..i]), Element(keys[i], values[i]), Elements(keys[i + 1..], values[i + 1..]);
    assert Elements(keys[i..], values[i..]) == b + c;
    assert a + (b + c) == a + b + c;
  }

  /** A tire's XML is its children between the `<Tire>` tags, and the `i`-th
      child element is named by the `i`-th dictionary key and carries that
      key's dictionary value. */
  lemma TireXmlChild(t: Tire, i: nat)
    requires i < |TireKeys|
    ensures Elements(TireKeys, TireValues(t)) ==
            Elements(TireKeys[..i], TireValues(t)[..i]) +
            Element(TireKeys[i], TireToDict(t)[TireKeys[i]]) +
            Elements(TireKeys[i + 1..], TireValues(t)[i + 1..])
  {
    var vs := TireValues(t);
    ElementsAt(TireKeys, vs, i);
    assert TireToDict(t)[TireKeys[i]] == vs[i];
  }

  /** The same for a disk. */
  lemma DiskXmlChild(d: Disk, i: nat)
    requires i < |DiskKeys|
    ensures Elements(DiskKeys, DiskValues(d)) ==
            Elements(DiskKeys[..i], DiskValues(d)[..i]) +
            Element(DiskKeys[i], DiskToDict(d)[DiskKeys[i]]) +
            Elements(DiskKeys[i + 1..], DiskValues(d)[i + 1..])
  {
    var vs := DiskValues(d);
    ElementsAt(DiskKeys, vs, i);
    assert DiskToDict(d)[DiskKeys[i]] == vs[i];
  }

  // ---------------------------------------------------------------------
  // Page count and breadcrumbs
  // ---------------------------------------------------------------------

  /** Items per catalog page. */
  const PageSize: int := 50

  /** The exact integer ceiling of `n / 50`, written `-((-n) // 50)` with
      Dafny's division by a positive constant, which floors as Python's `//`
      does. `math.ceil(n / 50)` rounds the quotient to a double first and
      still agrees with it for every `|n| < 2^53`: a quotient that is not an
      integer lies at least 1/50 from every integer, farther than the half
      ulp (at most 1/64 there) that rounding may move it. */
  function CeilPages(n: int): (p: int)
    ensures PageSize * p >= n && PageSize * (p - 1) < n
  {
    -((-n) / PageSize)
  }

  /** The arithmetic of `get_number_of_items` on the item count read from the
      page: the count and the least number of 50-item pages that hold it. */
  function NumberOfItems(count: int): (r: (int, int))
    ensures r.0 == count
    ensures PageSize * r.1 >= count
    ensures forall p :: PageSize * p >= count ==> r.1 <= p
    ensures count >= 0 ==> (r.1 == 0 <==> count == 0)
  {
    (count, CeilPages(count))
  }

  /** The breadcrumb word for wheel disks, with the newlines around it. */
  const DiskCrumb: string := "\nДиски\n"

  /** The breadcrumb word for tires, with the newlines around it. */
  const TireCrumb: string := "\nШины\n"

  /** `resolve_item_type` on the text of the breadcrumbs block: DISK is
      checked first, so it wins when both words appear. */
  function ResolveItemType(breadcrumbs: string): (r: Option<ItemType>)
    ensures r == Some(DISK) <==> exists i :: OccursAt(breadcrumbs, DiskCrumb, i)
    ensures r == Some(TIRE) <==> (forall i :: !OccursAt(breadcrumbs, DiskCrumb, i)) &&
                                 exists i :: OccursAt(breadcrumbs, TireCrumb, i)
    ensures r == None <==> (forall i :: !OccursAt(breadcrumbs, DiskCrumb, i)) &&
                           (forall i :: !OccursAt(breadcrumbs, TireCrumb, i))
  {
    if Contains(breadcrumbs, DiskCrumb) then Some(DISK)
    else if Contains(breadcrumbs, TireCrumb) then Some(TIRE)
    else None
  }

  // ---------------------------------------------------------------------
  // Digit runs
  // ---------------------------------------------------------------------

  /** The end of the maximal run of ASCII digits that starts at `i`. */
  function DigitRunEnd(s: string, i: nat): (j: nat)
    requires i <= |s|
    decreases |s| - i
    ensures i <= j <= |s|
    ensures forall k :: i <= k < j ==> IsDigit(s[k])
    ensures j < |s| ==> !IsDigit(s[j])
  {
    if i < |s| && IsDigit(s[i]) then DigitRunEnd(s, i + 1) else i
  }

  /** Every maximal run is the one `DigitRunEnd` finds. */
  lemma DigitRunEndUnique(s: string, i: nat, j: nat)
    requires i <= j <= |s|
    requires forall k :: i <= k < j ==> IsDigit(s[k])
    requires j < |s| ==> !IsDigit(s[j])
    ensures DigitRunEnd(s, i) == j
  {
  }

  // ---------------------------------------------------------------------
  // Item id: the pattern `\d+.html`
  // ---------------------------------------------------------------------

  /** `\d+.html` matches `s[i..e]`: a non-empty run of digits, one character
      other than a newline (what `.` matches), then `html`. */
  predicate IdMatch(s: string, i: int, e: int) {
    0 <= i && i + 6 <= e <= |s| &&
    (forall k :: i <= k < e - 5 ==> IsDigit(s[k])) &&
    s[e - 5] != '\n' && s[e - 4..e] == "html"
  }

  /** The match Python's `re.search` reports: it starts leftmost and, as `\d+`
      is greedy, is the longest of the matches that start there. */
  ghost predicate FirstIdMatch(s: string, a: int, e: int) {
    IdMatch(s, a, e) &&
    (forall a', e' :: 0 <= a' < a ==> !IdMatch(s, a', e')) &&
    (forall e' :: IdMatch(s, a, e') ==> e' <= e)
  }

  /** A match starting at `i` ends four or five characters past the digit run:
      `.` takes either the character after the run or, by backtracking, the
      run's last digit. */
  lemma IdMatchShape(s: string, i: nat, e: int)
    ensures IdMatch(s, i, e) ==> e == DigitRunEnd(s, i) + 5 || e == DigitRunEnd(s, i) + 4
  {
    if IdMatch(s, i, e) {
      assert s[e - 4] == s[e - 4..e][0] == 'h';
    }
  }

  /** The greedy end of a match starting at `i`, if there is one. */
  function IdMatchEnd(s: string, i: nat): (r: Option<int>)
    requires i <= |s|
    ensures r.Some? ==> IdMatch(s, i, r.value) && forall e :: IdMatch(s, i, e) ==> e <= r.value
    ensures r.None? ==> forall e :: !IdMatch(s, i, e)
  {
    var j := DigitRunEnd(s, i);
    if j > i && j + 5 <= |s| && s[j] != '\n' && s[j + 1..j + 5] == "html" then
      assert forall e :: IdMatch(s, i, e) ==> e <= j + 5 by {
        forall e { IdMatchShape(s, i, e); }
      }
      Some(j + 5)
    else if j >= i + 2 && j + 4 <= |s| && s[j..j + 4] == "html" then
      assert forall e :: IdMatch(s, i, e) ==> e <= j + 4 by {
        forall e { IdMatchShape(s, i, e); }
      }
      Some(j + 4)
    else
      assert forall e :: !IdMatch(s, i, e) by {
        forall e { IdMatchShape(s, i, e); }
      }
      None
  }

  /** The leftmost match starting at or after `from`, with its greedy end. */
  function SearchId(s: string, from: nat): (r: Option<(int, int)>)
    requires from <= |s|
    decreases |s| - from
    ensures r.Some? ==> from <= r.value.0 && IdMatch(s, r.value.0, r.value.1)
    ensures r.Some? ==> forall e :: IdMatch(s, r.value.0, e) ==> e <= r.value.1
    ensures r.Some? ==> forall a, e :: from <= a < r.value.0 ==> !IdMatch(s, a, e)
    ensures r.None? ==> forall a, e :: from <= a ==> !IdMatch(s, a, e)
  {
    match IdMatchEnd(s, from)
    case Some(e) => Some((from, e))
    case None => if from == |s| then None else SearchId(s, from + 1)
  }

  /** `get_item_id`: the first match of `\d+.html` in the link without its last
      five characters; `None` where Python subscripts the `None` that
      `re.search` returns and raises `TypeError`. */
  function GetItemId(link: string): (r: Option<string>)
    ensures r.None? <==> forall a, e :: !IdMatch(link, a, e)
    ensures r.Some? ==> exists a, e :: FirstIdMatch(link, a, e) && r.value == link[a..e - 5]
    ensures r.Some? ==> r.value != [] && AllDigits(r.value)
    ensures forall a, e :: FirstIdMatch(link, a, e) ==> r == Some(link[a..e - 5])
  {
    match SearchId(link, 0)
    case None => None
    case Some((a, e)) =>
      assert FirstIdMatch(link, a, e);
      assert forall a', e' :: FirstIdMatch(link, a', e') ==> a' == a && e' == e by {
        forall a', e' | FirstIdMatch(link, a', e') ensures a' == a && e' == e {
          FirstIdMatchUnique(link, a, e, a', e');
        }
      }
      // the matched text `link[a..e]` without its last five characters
      Some(link[a..e - 5])
  }

  /** In a link made of a digit-free prefix, a run of digits, `.html` and
      anything after, the first match is the digits with `.html`. */
  lemma FirstIdMatchOfLink(prefix: string, id: string, suffix: string)
    requires forall k :: 0 <= k < |prefix| ==> !IsDigit(prefix[k])
    requires id != [] && AllDigits(id)
    ensures FirstIdMatch(prefix + id + ".html" + suffix, |prefix|, |prefix| + |id| + 5)
  {
    var link := prefix + id + ".html" + suffix;
    var p, j := |prefix|, |prefix| + |id|;
    assert forall k :: 0 <= k < p ==> link[k] == prefix[k];
    assert forall k :: p <= k < j ==> link[k] == id[k - p];
    assert link[j] == '.' && link[j + 1..j + 5] == "html";
    assert IdMatch(link, p, j + 5);
    forall a, e | 0 <= a < p ensures !IdMatch(link, a, e) {
      assert !IsDigit(link[a]);
    }
    DigitRunEndUnique(link, p, j);
    forall e { IdMatchShape(link, p, e); }
  }

  /** There is one first match. */
  lemma FirstIdMatchUnique(s: string, a: int, e: int, a': int, e': int)
    requires FirstIdMatch(s, a, e) && FirstIdMatch(s, a', e')
    ensures a == a' && e == e'
  {
  }

  /** The id written into a link is the id read back from it: in a link made
      of a digit-free prefix, the id, `.html` and anything after. */
  lemma ItemIdOfLink(prefix: string, id: string, suffix: string)
    requires forall k :: 0 <= k < |prefix| ==> !IsDigit(prefix[k])
    requires id != [] && AllDigits(id)
    ensures GetItemId(prefix + id + ".html" + suffix) == Some(id)
  {
    var link := prefix + id + ".html" + suffix;
    var p, j := |prefix|, |prefix| + |id|;
    FirstIdMatchOfLink(prefix, id, suffix);
    assert link[p..j] == id;
  }

  // ---------------------------------------------------------------------
  // Telemetry parameters: splitting at `Number\(\d+\), ` and at `\);`
  // ---------------------------------------------------------------------

  /** `Number\(\d+\), ` matches `s[i..e]`: `Number(`, a non-empty run of
      digits, then `), `. */
  predicate SepMatch(s: string, i: int, e: int) {
    0 <= i && i + 11 <= e <= |s| &&
    s[i..i + 7] == "Number(" &&
    (forall k :: i + 7 <= k < e - 3 ==> IsDigit(s[k])) &&
    s[e - 3..e] == "), "
  }

  /** A separator match starting at `i` ends three characters past the digit
      run after `Number(`: a closing parenthesis cannot be a digit. */
  lemma SepMatchShape(s: string, i: nat, e: int)
    ensures SepMatch(s, i, e) ==> e == DigitRunEnd(s, i + 7) + 3
  {
    if SepMatch(s, i, e) {
      assert s[e - 3] == s[e - 3..e][0];
      DigitRunEndUnique(s, i + 7, e - 3);
    }
  }

  /** What a separator match is made of, character by character: an `N` at
      its start, `),` right after its digits, and no closing parenthesis
      before that. */
  lemma SepMatchChars(s: string, a: int, e: int)
    ensures SepMatch(s, a, e) ==>
              s[a] == 'N' && s[e - 3] == ')' && s[e - 2] == ',' &&
              forall k :: a <= k < e - 3 ==> s[k] != ')'
  {
    if SepMatch(s, a, e) {
      var head := s[a..a + 7];
      assert head == "Number(";
      assert s[e - 3] == s[e - 3..e][0] && s[e - 2] == s[e - 3..e][1];
      assert forall k :: a <= k < a + 7 ==> s[k] == head[k - a];
    }
  }

  /** The end of the separator match starting at `i`, if there is one. */
  function SepEnd(s: string, i: nat): (r: Option<int>)
    requires i <= |s|
    ensures r.Some? ==> SepMatch(s, i, r.value) && forall e :: SepMatch(s, i, e) ==> e == r.value
    ensures r.None? ==> forall e :: !SepMatch(s, i, e)
  {
    if i + 7 <= |s| && s[i..i + 7] == "Number(" then
      var j := DigitRunEnd(s, i + 7);
      if j > i + 7 && j + 3 <= |s| && s[j..j + 3] == "), " then
        assert forall e :: SepMatch(s, i, e) ==> e == j + 3 by {
          forall e { SepMatchShape(s, i, e); }
        }
        Some(j + 3)
      else
        assert forall e :: !SepMatch(s, i, e) by {
          forall e { SepMatchShape(s, i, e); }
        }
        None
    else
      None
  }

  /** The match `re.split` cuts at first: the leftmost one (a start fixes
      the end, see `SepEnd`). */
  ghost predicate FirstSepMatch(s: string, a: int, e: int) {
    SepMatch(s, a, e) && forall a', e' :: 0 <= a' < a ==> !SepMatch(s, a', e')
  }

  /** The leftmost separator match starting at or after `from`. */
  function FindSep(s: string, from: nat): (r: Option<(int, int)>)
    requires from <= |s|
    decreases |s| - from
    ensures r.Some? ==> from <= r.value.0 && SepMatch(s, r.value.0, r.value.1)
    ensures r.Some? ==> forall a, e :: from <= a < r.value.0 ==> !SepMatch(s, a, e)
    ensures r.None? ==> forall a, e :: from <= a ==> !SepMatch(s, a, e)
  {
    match SepEnd(s, from)
    case Some(e) => Some((from, e))
    case None => if from == |s| then None else FindSep(s, from + 1)
  }

  /** A prefix that stops at the first occurrence of `pat` holds none. */
  lemma NoOccurrenceBefore(s: string, pat: string, c: nat)
    requires pat != [] && c <= |s| && forall j :: 0 <= j < c ==> !OccursAt(s, pat, j)
    ensures forall j :: !OccursAt(s[..c], pat, j)
  {
    forall j ensures !OccursAt(s[..c], pat, j) {
      if 0 <= j && j + |pat| <= c {
        assert !OccursAt(s, pat, j);
        assert s[..c][j..j + |pat|] == s[j..j + |pat|];
      }
    }
  }

  /** A separator match with none before it, from `from` on, is the one
      `FindSep` finds. */
  lemma FindSepIs(s: string, from: nat, a: nat, e: int)
    requires from <= a && SepMatch(s, a, e)
    requires forall a', e' :: from <= a' < a ==> !SepMatch(s, a', e')
    ensures FindSep(s, from) == Some((a, e))
  {
    var r := FindSep(s, from);
    assert r.Some? && r.value.0 == a;
    SepMatchShape(s, a, e);
    SepMatchShape(s, a, r.value.1);
  }

  /** Where the piece of `re.split` that starts at `e1` ends: at the start
      of the next separator match, or at the end of the text. */
  ghost predicate PieceEnd(s: string, e1: int, c: int) {
    0 <= e1 <= c <= |s| &&
    (forall a, e :: e1 <= a < c ==> !SepMatch(s, a, e)) &&
    (c == |s| || exists e :: SepMatch(s, c, e))
  }

  /** Where the parameters after a separator ending at `e1` stop: at the
      first position from `e1` on where another separator starts or `);`
      occurs, or at the end of the text. */
  ghost predicate ParamsEnd(s: string, e1: int, c: int) {
    0 <= e1 <= c <= |s| &&
    (forall a, e :: e1 <= a < c ==> !SepMatch(s, a, e)) &&
    (forall k :: e1 <= k < c ==> !OccursAt(s, ");", k)) &&
    (c == |s| || (exists e :: SepMatch(s, c, e)) || OccursAt(s, ");", c))
  }

  /** The stopping point of the parameters is unique. */
  lemma ParamsEndUnique(s: string, e1: int, c: int, c': int)
    requires ParamsEnd(s, e1, c) && ParamsEnd(s, e1, c')
    ensures c == c'
  {
    if c < |s| {
      var e :| SepMatch(s, c, e) || OccursAt(s, ");", c);
    }
    if c' < |s| {
      var e :| SepMatch(s, c', e) || OccursAt(s, ");", c');
    }
  }

  /** The piece of `re.split` that starts at `e1`, the end of a match: up to
      the start of the next match, or to the end of the text. */
  function Piece(s: string, e1: nat): (r: string)
    requires e1 <= |s|
    ensures e1 + |r| <= |s| && r == s[e1..e1 + |r|]
    ensures PieceEnd(s, e1, e1 + |r|)
  {
    match FindSep(s, e1)
    case None => s[e1..]
    case Some((a2, _)) => s[e1..a2]
  }

  /** `);` occurs at `j` iff the two characters there are `)` and `;`. */
  lemma CloseAt(t: string, j: nat)
    requires j + 2 <= |t|
    ensures OccursAt(t, ");", j) <==> t[j] == ')' && t[j + 1] == ';'
  {
    assert t[j] == t[j..j + 2][0] && t[j + 1] == t[j..j + 2][1];
  }

  /** A `);` in the text from `e1` on, before the end `c` of the piece
      starting there, lies whole in the piece: it cannot straddle `c`, where
      a separator's `N` stands. */
  lemma CloseInPiece(s: string, e1: nat, c: nat, k: int)
    requires PieceEnd(s, e1, c) && e1 <= k < c && OccursAt(s, ");", k)
    ensures OccursAt(s[e1..c], ");", k - e1)
  {
    CloseAt(s, k);
    if k + 2 > c {
      var e :| SepMatch(s, c, e);
      SepMatchChars(s, c, e);
    } else {
      CloseAt(s[e1..c], k - e1);
    }
  }

  /** Cutting the piece `s[e1..c0]` at its first `);`, or not at all when it
      holds none, stops where the parameters end. */
  lemma CutParams(s: string, e1: nat, c0: nat, c: nat)
    requires PieceEnd(s, e1, c0) && e1 <= c <= c0
    requires forall j :: 0 <= j < c - e1 ==> !OccursAt(s[e1..c0], ");", j)
    requires c == c0 || OccursAt(s[e1..c0], ");", c - e1)
    ensures ParamsEnd(s, e1, c) && s[e1..c0][..c - e1] == s[e1..c]
  {
    forall k | e1 <= k < c ensures !OccursAt(s, ");", k) {
      if OccursAt(s, ");", k) {
        CloseInPiece(s, e1, c0, k);
      }
    }
    if c < c0 {
      CloseAt(s[e1..c0], c - e1);
      CloseAt(s, c);
    }
  }

  /** `re.split(r'\);', t)[0]`: `t` up to its first `);`, or all of `t`
      when it holds none. */
  function CutClose(t: string): (r: string)
    ensures |r| <= |t| && r == t[..|r|]
    ensures forall j :: 0 <= j < |r| ==> !OccursAt(t, ");", j)
    ensures |r| == |t| || OccursAt(t, ");", |r|)
    ensures forall j :: !OccursAt(r, ");", j)
  {
    match FindFrom(t, ");", 0)
    case None => t
    case Some(c) =>
      NoOccurrenceBefore(t, ");", c);
      t[..c]
  }

  /** Where the parameters after a separator ending at `e1` stop: the
      first position from `e1` on where another separator starts or `);`
      occurs, or the end of the text. It is where the piece of `re.split`
      starting at `e1` is cut at its first `);`. */
  function ParamsStop(s: string, e1: nat): (c: nat)
    requires e1 <= |s|
    ensures ParamsEnd(s, e1, c)
    ensures s[e1..c] == CutClose(Piece(s, e1))
  {
    StopOfPiece(s, e1);
    e1 + |CutClose(Piece(s, e1))|
  }

  /** The piece starting at `e1`, cut at its first `);`, ends where the
      parameters end. */
  lemma StopOfPiece(s: string, e1: nat)
    requires e1 <= |s|
    ensures ParamsEnd(s, e1, e1 + |CutClose(Piece(s, e1))|)
    ensures s[e1..e1 + |CutClose(Piece(s, e1))|] == CutClose(Piece(s, e1))
  {
    var piece := Piece(s, e1);
    CutParams(s, e1, e1 + |piece|, e1 + |CutClose(piece)|);
  }

  /** The text `get_item_params_for_mmy_request` hands to `json.loads`: the
      second piece of `re.split` at the separator (from the end of the first
      match to the start of the next one, or to the end of the text), cut at
      its first `);`. `IndexError` when there is no separator, where Python
      subscripts a one-element split result. */
  function ParamsText(s: string): (r: Result<string>)
    ensures r.Err? <==> forall a, e :: !SepMatch(s, a, e)
    ensures r.Err? ==> r.error == IndexError
    ensures r.Ok? ==> forall j :: !OccursAt(r.value, ");", j)
    ensures r.Ok? ==> FindSep(s, 0).Some? &&
                      r.value == s[FindSep(s, 0).value.1..ParamsStop(s, FindSep(s, 0).value.1)]
  {
    match FindSep(s, 0)
    case None => Err(IndexError)
    case Some((_, e1)) => Ok(CutClose(Piece(s, e1)))
  }

  /** `get_item_params_for_mmy_request` up to the decoding: `json.loads` is a
      library call, given here as the predicate `decodes` telling which texts
      it accepts; the parameters are kept as that text. */
  function GetItemParams(s: string, decodes: string -> bool): (r: Result<string>)
    ensures r.Err? <==> ParamsText(s).Err? || !decodes(ParamsText(s).value)
    ensures r.Err? && ParamsText(s).Ok? ==> r.error == JsonDecodeError
    ensures r.Ok? ==> r.value == ParamsText(s).value
  {
    match ParamsText(s)
    case Err(x) => Err(x)
    case Ok(text) => if decodes(text) then Ok(text) else Err(JsonDecodeError)
  }

  /** With the first separator matching `s[a..e1]`, the parameters are
      `s[e1..q]` exactly when `q` is where they stop: no separator starts and
      no `);` occurs from `e1` up to `q`, and at `q` one of them does or the
      text ends. */
  lemma ParamsBetween(s: string, a: nat, e1: nat, q: nat)
    requires FirstSepMatch(s, a, e1) && e1 <= q <= |s|
    ensures ParamsText(s) == Ok(s[e1..q]) <==> ParamsEnd(s, e1, q)
  {
    FindSepIs(s, 0, a, e1);
    var c := ParamsStop(s, e1);
    if ParamsEnd(s, e1, q) {
      ParamsEndUnique(s, e1, q, c);
    }
    if ParamsText(s) == Ok(s[e1..q]) {
      assert |s[e1..q]| == q - e1 && |s[e1..c]| == c - e1;
    }
  }

  /** `Number(`, digits and `), ` make a separator match. */
  lemma SepAt(s: string, p: nat, j: nat)
    requires p + 7 < j && j + 3 <= |s|
    requires s[p..p + 7] == "Number(" && s[j..j + 3] == "), "
    requires forall k :: p + 7 <= k < j ==> IsDigit(s[k])
    ensures SepMatch(s, p, j + 3)
  {
  }

  /** The script text the item page carries, read back: with no separator
      before `Number(<digits>), ` at `p`, that is the first separator, and
      parameters from `j + 3` that hold neither a separator start nor `);`
      and are followed by `);` at `q` stop there. By `ParamsBetween`, the
      text handed to the decoder is then exactly `s[j + 3..q]`. */
  lemma ParamsOfScript(s: string, p: nat, j: nat, q: nat)
    requires p + 7 < j && j + 3 <= q && q + 2 <= |s|
    requires forall a, e :: 0 <= a < p ==> !SepMatch(s, a, e)
    requires s[p..p + 7] == "Number(" && s[j..j + 3] == "), "
    requires forall k :: p + 7 <= k < j ==> IsDigit(s[k])
    requires forall a, e :: j + 3 <= a < q ==> !SepMatch(s, a, e)
    requires forall k :: j + 3 <= k < q ==> !OccursAt(s, ");", k)
    requires s[q..q + 2] == ");"
    ensures FirstSepMatch(s, p, j + 3) && ParamsEnd(s, j + 3, q)
  {
    SepAt(s, p, j);
    assert OccursAt(s, ");", q);
  }

  // ---------------------------------------------------------------------
  // Text cleaning and the first integer
  // ---------------------------------------------------------------------

  /** The characters `_process_parsed_string` removes: newline, tab and the
      no-break space. */
  predicate IsJunk(c: char) {
    c == '\n' || c == '\t' || c == '\U{00A0}'
  }

  /** `str.replace(c, '')`. */
  function RemoveChar(s: string, c: char): (r: string)
    ensures forall k :: 0 <= k < |r| ==> r[k] != c
    ensures forall x :: x in r <==> x in s && x != c
  {
    if s == [] then []
    else
      assert s == [s[0]] + s[1..];
      if s[0] == c then RemoveChar(s[1..], c) else [s[0]] + RemoveChar(s[1..], c)
  }

  /** The reference reading of the cleaner: the characters of `s` that are not
      junk, in their order. */
  function KeepClean(s: string): string {
    if s == [] then [] else (if IsJunk(s[0]) then [] else [s[0]]) + KeepClean(s[1..])
  }

  /** `_process_parsed_string`: three `replace` calls in turn; `None` stays
      `None`. */
  function ProcessParsedString(f: Field): (r: Field)
    ensures r.None? <==> f.None?
    ensures r.Some? ==> forall k :: 0 <= k < |r.value| ==> !IsJunk(r.value[k])
  {
    match f
    case None => None
    case Some(s) =>
      var a := RemoveChar(s, '\n');
      var b := RemoveChar(a, '\t');
      var c := RemoveChar(b, '\U{00A0}');
      assert forall k :: 0 <= k < |c| ==> c[k] in b && c[k] in a;
      Some(c)
  }

  lemma {:induction false} RemoveCharHead(x: char, t: string, c: char)
    ensures RemoveChar([x] + t, c) == (if x == c then [] else [x]) + RemoveChar(t, c)
  {
    assert ([x] + t)[0] == x && ([x] + t)[1..] == t;
  }

  lemma {:induction false} RemoveCharAppend(a: string, b: string, c: char)
    ensures RemoveChar(a + b, c) == RemoveChar(a, c) + RemoveChar(b, c)
  {
    if a == [] {
      assert a + b == b;
    } else {
      assert a + b == [a[0]] + (a[1..] + b);
      RemoveCharHead(a[0], a[1..] + b, c);
      RemoveCharAppend(a[1..], b, c);
      assert a == [a[0]] + a[1..];
      RemoveCharHead(a[0], a[1..], c);
    }
  }

  /** The three `replace` calls keep exactly the non-junk characters, in
      order. */
  lemma {:induction false} ProcessIsFilter(s: string)
    ensures ProcessParsedString(Some(s)) == Some(KeepClean(s))
  {
    if s != [] {
      ProcessIsFilter(s[1..]);
      var x := s[0];
      assert s == [x] + s[1..];
      var a, a' := RemoveChar(s, '\n'), RemoveChar(s[1..], '\n');
      RemoveCharHead(x, s[1..], '\n');
      var hx := if x == '\n' then [] else [x];
      RemoveCharAppend(hx, a', '\t');
      var b' := RemoveChar(a', '\t');
      var hx2 := RemoveChar(hx, '\t');
      RemoveCharAppend(hx2, b', '\U{00A0}');
      var want := if IsJunk(x) then [] else [x];
      assert RemoveChar(RemoveChar(hx, '\t'), '\U{00A0}') == want by {
        if x != '\n' {
          RemoveCharHead(x, [], '\t');
          assert [x] + [] == [x];
          if x != '\t' {
            RemoveCharHead(x, [], '\U{00A0}');
          }
        }
      }
    }
  }

  /** Cleaning twice is cleaning once. */
  lemma {:induction false} ProcessIdempotent(s: string)
    ensures ProcessParsedString(ProcessParsedString(Some(s))) == ProcessParsedString(Some(s))
  {
    ProcessIsFilter(s);
    var c := KeepClean(s);
    KeepCleanOfClean(c);
    ProcessIsFilter(c);
  }

  lemma {:induction false} KeepCleanOfClean(s: string)
    requires forall k :: 0 <= k < |s| ==> !IsJunk(s[k])
    ensures KeepClean(s) == s
  {
    if s != [] {
      KeepCleanOfClean(s[1..]);
      assert s == [s[0]] + s[1..];
    }
  }

  /** The index of the leftmost digit at or after `from`. */
  function FirstDigit(s: string, from: nat): (r: Option<nat>)
    requires from <= |s|
    decreases |s| - from
    ensures r.Some? ==> from <= r.value < |s| && IsDigit(s[r.value])
    ensures r.Some? ==> forall k :: from <= k < r.value ==> !IsDigit(s[k])
    ensures r.None? ==> forall k :: from <= k < |s| ==> !IsDigit(s[k])
  {
    if from == |s| then None
    else if IsDigit(s[from]) then Some(from)
    else FirstDigit(s, from + 1)
  }

  /** `s[a..e]` is the first maximal run of digits of `s`. */
  predicate FirstRun(s: string, a: int, e: int) {
    0 <= a < e <= |s| &&
    (forall k :: 0 <= k < a ==> !IsDigit(s[k])) &&
    (forall k :: a <= k < e ==> IsDigit(s[k])) &&
    (e < |s| ==> !IsDigit(s[e]))
  }

  /** `_get_integer_from_string`: the value of the first maximal run of digits
      (`re.search(r'\d+')` starts at the leftmost digit and is greedy);
      `AttributeError` where Python calls `.group()` on `None`. */
  function GetIntegerFromString(s: string): (r: Result<int>)
    ensures r.Err? <==> forall k :: 0 <= k < |s| ==> !IsDigit(s[k])
    ensures r.Err? ==> r.error == AttributeError
    ensures forall a, e :: FirstRun(s, a, e) ==> AllDigits(s[a..e]) && r == Ok(DecimalValue(s[a..e]))
  {
    match FirstDigit(s, 0)
    case None => Err(AttributeError)
    case Some(a) =>
      var e := DigitRunEnd(s, a);
      assert forall a', e' :: FirstRun(s, a', e') ==> a' == a && e' == e by {
        forall a', e' | FirstRun(s, a', e') ensures a' == a && e' == e {
          DigitRunEndUnique(s, a', e');
        }
      }
      assert AllDigits(s[a..e]);
      Ok(DecimalValue(s[a..e]))
  }

  /** A number written after digit-free text, and not followed by a digit, is
      the number read back. */
  lemma IntegerOfRendered(prefix: string, n: nat, suffix: string)
    requires forall k :: 0 <= k < |prefix| ==> !IsDigit(prefix[k])
    requires suffix != [] ==> !IsDigit(suffix[0])
    ensures GetIntegerFromString(prefix + NatToString(n) + suffix) == Ok(n)
  {
    var digits := NatToString(n);
    var s := prefix + digits + suffix;
    var a, e := |prefix|, |prefix| + |digits|;
    assert s[a..e] == digits;
    assert forall k :: 0 <= k < a ==> s[k] == prefix[k];
    assert forall k :: a <= k < e ==> s[k] == digits[k - a];
    assert e < |s| ==> s[e] == suffix[0];
    assert FirstRun(s, a, e);
    NatToStringRoundTrip(n);
  }
}

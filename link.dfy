/**
 * core/link.py: the catalog links table. Reading the file and splitting it
 * into `;`-separated fields (`open` and `csv.reader`) is not modelled: the
 * table arrives as its rows of fields, the header row first.
 */
module LinkTable {
  import opened Common

  /** One catalog to crawl: its id, its URL and the item link to resume
      from, `None` when the field is empty. */
  datatype Link = Link(id: string, url: string, fromItem: Option<string>)

  /** The assertion message of the unique-id check. */
  const UniqueIdsMessage: string := "Links in input/links.csv must have a unique ids"

  /** The link a well-formed data row describes: an empty third field is
      Python's falsy string and becomes `None`; any other is kept as it is. */
  function RowLink(row: seq<string>): (l: Link)
    requires |row| == 3
    ensures l.id == row[0] && l.url == row[1]
    ensures l.fromItem.None? <==> row[2] == ""
    ensures l.fromItem.Some? ==> l.fromItem.value == row[2]
  {
    Link(row[0], row[1], if row[2] != "" then Some(row[2]) else None)
  }

  /** What a data row of the wrong width raises: `row[2]` fails first on a
      short row; `Link(*row)` refuses a long one. */
  function RowError(row: seq<string>): (x: Exc)
    requires |row| != 3
    ensures x == IndexError <==> |row| < 3
    ensures x == TypeError <==> |row| > 3
  {
    if |row| < 3 then IndexError else TypeError
  }

  function LinkId(l: Link): string {
    l.id
  }

  /** The elements of `s` as a set, as Python's `set(s)` holds them. */
  function SetOf<T>(s: seq<T>): set<T> {
    set x | x in s
  }

  lemma {:induction false} SetOfBound<T>(s: seq<T>)
    ensures |SetOf(s)| <= |s|
  {
    if s != [] {
      SetOfBound(s[1..]);
      assert SetOf(s) == {s[0]} + SetOf(s[1..]);
    }
  }

  /** `len(ids) == len(set(ids))` says exactly that no id repeats. */
  lemma {:induction false} DistinctIffNoCollapse<T>(s: seq<T>)
    ensures Distinct(s) <==> |SetOf(s)| == |s|
  {
    if s != [] {
      var rest := s[1..];
      DistinctIffNoCollapse(rest);
      assert SetOf(s) == {s[0]} + SetOf(rest);
      if s[0] in rest {
        var k :| 0 <= k < |rest| && rest[k] == s[0];
        assert s[0] == s[k + 1];
        assert SetOf(s) == SetOf(rest);
        SetOfBound(rest);
      } else {
        assert Distinct(s) <==> Distinct(rest) by {
          if Distinct(rest) {
            forall i, j | 0 <= i < j < |s| ensures s[i] != s[j] {
              if i > 0 {
                assert s[i] == rest[i - 1] && s[j] == rest[j - 1];
              } else {
                assert s[j] == rest[j - 1];
              }
            }
          }
          if Distinct(s) {
            forall i, j | 0 <= i < j < |rest| ensures rest[i] != rest[j] {
              assert rest[i] == s[i + 1] && rest[j] == s[j + 1];
            }
          }
        }
      }
    }
  }

  /** A table with its header row whose data rows all have three fields. */
  predicate WellFormed(table: seq<seq<string>>) {
    table != [] && forall i :: 1 <= i < |table| ==> |table[i]| == 3
  }

  /** The links the data rows of a well-formed table describe, in order. */
  function TableLinks(table: seq<seq<string>>): (links: seq<Link>)
    requires WellFormed(table)
    ensures |links| == |table| - 1
    ensures forall i :: 0 <= i < |links| ==> links[i] == RowLink(table[i + 1])
  {
    seq(|table| - 1, i requires 0 <= i < |table| - 1 => RowLink(table[i + 1]))
  }

  /** `load_links`: skips the header row, turns each data row into a link in
      order, and asserts that no id repeats. An empty table makes the header
      skip raise `StopIteration`; the first data row without exactly three
      fields raises. */
  method LoadLinks(table: seq<seq<string>>) returns (r: Result<seq<Link>>)
    ensures table == [] ==> r == Err(StopIteration)
    ensures forall i :: (1 <= i < |table| && |table[i]| != 3 &&
                         forall j :: 1 <= j < i ==> |table[j]| == 3) ==> r == Err(RowError(table[i]))
    ensures r.Ok? <==> WellFormed(table) && Distinct(Project(TableLinks(table), LinkId))
    ensures r.Ok? ==> r.value == TableLinks(table)
    ensures WellFormed(table) && !Distinct(Project(TableLinks(table), LinkId)) ==>
              r == Err(AssertionError(UniqueIdsMessage))
  {
    if table == [] {
      return Err(StopIteration);
    }
    var links: seq<Link> := [];
    var ids: seq<string> := [];
    var n := 1;
    while n < |table|
      invariant 1 <= n <= |table|
      invariant |links| == n - 1 && ids == Project(links, LinkId)
      invariant forall i :: 1 <= i < n ==> |table[i]| == 3 && links[i - 1] == RowLink(table[i])
    {
      var row := table[n];
      if |row| < 3 {
        return Err(IndexError);
      }
      var fromItem := if row[2] != "" then Some(row[2]) else None;
      if |row| != 3 {
        return Err(TypeError);
      }
      links := links + [Link(row[0], row[1], fromItem)];
      ids := ids + [row[0]];
      n := n + 1;
    }
    assert links == TableLinks(table);
    DistinctIffNoCollapse(ids);
    if |ids| != |SetOf(ids)| {
      return Err(AssertionError(UniqueIdsMessage));
    }
    return Ok(links);
  }
}

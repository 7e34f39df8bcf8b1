/**
 * The upload of the CPC hierarchy: the `cpc` table read back into a lookup
 * dictionary, the full title chain of a symbol, and the rows handed to the
 * warehouse load job.
 */
module CpcUpload {
  import opened Base
  import opened Text
  import CpcBuild

  // ---------------------------------------------------------------------
  // Reading the table
  // ---------------------------------------------------------------------

  /** One value of the lookup dictionary: a `cpc` row without its symbol, the two flags as booleans. */
  datatype Entry = Entry(
    symbolShort: Option<string>,
    symbolPatstat: Option<string>,
    kind: string,
    level: int,
    parent: string,
    parentShort: Option<string>,
    titleEn: Option<string>,
    notAllocatable: bool,
    additionalOnly: bool,
    status: Option<string>)

  /** The dictionary value for one fetched row; `bool` of an integer flag is "non-zero". */
  function EntryOf(row: CpcBuild.CpcRow): Entry {
    Entry(row.symbolShort, row.symbolPatstat, row.kind, row.level, row.parent, row.parentShort,
          row.titleEn, row.notAllocatable != 0, row.additionalOnly != 0, row.status)
  }

  /** A row the query returns (its `WHERE` leaves out the root) as a key and a value. */
  function Fetched(row: CpcBuild.CpcRow): Option<(string, Entry)> {
    if row.symbol == "CPC" then None else Some((row.symbol, EntryOf(row)))
  }

  /** The lookup `read_sqlite_database` returns for the table rows, in the order they are fetched. */
  function LookupFrom(table: seq<CpcBuild.CpcRow>): map<string, Entry> {
    Collect(table, Fetched)
  }

  /** The fetch-and-fill loop of `read_sqlite_database`, the query's filter applied row by row. */
  method ReadLookup(table: seq<CpcBuild.CpcRow>) returns (lookup: map<string, Entry>)
    ensures lookup == LookupFrom(table)
  {
    lookup := map[];
    var i := 0;
    while i < |table|
      invariant i <= |table|
      invariant lookup == Collect(table[..i], Fetched)
    {
      CollectStep(table, Fetched, i);
      var row := table[i];
      if row.symbol != "CPC" {
        lookup := lookup[row.symbol := EntryOf(row)];
      }
      i := i + 1;
    }
    assert table[..|table|] == table;
  }

  /** Every symbol other than the root that the table holds is a key of the lookup. */
  lemma LookupHasEveryRow(table: seq<CpcBuild.CpcRow>, k: nat)
    requires k < |table| && table[k].symbol != "CPC"
    ensures table[k].symbol in LookupFrom(table)
  {
    CollectHasNamed(table, Fetched, k);
  }

  /** The root is never a key, and every key's entry is the conversion of a row with that symbol. */
  lemma LookupOnlyRows(table: seq<CpcBuild.CpcRow>, symbol: string)
    requires symbol in LookupFrom(table)
    ensures symbol != "CPC"
    ensures exists k :: 0 <= k < |table| && table[k].symbol == symbol && EntryOf(table[k]) == LookupFrom(table)[symbol]
  {
    CollectOnlyNamed(table, Fetched, symbol);
  }

  /** The symbol is the table's primary key, so each row's entry is the one stored under its symbol. */
  lemma LookupEntry(table: seq<CpcBuild.CpcRow>, k: nat)
    requires forall i, j :: 0 <= i < j < |table| ==> table[i].symbol != table[j].symbol
    requires k < |table| && table[k].symbol != "CPC"
    ensures table[k].symbol in LookupFrom(table)
    ensures LookupFrom(table)[table[k].symbol] == EntryOf(table[k])
  {
    CollectLastWins(table, Fetched, k, table[k].symbol, EntryOf(table[k]));
  }

  /** The two flags written by the build survive the read back as booleans. */
  lemma FlagsRoundTrip(record: CpcBuild.SymbolRecord, titles: map<string, string>, lastAtLevel: map<int, string>)
    ensures EntryOf(CpcBuild.DeriveRow(record, titles, lastAtLevel)).notAllocatable <==> record.notAllocatable == Some("TRUE")
    ensures EntryOf(CpcBuild.DeriveRow(record, titles, lastAtLevel)).additionalOnly <==> record.additionalOnly == Some("TRUE")
  {
  }

  // ---------------------------------------------------------------------
  // Full title chains
  // ---------------------------------------------------------------------

  /** A value Python treats as true: present and not the empty string. */
  predicate Truthy(s: Option<string>) {
    s.Some? && s.value != []
  }

  /**
   * An entry at `fromLevel` or deeper whose parent is in the lookup hangs
   * under a shallower entry, so climbing from it ends.
   */
  predicate ParentsAscend(lookup: map<string, Entry>, fromLevel: int) {
    forall s :: s in lookup && lookup[s].level >= fromLevel && lookup[s].parent in lookup ==>
      lookup[lookup[s].parent].level < lookup[s].level
  }

  /** How many more levels the climb from `current` may still visit. */
  function Height(current: string, lookup: map<string, Entry>, fromLevel: int): nat {
    if current in lookup && lookup[current].level >= fromLevel then lookup[current].level - fromLevel + 1 else 0
  }

  /**
   * The truthy titles met climbing the parents from `current`, nearest
   * first, for as long as the symbol is in the lookup at `fromLevel` or
   * deeper.
   */
  function Climb(current: string, lookup: map<string, Entry>, fromLevel: int): seq<string>
    requires ParentsAscend(lookup, fromLevel)
    decreases Height(current, lookup, fromLevel)
  {
    if Height(current, lookup, fromLevel) == 0 then []
    else
      var entry := lookup[current];
      (if Truthy(entry.titleEn) then [entry.titleEn.value] else []) + Climb(entry.parent, lookup, fromLevel)
  }

  /**
   * Every climbed title is non-empty and is the title of an entry at
   * `fromLevel` or deeper: shallower titles never enter the chain.
   */
  lemma {:induction false} ClimbTitlesFromDeepEntries(current: string, lookup: map<string, Entry>, fromLevel: int)
    requires ParentsAscend(lookup, fromLevel)
    ensures forall k :: 0 <= k < |Climb(current, lookup, fromLevel)| ==>
      var title := Climb(current, lookup, fromLevel)[k];
      title != [] && exists s :: s in lookup && lookup[s].level >= fromLevel && lookup[s].titleEn == Some(title)
    decreases Height(current, lookup, fromLevel)
  {
    if Height(current, lookup, fromLevel) != 0 {
      var entry := lookup[current];
      ClimbTitlesFromDeepEntries(entry.parent, lookup, fromLevel);
      var own := if Truthy(entry.titleEn) then [entry.titleEn.value] else [];
      var above := Climb(entry.parent, lookup, fromLevel);
      assert Climb(current, lookup, fromLevel) == own + above;
      forall k | 0 <= k < |own + above|
        ensures (own + above)[k] != [] && exists s :: s in lookup && lookup[s].level >= fromLevel && lookup[s].titleEn == Some((own + above)[k])
      {
        if k < |own| {
          assert lookup[current].titleEn == Some((own + above)[k]);
        } else {
          assert (own + above)[k] == above[k - |own|];
        }
      }
    }
  }

  /**
   * The full title of `symbol`: the climbed titles from the shallowest down,
   * joined by `" > "`; with none, the symbol's own title (`None` when the
   * entry has none), or `""` for a symbol not in the lookup.
   */
  function TitleFull(symbol: string, lookup: map<string, Entry>, fromLevel: int): Option<string>
    requires ParentsAscend(lookup, fromLevel)
  {
    var chain := Reverse(Climb(symbol, lookup, fromLevel));
    if chain != [] then Some(Join(chain, " > "))
    else if symbol in lookup then lookup[symbol].titleEn
    else Some("")
  }

  /** `build_title_full`: walk up the parents collecting titles, then reverse and join them. */
  method BuildTitleFull(symbol: string, lookup: map<string, Entry>, fromLevel: int := 7) returns (titleFull: Option<string>)
    requires ParentsAscend(lookup, fromLevel)
    ensures titleFull == TitleFull(symbol, lookup, fromLevel)
  {
    var chain: seq<string> := [];
    var current := symbol;
    while current in lookup
      invariant chain + Climb(current, lookup, fromLevel) == Climb(symbol, lookup, fromLevel)
      decreases Height(current, lookup, fromLevel)
    {
      var entry := lookup[current];
      if entry.level < fromLevel {
        break;
      }
      if Truthy(entry.titleEn) {
        assert chain + ([entry.titleEn.value] + Climb(entry.parent, lookup, fromLevel))
            == chain + [entry.titleEn.value] + Climb(entry.parent, lookup, fromLevel);
        chain := chain + [entry.titleEn.value];
      } else {
        assert [] + Climb(entry.parent, lookup, fromLevel) == Climb(entry.parent, lookup, fromLevel);
      }
      current := entry.parent;
    }
    assert Height(current, lookup, fromLevel) == 0;
    assert chain == Climb(symbol, lookup, fromLevel);
    chain := Reverse(chain);
    if chain != [] {
      titleFull := Some(Join(chain, " > "));
    } else if symbol in lookup {
      titleFull := lookup[symbol].titleEn;
    } else {
      titleFull := Some("");
    }
  }

  /** A symbol outside the lookup, or above `fromLevel`, keeps its own title (or `""`). */
  lemma TitleFullAboveFromLevel(symbol: string, lookup: map<string, Entry>, fromLevel: int)
    requires ParentsAscend(lookup, fromLevel)
    requires symbol !in lookup || lookup[symbol].level < fromLevel
    ensures TitleFull(symbol, lookup, fromLevel) == if symbol in lookup then lookup[symbol].titleEn else Some("")
  {
  }

  /**
   * A titled entry at `fromLevel` or deeper whose parent has a chain gets
   * the parent's full title, `" > "`, and its own title.
   */
  lemma TitleFullExtendsParent(symbol: string, lookup: map<string, Entry>, fromLevel: int)
    requires ParentsAscend(lookup, fromLevel)
    requires symbol in lookup && lookup[symbol].level >= fromLevel && Truthy(lookup[symbol].titleEn)
    requires Climb(lookup[symbol].parent, lookup, fromLevel) != []
    ensures TitleFull(lookup[symbol].parent, lookup, fromLevel).Some?
    ensures TitleFull(symbol, lookup, fromLevel)
         == Some(TitleFull(lookup[symbol].parent, lookup, fromLevel).value + " > " + lookup[symbol].titleEn.value)
  {
    var title := lookup[symbol].titleEn.value;
    var above := Climb(lookup[symbol].parent, lookup, fromLevel);
    assert Climb(symbol, lookup, fromLevel) == [title] + above;
    assert ([title] + above)[1..] == above;
    assert Reverse([title] + above) == Reverse(above) + [title];
    JoinSnoc(Reverse(above), " > ", title);
  }

  /** An untitled entry at `fromLevel` or deeper whose parent has a chain shares the parent's full title. */
  lemma TitleFullSkipsUntitled(symbol: string, lookup: map<string, Entry>, fromLevel: int)
    requires ParentsAscend(lookup, fromLevel)
    requires symbol in lookup && lookup[symbol].level >= fromLevel && !Truthy(lookup[symbol].titleEn)
    requires Climb(lookup[symbol].parent, lookup, fromLevel) != []
    ensures TitleFull(symbol, lookup, fromLevel) == TitleFull(lookup[symbol].parent, lookup, fromLevel)
  {
    var above := Climb(lookup[symbol].parent, lookup, fromLevel);
    assert Climb(symbol, lookup, fromLevel) == [] + above;
    assert [] + above == above;
  }

  /** A titled entry at `fromLevel` or deeper has a full title ending in its own title. */
  lemma TitleFullEndsWithOwn(symbol: string, lookup: map<string, Entry>, fromLevel: int)
    requires ParentsAscend(lookup, fromLevel)
    requires symbol in lookup && lookup[symbol].level >= fromLevel && Truthy(lookup[symbol].titleEn)
    ensures TitleFull(symbol, lookup, fromLevel).Some?
    ensures EndsWith(TitleFull(symbol, lookup, fromLevel).value, lookup[symbol].titleEn.value)
  {
    var title := lookup[symbol].titleEn.value;
    var chain := Climb(symbol, lookup, fromLevel);
    assert chain == [title] + Climb(lookup[symbol].parent, lookup, fromLevel);
    var reversed := Reverse(chain);
    assert reversed[|reversed| - 1] == title;
    JoinEnds(reversed, " > ");
  }

  // ---------------------------------------------------------------------
  // Rows for the warehouse
  // ---------------------------------------------------------------------

  /** One row of the warehouse table. */
  datatype BqRow = BqRow(symbol: string, entry: Entry, titleFull: Option<string>)

  /** `order` names each key of the dictionary exactly once, in the order the dictionary yields them. */
  predicate EnumeratesKeys(order: seq<string>, lookup: map<string, Entry>) {
    && (forall k :: 0 <= k < |order| ==> order[k] in lookup)
    && (forall s :: s in lookup ==> s in order)
    && (forall i, j :: 0 <= i < j < |order| ==> order[i] != order[j])
  }

  predicate HasPatstat(row: BqRow) { Truthy(row.entry.symbolPatstat) }

  predicate HasTitleFull(row: BqRow) { Truthy(row.titleFull) }

  /**
   * `prepare_bigquery_rows`: one row per dictionary item, in dictionary
   * order, carrying the entry and its full title, and the two counts the
   * function reports.
   */
  method PrepareBigqueryRows(lookup: map<string, Entry>, order: seq<string>)
    returns (rows: seq<BqRow>, withPatstat: nat, withTitleFull: nat)
    requires EnumeratesKeys(order, lookup)
    requires ParentsAscend(lookup, 7)
    ensures |rows| == |order|
    ensures forall k :: 0 <= k < |rows| ==>
      rows[k].symbol == order[k] && rows[k].entry == lookup[order[k]] && rows[k].titleFull == TitleFull(order[k], lookup, 7)
    ensures withPatstat == Count(rows, HasPatstat) && withTitleFull == Count(rows, HasTitleFull)
  {
    rows := [];
    for k := 0 to |order|
      invariant |rows| == k
      invariant forall i :: 0 <= i < k ==>
        rows[i].symbol == order[i] && rows[i].entry == lookup[order[i]] && rows[i].titleFull == TitleFull(order[i], lookup, 7)
    {
      var symbol := order[k];
      var titleFull := BuildTitleFull(symbol, lookup);
      rows := rows + [BqRow(symbol, lookup[symbol], titleFull)];
    }
    withPatstat := Count(rows, HasPatstat);
    withTitleFull := Count(rows, HasTitleFull);
  }

  /** The prepared rows are the lookup: one row per key, each key once. */
  lemma RowsCoverLookup(lookup: map<string, Entry>, order: seq<string>, rows: seq<BqRow>)
    requires EnumeratesKeys(order, lookup)
    requires |rows| == |order| && forall k :: 0 <= k < |rows| ==> rows[k].symbol == order[k]
    ensures |rows| == |lookup|
    ensures forall s :: s in lookup <==> exists k :: 0 <= k < |rows| && rows[k].symbol == s
  {
    DistinctCard(order);
    assert (set k | k in order) == lookup.Keys;
    forall s | s in lookup
      ensures exists k :: 0 <= k < |rows| && rows[k].symbol == s
    {
      var k :| 0 <= k < |order| && order[k] == s;
      assert rows[k].symbol == s;
    }
  }

  /** A sequence without repeats has as many distinct elements as it has positions. */
  lemma {:induction false} DistinctCard<T>(s: seq<T>)
    requires forall i, j :: 0 <= i < j < |s| ==> s[i] != s[j]
    ensures |set x | x in s| == |s|
    decreases |s|
  {
    if s != [] {
      var init := s[..|s| - 1];
      DistinctCard(init);
      assert (set x | x in s) == (set x | x in init) + {s[|s| - 1]};
    }
  }
}

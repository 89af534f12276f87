/**
 * The trade price table (src/components/TradeListTable.tsx): the trader's
 * display name and each good's display name looked up in the chosen
 * language table, one row per good a trader buys or sells with its price
 * band, and the rows sorted by good code.
 *
 * `Object.keys(langLut)` is given as `keys`, the table's keys in their
 * insertion order.  Codes are ordered by code point, see `LexLe`.
 */
module TradeTable {
  import opened Wrappers
  import opened Strings
  import opened Trades

  datatype Side = Buying | Selling

  /** One table row (`Trade` in the component). */
  datatype TradeRow = TradeRow(
    traderType: TraderType,
    traderName: Option<string>,
    traderNameError: bool,
    traderCode: Option<string>,
    side: Side,
    code: string,
    name: string,
    nameError: bool,
    stacksize: int,
    min: int,
    max: int)

  /** `keys` lists exactly the keys of the table, when there is one. */
  ghost predicate KeysOf(langLut: Option<LanguageTable>, keys: seq<string>) {
    langLut.Some? ==> forall k :: k in keys <==> k in langLut.value
  }

  // ------------------------------------------------------------ trader name

  /** A template literal renders an undefined code as "undefined". */
  function CodeText(code: Option<string>): string {
    if code.Some? then code.value else "undefined"
  }

  /** The translation key of a trader's name; trader code "agriculture" is looked up as "foods". */
  function TraderKey(trader: TraderList): string {
    match trader.traderType
    case Villager => "nametag-" + CodeText(trader.traderCode)
    case Trader =>
      "item-creature-humanoid-trader-" + (if trader.traderCode == Some("agriculture") then "foods" else CodeText(trader.traderCode))
  }

  /** `determineTraderName`: the translated name, or the trader code with an error flag when the key is missing. */
  function TraderName(langLut: Option<LanguageTable>, trader: TraderList): (r: (Option<string>, bool))
    ensures r.1 <==> langLut.Some? && TraderKey(trader) !in langLut.value
    ensures langLut.Some? && TraderKey(trader) in langLut.value ==> r.0 == Some(langLut.value[TraderKey(trader)])
    ensures langLut.None? || TraderKey(trader) !in langLut.value ==> r.0 == trader.traderCode
  {
    if langLut.None? then (trader.traderCode, false)
    else
      var key := TraderKey(trader);
      if key !in langLut.value then (trader.traderCode, true)
      else (Some(langLut.value[key]), false)
  }

  /** An "agriculture" trader is named like a "foods" trader; a villager is never looked up under a trader key. */
  lemma TraderKeys(trader: TraderList)
    ensures trader.traderType == Trader && trader.traderCode == Some("agriculture") ==>
              TraderKey(trader) == TraderKey(trader.(traderCode := Some("foods")))
    ensures trader.traderType == Villager ==> StartsWith(TraderKey(trader), "nametag-")
    ensures trader.traderType == Trader ==> !StartsWith(TraderKey(trader), "nametag-")
  {
    if trader.traderType == Trader {
      var key := TraderKey(trader);
      assert key[0] == 'i';
    }
  }

  // -------------------------------------------------------------- item name

  function TypeText(t: ElementType): string {
    match t
    case Block => "block"
    case Item => "item"
  }

  /** `${trade.type}-${trade.code}`. */
  function ItemKey(e: TradeListElement): string {
    TypeText(e.itemType) + "-" + e.code
  }

  /** The wildcard test of the lookup loop: the key ends in '*' and the code starts with the rest of the key. */
  predicate WildcardMatches(key: string, code: string) {
    EndsWith(key, "*") && StartsWith(code, key[..|key| - 1])
  }

  /** `determineItemName` as the loop behaves: a missing key is re-read, so the wildcard keys never matter. */
  function ItemNameAsWritten(langLut: Option<LanguageTable>, e: TradeListElement): (r: (string, bool))
    ensures r.1 <==> langLut.None? || ItemKey(e) !in langLut.value
    ensures r.1 ==> r.0 == e.code
    ensures !r.1 ==> r.0 == langLut.value[ItemKey(e)]
  {
    if langLut.None? then (e.code, true)
    else if ItemKey(e) in langLut.value then (langLut.value[ItemKey(e)], false)
    else (e.code, true)
  }

  /** `determineItemName` as written, loop included. */
  method DetermineItemNameAsWritten(langLut: Option<LanguageTable>, keys: seq<string>, e: TradeListElement)
    returns (name: string, nameError: bool)
    ensures (name, nameError) == ItemNameAsWritten(langLut, e)
  {
    if langLut.None? {
      return e.code, true;
    }
    var lut := langLut.value;
    var itemKey := ItemKey(e);
    match Lookup(lut, itemKey)
    case Some(v) => return v, false;
    case None =>
    for i := 0 to |keys| {
      var key := keys[i];
      if EndsWith(key, "*") && StartsWith(e.code, key[..|key| - 1]) {
        match Lookup(lut, itemKey)
        case Some(v) => return v, false;
        case None =>
      }
    }
    return e.code, true;
  }

  /** `langLut[key]`: undefined when the key is missing. */
  function Lookup(lut: LanguageTable, key: string): (r: Option<string>)
    ensures r.Some? <==> key in lut
    ensures r.Some? ==> r.value == lut[key]
  {
    if key in lut then Some(lut[key]) else None
  }

  /** The position in `keys` of the first wildcard key for the code. */
  function FirstWildcard(keys: seq<string>, code: string): (r: Option<nat>)
    ensures r.Some? ==> r.value < |keys| && WildcardMatches(keys[r.value], code)
    ensures r.Some? ==> forall j :: 0 <= j < r.value ==> !WildcardMatches(keys[j], code)
    ensures r.None? ==> forall j :: 0 <= j < |keys| ==> !WildcardMatches(keys[j], code)
    decreases |keys|
  {
    if |keys| == 0 then None
    else if WildcardMatches(keys[0], code) then Some(0)
    else
      match FirstWildcard(keys[1..], code)
      case None => None
      case Some(i) => Some(i + 1)
  }

  /**
   * `determineItemName` with the wildcard loop reading the wildcard key it found: the exact key
   * first, then the first wildcard key in table order, then the code with an error flag.
   */
  function ItemName(langLut: Option<LanguageTable>, keys: seq<string>, e: TradeListElement): (r: (string, bool))
    requires KeysOf(langLut, keys)
    ensures r.1 <==> langLut.None? || (ItemKey(e) !in langLut.value && FirstWildcard(keys, e.code).None?)
    ensures r.1 ==> r.0 == e.code
    ensures langLut.Some? && ItemKey(e) in langLut.value ==> r == (langLut.value[ItemKey(e)], false)
    ensures !r.1 ==> r.0 in langLut.value.Values
  {
    if langLut.None? then (e.code, true)
    else if ItemKey(e) in langLut.value then (langLut.value[ItemKey(e)], false)
    else
      match FirstWildcard(keys, e.code)
      case None => (e.code, true)
      case Some(i) => (langLut.value[keys[i]], false)
  }

  /** The corrected lookup, loop included: it returns at the first wildcard key for the code. */
  method DetermineItemName(langLut: Option<LanguageTable>, keys: seq<string>, e: TradeListElement)
    returns (name: string, nameError: bool)
    requires KeysOf(langLut, keys)
    ensures (name, nameError) == ItemName(langLut, keys, e)
  {
    if langLut.None? {
      return e.code, true;
    }
    var lut := langLut.value;
    var itemKey := ItemKey(e);
    match Lookup(lut, itemKey)
    case Some(v) => return v, false;
    case None =>
    var i := 0;
    while i < |keys|
      invariant 0 <= i <= |keys|
      invariant forall j :: 0 <= j < i ==> !WildcardMatches(keys[j], e.code)
    {
      var key := keys[i];
      if EndsWith(key, "*") && StartsWith(e.code, key[..|key| - 1]) {
        assert FirstWildcard(keys, e.code) == Some(i);
        return lut[key], false;
      }
      i := i + 1;
    }
    return e.code, true;
  }

  /** The two agree except on a missing exact key with a wildcard key for the code, which only the corrected lookup uses. */
  lemma ItemNameAgreement(langLut: Option<LanguageTable>, keys: seq<string>, e: TradeListElement)
    requires KeysOf(langLut, keys)
    ensures ItemName(langLut, keys, e) != ItemNameAsWritten(langLut, e) <==>
              langLut.Some? && ItemKey(e) !in langLut.value && FirstWildcard(keys, e.code).Some?
  {
  }

  /** An "item" good "ingot-copper" with only the wildcard key "ingot-*" in the table. */
  lemma WildcardKeyIgnored()
    ensures ItemNameAsWritten(Some(map["ingot-*" := "Ingot"]), TradeListElement("ingot-copper", Item, 1, Variance(1, 0), Variance(5, 1))) == ("ingot-copper", true)
    ensures ItemName(Some(map["ingot-*" := "Ingot"]), ["ingot-*"], TradeListElement("ingot-copper", Item, 1, Variance(1, 0), Variance(5, 1))) == ("Ingot", false)
  {
    var e := TradeListElement("ingot-copper", Item, 1, Variance(1, 0), Variance(5, 1));
    assert ItemKey(e) == "item-ingot-copper";
    assert ItemKey(e) != "ingot-*" by { assert ItemKey(e)[1] != "ingot-*"[1]; }
    assert "ingot-*"[..6] == "ingot-" == e.code[..6];
    assert WildcardMatches("ingot-*", e.code);
  }

  // ------------------------------------------------------------------- rows

  /** The row for one good of one trader. */
  function MakeRow(langLut: Option<LanguageTable>, keys: seq<string>, trader: TraderList, side: Side, e: TradeListElement): (row: TradeRow)
    requires KeysOf(langLut, keys)
    ensures row.traderType == trader.traderType && row.traderCode == trader.traderCode && row.side == side
    ensures row.code == e.code && row.stacksize == e.stacksize
    ensures row.traderNameError <==> langLut.Some? && TraderKey(trader) !in langLut.value
    ensures row.nameError <==> langLut.None? || (ItemKey(e) !in langLut.value && FirstWildcard(keys, e.code).None?)
    ensures row.nameError ==> row.name == e.code
    ensures !row.nameError ==> row.name in langLut.value.Values
  {
    var (traderName, traderNameError) := TraderName(langLut, trader);
    var (name, nameError) := ItemName(langLut, keys, e);
    TradeRow(trader.traderType, traderName, traderNameError, trader.traderCode, side, e.code, name, nameError,
             e.stacksize, e.price.avg - e.price.spread, e.price.avg + e.price.spread)
  }

  /** The goods a trader buys or sells. */
  function Goods(trader: TraderList, side: Side): seq<TradeListElement> {
    match side
    case Buying => trader.trades.buying.list
    case Selling => trader.trades.selling.list
  }

  /** `processList`: one row per good, in list order. */
  function ListRows(langLut: Option<LanguageTable>, keys: seq<string>, trader: TraderList, side: Side): (rows: seq<TradeRow>)
    requires KeysOf(langLut, keys)
    ensures |rows| == |Goods(trader, side)|
  {
    var goods := Goods(trader, side);
    seq(|goods|, k requires 0 <= k < |goods| => MakeRow(langLut, keys, trader, side, goods[k]))
  }

  /** The rows before sorting: per trader, what it buys and then what it sells. */
  function UnsortedRows(langLut: Option<LanguageTable>, keys: seq<string>, traders: seq<TraderList>): seq<TradeRow>
    requires KeysOf(langLut, keys)
    decreases |traders|
  {
    if |traders| == 0 then []
    else
      var last := traders[|traders| - 1];
      UnsortedRows(langLut, keys, traders[..|traders| - 1]) + ListRows(langLut, keys, last, Buying) + ListRows(langLut, keys, last, Selling)
  }

  /** The number of goods all traders buy and sell. */
  function GoodsCount(traders: seq<TraderList>): nat
    decreases |traders|
  {
    if |traders| == 0 then 0
    else
      var last := traders[|traders| - 1];
      GoodsCount(traders[..|traders| - 1]) + |last.trades.buying.list| + |last.trades.selling.list|
  }

  /** There is one row per good bought or sold. */
  lemma {:induction false} RowsCount(langLut: Option<LanguageTable>, keys: seq<string>, traders: seq<TraderList>)
    requires KeysOf(langLut, keys)
    ensures |UnsortedRows(langLut, keys, traders)| == GoodsCount(traders)
    decreases |traders|
  {
    if |traders| > 0 {
      RowsCount(langLut, keys, traders[..|traders| - 1]);
    }
  }

  /** The rows of one list are the rows of its goods. */
  lemma ListRowsMembers(langLut: Option<LanguageTable>, keys: seq<string>, t: TraderList, side: Side, r: TradeRow)
    requires KeysOf(langLut, keys)
    ensures r in ListRows(langLut, keys, t, side) <==> exists e :: e in Goods(t, side) && r == MakeRow(langLut, keys, t, side, e)
  {
    var rs := ListRows(langLut, keys, t, side);
    var goods := Goods(t, side);
    if r in rs {
      var k :| 0 <= k < |rs| && rs[k] == r;
      assert goods[k] in goods;
    }
    if exists e :: e in goods && r == MakeRow(langLut, keys, t, side, e) {
      var e :| e in goods && r == MakeRow(langLut, keys, t, side, e);
      var k :| 0 <= k < |goods| && goods[k] == e;
      assert rs[k] == r;
    }
  }

  /** The row of a good some trader buys or sells. */
  ghost predicate RowOfGood(langLut: Option<LanguageTable>, keys: seq<string>, traders: seq<TraderList>, r: TradeRow)
    requires KeysOf(langLut, keys)
  {
    exists t, side, e :: t in traders && e in Goods(t, side) && r == MakeRow(langLut, keys, t, side, e)
  }

  /** Every row is the row of a good some trader buys or sells. */
  lemma {:induction false} RowsComeFromGoods(langLut: Option<LanguageTable>, keys: seq<string>, traders: seq<TraderList>, r: TradeRow)
    requires KeysOf(langLut, keys)
    requires r in UnsortedRows(langLut, keys, traders)
    ensures RowOfGood(langLut, keys, traders, r)
    decreases |traders|
  {
    var init := traders[..|traders| - 1];
    var last := traders[|traders| - 1];
    var before := UnsortedRows(langLut, keys, init);
    if r in before {
      RowsComeFromGoods(langLut, keys, init, r);
      var t, side, e :| t in init && e in Goods(t, side) && r == MakeRow(langLut, keys, t, side, e);
      assert t in traders;
    } else {
      var side := if r in ListRows(langLut, keys, last, Buying) then Buying else Selling;
      ListRowsMembers(langLut, keys, last, side, r);
      var e :| e in Goods(last, side) && r == MakeRow(langLut, keys, last, side, e);
      assert last in traders;
    }
  }

  /** Every good some trader buys or sells has its row. */
  lemma {:induction false} GoodsHaveRows(langLut: Option<LanguageTable>, keys: seq<string>, traders: seq<TraderList>, t: TraderList, side: Side, e: TradeListElement)
    requires KeysOf(langLut, keys)
    requires t in traders && e in Goods(t, side)
    ensures MakeRow(langLut, keys, t, side, e) in UnsortedRows(langLut, keys, traders)
    decreases |traders|
  {
    var init := traders[..|traders| - 1];
    var last := traders[|traders| - 1];
    var r := MakeRow(langLut, keys, t, side, e);
    if t in init {
      GoodsHaveRows(langLut, keys, init, t, side, e);
    } else {
      assert t == last;
      ListRowsMembers(langLut, keys, t, side, r);
    }
  }

  /** Every row's band is centred on the average price and is twice the variance wide. */
  lemma PriceBand(langLut: Option<LanguageTable>, keys: seq<string>, trader: TraderList, side: Side, e: TradeListElement)
    requires KeysOf(langLut, keys)
    ensures MakeRow(langLut, keys, trader, side, e).min + MakeRow(langLut, keys, trader, side, e).max == 2 * e.price.avg
    ensures MakeRow(langLut, keys, trader, side, e).max - MakeRow(langLut, keys, trader, side, e).min == 2 * e.price.spread
    ensures MakeRow(langLut, keys, trader, side, e).min <= MakeRow(langLut, keys, trader, side, e).max <==> e.price.spread >= 0
  {
  }

  // ------------------------------------------------------------- the build

  /** `processList` as a loop pushing into the row list. */
  method ProcessList(langLut: Option<LanguageTable>, keys: seq<string>, trader: TraderList, side: Side, rows: seq<TradeRow>)
    returns (rows': seq<TradeRow>)
    requires KeysOf(langLut, keys)
    ensures rows' == rows + ListRows(langLut, keys, trader, side)
  {
    var goods := Goods(trader, side);
    rows' := rows;
    for k := 0 to |goods|
      invariant rows' == rows + ListRows(langLut, keys, trader, side)[..k]
    {
      var (traderName, traderNameError) := TraderName(langLut, trader);
      var name, nameError := DetermineItemName(langLut, keys, goods[k]);
      var e := goods[k];
      rows' := rows' + [TradeRow(trader.traderType, traderName, traderNameError, trader.traderCode, side, e.code, name, nameError,
                                 e.stacksize, e.price.avg - e.price.spread, e.price.avg + e.price.spread)];
      assert ListRows(langLut, keys, trader, side)[..k + 1] == ListRows(langLut, keys, trader, side)[..k] + [MakeRow(langLut, keys, trader, side, e)];
    }
    assert ListRows(langLut, keys, trader, side)[..|goods|] == ListRows(langLut, keys, trader, side);
  }

  /** `tradelists.forEach(...)`: the rows of every trader, in order. */
  method CollectRows(langLut: Option<LanguageTable>, keys: seq<string>, traders: seq<TraderList>) returns (rows: seq<TradeRow>)
    requires KeysOf(langLut, keys)
    ensures rows == UnsortedRows(langLut, keys, traders)
  {
    rows := [];
    for t := 0 to |traders|
      invariant rows == UnsortedRows(langLut, keys, traders[..t])
    {
      assert traders[..t + 1][..t] == traders[..t];
      rows := ProcessList(langLut, keys, traders[t], Buying, rows);
      rows := ProcessList(langLut, keys, traders[t], Selling, rows);
    }
    assert traders[..|traders|] == traders;
  }

  /** Rows in ascending order of good code. */
  predicate SortedByCode(rows: seq<TradeRow>) {
    forall p, q :: 0 <= p < q < |rows| ==> LexLe(rows[p].code, rows[q].code)
  }

  /** While `s[j]` moves left: the rows up to `i` other than `s[j]` are in order. */
  ghost predicate SortedApart(s: seq<TradeRow>, i: nat, j: nat)
    requires i < |s|
  {
    forall p, q :: 0 <= p < q <= i && p != j && q != j ==> LexLe(s[p].code, s[q].code)
  }

  /** While `s[j]` moves left: it is not above any row it has passed. */
  ghost predicate BelowPassed(s: seq<TradeRow>, i: nat, j: nat)
    requires j <= i < |s|
  {
    forall q :: j < q <= i ==> LexLe(s[j].code, s[q].code)
  }

  /** Swapping the moving row with a greater neighbour keeps both facts, one place further left. */
  lemma SwapStep(s: seq<TradeRow>, i: nat, j: nat)
    requires 0 < j <= i < |s|
    requires SortedApart(s, i, j) && BelowPassed(s, i, j)
    requires !LexLe(s[j - 1].code, s[j].code)
    ensures SortedApart(s[j - 1 := s[j]][j := s[j - 1]], i, j - 1)
    ensures BelowPassed(s[j - 1 := s[j]][j := s[j - 1]], i, j - 1)
    ensures multiset(s[j - 1 := s[j]][j := s[j - 1]]) == multiset(s)
  {
    var s' := s[j - 1 := s[j]][j := s[j - 1]];
    LexLeTotal(s[j - 1].code, s[j].code);
    forall q | j - 1 < q <= i ensures LexLe(s'[j - 1].code, s'[q].code) {
      if q > j {
        assert s'[q] == s[q];
      }
    }
    forall p, q | 0 <= p < q <= i && p != j - 1 && q != j - 1 ensures LexLe(s'[p].code, s'[q].code) {
      if p == j {
        assert s'[p] == s[j - 1] && s'[q] == s[q];
      } else if q == j {
        assert s'[p] == s[p] && s'[q] == s[j - 1];
      } else {
        assert s'[p] == s[p] && s'[q] == s[q];
      }
    }
  }

  /** Once the moving row is not below its left neighbour, the first `i + 1` rows are in order. */
  lemma InsertDone(s: seq<TradeRow>, i: nat, j: nat)
    requires j <= i < |s|
    requires SortedApart(s, i, j) && BelowPassed(s, i, j)
    requires j == 0 || LexLe(s[j - 1].code, s[j].code)
    ensures SortedByCode(s[..i + 1])
  {
    forall p, q | 0 <= p < q <= i ensures LexLe(s[p].code, s[q].code) {
      if p == j {
      } else if q == j {
        if p < j - 1 {
          LexLeTransitive(s[p].code, s[j - 1].code, s[j].code);
        }
      }
    }
  }

  /** Moves `a[i]` left into the sorted prefix `a[..i]`. */
  method InsertLast(a: array<TradeRow>, i: nat)
    requires i < a.Length && SortedByCode(a[..i])
    modifies a
    ensures SortedByCode(a[..i + 1])
    ensures multiset(a[..]) == multiset(old(a[..]))
  {
    var j := i;
    assert SortedApart(a[..], i, j);
    while j > 0 && !LexLe(a[j - 1].code, a[j].code)
      invariant 0 <= j <= i
      invariant multiset(a[..]) == multiset(old(a[..]))
      invariant SortedApart(a[..], i, j) && BelowPassed(a[..], i, j)
    {
      SwapStep(a[..], i, j);
      a[j - 1], a[j] := a[j], a[j - 1];
      j := j - 1;
    }
    InsertDone(a[..], i, j);
  }

  /** `trades.sort((a, b) => a.code.localeCompare(b.code))`, in place. */
  method SortByCode(a: array<TradeRow>)
    modifies a
    ensures SortedByCode(a[..])
    ensures multiset(a[..]) == multiset(old(a[..]))
  {
    var i := 0;
    while i < a.Length
      invariant 0 <= i <= a.Length
      invariant SortedByCode(a[..i])
      invariant multiset(a[..]) == multiset(old(a[..]))
    {
      InsertLast(a, i);
      i := i + 1;
    }
    assert a[..i] == a[..];
  }

  /** What the component shows: a message when the language has no table, otherwise the sorted rows. */
  datatype TableView = MissingLanguage(lang: string) | Grid(rows: seq<TradeRow>)

  /** `TradeListTable`: builds the rows for the chosen language's table, sorts them, and renders. */
  method TradeListTable(lang: string, assets: Assets, keys: seq<string>) returns (v: TableView)
    requires KeysOf(if lang in assets.lut then Some(assets.lut[lang]) else None, keys)
    ensures v.MissingLanguage? <==> lang !in assets.lut
    ensures v.Grid? ==> SortedByCode(v.rows)
    ensures v.Grid? ==> multiset(v.rows) == multiset(UnsortedRows(Some(assets.lut[lang]), keys, assets.tradelists))
  {
    var langLut := if lang in assets.lut then Some(assets.lut[lang]) else None;
    var trades := CollectRows(langLut, keys, assets.tradelists);
    var a := new TradeRow[|trades|](k requires 0 <= k < |trades| => trades[k]);
    assert a[..] == trades;
    SortByCode(a);
    if langLut.None? {
      return MissingLanguage(lang);
    }
    return Grid(a[..]);
  }
}

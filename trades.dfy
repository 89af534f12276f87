/**
 * Reading the game server archive (src/app/trades/page.tsx): every tar
 * entry is sent to the trade-list parser, the language parser or drained,
 * by its name alone; trade lists are appended to the server's list with
 * the trader type and code taken from the file name, language tables are
 * stored under the code taken from the file name.
 *
 * Downloading, gunzip and tar streaming, `JSON.parse` and the zod schemas
 * are not modelled: an entry arrives with what parsing its body as a trade
 * list and as a language table yields (None when parsing or validation
 * fails).  Entries are handled one after another, as the extractor waits
 * for each entry's callback before the next.
 */
module Trades {
  import opened Wrappers
  import opened Strings

  /** A `{ avg, var }` pair of the trade-list files (`var` is spelled `spread` here). */
  datatype Variance = Variance(avg: int, spread: int)

  datatype ElementType = Block | Item

  /** One good a trader buys or sells (`type` is spelled `itemType` here). */
  datatype TradeListElement = TradeListElement(code: string, itemType: ElementType, stacksize: int, stock: Variance, price: Variance)

  datatype ElementList = ElementList(maxItems: int, list: seq<TradeListElement>)

  /** The validated body of a trade-list file. */
  datatype TradeList = TradeList(money: Variance, selling: ElementList, buying: ElementList)

  datatype TraderType = Villager | Trader

  /**
   * A stored trade list.  `traderCode` is the second piece of the file name split on '-', which
   * is `undefined` (None) when the name has no '-'.
   */
  datatype TraderList = TraderList(filePath: string, traderCode: Option<string>, traderType: TraderType, trades: TradeList)

  /** A language file: translation key to text. */
  type LanguageTable = map<string, string>

  /** A tar entry: its name, and what its body yields read as a trade list or as a language table. */
  datatype Entry = Entry(name: string, asTradeList: Option<TradeList>, asLanguageTable: Option<LanguageTable>)

  const TradeListPathPrefix: string := "assets/survival/config/tradelists/"
  const LangPathPrefix: string := "assets/game/lang"

  // ---------------------------------------------------------- classification

  /** The three entry handlers. */
  datatype Handler = ParseTradeList | ParseLanguage | Drain

  /** `parseVsServerFile`'s choice of handler. */
  function Classify(name: string): (h: Handler)
    ensures StartsWith(name, TradeListPathPrefix) && EndsWith(name, ".json") ==> h == ParseTradeList
    ensures h == ParseTradeList ==> StartsWith(name, TradeListPathPrefix) && EndsWith(name, ".json")
    ensures h == ParseLanguage ==> StartsWith(name, LangPathPrefix) && EndsWith(name, ".json")
    ensures h == ParseLanguage ==> name != LangPathPrefix + "/languages.json" && name != LangPathPrefix + "/ro.json"
    ensures !EndsWith(name, ".json") ==> h == Drain
  {
    if StartsWith(name, TradeListPathPrefix) && EndsWith(name, ".json") then ParseTradeList
    else if name == LangPathPrefix + "/languages.json" then Drain
    else if name == LangPathPrefix + "/ro.json" then Drain
    else if StartsWith(name, LangPathPrefix) && EndsWith(name, ".json") then ParseLanguage
    else Drain
  }

  /** The language list and the Romanian file are never parsed. */
  lemma SkippedLanguageFiles()
    ensures Classify("assets/game/lang/languages.json") == Drain
    ensures Classify("assets/game/lang/ro.json") == Drain
  {
    assert !StartsWith("assets/game/lang/languages.json", TradeListPathPrefix) by {
      assert "assets/game/lang/languages.json"[7] != TradeListPathPrefix[7];
    }
    assert !StartsWith("assets/game/lang/ro.json", TradeListPathPrefix) by {
      assert "assets/game/lang/ro.json"[7] != TradeListPathPrefix[7];
    }
  }

  // ----------------------------------------------------------- trade lists

  /** The file name between the trade-list folder and ".json". */
  function TraderStem(name: string): (stem: string)
    ensures |TradeListPathPrefix| + |".json"| <= |name| ==> stem == name[|TradeListPathPrefix|..|name| - |".json"|]
  {
    Substring(name, |TradeListPathPrefix|, |name| - |".json"|)
  }

  /** `const [traderTypeRaw, traderCode] = stem.split("-")`: the first two pieces, the rest dropped. */
  function TraderFields(stem: string): (r: (string, Option<string>))
    ensures '-' !in r.0
    ensures r.1.Some? ==> '-' !in r.1.value
  {
    var parts := Split(stem, '-');
    (parts[0], if |parts| >= 2 then Some(parts[1]) else None)
  }

  /** The code is missing exactly when the stem has no '-'. */
  lemma TraderCodeMissing(stem: string)
    ensures TraderFields(stem).1.None? <==> '-' !in stem
    ensures TraderFields(stem).1.None? ==> TraderFields(stem).0 == stem
  {
    var parts := Split(stem, '-');
    JoinSplit(stem, '-');
    if '-' !in stem {
      SplitWithout(stem, '-');
    }
  }

  /** A name "type-code" or "type-code-more" gives back the type and the code; further pieces are dropped. */
  lemma TraderFieldsOf(t: string, code: string, more: Option<string>)
    requires '-' !in t && '-' !in code
    ensures more.None? ==> TraderFields(t + "-" + code) == (t, Some(code))
    ensures more.Some? ==> TraderFields(t + "-" + code + "-" + more.value) == (t, Some(code))
  {
    SplitWithout(t, '-');
    SplitWithout(code, '-');
    if more.None? {
      SplitAround(t, '-', code);
      assert t + "-" + code == t + ['-'] + code;
    } else {
      var m := more.value;
      SplitAround(code, '-', m);
      SplitAround(t, '-', code + "-" + m);
      assert t + "-" + code + "-" + m == t + ['-'] + (code + ['-'] + m);
      assert code + "-" + m == code + ['-'] + m;
    }
  }

  /** `TraderTypeSchema.parse`: only "villager" and "trader" are accepted. */
  function ParseTraderType(raw: string): (t: Option<TraderType>)
    ensures t == Some(Villager) <==> raw == "villager"
    ensures t == Some(Trader) <==> raw == "trader"
  {
    if raw == "villager" then Some(Villager)
    else if raw == "trader" then Some(Trader)
    else None
  }

  /** What a trade-list entry contributes: nothing when the body or the trader type is rejected. */
  function TraderListOf(e: Entry): (r: Option<TraderList>)
    ensures r.Some? <==> e.asTradeList.Some? && ParseTraderType(TraderFields(TraderStem(e.name)).0).Some?
    ensures r.Some? ==> r.value.filePath == e.name && r.value.trades == e.asTradeList.value
    ensures r.Some? ==> r.value.traderCode == TraderFields(TraderStem(e.name)).1
    ensures r.Some? ==> Some(r.value.traderType) == ParseTraderType(TraderFields(TraderStem(e.name)).0)
  {
    if e.asTradeList.None? then None
    else
      var (typeRaw, code) := TraderFields(TraderStem(e.name));
      match ParseTraderType(typeRaw)
      case None => None
      case Some(t) => Some(TraderList(e.name, code, t, e.asTradeList.value))
  }

  /**
   * A file "<trade-list folder>/<type>-<code>.json" goes to the trade-list parser, which reads
   * back the type and the code.
   */
  lemma TraderFileName(t: string, code: string)
    requires '-' !in t && '-' !in code
    ensures Classify(TradeListPathPrefix + t + "-" + code + ".json") == ParseTradeList
    ensures TraderFields(TraderStem(TradeListPathPrefix + t + "-" + code + ".json")) == (t, Some(code))
  {
    var stem := t + "-" + code;
    var name := TradeListPathPrefix + t + "-" + code + ".json";
    assert name == TradeListPathPrefix + stem + ".json";
    assert name[..|TradeListPathPrefix|] == TradeListPathPrefix;
    assert name[|name| - 5..] == ".json";
    assert TraderStem(name) == name[|TradeListPathPrefix|..|name| - 5] == stem;
    TraderFieldsOf(t, code, None);
  }

  // ---------------------------------------------------------------- languages

  /** `name.substring(langPathPrefix.length + 1, name.length - ".json".length)`. */
  function LangCode(name: string): (code: string)
    ensures |LangPathPrefix| + 1 + |".json"| <= |name| ==> code == name[|LangPathPrefix| + 1..|name| - |".json"|]
  {
    Substring(name, |LangPathPrefix| + 1, |name| - |".json"|)
  }

  /** A file "assets/game/lang/<code>.json" is parsed as a language, stored under `code`, unless it is one of the two skipped ones. */
  lemma LanguageFileCode(code: string)
    requires code != "languages" && code != "ro"
    ensures Classify(LangPathPrefix + "/" + code + ".json") == ParseLanguage
    ensures LangCode(LangPathPrefix + "/" + code + ".json") == code
  {
    var name := LangPathPrefix + "/" + code + ".json";
    assert name[..|LangPathPrefix|] == LangPathPrefix;
    assert name[|name| - 5..] == ".json";
    assert name[7] != TradeListPathPrefix[7];
    assert name[|LangPathPrefix| + 1..|name| - 5] == code;
    assert (LangPathPrefix + "/languages.json")[17..26] == "languages";
    assert (LangPathPrefix + "/ro.json")[17..19] == "ro";
  }

  /**
   * The language prefix has no trailing '/', so "assets/game/lang.json" is parsed as a language
   * too; its bounds cross, `substring` swaps them, and the table is stored under ".".
   */
  lemma LangFileBesideFolder()
    ensures Classify("assets/game/lang.json") == ParseLanguage
    ensures LangCode("assets/game/lang.json") == "."
  {
    var name := "assets/game/lang.json";
    assert name[7] != TradeListPathPrefix[7];
    assert name[..|LangPathPrefix|] == LangPathPrefix;
    assert name[|name| - 5..] == ".json";
  }

  // ---------------------------------------------------------------- the archive

  /** The part of the server object the entries fill in. */
  datatype Assets = Assets(tradelists: seq<TraderList>, lut: map<string, LanguageTable>)

  /** The effect of one entry once its stream has ended. */
  function AfterEntry(s: Assets, e: Entry): Assets {
    match Classify(e.name)
    case ParseTradeList =>
      if TraderListOf(e).Some? then s.(tradelists := s.tradelists + [TraderListOf(e).value]) else s
    case ParseLanguage =>
      if e.asLanguageTable.Some? then s.(lut := s.lut[LangCode(e.name) := e.asLanguageTable.value]) else s
    case Drain => s
  }

  /** The effect of the entries in archive order. */
  function AfterEntries(s: Assets, entries: seq<Entry>): Assets
    decreases |entries|
  {
    if |entries| == 0 then s
    else AfterEntry(AfterEntries(s, entries[..|entries| - 1]), entries[|entries| - 1])
  }

  /** An accepted trade list is appended at the end; a rejected one (bad body or trader type) changes nothing. */
  lemma AppendOnSuccess(s: Assets, e: Entry)
    requires Classify(e.name) == ParseTradeList
    ensures TraderListOf(e).Some? ==> AfterEntry(s, e) == s.(tradelists := s.tradelists + [TraderListOf(e).value])
    ensures TraderListOf(e).None? ==> AfterEntry(s, e) == s
    ensures ParseTraderType(TraderFields(TraderStem(e.name)).0).None? ==> AfterEntry(s, e) == s
  {
  }

  /** Trade lists only ever grow: earlier ones keep their place. */
  lemma {:induction false} TradeListsGrow(s: Assets, entries: seq<Entry>)
    ensures |s.tradelists| <= |AfterEntries(s, entries).tradelists|
    ensures AfterEntries(s, entries).tradelists[..|s.tradelists|] == s.tradelists
    decreases |entries|
  {
    if |entries| > 0 {
      var prev := AfterEntries(s, entries[..|entries| - 1]);
      TradeListsGrow(s, entries[..|entries| - 1]);
      var next := AfterEntry(prev, entries[|entries| - 1]);
      if next.tradelists != prev.tradelists {
        assert next.tradelists[..|prev.tradelists|] == prev.tradelists;
        assert next.tradelists[..|s.tradelists|] == prev.tradelists[..|s.tradelists|];
      }
    }
  }

  /** Every stored trade list comes from one entry of the archive that the trade-list parser accepted. */
  lemma {:induction false} TradeListProvenance(entries: seq<Entry>, t: TraderList)
    requires t in AfterEntries(Assets([], map[]), entries).tradelists
    ensures exists k :: 0 <= k < |entries| && Classify(entries[k].name) == ParseTradeList && TraderListOf(entries[k]) == Some(t)
    decreases |entries|
  {
    var init := entries[..|entries| - 1];
    var last := entries[|entries| - 1];
    var prev := AfterEntries(Assets([], map[]), init);
    if t in prev.tradelists {
      TradeListProvenance(init, t);
      var k :| 0 <= k < |init| && Classify(init[k].name) == ParseTradeList && TraderListOf(init[k]) == Some(t);
      assert entries[k] == init[k];
    } else {
      assert Classify(last.name) == ParseTradeList && TraderListOf(last) == Some(t);
    }
  }

  /** A stored language table comes from a language entry whose name gives its code. */
  lemma {:induction false} LanguageProvenance(entries: seq<Entry>, code: string)
    requires code in AfterEntries(Assets([], map[]), entries).lut
    ensures exists k :: 0 <= k < |entries| && Classify(entries[k].name) == ParseLanguage && LangCode(entries[k].name) == code
    decreases |entries|
  {
    var init := entries[..|entries| - 1];
    var last := entries[|entries| - 1];
    var prev := AfterEntries(Assets([], map[]), init);
    if code in prev.lut {
      LanguageProvenance(init, code);
      var k :| 0 <= k < |init| && Classify(init[k].name) == ParseLanguage && LangCode(init[k].name) == code;
      assert entries[k] == init[k];
    } else {
      assert Classify(last.name) == ParseLanguage && LangCode(last.name) == code;
    }
  }

  /** Of two files with the same language code, the later one's table is kept. */
  lemma LaterLanguageFileWins(s: Assets, entries: seq<Entry>, e: Entry)
    requires Classify(e.name) == ParseLanguage && e.asLanguageTable.Some?
    ensures AfterEntries(s, entries + [e]).lut[LangCode(e.name)] == e.asLanguageTable.value
  {
    assert (entries + [e])[..|entries|] == entries;
  }

  // -------------------------------------------------------------- the server

  /** The server object `parseVsServer` fills while extracting the archive. */
  class VsServer {
    const serverBranch: string
    const serverVersion: string
    var tradelists: seq<TraderList>
    var lut: map<string, LanguageTable>

    function Contents(): Assets
      reads this
    {
      Assets(tradelists, lut)
    }

    constructor (branch: string, version: string)
      ensures serverBranch == branch && serverVersion == version
      ensures Contents() == Assets([], map[])
    {
      serverBranch := branch;
      serverVersion := version;
      tradelists := [];
      lut := map[];
    }

    /** `parseVsServerFile` for one entry, up to the end of its stream. */
    method ParseVsServerFile(e: Entry)
      modifies this
      ensures Contents() == AfterEntry(old(Contents()), e)
    {
      var name := e.name;
      if StartsWith(name, TradeListPathPrefix) && EndsWith(name, ".json") {
        if e.asTradeList.Some? {
          var stem := Substring(name, |TradeListPathPrefix|, |name| - |".json"|);
          var (traderTypeRaw, traderCode) := TraderFields(stem);
          var traderType := ParseTraderType(traderTypeRaw);
          if traderType.Some? {
            tradelists := tradelists + [TraderList(name, traderCode, traderType.value, e.asTradeList.value)];
          }
        }
      } else if name == LangPathPrefix + "/languages.json" {
      } else if name == LangPathPrefix + "/ro.json" {
      } else if StartsWith(name, LangPathPrefix) && EndsWith(name, ".json") {
        var lang := Substring(name, |LangPathPrefix| + 1, |name| - |".json"|);
        if e.asLanguageTable.Some? {
          lut := lut[lang := e.asLanguageTable.value];
        }
      }
    }

    /** The extractor's `entry` events, one after another. */
    method ExtractEntries(entries: seq<Entry>)
      modifies this
      ensures Contents() == AfterEntries(old(Contents()), entries)
    {
      var k := 0;
      while k < |entries|
        invariant 0 <= k <= |entries|
        invariant Contents() == AfterEntries(old(Contents()), entries[..k])
      {
        assert entries[..k + 1][..k] == entries[..k];
        ParseVsServerFile(entries[k]);
        k := k + 1;
      }
      assert entries[..k] == entries;
    }
  }
}

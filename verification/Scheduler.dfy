/**
 Pair ownership in one tick of the strategy scheduler (services/trade-api/src/scheduler.ts with the
 name normalisation of registry/exchanges.ts and registry/pairs.ts and the runner lookup of
 strategies/runner.ts). The configs read at the start of the tick and what each runner does are inputs;
 database calls succeed.
 */
module Scheduler {
  import opened Wrappers
  import opened Text

  // ---------- Exchanges ----------

  /** The alias table is a plain object, so the two lower-case names of its prototype are found as well. */
  function Alias(name: string): Option<string> {
    if name == "nonkyc" || name == "dextrade" || name == "nestex" then Some(name)
    else if name == "dex-trade" then Some("dextrade")
    else if name == "constructor" then Some("function Object() { [native code] }")
    else if name == "__proto__" then Some("[object Object]")
    else None
  }

  function NormalizeExchange(input: string): Option<string> {
    Alias(Lower(Trim(input)))
  }

  /** The exchanges of the registry. */
  predicate IsExchange(e: string) {
    e == "nonkyc" || e == "dextrade" || e == "nestex"
  }

  /** The names that only the prototype of the alias table knows. */
  predicate IsPrototypeName(e: string) {
    e == "constructor" || e == "__proto__"
  }

  /** The text is a spelling of the exchange's name: any letter case, any blanks around it, and Dex-Trade with or without its hyphen. */
  ghost predicate NamesExchange(text: string, e: string) {
    ((IsExchange(e) || IsPrototypeName(e)) && Spells(text, e)) || (e == "dextrade" && Spells(text, "dex-trade"))
  }

  lemma AliasNames()
    ensures SmallName("nonkyc") && SmallName("dextrade") && SmallName("nestex") && SmallName("dex-trade")
    ensures SmallName("constructor") && SmallName("__proto__")
  {
  }

  /** A text is known exactly when it is a spelling of an exchange or of one of the two prototype names, and names one thing only. */
  lemma ExchangeSpellings(text: string)
    ensures forall e :: IsExchange(e) ==> (NormalizeExchange(text) == Some(e) <==> NamesExchange(text, e))
    ensures forall e :: IsPrototypeName(e) ==> (NamesExchange(text, e) <==> Lower(Trim(text)) == e)
    ensures NormalizeExchange(text).Some? <==> exists e :: NamesExchange(text, e)
    ensures forall e, f :: NamesExchange(text, e) && NamesExchange(text, f) ==> e == f
  {
    AliasNames();
    LowerTrimIs(text, "nonkyc");
    LowerTrimIs(text, "dextrade");
    LowerTrimIs(text, "nestex");
    LowerTrimIs(text, "dex-trade");
    LowerTrimIs(text, "constructor");
    LowerTrimIs(text, "__proto__");
    hide Lower, Trim, Spells, SmallName;
    var name := Lower(Trim(text));
    if NormalizeExchange(text).Some? {
      assert NamesExchange(text, if name == "dex-trade" then "dextrade" else name);
    }
  }

  /** Two texts are the same exchange exactly when both spell its name. */
  lemma SameExchange(a: string, b: string)
    ensures NormalizeExchange(a).Some? && NormalizeExchange(a) == NormalizeExchange(b) <==>
            exists e :: NamesExchange(a, e) && NamesExchange(b, e)
  {
    ExchangeSpellings(a);
    ExchangeSpellings(b);
    hide Lower, Trim, NamesExchange;
    if e :| NamesExchange(a, e) && NamesExchange(b, e) {
      NamedIs(a, e);
      NamedIs(b, e);
    }
    if NormalizeExchange(a).Some? && NormalizeExchange(a) == NormalizeExchange(b) {
      var e, f :| NamesExchange(a, e) && NamesExchange(b, f);
      NamedIs(a, e);
      NamedIs(b, f);
    }
  }

  lemma NamedIs(text: string, e: string)
    requires NamesExchange(text, e)
    ensures NormalizeExchange(text) == Alias(e) && Alias(e).Some?
    ensures IsExchange(e) || IsPrototypeName(e)
  {
    ExchangeSpellings(text);
    hide Lower, Trim, Spells;
  }

  // ---------- Pairs ----------

  function SlashChar(c: char): char {
    if c == '_' then '/' else c
  }

  function NormalizePairInput(input: string): string {
    Remove(Mapped(Upper(Trim(input)), SlashChar), IsSpace)
  }

  predicate EndsWith(s: string, end: string) {
    |end| <= |s| && s[|s| - |end|..] == end
  }

  /** The part of parsePair for an input with a slash. */
  function ParseAssets(s: string): Option<string>
    requires '/' in s
  {
    var at := IndexOf(s, '/');
    var base, quote := s[..at], s[at + 1..];
    if '/' in quote || base == "" || quote == "" then None
    else if base != "PEPEW" || (quote != "USDT" && quote != "BNB") then None
    else Some(base + "/" + quote)
  }

  /** parsePair, with None for every RegistryError. */
  function ParsePair(input: string): Option<string>
    decreases '/' !in NormalizePairInput(input)
  {
    hide NormalizePairInput;
    var s := NormalizePairInput(input);
    if '/' in s then ParseAssets(s)
    else if EndsWith(s, "USDT") then
      SlashSurvives(s[..|s| - 4], "/USDT");
      ParsePair(s[..|s| - 4] + "/USDT")
    else if EndsWith(s, "BNB") then
      SlashSurvives(s[..|s| - 3], "/BNB");
      ParsePair(s[..|s| - 3] + "/BNB")
    else None
  }

  lemma SlashSurvives(a: string, b: string)
    requires b != "" && b[0] == '/' && !IsSpace(b[|b| - 1])
    ensures '/' in NormalizePairInput(a + b)
  {
    var s := a + b;
    TrimKeeps(s, '/');
    var t := Mapped(Upper(Trim(s)), SlashChar);
    var i :| 0 <= i < |Trim(s)| && Trim(s)[i] == '/';
    assert t[i] == '/';
    RemoveKeeps(t, IsSpace, '/');
  }

  lemma {:induction false} TrimStartKeeps(s: string, c: char)
    requires c in s && !IsSpace(c)
    ensures c in TrimStart(s)
  {
    if IsSpace(s[0]) {
      TrimStartKeeps(s[1..], c);
    }
  }

  lemma {:induction false} TrimEndKeeps(s: string, c: char)
    requires c in s && !IsSpace(c)
    ensures c in TrimEnd(s)
  {
    if IsSpace(s[|s| - 1]) {
      TrimEndKeeps(s[..|s| - 1], c);
    }
  }

  lemma TrimKeeps(s: string, c: char)
    requires c in s && !IsSpace(c)
    ensures c in Trim(s)
  {
    TrimStartKeeps(s, c);
    TrimEndKeeps(TrimStart(s), c);
  }

  lemma {:induction false} RemoveKeeps(s: string, drop: char -> bool, c: char)
    ensures c in Remove(s, drop) <==> c in s && !drop(c)
  {
    if s != [] {
      RemoveKeeps(s[1..], drop, c);
      assert s == [s[0]] + s[1..];
    }
  }

  /** A character that normalising a pair leaves alone. */
  predicate Plain(c: char) {
    !IsSpace(c) && UpperChar(c) == c && c != '_'
  }

  lemma NormalizedPlain(input: string)
    ensures forall c :: c in NormalizePairInput(input) ==> Plain(c)
  {
    var t := Mapped(Upper(Trim(input)), SlashChar);
    forall c | c in NormalizePairInput(input)
      ensures Plain(c)
    {
      RemoveKeeps(t, IsSpace, c);
      var i :| 0 <= i < |t| && t[i] == c;
      assert t[i] == SlashChar(UpperChar(Trim(input)[i]));
    }
  }

  lemma NormalizeFixed(s: string)
    requires forall c :: c in s ==> Plain(c)
    ensures NormalizePairInput(s) == s
  {
    assert forall i :: 0 <= i < |s| ==> s[i] in s && Plain(s[i]);
    TrimNothing(s);
    assert Upper(s) == s;
    assert Mapped(s, SlashChar) == s;
    RemoveNothing(s, IsSpace);
  }

  lemma AssetsOf(s: string)
    requires '/' in s
    ensures ParseAssets(s) == if s == "PEPEW/USDT" || s == "PEPEW/BNB" then Some(s) else None
  {
    hide IndexOf;
    var at := IndexOf(s, '/');
    assert s == s[..at] + "/" + s[at + 1..];
    IndexOfJoin("PEPEW", '/', "USDT");
    IndexOfJoin("PEPEW", '/', "BNB");
    assert "PEPEW/USDT" == "PEPEW" + ['/'] + "USDT" && "PEPEW/BNB" == "PEPEW" + ['/'] + "BNB";
  }

  predicate IsQuote(quote: string) {
    quote == "USDT" || quote == "BNB"
  }

  lemma LastChar(s: string, end: string)
    requires end != ""
    ensures EndsWith(s, end) ==> s[|s| - 1] == end[|end| - 1]
  {
  }

  lemma JoinedParse(input: string, base: string, quote: string)
    requires IsQuote(quote) && NormalizePairInput(input) == base + quote && '/' !in base + quote
    requires NormalizePairInput(base + "/" + quote) == base + "/" + quote && '/' in base + "/" + quote
    ensures ParsePair(input) == ParseAssets(base + "/" + quote)
  {
    hide NormalizePairInput, ParseAssets;
    var s := base + quote;
    assert s[..|s| - |quote|] == base && s[|s| - |quote|..] == quote;
    assert base + ("/" + quote) == base + "/" + quote;
    if quote == "BNB" {
      LastChar(s, "BNB");
      LastChar(s, "USDT");
    }
    assert "/" + "USDT" == "/USDT" && "/" + "BNB" == "/BNB" && base + ("/" + quote) == base + "/" + quote;
    assert ParsePair(input) == ParsePair(base + ("/" + quote));
    assert ParsePair(base + "/" + quote) == ParseAssets(base + "/" + quote);
  }

  /** An input without a slash is read as its base asset and its quote asset. */
  lemma JoinedPair(input: string, base: string, quote: string)
    requires IsQuote(quote) && NormalizePairInput(input) == base + quote
    requires '/' !in base + quote && forall c :: c in base + quote ==> Plain(c)
    ensures ParsePair(input) == if base == "PEPEW" then Some("PEPEW/" + quote) else None
  {
    hide NormalizePairInput, ParsePair, ParseAssets, Plain;
    NormalizeJoined(base, quote);
    JoinedParse(input, base, quote);
    AssetsOf(base + "/" + quote);
    SameMarket(base, "/", quote, "USDT");
    SameMarket(base, "/", quote, "BNB");
    assert "PEPEW" + "/" == "PEPEW/" && "PEPEW/" + "USDT" == "PEPEW/USDT" && "PEPEW/" + "BNB" == "PEPEW/BNB";
  }

  lemma NormalizeJoined(base: string, quote: string)
    requires forall c :: c in base + quote ==> Plain(c)
    ensures NormalizePairInput(base + "/" + quote) == base + "/" + quote && '/' in base + "/" + quote
  {
    var joined := base + "/" + quote;
    assert joined[|base|] == '/';
    forall c | c in joined
      ensures Plain(c)
    {
      assert c == '/' || c in base + quote;
    }
    NormalizeFixed(joined);
  }

  lemma SameSplit(a: string, b: string, c: string, d: string)
    ensures |b| == |d| && a + b == c + d ==> a == c && b == d
  {
    if |b| == |d| && a + b == c + d {
      assert a == (a + b)[..|a|] && b == (a + b)[|a|..];
    }
  }

  lemma SameMarket(base: string, separator: string, quote: string, other: string)
    requires IsQuote(quote) && IsQuote(other)
    ensures base + separator + quote == "PEPEW" + separator + other <==> base == "PEPEW" && quote == other
  {
    var a, b := base + separator + quote, "PEPEW" + separator + other;
    if a == b {
      assert a[|a| - 1] == quote[|quote| - 1] && b[|b| - 1] == other[|other| - 1];
      assert "USDT"[3] == 'T' && "BNB"[2] == 'B';
      assert base + separator + quote == base + (separator + quote);
      assert "PEPEW" + separator + other == "PEPEW" + (separator + other);
      SameSplit(base, separator + quote, "PEPEW", separator + other);
    }
  }

  /** A character of a pair's name: a letter may be small, and the slash may be an underscore. */
  predicate PairChar(c: char, u: char) {
    if u == '/' then c == '/' || c == '_' else CapitalOrSmall(c, u)
  }

  /** Without its blanks, wherever they stand, the text reads like the name. */
  predicate Reads(text: string, name: string) {
    if text == "" then name == ""
    else if IsSpace(text[0]) then Reads(text[1..], name)
    else name != "" && PairChar(text[0], name[0]) && Reads(text[1..], name[1..])
  }

  /** The text is a spelling of PEPEW's market in this quote asset. */
  predicate NamesPair(text: string, quote: string) {
    Reads(text, "PEPEW/" + quote) || Reads(text, "PEPEW" + quote)
  }

  /** What normalising makes of a text when its blanks are not trimmed first: the same. */
  function Untrimmed(text: string): string {
    Remove(Mapped(Upper(text), SlashChar), IsSpace)
  }

  lemma UntrimmedConcat(a: string, b: string)
    ensures Untrimmed(a + b) == Untrimmed(a) + Untrimmed(b)
  {
    assert Mapped(Upper(a + b), SlashChar) == Mapped(Upper(a), SlashChar) + Mapped(Upper(b), SlashChar);
    RemoveConcat(Mapped(Upper(a), SlashChar), Mapped(Upper(b), SlashChar), IsSpace);
  }

  lemma {:induction false} UntrimmedBlank(s: string)
    requires Blank(s)
    ensures Untrimmed(s) == ""
  {
    if s != "" {
      UntrimmedConcat([s[0]], s[1..]);
      UntrimmedBlank(s[1..]);
      UntrimmedChar(s[0]);
      assert s == [s[0]] + s[1..];
    } else {
      assert Mapped(Upper(s), SlashChar) == "";
    }
  }

  lemma UntrimmedChar(c: char)
    ensures Untrimmed([c]) == if IsSpace(c) then "" else [SlashChar(UpperChar(c))]
  {
    var t := Mapped(Upper([c]), SlashChar);
    assert t == [SlashChar(UpperChar(c))] && t[1..] == "";
    RemoveHead(t, IsSpace);
    RemoveHead("", IsSpace);
    SolidKept(c);
  }

  lemma SolidKept(c: char)
    ensures IsSpace(SlashChar(UpperChar(c))) <==> IsSpace(c)
  {
  }

  lemma TrimNotNeeded(text: string)
    ensures NormalizePairInput(text) == Untrimmed(text)
  {
    var before, after := TrimSplit(text);
    UntrimmedConcat(before + Trim(text), after);
    UntrimmedConcat(before, Trim(text));
    UntrimmedBlank(before);
    UntrimmedBlank(after);
  }

  /** A name of capital letters and at most a slash. */
  predicate PairName(name: string) {
    forall i :: 0 <= i < |name| ==> 'A' <= name[i] <= 'Z' || name[i] == '/'
  }

  lemma PairCharIs(c: char, u: char)
    requires ('A' <= u <= 'Z' || u == '/') && !IsSpace(c)
    ensures SlashChar(UpperChar(c)) == u <==> PairChar(c, u)
  {
  }

  lemma {:induction false} ReadsIff(text: string, name: string)
    requires PairName(name)
    ensures Untrimmed(text) == name <==> Reads(text, name)
  {
    hide Untrimmed, IsSpace, PairChar;
    if text == "" {
      UntrimmedBlank("");
    } else {
      assert text == [text[0]] + text[1..];
      UntrimmedConcat([text[0]], text[1..]);
      UntrimmedChar(text[0]);
      if IsSpace(text[0]) {
        ReadsIff(text[1..], name);
      } else if name != "" {
        PairCharIs(text[0], name[0]);
        ReadsIff(text[1..], name[1..]);
        assert name == [name[0]] + name[1..];
      }
    }
  }

  lemma NamesPairIff(text: string, quote: string)
    requires IsQuote(quote)
    ensures NamesPair(text, quote) <==> NormalizePairInput(text) == "PEPEW/" + quote || NormalizePairInput(text) == "PEPEW" + quote
  {
    hide Untrimmed, NormalizePairInput, Reads;
    TrimNotNeeded(text);
    ReadsIff(text, "PEPEW/" + quote);
    ReadsIff(text, "PEPEW" + quote);
  }

  /**
   Every spelling of a market and no other text names it: the case of the letters and the blanks are free, and
   between the assets stands a slash, an underscore or nothing. No text names two markets.
   */
  lemma PairSpellings(text: string)
    ensures forall quote :: IsQuote(quote) ==> (ParsePair(text) == Some("PEPEW/" + quote) <==> NamesPair(text, quote))
    ensures ParsePair(text).Some? <==> NamesPair(text, "USDT") || NamesPair(text, "BNB")
    ensures !(NamesPair(text, "USDT") && NamesPair(text, "BNB"))
  {
    hide ParsePair, NamesPair, NormalizePairInput;
    PairIs(text, "USDT");
    PairIs(text, "BNB");
    TwoPairs();
  }

  lemma PairIs(text: string, quote: string)
    requires IsQuote(quote)
    ensures ParsePair(text) == Some("PEPEW/" + quote) <==> NamesPair(text, quote)
    ensures ParsePair(text).Some? ==> ParsePair(text).value == "PEPEW/USDT" || ParsePair(text).value == "PEPEW/BNB"
  {
    hide ParsePair, NamesPair, NormalizePairInput;
    PairParsed(text, quote);
    NamesPairIff(text, quote);
  }

  lemma TwoPairs()
    ensures "PEPEW/" + "USDT" == "PEPEW/USDT" && "PEPEW/" + "BNB" == "PEPEW/BNB" && |"PEPEW/USDT"| != |"PEPEW/BNB"|
  {
  }

  lemma PairParsed(input: string, quote: string)
    requires IsQuote(quote)
    ensures var s := NormalizePairInput(input);
            ParsePair(input) == Some("PEPEW/" + quote) <==> s == "PEPEW/" + quote || s == "PEPEW" + quote
    ensures ParsePair(input).Some? ==> ParsePair(input).value == "PEPEW/USDT" || ParsePair(input).value == "PEPEW/BNB"
  {
    var s := NormalizePairInput(input);
    NormalizedPlain(input);
    hide NormalizePairInput, ParseAssets;
    assert ("PEPEW/" + quote)[5] == '/';
    if '/' in s {
      AssetsOf(s);
      assert '/' !in "PEPEW" + quote;
    } else if EndsWith(s, "USDT") {
      WithoutSlash(input, s[..|s| - 4], "USDT", quote);
    } else if EndsWith(s, "BNB") {
      WithoutSlash(input, s[..|s| - 3], "BNB", quote);
    } else {
      assert EndsWith("PEPEW" + quote, quote);
    }
  }

  lemma WithoutSlash(input: string, base: string, ending: string, quote: string)
    requires IsQuote(quote) && IsQuote(ending) && NormalizePairInput(input) == base + ending
    requires '/' !in base + ending && forall c :: c in base + ending ==> Plain(c)
    ensures ParsePair(input) == Some("PEPEW/" + quote) <==> base + ending == "PEPEW" + quote
    ensures ParsePair(input).Some? ==> ParsePair(input).value == "PEPEW/USDT" || ParsePair(input).value == "PEPEW/BNB"
  {
    hide NormalizePairInput, ParsePair, Plain;
    JoinedPair(input, base, ending);
    SameMarket(base, "", ending, quote);
    SameMarket("PEPEW", "/", ending, quote);
    assert "PEPEW/" + ending == "PEPEW" + "/" + ending && "PEPEW/" + quote == "PEPEW" + "/" + quote;
    assert base + "" + ending == base + ending && "PEPEW" + "" + quote == "PEPEW" + quote;
  }

  // ---------- A tick ----------

  datatype DevmmConfig = DevmmConfig(id: nat, exchange: string, symbol: string)

  datatype StrategyConfig = StrategyConfig(id: nat, strategy: string, exchange: string, pair: string)

  /** What a dispatched runner does to the enabled flags, and whether it throws. */
  datatype Effect = Effect(disables: set<nat>, throws: bool)

  /** What a tick does: the first three are for a market maker on a market that is taken. */
  datatype Action = Audit(id: nat) | Disable(id: nat) | CancelOrders(id: nat) | Dispatch(id: nat, runner: string) | DispatchDevmm(id: nat)

  function RunnerOf(strategy: string): Option<string> {
    var key := Upper(strategy);
    if key == "DCA" || key == "GRID" || key == "MM" || key == "DEVMM" then Some(key) else None
  }

  /** The market that a config names, in whatever spelling. */
  function MarketOf(exchange: string, pair: string): Option<(string, string)> {
    match (NormalizeExchange(exchange), ParsePair(pair))
    case (Some(e), Some(p)) => Some((e, p))
    case _ => None
  }

  /** Both configs spell the name of one exchange and one pair. */
  ghost predicate SameMarketNamed(exchange: string, pair: string, exchange': string, pair': string) {
    && (exists e :: NamesExchange(exchange, e) && NamesExchange(exchange', e))
    && (exists quote :: IsQuote(quote) && NamesPair(pair, quote) && NamesPair(pair', quote))
  }

  lemma SamePair(pair: string, pair': string)
    ensures ParsePair(pair).Some? && ParsePair(pair) == ParsePair(pair') <==>
            exists quote :: IsQuote(quote) && NamesPair(pair, quote) && NamesPair(pair', quote)
  {
    PairSpellings(pair);
    PairSpellings(pair');
    hide ParsePair, NamesPair;
    assert IsQuote("USDT") && IsQuote("BNB");
  }

  lemma SameMarketIff(exchange: string, pair: string, exchange': string, pair': string)
    ensures MarketOf(exchange, pair).Some? && MarketOf(exchange, pair) == MarketOf(exchange', pair') <==>
            SameMarketNamed(exchange, pair, exchange', pair')
  {
    SameExchange(exchange, exchange');
    SamePair(pair, pair');
    hide NormalizeExchange, ParsePair, NamesExchange, NamesPair;
  }

  /** The strategy is the runner's name in capital or small letters. */
  predicate NamesRunner(strategy: string, runner: string) {
    |strategy| == |runner| && forall k :: 0 <= k < |strategy| ==> CapitalOrSmall(strategy[k], runner[k])
  }

  predicate Owned(devmm: seq<DevmmConfig>, market: Option<(string, string)>) {
    market.Some? && exists d :: d in devmm && MarketOf(d.exchange, d.symbol) == market
  }

  /** A market-making config on a market that the development market maker holds. */
  predicate Collides(devmm: seq<DevmmConfig>, c: StrategyConfig) {
    Upper(c.strategy) == "MM" && Owned(devmm, MarketOf(c.exchange, c.pair))
  }

  function OccupancyKey(owner: string, exchange: string, pair: string): string {
    owner + "|" + exchange + "|" + pair
  }

  lemma KeyInjective(exchange: string, pair: string, exchange': string, pair': string)
    requires '|' !in exchange && '|' !in exchange' && OccupancyKey("*", exchange, pair) == OccupancyKey("*", exchange', pair')
    ensures exchange == exchange' && pair == pair'
  {
    var a, b := exchange + ['|'] + pair, exchange' + ['|'] + pair';
    assert OccupancyKey("*", exchange, pair)[2..] == a && OccupancyKey("*", exchange', pair')[2..] == b;
    IndexOfJoin(exchange, '|', pair);
    IndexOfJoin(exchange', '|', pair');
    assert exchange == a[..IndexOf(a, '|')] && pair == a[IndexOf(a, '|') + 1..];
  }

  lemma NoBar(input: string)
    ensures NormalizeExchange(input).Some? ==> '|' !in NormalizeExchange(input).value
  {
    hide Lower, Trim;
  }

  function ActionsFor(devmm: seq<DevmmConfig>, c: StrategyConfig): seq<Action> {
    if Collides(devmm, c) then [Audit(c.id), Disable(c.id), CancelOrders(c.id)]
    else match RunnerOf(c.strategy) case None => [] case Some(runner) => [Dispatch(c.id, runner)]
  }

  /** What the loop does for these configs, in order. */
  function Actions(devmm: seq<DevmmConfig>, configs: seq<StrategyConfig>): seq<Action> {
    if configs == [] then [] else Actions(devmm, configs[..|configs| - 1]) + ActionsFor(devmm, configs[|configs| - 1])
  }

  function DevmmActions(devmm: seq<DevmmConfig>): seq<Action> {
    if devmm == [] then [] else DevmmActions(devmm[..|devmm| - 1]) + [DispatchDevmm(devmm[|devmm| - 1].id)]
  }

  lemma {:induction false} ActionMember(devmm: seq<DevmmConfig>, configs: seq<StrategyConfig>, a: Action)
    ensures a in Actions(devmm, configs) <==> exists c :: c in configs && a in ActionsFor(devmm, c)
  {
    hide ActionsFor;
    if configs != [] {
      var front, last := configs[..|configs| - 1], configs[|configs| - 1];
      ActionMember(devmm, front, a);
      assert configs == front + [last];
    }
  }

  predicate KnownRunner(runner: string) {
    runner == "DCA" || runner == "GRID" || runner == "MM" || runner == "DEVMM"
  }

  /**
   A config reaches a runner exactly when its strategy spells that runner's name and, for the market maker, no
   DevMM config of the snapshot names the same market, whatever the spelling of strategy, exchange and pair.
   (Ids are primary keys.)
   */
  lemma DispatchedIff(devmm: seq<DevmmConfig>, configs: seq<StrategyConfig>, c: StrategyConfig, runner: string)
    requires c in configs && forall a, b :: a in configs && b in configs && a.id == b.id ==> a == b
    ensures Dispatch(c.id, runner) in Actions(devmm, configs) <==>
            && KnownRunner(runner) && NamesRunner(c.strategy, runner)
            && (runner == "MM" ==> forall d :: d in devmm ==> !SameMarketNamed(d.exchange, d.symbol, c.exchange, c.pair))
  {
    hide MarketOf, Upper, SameMarketNamed, NamesRunner, Actions;
    ActionMember(devmm, configs, Dispatch(c.id, runner));
    RunnerSpelled(c.strategy, runner);
    forall d | d in devmm
      ensures MarketOf(d.exchange, d.symbol).Some? && MarketOf(d.exchange, d.symbol) == MarketOf(c.exchange, c.pair) <==>
              SameMarketNamed(d.exchange, d.symbol, c.exchange, c.pair)
    {
      SameMarketIff(d.exchange, d.symbol, c.exchange, c.pair);
    }
  }

  lemma RunnerSpelled(strategy: string, runner: string)
    ensures KnownRunner(runner) ==> (Upper(strategy) == runner <==> NamesRunner(strategy, runner))
  {
    if KnownRunner(runner) {
      UpperIs(strategy, runner);
    }
  }

  function DisabledBy(devmm: seq<DevmmConfig>, c: StrategyConfig, e: Effect): set<nat> {
    if Collides(devmm, c) then {c.id} else if RunnerOf(c.strategy).Some? then e.disables else {}
  }

  /** The configs that the loop leaves disabled: colliding ones, and those that a dispatched runner disabled. */
  function Disabled(devmm: seq<DevmmConfig>, configs: seq<StrategyConfig>, effects: seq<Effect>): set<nat>
    requires |configs| == |effects|
  {
    if configs == [] then {}
    else
      var c := configs[|configs| - 1];
      Disabled(devmm, configs[..|configs| - 1], effects[..|configs| - 1]) + DisabledBy(devmm, c, effects[|configs| - 1])
  }

  lemma {:induction false} CollidingDisabled(devmm: seq<DevmmConfig>, configs: seq<StrategyConfig>, effects: seq<Effect>, i: nat)
    requires |configs| == |effects| && i < |configs| && Collides(devmm, configs[i])
    ensures configs[i].id in Disabled(devmm, configs, effects)
  {
    hide Owned, RunnerOf;
    if i < |configs| - 1 {
      CollidingDisabled(devmm, configs[..|configs| - 1], effects[..|configs| - 1], i);
    }
  }

  /** A config is left disabled exactly when it collides or a runner that was dispatched disabled it. */
  lemma {:induction false} DisabledIff(devmm: seq<DevmmConfig>, configs: seq<StrategyConfig>, effects: seq<Effect>, id: nat)
    requires |configs| == |effects|
    ensures id in Disabled(devmm, configs, effects) <==>
            exists i :: 0 <= i < |configs| && if Collides(devmm, configs[i]) then configs[i].id == id
                                              else RunnerOf(configs[i].strategy).Some? && id in effects[i].disables
  {
    hide Collides, RunnerOf;
    if configs != [] {
      DisabledIff(devmm, configs[..|configs| - 1], effects[..|configs| - 1], id);
    }
  }

  /** The loop acts in the order of the configs. */
  lemma {:induction false} ActionsInOrder(devmm: seq<DevmmConfig>, first: seq<StrategyConfig>, later: seq<StrategyConfig>)
    ensures Actions(devmm, first + later) == Actions(devmm, first) + Actions(devmm, later)
  {
    hide ActionsFor;
    if later == [] {
      assert first + later == first;
    } else {
      ActionsInOrder(devmm, first, later[..|later| - 1]);
      assert (first + later)[..|first + later| - 1] == first + later[..|later| - 1];
    }
  }

  /** The config is dispatched to a runner that throws. */
  predicate Stops(devmm: seq<DevmmConfig>, c: StrategyConfig, e: Effect) {
    !Collides(devmm, c) && RunnerOf(c.strategy).Some? && e.throws
  }

  /** The occupancy key of a market, if the names are known ones. */
  function KeyOf(exchange: string, pair: string): Option<string> {
    var market := MarketOf(exchange, pair);
    if market.Some? then Some(OccupancyKey("*", market.value.0, market.value.1)) else None
  }

  /** Equal keys mean equal markets. */
  lemma SameKey(exchange: string, pair: string, exchange': string, pair': string)
    requires KeyOf(exchange, pair).Some? && KeyOf(exchange, pair) == KeyOf(exchange', pair')
    ensures MarketOf(exchange, pair) == MarketOf(exchange', pair')
  {
    hide NormalizeExchange, ParsePair, OccupancyKey;
    NoBar(exchange);
    NoBar(exchange');
    var a, b := MarketOf(exchange, pair).value, MarketOf(exchange', pair').value;
    KeyInjective(a.0, a.1, b.0, b.1);
  }

  ghost predicate Occupies(occupancy: set<string>, devmm: seq<DevmmConfig>) {
    forall key :: key in occupancy <==> exists d :: d in devmm && KeyOf(d.exchange, d.symbol) == Some(key)
  }

  class StrategyScheduler {
    var enabled: set<nat>
    var log: seq<Action>

    method BuildOccupancy(devmm: seq<DevmmConfig>) returns (occupancy: set<string>)
      ensures Occupies(occupancy, devmm)
    {
      hide KeyOf;
      occupancy := {};
      for i := 0 to |devmm|
        invariant Occupies(occupancy, devmm[..i])
      {
        assert devmm[..i + 1] == devmm[..i] + [devmm[i]];
        var key := KeyOf(devmm[i].exchange, devmm[i].symbol);
        if key.Some? {
          occupancy := occupancy + {key.value};
        }
      }
      assert devmm[..|devmm|] == devmm;
    }

    /** The test of the loop, which compares occupancy keys. */
    method IsOwned(ghost devmm: seq<DevmmConfig>, occupancy: set<string>, c: StrategyConfig) returns (owned: bool)
      requires Occupies(occupancy, devmm)
      ensures owned == Collides(devmm, c)
    {
      hide MarketOf, OccupancyKey;
      var key := KeyOf(c.exchange, c.pair);
      owned := Upper(c.strategy) == "MM" && key.Some? && key.value in occupancy;
      forall d | d in devmm && key.Some? && KeyOf(d.exchange, d.symbol) == key
        ensures MarketOf(d.exchange, d.symbol) == MarketOf(c.exchange, c.pair)
      {
        SameKey(d.exchange, d.symbol, c.exchange, c.pair);
      }
    }

    /** The body of the loop. */
    method RunConfig(ghost devmm: seq<DevmmConfig>, occupancy: set<string>, c: StrategyConfig, e: Effect) returns (threw: bool)
      requires Occupies(occupancy, devmm)
      modifies this
      ensures log == old(log) + ActionsFor(devmm, c)
      ensures enabled == old(enabled) - DisabledBy(devmm, c, e)
      ensures threw <==> Stops(devmm, c, e)
    {
      hide Collides, Occupies;
      threw := false;
      var owned := IsOwned(devmm, occupancy, c);
      if owned {
        log := log + [Audit(c.id)];
        enabled := enabled - {c.id};
        log := log + [Disable(c.id)];
        log := log + [CancelOrders(c.id)];
        return;
      }
      var runner := RunnerOf(c.strategy);
      if runner.None? {
        return;
      }
      log := log + [Dispatch(c.id, runner.value)];
      enabled := enabled - e.disables;
      threw := e.throws;
    }

    /** The strategy loop of a tick, up to its end or to the config whose runner throws. */
    method RunTick(devmm: seq<DevmmConfig>, configs: seq<StrategyConfig>, effects: seq<Effect>) returns (passed: nat, threw: bool)
      requires |effects| == |configs|
      modifies this
      ensures if threw then passed < |configs| && Stops(devmm, configs[passed], effects[passed]) else passed == |configs|
      ensures forall i :: 0 <= i < passed ==> !Stops(devmm, configs[i], effects[i])
      ensures var n := if threw then passed + 1 else passed;
              && log == old(log) + Actions(devmm, configs[..n])
              && enabled == old(enabled) - Disabled(devmm, configs[..n], effects[..n])
      ensures forall i :: 0 <= i < passed && Collides(devmm, configs[i]) ==> configs[i].id !in enabled
    {
      hide Collides, Occupies, ActionsFor, DisabledBy, RunnerOf, Stops;
      var occupancy := BuildOccupancy(devmm);
      passed, threw := 0, false;
      while passed < |configs| && !threw
        invariant passed <= |configs|
        invariant threw ==> passed < |configs| && Stops(devmm, configs[passed], effects[passed])
        invariant forall i :: 0 <= i < passed ==> !Stops(devmm, configs[i], effects[i])
        invariant var n := if threw then passed + 1 else passed;
                  && log == old(log) + Actions(devmm, configs[..n])
                  && enabled == old(enabled) - Disabled(devmm, configs[..n], effects[..n])
        decreases |configs| - passed, !threw
      {
        ghost var after := configs[..passed + 1];
        assert after[..|after| - 1] == configs[..passed] && effects[..passed + 1][..|after| - 1] == effects[..passed];
        threw := RunConfig(devmm, occupancy, configs[passed], effects[passed]);
        if !threw {
          passed := passed + 1;
        }
      }
      ghost var n := if threw then passed + 1 else passed;
      forall i | 0 <= i < passed && Collides(devmm, configs[i])
        ensures configs[i].id !in enabled
      {
        CollidingDisabled(devmm, configs[..n], effects[..n], i);
      }
    }

    /** The loop over the DevMM configs, up to its end or to the config whose runner throws. */
    method RunDevmm(devmm: seq<DevmmConfig>, throws: seq<bool>) returns (started: nat)
      requires |throws| == |devmm|
      modifies this`log
      ensures started <= |devmm| && log == old(log) + DevmmActions(devmm[..started])
      ensures started < |devmm| ==> started > 0 && throws[started - 1]
      ensures forall i :: 0 <= i < started - 1 ==> !throws[i]
    {
      started := 0;
      while started < |devmm| && (started == 0 || !throws[started - 1])
        invariant started <= |devmm| && log == old(log) + DevmmActions(devmm[..started])
        invariant forall i :: 0 <= i < started - 1 ==> !throws[i]
      {
        assert devmm[..started + 1][..started] == devmm[..started];
        log := log + [DispatchDevmm(devmm[started].id)];
        started := started + 1;
      }
    }

    /** A whole tick: the DevMM configs get their turn whatever happens to the others, from a fresh reading. */
    method RunSchedulerTick(devmm: seq<DevmmConfig>, configs: seq<StrategyConfig>, effects: seq<Effect>,
                            devmmLater: seq<DevmmConfig>, throws: seq<bool>) returns (n: nat, started: nat)
      requires |effects| == |configs| && |throws| == |devmmLater|
      modifies this
      ensures n <= |configs| && (n < |configs| ==> n > 0 && Stops(devmm, configs[n - 1], effects[n - 1]))
      ensures forall i :: 0 <= i < n - 1 ==> !Stops(devmm, configs[i], effects[i])
      ensures started <= |devmmLater| && (started < |devmmLater| ==> started > 0 && throws[started - 1])
      ensures forall i :: 0 <= i < started - 1 ==> !throws[i]
      ensures log == old(log) + Actions(devmm, configs[..n]) + DevmmActions(devmmLater[..started])
      ensures enabled == old(enabled) - Disabled(devmm, configs[..n], effects[..n])
    {
      var passed, threw := RunTick(devmm, configs, effects);
      n := if threw then passed + 1 else passed;
      started := RunDevmm(devmmLater, throws);
    }
  }
}

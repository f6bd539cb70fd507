/** `RadicalDB` of main.py: the radical catalogue indexed by symbol and by
    variant, the cached component lists that jamdict gives for a kanji, the
    identification of every catalogued radical among those components, and the
    importance tiers. */
module Radicals {
  import opened Common

  /** One catalogue entry (the dictionaries of `RADICALS_DATA`). */
  datatype Radical = Radical(symbol: string, variants: seq<string>, meaningVn: string,
                             meaningEn: string, frequency: int, joyoFreq: int)

  /** One identified radical: `radical` is the canonical symbol, `foundAs`
      the variant through which it was found, `info` the catalogue entry. */
  datatype Match = Match(radical: string, foundAs: Option<string>, info: Radical)

  /** `RADICAL_BY_SYMBOL` after `_load` (main.py:998-1001): a later entry with
      the same symbol replaces an earlier one. */
  function SymbolIndex(cat: seq<Radical>): (m: map<string, Radical>)
    ensures m.Keys == set rad | rad in cat :: rad.symbol
  {
    if cat == [] then map[]
    else SymbolIndex(cat[..|cat| - 1])[cat[|cat| - 1].symbol := cat[|cat| - 1]]
  }

  /** Registering the variants of one entry, in order. */
  function AddVariants(m: map<string, Radical>, vars: seq<string>, rad: Radical): (m': map<string, Radical>)
    ensures m'.Keys == m.Keys + set v | v in vars
  {
    if vars == [] then m
    else AddVariants(m, vars[..|vars| - 1], rad)[vars[|vars| - 1] := rad]
  }

  /** `RADICAL_BY_VARIANT` after `_load`. */
  function VariantIndex(cat: seq<Radical>): map<string, Radical> {
    if cat == [] then map[]
    else AddVariants(VariantIndex(cat[..|cat| - 1]), cat[|cat| - 1].variants, cat[|cat| - 1])
  }

  /** Every symbol maps to an entry with that symbol, taken from the
      catalogue. */
  lemma {:induction false} SymbolIndexSound(cat: seq<Radical>)
    ensures forall s :: s in SymbolIndex(cat) ==> SymbolIndex(cat)[s].symbol == s && SymbolIndex(cat)[s] in cat
    decreases |cat|
  {
    if cat != [] {
      SymbolIndexSound(cat[..|cat| - 1]);
    }
  }

  lemma {:induction false} AddVariantsSound(m: map<string, Radical>, vars: seq<string>, rad: Radical)
    ensures forall v :: v in AddVariants(m, vars, rad) ==>
      (v in vars && AddVariants(m, vars, rad)[v] == rad) || (v !in vars && AddVariants(m, vars, rad)[v] == m[v])
    decreases |vars|
  {
    if vars != [] {
      AddVariantsSound(m, vars[..|vars| - 1], rad);
      assert vars == vars[..|vars| - 1] + [vars[|vars| - 1]];
    }
  }

  /** Every variant maps to a catalogue entry that lists it. */
  lemma {:induction false} VariantIndexSound(cat: seq<Radical>)
    ensures forall v :: v in VariantIndex(cat) ==> VariantIndex(cat)[v] in cat && v in VariantIndex(cat)[v].variants
    decreases |cat|
  {
    if cat != [] {
      var pre := cat[..|cat| - 1];
      var last := cat[|cat| - 1];
      VariantIndexSound(pre);
      AddVariantsSound(VariantIndex(pre), last.variants, last);
      assert forall r :: r in pre ==> r in cat;
    }
  }

  /** What a single component contributes, if anything (main.py:1178-1190):
      a catalogued symbol stands for itself, otherwise a variant stands for
      its entry and records the variant. */
  function MatchOf(bySymbol: map<string, Radical>, byVariant: map<string, Radical>, comp: string): (m: Option<Match>)
    ensures m.Some? <==> comp in bySymbol || comp in byVariant
    ensures m.Some? && comp in bySymbol ==> m.value == Match(comp, None, bySymbol[comp])
    ensures m.Some? && comp !in bySymbol ==>
      m.value == Match(byVariant[comp].symbol, Some(comp), byVariant[comp])
  {
    if comp in bySymbol then Some(Match(comp, None, bySymbol[comp]))
    else if comp in byVariant then Some(Match(byVariant[comp].symbol, Some(comp), byVariant[comp]))
    else None
  }

  /** The canonical symbols already collected. */
  function Symbols(results: seq<Match>): set<string> {
    set m | m in results :: m.info.symbol
  }

  /** The component loop of `identify_all_radicals`: a component whose entry
      has not been seen yet is added, in component order. */
  function Scan(bySymbol: map<string, Radical>, byVariant: map<string, Radical>, comps: seq<string>): seq<Match>
  {
    if comps == [] then []
    else
      var r := Scan(bySymbol, byVariant, comps[..|comps| - 1]);
      var m := MatchOf(bySymbol, byVariant, comps[|comps| - 1]);
      if m.Some? && m.value.info.symbol !in Symbols(r) then r + [m.value] else r
  }

  /** No canonical symbol occurs twice. */
  lemma {:induction false} ScanDistinct(bySymbol: map<string, Radical>, byVariant: map<string, Radical>, comps: seq<string>)
    ensures forall i, j :: 0 <= i < j < |Scan(bySymbol, byVariant, comps)| ==>
      Scan(bySymbol, byVariant, comps)[i].info.symbol != Scan(bySymbol, byVariant, comps)[j].info.symbol
    decreases |comps|
  {
    if comps != [] {
      var pre := comps[..|comps| - 1];
      ScanDistinct(bySymbol, byVariant, pre);
      var r := Scan(bySymbol, byVariant, pre);
      var m := MatchOf(bySymbol, byVariant, comps[|comps| - 1]);
      if m.Some? && m.value.info.symbol !in Symbols(r) {
        var r' := r + [m.value];
        forall i, j | 0 <= i < j < |r'| ensures r'[i].info.symbol != r'[j].info.symbol {
          if j == |r| {
            assert r'[i] == r[i] && r[i] in r;
            assert r[i].info.symbol in Symbols(r);
          } else {
            assert r'[i] == r[i] && r'[j] == r[j];
          }
        }
      }
    }
  }

  /** Every result is the contribution of some component, so a result carries
      `foundAs` exactly when it was reached through a variant. */
  lemma {:induction false} ScanSound(bySymbol: map<string, Radical>, byVariant: map<string, Radical>, comps: seq<string>)
    ensures forall m :: m in Scan(bySymbol, byVariant, comps) ==>
      exists k :: 0 <= k < |comps| && MatchOf(bySymbol, byVariant, comps[k]) == Some(m)
    decreases |comps|
  {
    if comps != [] {
      var pre := comps[..|comps| - 1];
      ScanSound(bySymbol, byVariant, pre);
      forall m | m in Scan(bySymbol, byVariant, comps)
        ensures exists k :: 0 <= k < |comps| && MatchOf(bySymbol, byVariant, comps[k]) == Some(m)
      {
        if m in Scan(bySymbol, byVariant, pre) {
          var k :| 0 <= k < |pre| && MatchOf(bySymbol, byVariant, pre[k]) == Some(m);
          assert comps[k] == pre[k];
        } else {
          assert MatchOf(bySymbol, byVariant, comps[|comps| - 1]) == Some(m);
        }
      }
    }
  }

  /** Components that name no catalogued radical contribute nothing. */
  lemma {:induction false} ScanNone(bySymbol: map<string, Radical>, byVariant: map<string, Radical>, comps: seq<string>)
    requires forall k :: 0 <= k < |comps| ==> MatchOf(bySymbol, byVariant, comps[k]).None?
    ensures Scan(bySymbol, byVariant, comps) == []
    decreases |comps|
  {
    if comps != [] {
      var pre := comps[..|comps| - 1];
      assert forall k :: 0 <= k < |pre| ==> pre[k] == comps[k];
      ScanNone(bySymbol, byVariant, pre);
    }
  }

  /** Every component that names a catalogued radical is represented. */
  lemma {:induction false} ScanComplete(bySymbol: map<string, Radical>, byVariant: map<string, Radical>, comps: seq<string>)
    ensures forall k :: 0 <= k < |comps| && MatchOf(bySymbol, byVariant, comps[k]).Some? ==>
      MatchOf(bySymbol, byVariant, comps[k]).value.info.symbol in Symbols(Scan(bySymbol, byVariant, comps))
    decreases |comps|
  {
    if comps != [] {
      var pre := comps[..|comps| - 1];
      ScanComplete(bySymbol, byVariant, pre);
      ScanPrefix(bySymbol, byVariant, comps, |comps| - 1);
      var r := Scan(bySymbol, byVariant, pre);
      var r' := Scan(bySymbol, byVariant, comps);
      forall k | 0 <= k < |comps| && MatchOf(bySymbol, byVariant, comps[k]).Some?
        ensures MatchOf(bySymbol, byVariant, comps[k]).value.info.symbol in Symbols(r')
      {
        if k < |pre| {
          assert comps[k] == pre[k];
          var s := MatchOf(bySymbol, byVariant, comps[k]).value.info.symbol;
          var m :| m in r && m.info.symbol == s;
          assert m == r'[IndexIn(r, m)];
        } else if r' != r {
          assert r'[|r|] in r';
        }
      }
    }
  }

  function IndexIn(r: seq<Match>, m: Match): (i: nat)
    requires m in r
    ensures i < |r| && r[i] == m
  {
    if r[0] == m then 0 else 1 + IndexIn(r[1..], m)
  }

  /** Results found among the first `n` components come first and are never
      displaced: the order of the results is the order of the components. */
  lemma {:induction false} ScanPrefix(bySymbol: map<string, Radical>, byVariant: map<string, Radical>, comps: seq<string>, n: nat)
    requires n <= |comps|
    ensures var r := Scan(bySymbol, byVariant, comps[..n]);
      var r' := Scan(bySymbol, byVariant, comps);
      |r| <= |r'| && r'[..|r|] == r
    decreases |comps| - n
  {
    if n < |comps| {
      ScanPrefix(bySymbol, byVariant, comps, n + 1);
      assert comps[..n + 1][..n] == comps[..n];
    } else {
      assert comps[..n] == comps;
    }
  }

  /** The component lookup of `_get_components` (main.py:1054-1074) on the
      old cache. `jamdict` is the NFKC-normalised component list of the
      first character jamdict returns, or None when jamdict is missing, fails
      or knows no character. Only a jamdict answer is cached. */
  function ComponentsStep(cache: map<string, seq<string>>, kanji: string, jamdict: Option<seq<string>>)
    : (r: (seq<string>, map<string, seq<string>>))
  {
    if kanji in cache then (cache[kanji], cache)
    else if jamdict.Some? then (jamdict.value, cache[kanji := jamdict.value])
    else ([], cache)
  }

  /** A cached list is returned as it is; an answer is cached and then served
      from the cache whatever jamdict would say next; a missing answer leaves
      the cache alone. */
  lemma ComponentsSpec(cache: map<string, seq<string>>, kanji: string,
                       jamdict: Option<seq<string>>, jamdict2: Option<seq<string>>)
    ensures var (comps, cache') := ComponentsStep(cache, kanji, jamdict);
      && (kanji in cache ==> comps == cache[kanji] && cache' == cache)
      && (kanji !in cache && jamdict.None? ==> comps == [] && cache' == cache)
      && (kanji !in cache && jamdict.Some? ==> comps == jamdict.value && cache' == cache[kanji := comps])
      && (jamdict.Some? ==> ComponentsStep(cache', kanji, jamdict2) == (comps, cache'))
  {
  }

  /** `identify_all_radicals` (main.py:1159-1199) on the old component cache;
      `main` is what `identify_radical` gives for the kanji. */
  function AllRadicals(bySymbol: map<string, Radical>, byVariant: map<string, Radical>,
                       cache: map<string, seq<string>>, kanji: string,
                       jamdict: Option<seq<string>>, main: Option<Match>)
    : (r: (seq<Match>, map<string, seq<string>>))
  {
    if kanji in bySymbol then ([Match(kanji, None, bySymbol[kanji])], cache)
    else
      var (comps, cache') := ComponentsStep(cache, kanji, jamdict);
      var found := Scan(bySymbol, byVariant, comps);
      if found != [] then (found, cache')
      else if main.Some? then ([main.value], cache')
      else ([], cache')
  }

  /** A kanji that is itself a catalogued radical yields only itself;
      otherwise, when some component names a catalogued radical, the results
      are the component scan, and the main radical is used only when none
      does. */
  lemma AllRadicalsSpec(bySymbol: map<string, Radical>, byVariant: map<string, Radical>,
                        cache: map<string, seq<string>>, kanji: string,
                        jamdict: Option<seq<string>>, main: Option<Match>)
    ensures var (results, _) := AllRadicals(bySymbol, byVariant, cache, kanji, jamdict, main);
      var comps := ComponentsStep(cache, kanji, jamdict).0;
      && (kanji in bySymbol ==> results == [Match(kanji, None, bySymbol[kanji])])
      && (kanji !in bySymbol && (exists k :: 0 <= k < |comps| && MatchOf(bySymbol, byVariant, comps[k]).Some?) ==>
            results == Scan(bySymbol, byVariant, comps))
      && (kanji !in bySymbol && (forall k :: 0 <= k < |comps| ==> MatchOf(bySymbol, byVariant, comps[k]).None?) ==>
            results == (if main.Some? then [main.value] else []))
  {
    var comps := ComponentsStep(cache, kanji, jamdict).0;
    ScanComplete(bySymbol, byVariant, comps);
    if forall k :: 0 <= k < |comps| ==> MatchOf(bySymbol, byVariant, comps[k]).None? {
      ScanNone(bySymbol, byVariant, comps);
    }
  }

  /** The tiers of `get_importance_label` (main.py:1078-1089), 0 the most
      important; a positive jōyō frequency wins over the general frequency. */
  function Tier(frequency: int, joyoFreq: int): (t: nat)
    ensures t <= 4
  {
    if joyoFreq > 0 then 0
    else if frequency >= 500 then 1
    else if frequency >= 200 then 2
    else if frequency >= 50 then 3
    else 4
  }

  function TierLabel(t: nat): string
    requires t <= 4
  {
    match t
    case 0 => "⭐ Thiết yếu"
    case 1 => "🔥 Rất phổ biến"
    case 2 => "📌 Phổ biến"
    case 3 => "📖 Thường gặp"
    case _ => "📝 Ít gặp"
  }

  function ImportanceLabel(frequency: int, joyoFreq: int): string {
    TierLabel(Tier(frequency, joyoFreq))
  }

  /** A more frequent radical never gets a lower tier, and every radical in
      the jōyō list is essential whatever its frequency. */
  lemma TierMonotone(f1: int, f2: int, joyoFreq: int)
    requires f1 <= f2
    ensures Tier(f2, joyoFreq) <= Tier(f1, joyoFreq)
    ensures joyoFreq > 0 ==> Tier(f1, joyoFreq) == 0
  {
  }

  /** The thresholds: each tier is exactly a frequency band. */
  lemma TierBands(frequency: int, joyoFreq: int)
    requires joyoFreq <= 0
    ensures Tier(frequency, joyoFreq) == 1 <==> 500 <= frequency
    ensures Tier(frequency, joyoFreq) == 2 <==> 200 <= frequency < 500
    ensures Tier(frequency, joyoFreq) == 3 <==> 50 <= frequency < 200
    ensures Tier(frequency, joyoFreq) == 4 <==> frequency < 50
  {
  }

  /** Two radicals get the same importance label exactly when they fall in
      the same tier. */
  lemma ImportanceLabelTellsTier(f1: int, j1: int, f2: int, j2: int)
    ensures ImportanceLabel(f1, j1) == ImportanceLabel(f2, j2) <==> Tier(f1, j1) == Tier(f2, j2)
  {
    if Tier(f1, j1) != Tier(f2, j2) {
      LabelsDistinct(Tier(f1, j1), Tier(f2, j2));
    }
  }

  /** The five labels differ, so the label tells the tier. */
  lemma LabelsDistinct(t1: nat, t2: nat)
    requires t1 <= 4 && t2 <= 4 && t1 != t2
    ensures TierLabel(t1) != TierLabel(t2)
  {
    assert TierLabel(t1)[0] != TierLabel(t2)[0];
  }

  /** The class with its two catalogue indexes and the component cache. */
  class RadicalDb {
    var bySymbol: map<string, Radical>
    var byVariant: map<string, Radical>
    var componentCache: map<string, seq<string>>

    /** `_load`: index the catalogue, restore the persisted component cache. */
    constructor (catalogue: seq<Radical>, persisted: map<string, seq<string>>)
      ensures bySymbol == SymbolIndex(catalogue) && byVariant == VariantIndex(catalogue)
      ensures componentCache == persisted
    {
      var symbols: map<string, Radical> := map[];
      var variants: map<string, Radical> := map[];
      var i := 0;
      while i < |catalogue|
        invariant 0 <= i <= |catalogue|
        invariant symbols == SymbolIndex(catalogue[..i]) && variants == VariantIndex(catalogue[..i])
      {
        var rad := catalogue[i];
        assert catalogue[..i + 1][..i] == catalogue[..i];
        symbols := symbols[rad.symbol := rad];
        var j := 0;
        while j < |rad.variants|
          invariant 0 <= j <= |rad.variants|
          invariant variants == AddVariants(VariantIndex(catalogue[..i]), rad.variants[..j], rad)
        {
          assert rad.variants[..j + 1][..j] == rad.variants[..j];
          variants := variants[rad.variants[j] := rad];
          j := j + 1;
        }
        assert rad.variants[..j] == rad.variants;
        i := i + 1;
      }
      assert catalogue[..i] == catalogue;
      bySymbol := symbols;
      byVariant := variants;
      componentCache := persisted;
    }

    /** `_get_components`. */
    method GetComponents(kanji: string, jamdict: Option<seq<string>>) returns (comps: seq<string>)
      modifies this`componentCache
      ensures (comps, componentCache) == ComponentsStep(old(componentCache), kanji, jamdict)
    {
      if kanji in componentCache {
        return componentCache[kanji];
      }
      comps := [];
      if jamdict.Some? {
        comps := jamdict.value;
        componentCache := componentCache[kanji := comps];
      }
    }

    /** `identify_all_radicals`, with its loop over the components and the
        set of symbols seen. */
    method IdentifyAllRadicals(kanji: string, jamdict: Option<seq<string>>, main: Option<Match>)
      returns (results: seq<Match>)
      modifies this`componentCache
      ensures (results, componentCache) == AllRadicals(bySymbol, byVariant, old(componentCache), kanji, jamdict, main)
    {
      if kanji in bySymbol {
        return [Match(kanji, None, bySymbol[kanji])];
      }
      var components := GetComponents(kanji, jamdict);
      results := [];
      var seenSymbols: set<string> := {};
      var i := 0;
      while i < |components|
        invariant 0 <= i <= |components|
        invariant results == Scan(bySymbol, byVariant, components[..i])
        invariant seenSymbols == Symbols(results)
      {
        var comp := components[i];
        assert components[..i + 1][..i] == components[..i];
        if comp in bySymbol {
          var rad := bySymbol[comp];
          if rad.symbol !in seenSymbols {
            seenSymbols := seenSymbols + {rad.symbol};
            results := results + [Match(comp, None, rad)];
          }
        } else if comp in byVariant {
          var rad := byVariant[comp];
          if rad.symbol !in seenSymbols {
            seenSymbols := seenSymbols + {rad.symbol};
            results := results + [Match(rad.symbol, Some(comp), rad)];
          }
        }
        i := i + 1;
      }
      assert components[..i] == components;
      if results != [] {
        return results;
      }
      if main.Some? {
        return [main.value];
      }
      return [];
    }
  }
}

/** The request bookkeeping of `_enrich_entry` and of the enrichment loop
    (main.py:2928-2952, 2979-3263): every entry resets the generator's flag,
    the enrichment steps run, and the loop waits for the rate-limit delay after
    an entry only when the flag is raised. Each step that can make a network
    request reports it through its own cache-or-fetch model; the steps whose
    services are not modelled here (example sentences and their audio, pitch,
    stroke order, word audio) enter as the requests they made. */
module Enrichment {
  import opened Common
  import opened Kana
  import Jisho
  import KanjiApi

  /** The switches of a run that matter for the flag. */
  datatype Options = Options(enrichEnglish: bool, offline: bool)

  /** Whether the other steps of the entry made a request: new example
      sentences fetched, example audio generated, a pitch fetch, a stroke
      order download, a word audio generation. */
  datatype OtherRequests = OtherRequests(examples: bool, exampleAudio: bool, pitch: bool,
                                         stroke: bool, audio: bool)
  {
    predicate Any() {
      examples || exampleAudio || pitch || stroke || audio
    }
  }

  /** The dictionary caches the entry goes through. */
  datatype Caches = Caches(jisho: Jisho.JishoCache, english: map<string, string>,
                           kanji: map<char, KanjiApi.KanjiInfo>)

  /** What the services would answer this entry: the Jisho search for the
      reading, the kanjiapi request for the first kanji, and the Jisho search
      that `get_english_meaning` may make. */
  datatype Responses = Responses(reading: Option<seq<Jisho.JishoResult>>,
                                 kanji: Option<KanjiApi.KanjiInfo>,
                                 english: Option<seq<Jisho.JishoResult>>)

  /** The dictionary steps of one entry: the caches they leave and whether
      each made a request. */
  datatype EntryRun = EntryRun(caches: Caches, readingFetched: bool, kanjiFetched: bool,
                               englishFetched: bool)

  /** The first character in U+4E00..U+9FFF (main.py:3026). */
  function FirstKanji(word: string): (r: Option<char>)
    ensures r.None? <==> forall i :: 0 <= i < |word| ==> !IsKanji(word[i])
    ensures r.Some? ==> IsKanji(r.value) && r.value in word
    ensures r.Some? ==>
      exists i :: (0 <= i < |word| && word[i] == r.value && forall j :: 0 <= j < i ==> !IsKanji(word[j]))
  {
    if word == [] then None
    else if IsKanji(word[0]) then Some(word[0])
    else
      var r := FirstKanji(word[1..]);
      assert forall i :: 1 <= i < |word| ==> word[i] == word[1..][i - 1];
      if r.Some? then
        var i :| 0 <= i < |word[1..]| && word[1..][i] == r.value && forall j :: 0 <= j < i ==> !IsKanji(word[1..][j]);
        assert word[i + 1] == r.value;
        r
      else r
  }

  /** The dictionary steps of `_enrich_entry` in source order:
      `JishoAPI.get_reading`, `KanjiAPI.get_readings` for the first kanji
      (whatever the offline switch), and `get_english_meaning` when English is
      wanted and the run is online. */
  function Enrich(c: Caches, word: string, opts: Options, resp: Responses): EntryRun
  {
    var reading := Jisho.LookupStep(c.jisho, word, true, resp.reading);
    var kanji := KanjiStep(c.kanji, word, resp.kanji);
    if opts.enrichEnglish && !opts.offline then
      var en := Jisho.EnglishStep(c.english, reading.cache, word, resp.english);
      EntryRun(Caches(en.cache, en.english, kanji.cache), reading.fetched, kanji.fetched, en.fetched)
    else
      EntryRun(Caches(reading.cache, c.english, kanji.cache), reading.fetched, kanji.fetched, false)
  }

  /** `KanjiAPI.get_readings` for the first kanji, when there is one
      (main.py:3026-3028). */
  function KanjiStep(cache: map<char, KanjiApi.KanjiInfo>, word: string, response: Option<KanjiApi.KanjiInfo>)
    : KanjiApi.KanjiLookup
  {
    var fk := FirstKanji(word);
    if fk.Some? then KanjiApi.LookupStep(cache, [fk.value], true, response)
    else KanjiApi.KanjiLookup(None, cache, false)
  }

  /** The flag as `_enrich_entry` raises it: from the other steps and from
      `JishoAPI.last_api_called` read right after `get_english_meaning`; the
      request of `get_reading` and every KanjiAPI request are not looked at. */
  function FlagAsWritten(run: EntryRun, others: OtherRequests): bool {
    others.Any() || run.englishFetched
  }

  /** The flag raised by every step that made a request. */
  function Flag(run: EntryRun, others: OtherRequests): bool {
    run.readingFetched || run.kanjiFetched || run.englishFetched || others.Any()
  }

  /** Whether the entry needs the network, read off the caches before it:
      the word is not in the dictionary cache, or its first kanji is not in
      the kanji cache, or another step made a request. */
  predicate NeedsNetwork(c: Caches, word: string, others: OtherRequests) {
    word !in c.jisho || (FirstKanji(word).Some? && FirstKanji(word).value !in c.kanji) || others.Any()
  }

  /** `get_english_meaning` never makes a request inside `_enrich_entry`:
      `get_reading` has just put the word into the dictionary cache. */
  lemma EnglishNeverFetches(c: Caches, word: string, opts: Options, resp: Responses)
    ensures !Enrich(c, word, opts, resp).englishFetched
  {
    if opts.enrichEnglish && !opts.offline {
      Jisho.EnglishAfterLookupFetchesNothing(c.english, c.jisho, word, true, resp.reading, resp.english);
    }
  }

  /** So the flag as written sees nothing of the dictionary traffic. */
  lemma AsWrittenIgnoresDictionaries(c: Caches, word: string, opts: Options, resp: Responses, others: OtherRequests)
    ensures FlagAsWritten(Enrich(c, word, opts, resp), others) == others.Any()
  {
    EnglishNeverFetches(c, word, opts, resp);
  }

  /** An entry whose word is new to the dictionary cache and whose other steps
      are all cached: `get_reading` asks Jisho, yet the flag stays down and
      the loop does not wait. */
  lemma AsWrittenMissesRequest()
    ensures var c := Caches(map[], map[], map[]);
      var resp := Responses(None, None, None);
      var others := OtherRequests(false, false, false, false, false);
      var run := Enrich(c, "ねこ", Options(true, false), resp);
      NeedsNetwork(c, "ねこ", others) && run.readingFetched && !FlagAsWritten(run, others)
  {
    AsWrittenIgnoresDictionaries(Caches(map[], map[], map[]), "ねこ", Options(true, false),
                                 Responses(None, None, None), OtherRequests(false, false, false, false, false));
  }

  /** The flag is raised exactly when the entry needs the network. */
  lemma FlagIffNeedsNetwork(c: Caches, word: string, opts: Options, resp: Responses, others: OtherRequests)
    ensures Flag(Enrich(c, word, opts, resp), others) <==> NeedsNetwork(c, word, others)
  {
    EnglishNeverFetches(c, word, opts, resp);
  }

  /** The flag as written never reports a request that was not made. */
  lemma AsWrittenNeverOverReports(c: Caches, word: string, opts: Options, resp: Responses, others: OtherRequests)
    ensures FlagAsWritten(Enrich(c, word, opts, resp), others) ==> Flag(Enrich(c, word, opts, resp), others)
  {
  }

  /** Enriching the same word again from the caches the first pass left
      makes no dictionary request, unless the first kanji's request failed:
      KanjiAPI keeps no trace of a failure and asks again. */
  lemma SecondPassQuiet(c: Caches, word: string, opts: Options, resp: Responses, resp2: Responses)
    ensures var first := Enrich(c, word, opts, resp);
      var second := Enrich(first.caches, word, opts, resp2);
      && !second.readingFetched && !second.englishFetched
      && (second.kanjiFetched <==> first.kanjiFetched && resp.kanji.None?)
  {
    EnglishNeverFetches(c, word, opts, resp);
    var first := Enrich(c, word, opts, resp);
    EnglishNeverFetches(first.caches, word, opts, resp2);
    var fk := FirstKanji(word);
    if fk.Some? {
      KanjiApi.LookupSpec(c.kanji, [fk.value], true, resp.kanji);
    }
  }

  /** The enrichment loop over the entries from the caches `c`, with the
      corrected flag: the caches after each entry and, per entry, whether the
      loop waited after it. */
  function Run(c: Caches, entries: seq<(string, Responses, OtherRequests)>, opts: Options)
    : (r: (Caches, seq<bool>))
    ensures |r.1| == |entries|
  {
    if entries == [] then (c, [])
    else
      var (c', delays) := Run(c, entries[..|entries| - 1], opts);
      var (word, resp, others) := entries[|entries| - 1];
      var run := Enrich(c', word, opts, resp);
      (run.caches, delays + [Flag(run, others)])
  }

  /** The loop waits after an entry exactly when that entry needed the
      network, judged on the caches the earlier entries left. */
  lemma {:induction false} RunWaitsIffNeeded(c: Caches, entries: seq<(string, Responses, OtherRequests)>, opts: Options)
    ensures forall i :: 0 <= i < |entries| ==>
      (Run(c, entries, opts).1[i] <==> NeedsNetwork(Run(c, entries[..i], opts).0, entries[i].0, entries[i].2))
    decreases |entries|
  {
    if entries != [] {
      var n := |entries| - 1;
      var pre := entries[..n];
      RunWaitsIffNeeded(c, pre, opts);
      var ds := Run(c, entries, opts).1;
      var ds' := Run(c, pre, opts).1;
      RunStep(c, entries, opts);
      forall i | 0 <= i < |entries|
        ensures ds[i] <==> NeedsNetwork(Run(c, entries[..i], opts).0, entries[i].0, entries[i].2)
      {
        if i < n {
          assert ds[i] == ds'[i];
          assert pre[..i] == entries[..i];
          assert pre[i] == entries[i];
        } else {
          assert entries[..i] == pre;
          var (word, resp, others) := entries[n];
          FlagIffNeedsNetwork(Run(c, pre, opts).0, word, opts, resp, others);
        }
      }
    }
  }

  /** One more entry: the earlier waits are kept and one is added. */
  lemma RunStep(c: Caches, entries: seq<(string, Responses, OtherRequests)>, opts: Options)
    requires entries != []
    ensures var n := |entries| - 1;
      var c' := Run(c, entries[..n], opts).0;
      Run(c, entries, opts).1 == Run(c, entries[..n], opts).1
        + [Flag(Enrich(c', entries[n].0, opts, entries[n].1), entries[n].2)]
  {
  }

  /** The enrichment loop as written (main.py:2928-2952): the same entries,
      waiting on the flag as `_enrich_entry` raises it. */
  function RunAsWritten(c: Caches, entries: seq<(string, Responses, OtherRequests)>, opts: Options)
    : (r: (Caches, seq<bool>))
    ensures |r.1| == |entries|
    ensures r.0 == Run(c, entries, opts).0
  {
    if entries == [] then (c, [])
    else
      var (c', delays) := RunAsWritten(c, entries[..|entries| - 1], opts);
      var (word, resp, others) := entries[|entries| - 1];
      var run := Enrich(c', word, opts, resp);
      (run.caches, delays + [FlagAsWritten(run, others)])
  }

  /** As written, the loop waits after an entry exactly when one of the
      entry's other steps made a request; the dictionary requests are never
      waited for. */
  lemma {:induction false} RunAsWrittenWaitsIffOthers(c: Caches, entries: seq<(string, Responses, OtherRequests)>, opts: Options)
    ensures forall i :: 0 <= i < |entries| ==> (RunAsWritten(c, entries, opts).1[i] <==> entries[i].2.Any())
    decreases |entries|
  {
    if entries != [] {
      var n := |entries| - 1;
      var pre := entries[..n];
      RunAsWrittenWaitsIffOthers(c, pre, opts);
      var ds := RunAsWritten(c, entries, opts).1;
      var ds' := RunAsWritten(c, pre, opts).1;
      var (word, resp, others) := entries[n];
      var c' := RunAsWritten(c, pre, opts).0;
      AsWrittenIgnoresDictionaries(c', word, opts, resp, others);
      assert ds == ds' + [FlagAsWritten(Enrich(c', word, opts, resp), others)];
      forall i | 0 <= i < |entries|
        ensures ds[i] <==> entries[i].2.Any()
      {
        if i < n {
          assert ds[i] == ds'[i];
          assert pre[i] == entries[i];
        }
      }
    }
  }

  /** The ねこ entry of the Findings: the loop as written does not wait after
      it, although the entry queried Jisho and the corrected loop waits. */
  lemma RunAsWrittenMissesWait()
    ensures var c := Caches(map[], map[], map[]);
      var entries := [("ねこ", Responses(None, None, None), OtherRequests(false, false, false, false, false))];
      RunAsWritten(c, entries, Options(true, false)).1 == [false]
      && Run(c, entries, Options(true, false)).1 == [true]
  {
    var c := Caches(map[], map[], map[]);
    var others := OtherRequests(false, false, false, false, false);
    var entries := [("ねこ", Responses(None, None, None), others)];
    RunAsWrittenWaitsIffOthers(c, entries, Options(true, false));
    RunWaitsIffNeeded(c, entries, Options(true, false));
    assert entries[..0] == [];
    assert NeedsNetwork(c, "ねこ", others);
  }

  /** The generator: the two dictionary clients and `_last_api_called`. */
  class Generator {
    const jisho: Jisho.JishoApi
    const kanjiApi: KanjiApi.KanjiApi
    var lastApiCalled: bool

    constructor (jisho: Jisho.JishoApi, kanjiApi: KanjiApi.KanjiApi)
      ensures this.jisho == jisho && this.kanjiApi == kanjiApi && !lastApiCalled
    {
      this.jisho := jisho;
      this.kanjiApi := kanjiApi;
      lastApiCalled := false;
    }

    /** The request bookkeeping of `_enrich_entry`, corrected: the flag is
        raised after `get_reading` and `get_readings` as well. */
    method EnrichEntry(word: string, opts: Options, resp: Responses, others: OtherRequests)
      modifies this`lastApiCalled, jisho`cache, jisho`english, jisho`lastApiCalled
      modifies kanjiApi`cache, kanjiApi`lastApiCalled
      ensures var run := Enrich(Caches(old(jisho.cache), old(jisho.english), old(kanjiApi.cache)), word, opts, resp);
        && jisho.cache == run.caches.jisho && jisho.english == run.caches.english
        && kanjiApi.cache == run.caches.kanji && lastApiCalled == Flag(run, others)
        && jisho.lastApiCalled == (if opts.enrichEnglish && !opts.offline then run.englishFetched else run.readingFetched)
        && kanjiApi.lastApiCalled == (if FirstKanji(word).Some? then run.kanjiFetched else old(kanjiApi.lastApiCalled))
    {
      lastApiCalled := false;
      var fetched := LookupSteps(word, resp);
      lastApiCalled := fetched || others.examples || others.exampleAudio;
      if opts.enrichEnglish && !opts.offline {
        var englishFetched := EnglishSteps(word, resp);
        lastApiCalled := lastApiCalled || englishFetched;
      }
      lastApiCalled := lastApiCalled || others.pitch || others.stroke || others.audio;
    }

    /** `get_english_meaning`: the caches it leaves and whether it made a
        request. */
    method EnglishSteps(word: string, resp: Responses) returns (fetched: bool)
      modifies jisho`cache, jisho`english, jisho`lastApiCalled
      ensures var en := Jisho.EnglishStep(old(jisho.english), old(jisho.cache), word, resp.english);
        && jisho.cache == en.cache && jisho.english == en.english
        && fetched == en.fetched && jisho.lastApiCalled == en.fetched
    {
      var meaning := jisho.GetEnglishMeaning(word, resp.english);
      fetched := jisho.lastApiCalled;
    }

    /** `get_reading`, then `get_readings` for the first kanji: the caches
        they leave and whether either made a request. */
    method LookupSteps(word: string, resp: Responses) returns (fetched: bool)
      modifies jisho`cache, jisho`lastApiCalled, kanjiApi`cache, kanjiApi`lastApiCalled
      ensures var rd := Jisho.LookupStep(old(jisho.cache), word, true, resp.reading);
        var kj := KanjiStep(old(kanjiApi.cache), word, resp.kanji);
        && jisho.cache == rd.cache && kanjiApi.cache == kj.cache && fetched == (rd.fetched || kj.fetched)
        && jisho.lastApiCalled == rd.fetched
        && kanjiApi.lastApiCalled == (if FirstKanji(word).Some? then kj.fetched else old(kanjiApi.lastApiCalled))
    {
      jisho.lastApiCalled := false;
      var reading := jisho.GetReading(word, resp.reading);
      fetched := jisho.lastApiCalled;
      var fk := FirstKanji(word);
      if fk.Some? {
        var kun, on := kanjiApi.GetReadings([fk.value], resp.kanji);
        fetched := fetched || kanjiApi.lastApiCalled;
      }
    }

    /** The enrichment loop, corrected: one entry after another, noting after
        which entries the rate-limit delay is taken under the corrected flag. */
    method Process(entries: seq<(string, Responses, OtherRequests)>, opts: Options) returns (delays: seq<bool>)
      modifies this`lastApiCalled, jisho`cache, jisho`english, jisho`lastApiCalled
      modifies kanjiApi`cache, kanjiApi`lastApiCalled
      ensures var (c, ds) := Run(Caches(old(jisho.cache), old(jisho.english), old(kanjiApi.cache)), entries, opts);
        Caches(jisho.cache, jisho.english, kanjiApi.cache) == c && delays == ds
    {
      delays := [];
      var i := 0;
      while i < |entries|
        invariant 0 <= i <= |entries|
        invariant var (c, ds) := Run(Caches(old(jisho.cache), old(jisho.english), old(kanjiApi.cache)), entries[..i], opts);
          Caches(jisho.cache, jisho.english, kanjiApi.cache) == c && delays == ds
      {
        assert entries[..i + 1][..i] == entries[..i];
        var (word, resp, others) := entries[i];
        EnrichEntry(word, opts, resp, others);
        delays := delays + [lastApiCalled];
        i := i + 1;
      }
      assert entries[..i] == entries;
    }
  }
}

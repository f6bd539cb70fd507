/** `JishoAPI` of main.py: a dictionary lookup that keeps one cache entry per
    word (the first exact match, or the empty object `{}` when there is none or
    the request failed), and an English-meaning cache on top of it that stores
    the sentinel "_EMPTY_" for a word without definitions.

    Each operation is specified by a pure step function on the old caches; the
    class methods perform exactly that step, with the loops of the source. */
module Jisho {
  import opened Common

  /** One `japanese` form of a result: its `word` and `reading` keys, either
      of which may be missing. */
  datatype JapaneseForm = JapaneseForm(word: Option<string>, reading: Option<string>)

  /** One sense; `english_definitions` may be missing. */
  datatype Sense = Sense(englishDefinitions: Option<seq<string>>)

  /** A result object of the search API: `slug`, `japanese` (missing reads as
      the empty list) and `senses` (whose absence get_english_meaning tests). */
  datatype JishoResult = JishoResult(slug: Option<string>, japanese: seq<JapaneseForm>,
                                     senses: Option<seq<Sense>>)

  /** A cached word maps to `Some(result)` or to `None`, the persisted `{}`. */
  type JishoCache = map<string, Option<JishoResult>>

  /** `_is_exact_match` (main.py:380-393): some form has the word as its word
      or its reading, or the slug is the word. */
  predicate IsExactMatch(result: JishoResult, word: string) {
    (exists i :: 0 <= i < |result.japanese| &&
      (result.japanese[i].word == Some(word) || result.japanese[i].reading == Some(word)))
    || result.slug == Some(word)
  }

  /** The first exact match in a list of results; a partial match is never
      chosen. */
  function FirstExactMatch(results: seq<JishoResult>, word: string): (r: Option<JishoResult>)
    ensures r.Some? ==> r.value in results && IsExactMatch(r.value, word)
    ensures r.None? <==> forall k :: 0 <= k < |results| ==> !IsExactMatch(results[k], word)
  {
    if results == [] then None
    else if IsExactMatch(results[0], word) then Some(results[0])
    else FirstExactMatch(results[1..], word)
  }

  /** The search loop of `lookup` (main.py:418-437). */
  method ExactMatch(results: seq<JishoResult>, word: string) returns (data: Option<JishoResult>)
    ensures data == FirstExactMatch(results, word)
  {
    var i := 0;
    while i < |results|
      invariant 0 <= i <= |results|
      invariant FirstExactMatch(results, word) == FirstExactMatch(results[i..], word)
    {
      assert results[i..][1..] == results[i + 1..];
      if IsExactMatch(results[i], word) {
        return Some(results[i]);
      }
      i := i + 1;
    }
    return None;
  }

  /** The first exact match sits at an index before which nothing matches. */
  lemma {:induction false} FirstExactMatchIsFirst(results: seq<JishoResult>, word: string)
    requires FirstExactMatch(results, word).Some?
    ensures exists i :: (0 <= i < |results| && results[i] == FirstExactMatch(results, word).value
      && forall k :: 0 <= k < i ==> !IsExactMatch(results[k], word))
  {
    if !IsExactMatch(results[0], word) {
      FirstExactMatchIsFirst(results[1..], word);
      var i :| 0 <= i < |results[1..]| && results[1..][i] == FirstExactMatch(results[1..], word).value
        && forall k :: 0 <= k < i ==> !IsExactMatch(results[1..][k], word);
      assert results[i + 1] == FirstExactMatch(results, word).value;
      assert forall k :: 0 <= k < i + 1 ==> !IsExactMatch(results[k], word) by {
        forall k | 0 <= k < i + 1
          ensures !IsExactMatch(results[k], word)
        {
          if k > 0 {
            assert results[k] == results[1..][k - 1];
          }
        }
      }
    } else {
      assert results[0] == FirstExactMatch(results, word).value;
    }
  }

  /** What `lookup` returns and leaves behind. */
  datatype LookupResult = LookupResult(data: Option<JishoResult>, cache: JishoCache, fetched: bool)

  /** `lookup` (main.py:396-447) on the old cache. `response` is the `data`
      list of a successful request, None when the request failed. A cached word
      is answered from the cache when `useCache`; otherwise the service is asked
      and whatever it yields (the first exact match, or `{}`) is persisted. */
  function LookupStep(cache: JishoCache, word: string, useCache: bool,
                      response: Option<seq<JishoResult>>): LookupResult
  {
    if useCache && word in cache then LookupResult(cache[word], cache, false)
    else
      var data := if response.Some? && response.value != [] then FirstExactMatch(response.value, word) else None;
      LookupResult(data, cache[word := data], true)
  }

  /** The cache path and the fetch path of `lookup`: a fetch happens exactly
      on a miss (or when the cache is bypassed), its outcome is persisted even
      when empty, it is an exact match or nothing, and no other word's entry
      changes. */
  lemma LookupSpec(cache: JishoCache, word: string, useCache: bool, response: Option<seq<JishoResult>>)
    ensures var r := LookupStep(cache, word, useCache, response);
      && (r.fetched <==> !(useCache && word in cache))
      && (!r.fetched ==> r.cache == cache && r.data == cache[word])
      && (r.fetched ==> word in r.cache && r.cache[word] == r.data)
      && (r.fetched && r.data.Some? ==>
            response.Some? && r.data.value in response.value && IsExactMatch(r.data.value, word))
      && (r.fetched && (response.None? || response == Some([])) ==> r.data.None?)
      && r.cache.Keys == (if r.fetched then cache.Keys + {word} else cache.Keys)
      && forall w :: w in cache && w != word ==> r.cache[w] == cache[w]
  {
  }

  /** Every cached entry is the persisted `{}` or an exact match for its word. */
  predicate CacheExact(cache: JishoCache) {
    forall w :: w in cache && cache[w].Some? ==> IsExactMatch(cache[w].value, w)
  }

  lemma LookupKeepsCacheExact(cache: JishoCache, word: string, useCache: bool,
                              response: Option<seq<JishoResult>>)
    requires CacheExact(cache)
    ensures CacheExact(LookupStep(cache, word, useCache, response).cache)
  {
  }

  /** Once a word has been looked up, every later cached lookup of it, whatever
      the service would say, fetches nothing and returns the same data. */
  lemma LookupIdempotent(cache: JishoCache, word: string, useCache: bool,
                         response: Option<seq<JishoResult>>, response2: Option<seq<JishoResult>>)
    ensures var first := LookupStep(cache, word, useCache, response);
      var second := LookupStep(first.cache, word, true, response2);
      !second.fetched && second.data == first.data && second.cache == first.cache
  {
  }

  /** `sense["english_definitions"][:3]` for the senses that have the key,
      concatenated in order. */
  function DefinitionsOf(senses: seq<Sense>): (defs: seq<string>)
    ensures |defs| <= 3 * |senses|
    ensures (forall k :: 0 <= k < |senses| ==> senses[k].englishDefinitions.None?) ==> defs == []
  {
    if senses == [] then []
    else
      var first := match senses[0].englishDefinitions
        case Some(d) => Take(d, 3)
        case None => [];
      first + DefinitionsOf(senses[1..])
  }

  /** The loop of `get_english_meaning` over the senses (main.py:463-470). */
  method Definitions(senses: seq<Sense>) returns (meanings: seq<string>)
    ensures meanings == DefinitionsOf(senses)
  {
    meanings := [];
    var i := 0;
    while i < |senses|
      invariant 0 <= i <= |senses|
      invariant meanings == DefinitionsOf(senses[..i])
    {
      DefinitionsOfAppend(senses[..i], senses[i]);
      assert [senses[i]][1..] == [];
      assert senses[..i + 1] == senses[..i] + [senses[i]];
      if senses[i].englishDefinitions.Some? {
        meanings := meanings + Take(senses[i].englishDefinitions.value, 3);
      }
      i := i + 1;
    }
    assert senses[..i] == senses;
  }

  lemma {:induction false} DefinitionsOfAppend(senses: seq<Sense>, s: Sense)
    ensures DefinitionsOf(senses + [s]) == DefinitionsOf(senses) + DefinitionsOf([s])
  {
    if senses == [] {
      assert senses + [s] == [s];
    } else {
      assert (senses + [s])[1..] == senses[1..] + [s];
      DefinitionsOfAppend(senses[1..], s);
    }
  }

  /** The meaning get_english_meaning builds from looked-up data (main.py:463-470):
      up to three definitions of each of the first two senses, joined by "; ". */
  function MeaningOf(data: Option<JishoResult>): string {
    if data.Some? && data.value.senses.Some? then Join(DefinitionsOf(Take(data.value.senses.value, 2)), "; ")
    else ""
  }

  /** Empty data and data without senses give no meaning; a single definition
      is the meaning itself. */
  lemma MeaningOfSpec(data: Option<JishoResult>)
    ensures data.None? || data.value.senses.None? ==> MeaningOf(data) == ""
    ensures (data.Some? && data.value.senses.Some? && data.value.senses.value != []
      && data.value.senses.value[0].englishDefinitions == Some(["rain"])
      && (|data.value.senses.value| == 1 || data.value.senses.value[1].englishDefinitions.None?)) ==>
      MeaningOf(data) == "rain"
  {
    if data.Some? && data.value.senses.Some? && data.value.senses.value != []
      && data.value.senses.value[0].englishDefinitions == Some(["rain"])
      && (|data.value.senses.value| == 1 || data.value.senses.value[1].englishDefinitions.None?)
    {
      var s := Take(data.value.senses.value, 2);
      assert Take(["rain"], 3) == ["rain"];
      if |s| == 2 {
        assert s[1..][1..] == [];
        assert DefinitionsOf(s[1..]) == [];
      }
    }
  }

  /** The text stored in the English cache for a meaning. */
  function Encode(meaning: string): string {
    if meaning == "" then "_EMPTY_" else meaning
  }

  /** The meaning read back from the English cache. */
  function Decode(cached: string): string {
    if cached == "_EMPTY_" then "" else cached
  }

  /** The sentinel round-trips every meaning except the literal text
      "_EMPTY_", which reads back as the empty meaning. */
  lemma SentinelRoundTrip(meaning: string)
    ensures meaning != "_EMPTY_" ==> Decode(Encode(meaning)) == meaning
    ensures Decode(Encode("_EMPTY_")) == ""
    ensures Encode(meaning) != ""
  {
  }

  /** What get_english_meaning returns and leaves behind. */
  datatype EnglishResult = EnglishResult(meaning: string, english: map<string, string>,
                                         cache: JishoCache, fetched: bool)

  /** `get_english_meaning` (main.py:450-475) on the old caches: the English
      cache first, then a cached `lookup`, persisting the meaning or the
      sentinel. */
  function EnglishStep(english: map<string, string>, cache: JishoCache, word: string,
                       response: Option<seq<JishoResult>>): EnglishResult
  {
    if word in english then EnglishResult(Decode(english[word]), english, cache, false)
    else
      var l := LookupStep(cache, word, true, response);
      var meaning := MeaningOf(l.data);
      EnglishResult(meaning, english[word := Encode(meaning)], l.cache, l.fetched)
  }

  /** The English cache answers before the dictionary cache, and the
      dictionary is asked only when both miss; the meaning is always
      persisted. */
  lemma EnglishSpec(english: map<string, string>, cache: JishoCache, word: string,
                    response: Option<seq<JishoResult>>)
    ensures var r := EnglishStep(english, cache, word, response);
      && (word in english ==> (r.meaning == Decode(english[word]) && r.english == english
            && r.cache == cache && !r.fetched))
      && (word !in english ==> word in r.english && r.english[word] == Encode(r.meaning))
      && (r.fetched <==> word !in english && word !in cache)
      && (word !in english && word in cache ==> r.meaning == MeaningOf(cache[word]))
  {
  }

  /** A word whose meaning has been asked once is answered from the English
      cache afterwards: no fetch and the same meaning (the sentinel text itself
      being the one meaning that does not survive). */
  lemma EnglishIdempotent(english: map<string, string>, cache: JishoCache, word: string,
                          response: Option<seq<JishoResult>>, response2: Option<seq<JishoResult>>)
    ensures var first := EnglishStep(english, cache, word, response);
      var second := EnglishStep(first.english, first.cache, word, response2);
      !second.fetched && (first.meaning != "_EMPTY_" ==> second.meaning == first.meaning)
  {
  }

  /** After a lookup of a word, get_english_meaning of it never fetches: the
      dictionary answer is already cached. */
  lemma EnglishAfterLookupFetchesNothing(english: map<string, string>, cache: JishoCache, word: string,
                                         useCache: bool, response: Option<seq<JishoResult>>,
                                         response2: Option<seq<JishoResult>>)
    ensures var l := LookupStep(cache, word, useCache, response);
      !EnglishStep(english, l.cache, word, response2).fetched
  {
  }

  /** The reading of the first form that names the word, else of the first
      form, else "" (main.py:484-492). */
  function ReadingOf(data: Option<JishoResult>, word: string): (r: string)
    ensures data.None? ==> r == ""
    ensures data.Some? && FormFor(data.value.japanese, word).Some? ==>
      r == FormFor(data.value.japanese, word).value.reading.GetOr("")
    ensures data.Some? && (forall i :: 0 <= i < |data.value.japanese| ==>
        data.value.japanese[i].word != Some(word) && data.value.japanese[i].reading != Some(word)) ==>
      r == (if data.value.japanese != [] && data.value.japanese[0].reading.Some?
            then data.value.japanese[0].reading.value else "")
  {
    if data.None? then ""
    else
      match FormFor(data.value.japanese, word)
      case Some(jp) => jp.reading.GetOr("")
      case None =>
        if data.value.japanese != [] && data.value.japanese[0].reading.Some?
        then data.value.japanese[0].reading.value else ""
  }

  /** The first form whose word or reading is the word. */
  function FormFor(forms: seq<JapaneseForm>, word: string): (r: Option<JapaneseForm>)
    ensures r.Some? ==> r.value in forms && (r.value.word == Some(word) || r.value.reading == Some(word))
    ensures r.None? <==> forall i :: 0 <= i < |forms| ==>
      forms[i].word != Some(word) && forms[i].reading != Some(word)
  {
    if forms == [] then None
    else if forms[0].word == Some(word) || forms[0].reading == Some(word) then Some(forms[0])
    else FormFor(forms[1..], word)
  }

  /** The form at index `i` is the one `FormFor` picks when it names the
      word and no earlier form does. */
  lemma {:induction false} FormForAt(forms: seq<JapaneseForm>, word: string, i: nat)
    requires i < |forms| && (forms[i].word == Some(word) || forms[i].reading == Some(word))
    requires forall k :: 0 <= k < i ==> forms[k].word != Some(word) && forms[k].reading != Some(word)
    ensures FormFor(forms, word) == Some(forms[i])
  {
    if i > 0 {
      FormForAt(forms[1..], word, i - 1);
    }
  }

  /** The main case of `get_reading`: the first form naming the word gives
      its reading, or "" when that form has none. */
  lemma ReadingOfFirstNaming(data: Option<JishoResult>, word: string, i: nat)
    requires data.Some? && i < |data.value.japanese|
    requires data.value.japanese[i].word == Some(word) || data.value.japanese[i].reading == Some(word)
    requires forall k :: 0 <= k < i ==>
      data.value.japanese[k].word != Some(word) && data.value.japanese[k].reading != Some(word)
    ensures ReadingOf(data, word) == data.value.japanese[i].reading.GetOr("")
  {
    FormForAt(data.value.japanese, word, i);
  }

  /** A kana word's own form gives the word back as its reading. */
  lemma ReadingOfKanaWord(data: Option<JishoResult>, word: string)
    requires data.Some? && data.value.japanese != []
    requires data.value.japanese[0] == JapaneseForm(None, Some(word))
    ensures ReadingOf(data, word) == word
  {
  }

  /** The class `JishoAPI`: the dictionary cache, the English cache and the
      `last_api_called` flag. */
  class JishoApi {
    var cache: JishoCache
    var english: map<string, string>
    var lastApiCalled: bool

    constructor (persisted: JishoCache, persistedEnglish: map<string, string>)
      ensures cache == persisted && english == persistedEnglish && !lastApiCalled
    {
      cache := persisted;
      english := persistedEnglish;
      lastApiCalled := false;
    }

    /** `lookup`: the flag is only ever raised here, never cleared. */
    method Lookup(word: string, useCache: bool, response: Option<seq<JishoResult>>)
      returns (data: Option<JishoResult>)
      modifies this`cache, this`lastApiCalled
      ensures var r := LookupStep(old(cache), word, useCache, response);
        data == r.data && cache == r.cache && lastApiCalled == (old(lastApiCalled) || r.fetched)
    {
      if useCache && word in cache {
        return cache[word];
      }
      lastApiCalled := true;
      data := None;
      if response.Some? && response.value != [] {
        data := ExactMatch(response.value, word);
      }
      cache := cache[word := data];
    }

    /** `get_english_meaning`: clears the flag, then raises it only if its own
      lookup fetched. */
    method GetEnglishMeaning(word: string, response: Option<seq<JishoResult>>) returns (meaning: string)
      modifies this`cache, this`english, this`lastApiCalled
      ensures var r := EnglishStep(old(english), old(cache), word, response);
        meaning == r.meaning && english == r.english && cache == r.cache && lastApiCalled == r.fetched
    {
      lastApiCalled := false;
      if word in english {
        var cached := english[word];
        return if cached == "_EMPTY_" then "" else cached;
      }
      var data := Lookup(word, true, response);
      meaning := "";
      if data.Some? && data.value.senses.Some? {
        var meanings := Definitions(Take(data.value.senses.value, 2));
        meaning := Join(meanings, "; ");
      }
      english := english[word := if meaning != "" then meaning else "_EMPTY_"];
    }

    /** `get_reading` (main.py:478-492): a cached lookup, then the reading of
      the form that names the word. */
    method GetReading(word: string, response: Option<seq<JishoResult>>) returns (reading: string)
      modifies this`cache, this`lastApiCalled
      ensures var r := LookupStep(old(cache), word, true, response);
        reading == ReadingOf(r.data, word) && cache == r.cache
        && lastApiCalled == (old(lastApiCalled) || r.fetched)
    {
      var data := Lookup(word, true, response);
      reading := ReadingOf(data, word);
    }
  }
}

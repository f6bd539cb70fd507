/** `KanjiAPI` of main.py: per-character kanji readings from a web service.
    Unlike the dictionary lookup it clears its flag on every call, refuses
    anything but a single character, and persists only successful answers, so a
    failed request is repeated next time. */
module KanjiApi {
  import opened Common

  /** The part of a kanjiapi answer the program reads: `kun_readings` and
      `on_readings` (a missing key reads as the empty list). */
  datatype KanjiInfo = KanjiInfo(kunReadings: seq<string>, onReadings: seq<string>)

  /** What `lookup` returns and leaves behind; `None` is the empty object. */
  datatype KanjiLookup = KanjiLookup(data: Option<KanjiInfo>, cache: map<char, KanjiInfo>, fetched: bool)

  /** `lookup` (main.py:582-614) on the old cache; the cache file is named
      after the code point, so the character is the key. `response` is the
      decoded answer of a successful request, None for a failed one. */
  function LookupStep(cache: map<char, KanjiInfo>, kanji: string, useCache: bool,
                      response: Option<KanjiInfo>): KanjiLookup
  {
    if |kanji| != 1 then KanjiLookup(None, cache, false)
    else if useCache && kanji[0] in cache then KanjiLookup(Some(cache[kanji[0]]), cache, false)
    else if response.Some? then KanjiLookup(response, cache[kanji[0] := response.value], true)
    else KanjiLookup(None, cache, true)
  }

  /** The four paths of `lookup`. */
  lemma LookupSpec(cache: map<char, KanjiInfo>, kanji: string, useCache: bool, response: Option<KanjiInfo>)
    ensures var r := LookupStep(cache, kanji, useCache, response);
      && (|kanji| != 1 ==> r.data.None? && r.cache == cache && !r.fetched)
      && (r.fetched <==> |kanji| == 1 && !(useCache && kanji[0] in cache))
      && (r.fetched && response.Some? ==> r.data == response && r.cache == cache[kanji[0] := response.value])
      && (r.fetched && response.None? ==> r.data.None? && r.cache == cache)
      && (!r.fetched ==> r.cache == cache)
  {
  }

  /** A failed request leaves nothing behind: the next cached lookup of the
      same character asks the service again. */
  lemma FailureIsRetried(cache: map<char, KanjiInfo>, kanji: string, response2: Option<KanjiInfo>)
    requires |kanji| == 1 && kanji[0] !in cache
    ensures var first := LookupStep(cache, kanji, true, None);
      first.fetched && LookupStep(first.cache, kanji, true, response2).fetched
  {
  }

  /** A successful answer is served from the cache from then on. */
  lemma SuccessIsCached(cache: map<char, KanjiInfo>, kanji: string, useCache: bool,
                        info: KanjiInfo, response2: Option<KanjiInfo>)
    requires |kanji| == 1
    ensures var first := LookupStep(cache, kanji, useCache, Some(info));
      var second := LookupStep(first.cache, kanji, true, response2);
      !second.fetched && (first.fetched ==> second.data == Some(info))
  {
  }

  /** The kun and on readings `get_readings` extracts (main.py:617-622). */
  function ReadingsOf(data: Option<KanjiInfo>): (r: (seq<string>, seq<string>))
    ensures data.None? ==> r == ([], [])
    ensures data.Some? ==> r == (data.value.kunReadings, data.value.onReadings)
  {
    match data
    case None => ([], [])
    case Some(info) => (info.kunReadings, info.onReadings)
  }

  /** The class `KanjiAPI` with its cache and its flag. */
  class KanjiApi {
    var cache: map<char, KanjiInfo>
    var lastApiCalled: bool

    constructor (persisted: map<char, KanjiInfo>)
      ensures cache == persisted && !lastApiCalled
    {
      cache := persisted;
      lastApiCalled := false;
    }

    /** `lookup`: the flag reports this call's fetch only. */
    method Lookup(kanji: string, useCache: bool, response: Option<KanjiInfo>) returns (data: Option<KanjiInfo>)
      modifies this`cache, this`lastApiCalled
      ensures var r := LookupStep(old(cache), kanji, useCache, response);
        data == r.data && cache == r.cache && lastApiCalled == r.fetched
    {
      lastApiCalled := false;
      if |kanji| != 1 {
        return None;
      }
      var key := kanji[0];
      if useCache && key in cache {
        return Some(cache[key]);
      }
      lastApiCalled := true;
      if response.Some? {
        cache := cache[key := response.value];
        return response;
      }
      return None;
    }

    method GetReadings(kanji: string, response: Option<KanjiInfo>) returns (kun: seq<string>, on: seq<string>)
      modifies this`cache, this`lastApiCalled
      ensures var r := LookupStep(old(cache), kanji, true, response);
        (kun, on) == ReadingsOf(r.data) && cache == r.cache && lastApiCalled == r.fetched
    {
      var data := Lookup(kanji, true, response);
      kun, on := ReadingsOf(data).0, ReadingsOf(data).1;
    }
  }
}

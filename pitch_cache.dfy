/** `PitchAccentAPI` of main.py: the pitch pattern of a word is resolved from the
    bundled table, then from the per-word cache, then (online only) from the
    dictionary service, whose answer (even the unknown "?") is persisted.

    The resolution is specified by the pure function `ResolvePitch` on the old
    state; the class method is proved to perform exactly that step. */
module PitchCache {
  import opened Common
  import Morae

  /** The JSON object written to the cache for one word (main.py:691). */
  datatype CachedPitch = CachedPitch(word: string, reading: string, pattern: string)

  /** One resolution: the pattern and morae returned, the cache afterwards, and
      whether the network was asked (the `last_api_called` flag). */
  datatype PitchResolution = PitchResolution(
    pattern: string, morae: seq<string>, cache: map<string, CachedPitch>, fetched: bool)

  /** The bundled table as `_load` builds it (main.py:634-653): for every word
      with at least one reading, the first reading's pattern as a string and
      that reading split into morae. */
  function CuratedTable(json: map<string, seq<(string, int)>>): (t: map<string, (string, seq<string>)>)
    ensures forall w :: w in t <==> w in json && json[w] != []
  {
    map w | w in json && json[w] != [] ::
      (IntToString(json[w][0].1), Morae.Split(json[w][0].0, Morae.MainSmallKana))
  }

  /** `get_pitch_pattern` (main.py:656-695) as a function of the old state;
      `remote` is what the dictionary service yields (None when it has no
      numeric pitch tag or fails, which the source turns into "?"). */
  function ResolvePitch(curated: map<string, (string, seq<string>)>, cache: map<string, CachedPitch>,
                        word: string, reading: string, offline: bool, remote: Option<string>): PitchResolution
  {
    if word in curated then PitchResolution(curated[word].0, curated[word].1, cache, false)
    else
      var morae := Morae.Split(reading, Morae.MainSmallKana);
      if word in cache then PitchResolution(cache[word].pattern, morae, cache, false)
      else if offline then PitchResolution("?", morae, cache, false)
      else
        var pattern := remote.GetOr("?");
        PitchResolution(pattern, morae, cache[word := CachedPitch(word, reading, pattern)], true)
  }

  /** The four steps of the resolution order, each stated as a property. */
  lemma ResolvePitchOrder(curated: map<string, (string, seq<string>)>, cache: map<string, CachedPitch>,
                          word: string, reading: string, offline: bool, remote: Option<string>)
    ensures var r := ResolvePitch(curated, cache, word, reading, offline, remote);
      && (word in curated ==> r == PitchResolution(curated[word].0, curated[word].1, cache, false))
      && (word !in curated && word in cache ==>
            r.pattern == cache[word].pattern && r.cache == cache && !r.fetched)
      && (word !in curated && word !in cache && offline ==>
            r.pattern == "?" && r.cache == cache && !r.fetched)
      && (word !in curated && word !in cache && !offline ==>
            r.fetched && r.cache.Keys == cache.Keys + {word}
            && r.cache[word].pattern == r.pattern && r.pattern == remote.GetOr("?")
            && forall w :: w in cache ==> r.cache[w] == cache[w])
      && (word !in curated ==> r.morae == Morae.Split(reading, Morae.MainSmallKana))
  {
  }

  /** A fetch happens only for a word that is neither curated nor cached, and
      only online; the cache only ever grows. */
  lemma FetchOnlyWhenCold(curated: map<string, (string, seq<string>)>, cache: map<string, CachedPitch>,
                          word: string, reading: string, offline: bool, remote: Option<string>)
    ensures var r := ResolvePitch(curated, cache, word, reading, offline, remote);
      (r.fetched <==> word !in curated && word !in cache && !offline)
      && cache.Keys <= r.cache.Keys
      && forall w :: w in cache ==> r.cache[w] == cache[w]
  {
  }

  /** After an online resolution, resolving the same word again, online or not
      and whatever the service would now say, fetches nothing and yields the
      same pattern. */
  lemma ResolvePitchIdempotent(curated: map<string, (string, seq<string>)>, cache: map<string, CachedPitch>,
                               word: string, reading: string, remote: Option<string>,
                               reading2: string, offline2: bool, remote2: Option<string>)
    ensures var first := ResolvePitch(curated, cache, word, reading, false, remote);
      var second := ResolvePitch(curated, first.cache, word, reading2, offline2, remote2);
      !second.fetched && second.pattern == first.pattern && second.cache == first.cache
  {
  }

  /** A run of resolutions of one word: the number of fetches performed. */
  function FetchCount(curated: map<string, (string, seq<string>)>, cache: map<string, CachedPitch>,
                      word: string, calls: seq<(string, bool, Option<string>)>): nat
    decreases |calls|
  {
    if calls == [] then 0
    else
      var r := ResolvePitch(curated, cache, word, calls[0].0, calls[0].1, calls[0].2);
      (if r.fetched then 1 else 0) + FetchCount(curated, r.cache, word, calls[1..])
  }

  /** However often a word is resolved, with any mix of online and offline
      calls and any service answers, the network is asked at most once; and
      never once the word is curated or cached. */
  lemma {:induction false} AtMostOneFetch(curated: map<string, (string, seq<string>)>, cache: map<string, CachedPitch>,
                                          word: string, calls: seq<(string, bool, Option<string>)>)
    ensures FetchCount(curated, cache, word, calls) <= 1
    ensures word in curated || word in cache ==> FetchCount(curated, cache, word, calls) == 0
    decreases |calls|
  {
    if calls != [] {
      var r := ResolvePitch(curated, cache, word, calls[0].0, calls[0].1, calls[0].2);
      AtMostOneFetch(curated, r.cache, word, calls[1..]);
      if r.fetched {
        assert word in r.cache;
      }
    }
  }

  /** The class `PitchAccentAPI`: the bundled table, the persisted cache (one
      entry per word; the hashed file name is the word's identity) and the
      `last_api_called` flag. */
  class PitchAccentApi {
    var curated: map<string, (string, seq<string>)>
    var cache: map<string, CachedPitch>
    var lastApiCalled: bool

    /** `_load` with the bundled JSON and the entries already on disk. */
    constructor (json: map<string, seq<(string, int)>>, persisted: map<string, CachedPitch>)
      ensures curated == CuratedTable(json) && cache == persisted && !lastApiCalled
    {
      curated := CuratedTable(json);
      cache := persisted;
      lastApiCalled := false;
    }

    method GetPitchPattern(word: string, reading: string, offline: bool, remote: Option<string>)
      returns (pattern: string, morae: seq<string>)
      modifies this`cache, this`lastApiCalled
      ensures var r := ResolvePitch(curated, old(cache), word, reading, offline, remote);
        pattern == r.pattern && morae == r.morae && cache == r.cache && lastApiCalled == r.fetched
    {
      lastApiCalled := false;
      if word in curated {
        pattern, morae := curated[word].0, curated[word].1;
        return;
      }
      morae := Morae.SplitMorae(reading, Morae.MainSmallKana);
      if word in cache {
        pattern := cache[word].pattern;
        return;
      }
      if offline {
        pattern := "?";
        return;
      }
      lastApiCalled := true;
      pattern := if remote.Some? then remote.value else "?";
      cache := cache[word := CachedPitch(word, reading, pattern)];
    }
  }
}

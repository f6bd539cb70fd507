/** `ExampleSentencesDB` of main.py: example sentences for a word from the
    bundled table (tried for every spelling variant of the word), then from the
    per-word cache, then, online only, from two sentence services tried variant
    by variant. An empty cached list does not count as cached: the services are
    asked again. */
module ExampleSentences {
  import opened Common

  /** Katakana as this class counts it: U+30A1..U+30F6 (ァ..ヶ). */
  predicate IsStandardKatakana(c: char) {
    'ァ' <= c <= 'ヶ'
  }

  /** The characters `_is_katakana_word` counts: standard katakana and the
      long-vowel mark. */
  predicate CountsAsKatakana(c: char) {
    IsStandardKatakana(c) || c == 'ー'
  }

  function KatakanaCount(s: string): (n: nat)
    ensures n <= |s|
  {
    if s == [] then 0 else (if CountsAsKatakana(s[0]) then 1 else 0) + KatakanaCount(s[1..])
  }

  /** `_is_katakana_word` (main.py:1953-1958): more than half of the
      characters are katakana (count > len * 0.5, stated without fractions). */
  predicate IsKatakanaWord(word: string) {
    word != [] && 2 * KatakanaCount(word) > |word|
  }

  /** A word made only of katakana is a katakana word; one without any is not. */
  lemma {:induction false} KatakanaWordBounds(word: string)
    ensures word != [] && (forall i :: 0 <= i < |word| ==> CountsAsKatakana(word[i])) ==> IsKatakanaWord(word)
    ensures (forall i :: 0 <= i < |word| ==> !CountsAsKatakana(word[i])) ==> !IsKatakanaWord(word)
  {
    AllKatakanaCount(word);
  }

  lemma {:induction false} AllKatakanaCount(word: string)
    ensures (forall i :: 0 <= i < |word| ==> CountsAsKatakana(word[i])) ==> KatakanaCount(word) == |word|
    ensures (forall i :: 0 <= i < |word| ==> !CountsAsKatakana(word[i])) ==> KatakanaCount(word) == 0
  {
    if word != [] {
      AllKatakanaCount(word[1..]);
      if forall i :: 0 <= i < |word| ==> CountsAsKatakana(word[i]) {
        assert forall i :: 0 <= i < |word[1..]| ==> CountsAsKatakana(word[1..][i]) by {
          forall i | 0 <= i < |word[1..]| ensures CountsAsKatakana(word[1..][i]) {
            assert word[1..][i] == word[i + 1];
          }
        }
      }
      if forall i :: 0 <= i < |word| ==> !CountsAsKatakana(word[i]) {
        assert forall i :: 0 <= i < |word[1..]| ==> !CountsAsKatakana(word[1..][i]) by {
          forall i | 0 <= i < |word[1..]| ensures !CountsAsKatakana(word[1..][i]) {
            assert word[1..][i] == word[i + 1];
          }
        }
      }
    }
  }

  /** `_katakana_to_hiragana` of this class (main.py:1961-1974): standard
      katakana shifted down by 0x60, the long-vowel mark and everything else
      kept. */
  function ToHiragana(text: string): (r: string)
    ensures |r| == |text|
    ensures forall i :: 0 <= i < |text| ==>
      r[i] == (if IsStandardKatakana(text[i]) then (text[i] as int - 0x60) as char else text[i])
  {
    seq(|text|, i requires 0 <= i < |text| =>
      if IsStandardKatakana(text[i]) then (text[i] as int - 0x60) as char else text[i])
  }

  /** The converted text keeps no standard katakana, so converting twice
      changes nothing more. */
  lemma ToHiraganaIdempotent(text: string)
    ensures forall i :: 0 <= i < |text| ==> !IsStandardKatakana(ToHiragana(text)[i])
    ensures ToHiragana(ToHiragana(text)) == ToHiragana(text)
  {
  }

  /** The spellings searched for a word (main.py:1891-1904): the word; the
      stem of a する verb, or else the word without a final す; the hiragana
      spelling of a katakana word when it differs. */
  function SearchWords(word: string): (ws: seq<string>)
    ensures ws != [] && ws[0] == word
    ensures 1 <= |ws| <= 3
  {
    var stem :=
      if EndsWith(word, "する") then [word[..|word| - 2]]
      else if EndsWith(word, "す") then [word[..|word| - 1]]
      else [];
    var kana := if IsKatakanaWord(word) && ToHiragana(word) != [] && ToHiragana(word) != word
      then [ToHiragana(word)] else [];
    [word] + stem + kana
  }

  /** The variants of 失敗する and コーヒー. */
  lemma SearchWordsExamples()
    ensures SearchWords("失敗する") == ["失敗する", "失敗"]
    ensures SearchWords("コーヒー") == ["コーヒー", "こーひー"]
    ensures SearchWords("話す") == ["話す", "話"]
  {
    assert "失敗する"[2..] == "する" && "失敗する"[..2] == "失敗";
    assert "話す"[1..] == "す" && "話す"[..1] == "話";
    assert KatakanaCount("失敗する") == 0;
    assert KatakanaCount("話す") == 0;
    assert "コーヒー"[3..] != "す" && "コーヒー"[2..] != "する";
    assert KatakanaCount("コーヒー") == 4;
    assert ToHiragana("コーヒー") == "こーひー";
  }

  /** A bundled entry rendered as `f"{jp} → {vi}"`. */
  function Format(pair: (string, string)): string {
    pair.0 + " → " + pair.1
  }

  /** The first search word that has a bundled entry. */
  function FirstCurated(curated: map<string, seq<(string, string)>>, ws: seq<string>): (r: Option<string>)
    ensures r.Some? ==> r.value in ws && r.value in curated
    ensures r.None? <==> forall k :: 0 <= k < |ws| ==> ws[k] !in curated
  {
    if ws == [] then None else if ws[0] in curated then Some(ws[0]) else FirstCurated(curated, ws[1..])
  }

  /** The fetch loop (main.py:1931-1940): for each search word, the Tatoeba
      answer if it is non-empty, else the Jisho answer if non-empty; nothing if
      no search word gives anything. */
  function FetchFirst(ws: seq<string>, tatoeba: string -> seq<string>, jisho: string -> seq<string>): (r: seq<string>)
    ensures r == [] <==> forall k :: 0 <= k < |ws| ==> tatoeba(ws[k]) == [] && jisho(ws[k]) == []
    ensures r != [] ==> exists k :: 0 <= k < |ws| && (r == tatoeba(ws[k]) || r == jisho(ws[k]))
  {
    if ws == [] then []
    else if tatoeba(ws[0]) != [] then tatoeba(ws[0])
    else if jisho(ws[0]) != [] then jisho(ws[0])
    else
      var rest := FetchFirst(ws[1..], tatoeba, jisho);
      assert forall k :: 1 <= k < |ws| ==> ws[k] == ws[1..][k - 1];
      rest
  }

  /** What `get_examples` returns and leaves behind. */
  datatype ExampleResult = ExampleResult(examples: seq<string>, cache: map<string, seq<string>>, fetched: bool)

  /** `get_examples` (main.py:1883-1950) on the old cache. The two services
      are parameters: each maps a search word to the sentences it yields (with
      `limit` already applied by the caller's choice of function). */
  function ExampleStep(curated: map<string, seq<(string, string)>>, cache: map<string, seq<string>>,
                       word: string, limit: nat, offline: bool,
                       tatoeba: string -> seq<string>, jisho: string -> seq<string>): ExampleResult
  {
    var ws := SearchWords(word);
    match FirstCurated(curated, ws)
    case Some(w) => ExampleResult(seq(|Take(curated[w], limit)|, i requires 0 <= i < |Take(curated[w], limit)| =>
                                    Format(Take(curated[w], limit)[i])), cache, false)
    case None =>
      if word in cache && cache[word] != [] then ExampleResult(Take(cache[word], limit), cache, false)
      else if offline then ExampleResult([], cache, false)
      else
        var ex := FetchFirst(ws, tatoeba, jisho);
        ExampleResult(ex, cache[word := ex], true)
  }

  /** The order of `get_examples`: bundled sentences of the first variant that
      has any, then a non-empty cached list, then nothing when offline, and
      only then the services, whose answer is persisted even when empty. */
  lemma ExampleStepSpec(curated: map<string, seq<(string, string)>>, cache: map<string, seq<string>>,
                        word: string, limit: nat, offline: bool,
                        tatoeba: string -> seq<string>, jisho: string -> seq<string>)
    ensures var r := ExampleStep(curated, cache, word, limit, offline, tatoeba, jisho);
      var ws := SearchWords(word);
      && (FirstCurated(curated, ws).Some? ==>
            var w := FirstCurated(curated, ws).value;
            && |r.examples| == |Take(curated[w], limit)| <= limit
            && (forall i :: 0 <= i < |r.examples| ==> r.examples[i] == Format(curated[w][i]))
            && r.cache == cache && !r.fetched)
      && (FirstCurated(curated, ws).None? && word in cache && cache[word] != [] ==>
            r.examples == Take(cache[word], limit) && r.cache == cache && !r.fetched)
      && (r.fetched <==> FirstCurated(curated, ws).None? && !offline && (word !in cache || cache[word] == []))
      && (r.fetched ==> (r.cache == cache[word := r.examples]
            && r.examples == FetchFirst(ws, tatoeba, jisho)))
      && (!r.fetched ==> r.cache == cache)
      && (offline ==> !r.fetched)
  {
  }

  /** A persisted empty list does not stop the services being asked again. */
  lemma EmptyCacheIsRefetched(curated: map<string, seq<(string, string)>>, cache: map<string, seq<string>>,
                              word: string, limit: nat,
                              tatoeba: string -> seq<string>, jisho: string -> seq<string>,
                              tatoeba2: string -> seq<string>, jisho2: string -> seq<string>)
    requires FirstCurated(curated, SearchWords(word)).None?
    requires word !in cache || cache[word] == []
    requires FetchFirst(SearchWords(word), tatoeba, jisho) == []
    ensures var first := ExampleStep(curated, cache, word, limit, false, tatoeba, jisho);
      first.fetched && first.examples == []
      && ExampleStep(curated, first.cache, word, limit, false, tatoeba2, jisho2).fetched
  {
  }

  /** Fetched sentences, once persisted, are served from the cache. */
  lemma FetchedIsCached(curated: map<string, seq<(string, string)>>, cache: map<string, seq<string>>,
                        word: string, limit: nat, offline2: bool,
                        tatoeba: string -> seq<string>, jisho: string -> seq<string>,
                        tatoeba2: string -> seq<string>, jisho2: string -> seq<string>)
    ensures var first := ExampleStep(curated, cache, word, limit, false, tatoeba, jisho);
      first.fetched && first.examples != [] ==>
      var second := ExampleStep(curated, first.cache, word, limit, offline2, tatoeba2, jisho2);
      !second.fetched && second.examples == Take(first.examples, limit)
  {
  }

  /** The class `ExampleSentencesDB`: the bundled table, the cache and the flag. */
  class ExampleSentencesDb {
    var curated: map<string, seq<(string, string)>>
    var cache: map<string, seq<string>>
    var lastApiCalled: bool

    /** `_load`: the bundled JSON without its `_comment` key. */
    constructor (json: map<string, seq<(string, string)>>, persisted: map<string, seq<string>>)
      ensures curated == json - {"_comment"} && cache == persisted && !lastApiCalled
    {
      curated := json - {"_comment"};
      cache := persisted;
      lastApiCalled := false;
    }

    method GetExamples(word: string, limit: nat, offline: bool,
                       tatoeba: string -> seq<string>, jisho: string -> seq<string>)
      returns (examples: seq<string>)
      modifies this`cache, this`lastApiCalled
      ensures var r := ExampleStep(curated, old(cache), word, limit, offline, tatoeba, jisho);
        examples == r.examples && cache == r.cache && lastApiCalled == r.fetched
    {
      lastApiCalled := false;
      var ws := SearchWords(word);
      var i := 0;
      while i < |ws|
        invariant 0 <= i <= |ws|
        invariant FirstCurated(curated, ws) == FirstCurated(curated, ws[i..])
      {
        assert ws[i..][1..] == ws[i + 1..];
        if ws[i] in curated {
          var pairs := Take(curated[ws[i]], limit);
          examples := [];
          var k := 0;
          while k < |pairs|
            invariant 0 <= k <= |pairs|
            invariant |examples| == k
            invariant forall j :: 0 <= j < k ==> examples[j] == Format(pairs[j])
          {
            examples := examples + [Format(pairs[k])];
            k := k + 1;
          }
          return;
        }
        i := i + 1;
      }
      if word in cache && cache[word] != [] {
        return Take(cache[word], limit);
      }
      if offline {
        return [];
      }
      lastApiCalled := true;
      examples := [];
      i := 0;
      while i < |ws|
        invariant 0 <= i <= |ws|
        invariant FetchFirst(ws, tatoeba, jisho) == FetchFirst(ws[i..], tatoeba, jisho)
        invariant examples == []
      {
        assert ws[i..][1..] == ws[i + 1..];
        examples := tatoeba(ws[i]);
        if examples != [] {
          break;
        }
        examples := jisho(ws[i]);
        if examples != [] {
          break;
        }
        i := i + 1;
      }
      cache := cache[word := examples];
    }
  }
}

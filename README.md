# Japanese vocabulary enrichment: annotation logic and lookup caches

This project models the deterministic core of an EPUB-to-Anki vocabulary
tool that enriches Japanese entries with Vietnamese learners in mind, and
proves properties of that model in Dafny. It covers:

- **Mora segmentation and pitch accent.** `split_morae` in both of its
  versions (the main program fuses only ゃゅょャュョァィゥェォ; the
  pitch-accent module also fuses ぁぃぅぇぉ). It also covers the height table
  of the diagram generator, `get_pitch_heights`, the pattern names of
  `PitchData`, and the numeric layout of the pitch SVG: width, height, and
  the point of each mora and of the particle. Finally, it covers the offline
  pitch database and the service that falls back to pattern -1.
- **Furigana.** The katakana→hiragana fold, the reading validation, the
  split of a word into alternating kanji and kana runs, and the
  cursor-driven walk that hands each kanji run its slice of the reading.
  Then the trailing-kanji step, the whole-word fallback and the
  per-character variant.
- **Verb classification and conjugation.** The priority-ordered classifier,
  the godan ending table, the irregular table and the form builder, which
  yields all five forms or none.
- **Radicals.** The symbol and variant indexes of the catalogue, the
  component cache, the identification of every radical among a kanji's
  components with duplicates dropped by canonical symbol, and the importance
  tiers.
- **Cache-or-fetch resolvers.**
  - `PitchAccentAPI.get_pitch_pattern`: curated table, then cache, then
    offline "?", then a fetch that is always persisted.
  - `JishoAPI.lookup`: persists `{}` on failure.
  - `JishoAPI.get_english_meaning`: uses the `_EMPTY_` sentinel.
  - `JishoAPI.get_reading`.
  - `KanjiAPI.lookup`: persists nothing on failure.
  - `ExampleSentencesDB.get_examples`: refetches when the cached list is
    empty.
  
  Each is a class whose cache is a `map` field and whose method is proved
  equal to a pure step function on the old cache. The step function returns
  the value, the new cache and whether a request was made. The network
  answer is a parameter.
- **The per-entry request flag.** `_last_api_called` of the generator, which
  decides whether the enrichment loop waits after an entry.
- **Small local helpers.** The two character filters of the EPUB parser, the
  Sino-Vietnamese reading of a word, and the word frequency lookup.

Modules follow the program's classes: `Common`, `Kana`, `Morae`,
`PitchDiagram`, `PitchAccent`, `PitchCache`, `Jisho`, `KanjiApi`,
`ExampleSentences`, `Verbs`, `Furigana`, `Radicals`, `LocalData` and
`Enrichment`. Loops of the source are methods with loop invariants, proved
against a function of their inputs. The properties are lemmas about those
functions.

Where the code and its documentation disagree, the model follows the code:

- `split_morae("しゃしん")` is `[しゃ, し, ん]`, because ん is never fused.
- In offline mode `JishoAPI.get_reading` and `KanjiAPI.lookup` still make
  requests, since neither reads the offline switch.
- A persisted empty example list does not stop `get_examples` from asking
  the services again.

## Model

| member | source | states |
|---|---|---|
| Kana.FoldChar | main.py:1311-1320 | a katakana character becomes the hiragana 0x60 below it, anything else is kept, and no katakana remains |
| Kana.FoldIdempotent | main.py:1311-1320 | the folded text contains no katakana, so folding twice equals folding once |
| Kana.FoldNoKatakana | main.py:1311-1320 | text without katakana is left unchanged |
| Kana.FoldAppend | main.py:1311-1320 | folding distributes over concatenation |
| Kana.FoldSlice | main.py:1311-1320 | folding a slice equals slicing the folded text, so cursor positions agree on both |
| Kana.KatakanaToHiragana | main.py:1311-1320 | the conversion loop yields the character-wise fold, which contains no katakana |
| Morae.SplitConcat | main.py:722-736 | the morae concatenate back to the input |
| Morae.SplitShape | main.py:722-736 | every mora has one or two characters and a two-character mora ends in a small kana; there are between half as many morae as characters and as many |
| Morae.FirstMora | main.py:722-736 | the first mora is two characters exactly when the second character is small, and it starts with the first character |
| Morae.SingleMora | main.py:722-736 | one character is one mora |
| Morae.SplitExamples | main.py:722-736 | きょう → [きょ, う], しゃしん → [しゃ, し, ん], "" → [], and ふぁ is one mora only with the wider small-kana set |
| Morae.PitchSetExtendsMain | pitch_accent.py:51-80 | the small kana of the pitch-accent module strictly include those of the main program |
| Morae.SplitStep | main.py:722-736 | one turn of the index loop: two characters are taken when the next one is small, one otherwise |
| Morae.SplitMorae | pitch_accent.py:51-80 | the while loop computes the split, which concatenates back to the input and is empty for empty input |
| PitchDiagram.PatternNumber | main.py:774-777 | the pattern number is -1 exactly when the text is not all digits, and non-negative otherwise |
| PitchDiagram.PatternNumberOfString | main.py:775 | reading back the decimal text of n gives n |
| PitchDiagram.PatternNumberExamples | main.py:774-777 | "?", "" and "-1" give -1; "0" gives 0 and "12" gives 12 |
| PitchDiagram.MoraHeights | main.py:779-795 | one height per mora: 0 is low then high, 1 is high then low, P>1 is low then high before index P and low from P, anything else is all high |
| PitchDiagram.GenerateSvg | main.py:755-795 | no diagram exactly when there are no morae (the reading's split when none are given); otherwise the labels, the width 30·n+40, the height, one point per mora on the marker column, and the height rule of MoraHeights |
| PitchAccent.GetPitchHeights | pitch_accent.py:83-118 | exactly num_morae heights: 0 is low then high, 1 is high then low, P>1 is high exactly for 0<i<P, and a negative pattern is all high |
| PitchAccent.LabelInjective | pitch_accent.py:37-48 | distinct pattern families get distinct `pattern_name` strings |
| PitchAccent.NameOfClassifies | pitch_accent.py:37-48 | the name is Heiban iff the pattern is 0, Atamadaka iff 1, Odaka iff it equals n≥2, Nakadaka iff 1<p<n, and Unknown otherwise |
| PitchAccent.HeibanOdakaDifferOnlyInParticle | pitch_accent.py:164-181 | heiban and odaka give the same mora heights and differ only in the particle, which is high only for heiban |
| PitchAccent.NakadakaDropsInside | pitch_accent.py:83-118 | a nakadaka word is high on mora p-1 and low on mora p, inside the word |
| PitchAccent.PitchData.constructor | pitch_accent.py:32-35 | the morae default to the split of the reading and the pattern name is set from the pattern and the mora count |
| PitchAccent.PitchData.SetPatternName | pitch_accent.py:37-48 | only the name field changes, and it becomes the classification of the pattern |
| PitchAccent.Generate | pitch_accent.py:155-213 | no layout for no morae; otherwise width 2·PADDING_X + MORA_WIDTH·units, height TEXT_Y+15, each mora's point at its x and at HIGH_Y or LOW_Y by its height, plus the particle's point, high iff the pattern is 0 |
| PitchAccent.FirstWithReading | pitch_accent.py:511-514 | the result is the first entry with the given reading, or None when no entry has it |
| PitchAccent.FirstWithReadingAt | pitch_accent.py:511-514 | an entry preceded by no entry with that reading is the one chosen |
| PitchAccent.OfflineChoiceSpec | pitch_accent.py:503-517 | there is data iff the word has entries; a matching reading is preferred; otherwise (or with no reading) the first entry is returned |
| PitchAccent.GetPitchData | pitch_accent.py:503-517 | corrected (see Findings): null exactly when no choice exists; otherwise fresh data for the chosen reading and pattern, with morae and name derived from them |
| PitchAccent.ServiceChoiceSpec | pitch_accent.py:527-553 | no result iff there is no reading and no offline data with a known pattern; a result has a non-negative pattern or is the reading with pattern -1 |
| PitchAccent.ServiceLookup | pitch_accent.py:527-553 | corrected (see Findings): null exactly when the service has no choice; otherwise fresh data built from it |
| PitchAccent.Construct | pitch_accent.py:24-30 | the dataclass construction raises TypeError exactly when `pattern_name` is not passed |
| PitchAccent.AsWrittenAlwaysRaises | pitch_accent.py:503-553 | as written, `get_pitch_data` yields nothing for a word without entries and raises otherwise; `lookup` yields nothing only for such a word with no reading and raises for every other input, including every input the corrected service answers |
| PitchAccent.AsWrittenRaisesOnKnownWord | pitch_accent.py:513-514 | for 雨 stored with reading あめ and pattern 1, the lookup as written raises while the corrected one answers (あめ, 1) |
| PitchCache.CuratedTable | main.py:634-653 | a word is curated exactly when the bundled table has a non-empty entry for it |
| PitchCache.ResolvePitchOrder | main.py:656-695 | curated first; then a cache hit without a request; then offline "?" without persisting; else one request whose answer (or "?") is persisted, every other cache entry kept |
| PitchCache.FetchOnlyWhenCold | main.py:656-695 | a request is made iff the word is neither curated nor cached and the run is online; no cache entry is lost or changed |
| PitchCache.ResolvePitchIdempotent | main.py:656-695 | after an online resolution, any later one for the same word makes no request and gives the same pattern |
| PitchCache.AtMostOneFetch | main.py:656-695 | over any sequence of calls for one word, at most one request is made, and none for a curated or cached word |
| PitchCache.PitchAccentApi.constructor | main.py:634-653 | the curated table is built from the bundled JSON and the cache is the persisted one |
| PitchCache.PitchAccentApi.GetPitchPattern | main.py:656-695 | returns the step's pattern and morae, stores its cache, and sets the flag iff it fetched |
| Jisho.FirstExactMatch | main.py:418-437 | the result is an exact match from the list, and None iff nothing matches |
| Jisho.ExactMatch | main.py:418-437 | the search loop returns the first exact match, or None |
| Jisho.FirstExactMatchIsFirst | main.py:418-437 | no result before the chosen one is an exact match |
| Jisho.LookupSpec | main.py:396-447 | a request happens iff the cache is bypassed or misses; a hit returns the stored entry; a request stores its exact match or `{}` under the word and keeps every other entry |
| Jisho.LookupKeepsCacheExact | main.py:396-447 | every cached entry stays `{}` or an exact match for its word |
| Jisho.LookupIdempotent | main.py:396-447 | a cached lookup after any lookup of the same word makes no request and returns the same data |
| Jisho.DefinitionsOf | main.py:466-469 | at most three definitions per sense, and none when no sense has definitions |
| Jisho.Definitions | main.py:466-469 | the loop over the senses collects their definitions |
| Jisho.DefinitionsOfAppend | main.py:466-469 | the definitions of a list of senses are those of its parts, in order |
| Jisho.MeaningOfSpec | main.py:463-470 | no data or no senses give the empty meaning; a single "rain" definition gives "rain" |
| Jisho.SentinelRoundTrip | main.py:458-473 | storing and reading back a meaning returns it, except the literal `_EMPTY_`; nothing stored is empty |
| Jisho.EnglishSpec | main.py:450-475 | the English cache answers first without change; otherwise the meaning is stored encoded; a request is made iff both caches miss |
| Jisho.EnglishIdempotent | main.py:450-475 | a second call for the same word makes no request and returns the same meaning |
| Jisho.EnglishAfterLookupFetchesNothing | main.py:450-475 | after a dictionary lookup of a word, asking its English meaning makes no request |
| Jisho.ReadingOf | main.py:478-492 | no data gives ""; when a form names the word (as word or as reading), the first such form's reading (or "") is used; when none does, the first form's reading (or "") |
| Jisho.FormForAt | main.py:485-486 | the form picked is the first one naming the word |
| Jisho.ReadingOfFirstNaming | main.py:485-487 | the reading is that of the first form naming the word |
| Jisho.FormFor | main.py:484-487 | the chosen form names the word as its word or reading, and None iff no form does |
| Jisho.ReadingOfKanaWord | main.py:484-487 | a kana word whose own form comes first reads as itself |
| Jisho.JishoApi.constructor | main.py:371-377 | both caches are the persisted ones and the flag is clear |
| Jisho.JishoApi.Lookup | main.py:396-447 | returns the step's data, stores its cache, and raises the flag when it fetched (never clears it) |
| Jisho.JishoApi.GetEnglishMeaning | main.py:450-475 | returns the step's meaning, stores both caches, and sets the flag to this call's request |
| Jisho.JishoApi.GetReading | main.py:478-492 | a cached lookup followed by the reading of its data, so the properties of ReadingOf carry over |
| KanjiApi.LookupSpec | main.py:582-614 | anything but one character gives nothing without a request; a request happens iff the cache is bypassed or misses; a success is stored, a failure leaves the cache unchanged |
| KanjiApi.FailureIsRetried | main.py:611-614 | after a failed request the next cached lookup requests again |
| KanjiApi.SuccessIsCached | main.py:599-610 | after a successful answer the next cached lookup makes no request and returns it |
| KanjiApi.ReadingsOf | main.py:617-622 | no data gives two empty lists; otherwise the kun and on readings |
| KanjiApi.KanjiApi.constructor | main.py:576-579 | the cache is the persisted one and the flag is clear |
| KanjiApi.KanjiApi.Lookup | main.py:582-614 | returns the step's data, stores its cache, and sets the flag to this call's request |
| KanjiApi.KanjiApi.GetReadings | main.py:617-622 | a cached lookup followed by the readings of its data |
| ExampleSentences.KatakanaCount | main.py:1953-1958 | the count never exceeds the length |
| ExampleSentences.KatakanaWordBounds | main.py:1953-1958 | an all-katakana non-empty word is a katakana word; a word without katakana is not |
| ExampleSentences.AllKatakanaCount | main.py:1953-1958 | the count is the length for an all-katakana word and zero for a word without katakana |
| ExampleSentences.ToHiragana | main.py:1961-1974 | same length; each standard katakana character is shifted down by 0x60, every other character kept |
| ExampleSentences.ToHiraganaIdempotent | main.py:1961-1974 | the result has no standard katakana, so converting twice equals converting once |
| ExampleSentences.SearchWords | main.py:1891-1904 | the word itself comes first, with at most two variants after it |
| ExampleSentences.SearchWordsExamples | main.py:1891-1904 | 失敗する also searches 失敗, コーヒー also searches こーひー, and 話す also searches 話 |
| ExampleSentences.FirstCurated | main.py:1906-1909 | the chosen variant is searched and bundled, and None iff no variant is bundled |
| ExampleSentences.FetchFirst | main.py:1931-1940 | empty iff every service answer is empty; otherwise one service's answer for some variant |
| ExampleSentences.ExampleStepSpec | main.py:1883-1950 | bundled sentences first (at most `limit`, formatted); then a non-empty cached list; offline never requests; a request happens iff there is no bundle or non-empty cache and the run is online, and its result is persisted even when empty |
| ExampleSentences.EmptyCacheIsRefetched | main.py:1918-1919 | an empty persisted list does not prevent a second request |
| ExampleSentences.FetchedIsCached | main.py:1911-1950 | non-empty fetched sentences are served from the cache afterwards, without a request |
| ExampleSentences.ExampleSentencesDb.constructor | main.py:1866-1880 | the bundled table without `_comment` and the persisted cache |
| ExampleSentences.ExampleSentencesDb.GetExamples | main.py:1883-1950 | returns the step's sentences, stores its cache, and sets the flag iff it requested |
| Verbs.MakeForms | main.py:1779-1830 | a conjugation always has exactly the five form keys |
| Verbs.Prefixed | main.py:1806-1828 | every form is the stem followed by the table's ending, with the table's keys |
| Verbs.PrefixedLiteral | main.py:1806-1828 | prefixing a five-form table prefixes each form |
| Verbs.GodanRow | main.py:1579-1643 | every row of the godan table has exactly the five form keys |
| Verbs.IrregularOf | main.py:1646-1695 | every irregular entry has the five form keys and a type among suru, kuru, iku and aru |
| Verbs.TypeNameInjective | main.py:1725-1776 | distinct classes have distinct names, so comparing the returned strings compares classes |
| Verbs.DetectVerbType | main.py:1725-1776 | only a word type carrying a verb marker (or none) lets a word be a verb; kuru, iku and aru come only from the irregular table, with that table's type |
| Verbs.DetectVerbTypeOrder | main.py:1725-1776 | a word type without verb markers, or an empty word with no type, is not a verb; otherwise each test decides when the earlier ones do not apply: the irregular table gives its type, する gives suru, an ichidan marker gives ichidan, a godan marker (without an ichidan one) gives godan, the common list and the る heuristic give ichidan, and the remaining non-empty words are godan exactly when their last kana has a godan row, and not verbs otherwise |
| Verbs.DetectVerbTypeMarkerExample | main.py:1744-1748 | a godan marker makes 帰る godan |
| Verbs.DetectVerbTypeHeuristicExample | main.py:1750-1774 | with no type, 帰る is godan by the ending heuristic, 起きる is ichidan from the common list, and 借りる is ichidan by the heuristic |
| Verbs.Conjugate | main.py:1779-1830 | forms only for a word classified as a verb; an irregular word that passes the marker test gets its table's forms |
| Verbs.ConjugateAllOrNothing | main.py:1779-1830 | the result is empty or has exactly the five form keys |
| Verbs.ConjugateEmptyIff | main.py:1779-1830 | empty exactly for a non-verb, a non-irregular empty word, or a godan word whose last kana has no row |
| Verbs.MakeFormsWellFormed | main.py:1579-1695 | a table whose five forms end as required is well formed |
| Verbs.IrregularWellFormed | main.py:1646-1695 | every irregular form ends as its form requires (ます, ない, て/で, た/だ) |
| Verbs.GodanRowWellFormed | main.py:1579-1643 | every godan row ends as its forms require |
| Verbs.PrefixedWellFormed | main.py:1806-1828 | prefixing a stem keeps the endings well formed |
| Verbs.ConjugateAsWellFormed | main.py:1779-1830 | the conjugation for any verb class is empty or well formed |
| Verbs.ConjugateWellFormed | main.py:1779-1830 | every non-empty conjugation is well formed |
| Verbs.ConjugateKeepsStem | main.py:1792-1828 | outside the irregular table every form starts with the word minus る/う-row kana, or minus する for suru verbs |
| Verbs.ConjugateIchidanExample | main.py:1809-1817 | 食べる conjugates to 食べます, 食べて, 食べた, 食べない, 食べられる |
| Verbs.ConjugateGodanExample | main.py:1819-1828 | 書く conjugates to 書きます, 書いて, 書いた, 書かない, 書ける |
| Verbs.ConjugateSuruExample | main.py:1792-1801 | 勉強する conjugates to 勉強します, 勉強して, 勉強した, 勉強しない, 勉強できる |
| Verbs.ConjugateIrregularExample | main.py:1788-1790 | 来る takes its irregular table |
| Verbs.ConjugateNotVerbExamples | main.py:1779-1830 | 本 without a type and 食べる typed as a noun give no forms |
| Furigana.RunsStep | main.py:1416-1430 | one character extends the last run when its class matches and starts a new run otherwise |
| Furigana.JoinedExtendLast | main.py:1416-1422 | extending the last run by a character extends the joined text by it |
| Furigana.RunsJoined | main.py:1411-1430 | the runs concatenate back to the word, and a non-empty word has runs |
| Furigana.RunsHomogeneous | main.py:1411-1430 | every run is non-empty and all its characters have the run's class |
| Furigana.RunsAlternate | main.py:1411-1430 | neighbouring runs have different classes |
| Furigana.RunsPartition | main.py:1411-1430 | the runs are a partition of the word into non-empty alternating homogeneous runs |
| Furigana.AllKanjiOneRun | main.py:1411-1434 | a word of kanji only is a single kanji run |
| Furigana.JoinedCovers | main.py:1411-1430 | run k sits right after the runs before it, inside the word |
| Furigana.Segment | main.py:1411-1430 | the segmentation loop yields the runs, which partition the word |
| Furigana.RenderAppend | main.py:1475-1487 | the markup of one more piece is appended to the markup |
| Furigana.BasesOfRuns | main.py:1444-1487 | pieces carrying the runs' texts one for one annotate exactly the word |
| Furigana.RenderPlain | main.py:1500-1502 | markup without ruby is the text itself |
| Furigana.Walk | main.py:1444-1487 | one piece per run with the run's text as base; ruby only on a kanji run followed by a kana run, with non-empty ruby text; the cursor stays inside the reading; the latest run is plain |
| Furigana.Align | main.py:1489-1498 | one piece per run with the run's text as base, ruby only on kanji runs and never empty |
| Furigana.WalkStepMonotone | main.py:1444-1487 | the cursor in the reading never moves back |
| Furigana.WalkStep | main.py:1444-1487 | one run keeps the walk's guarantees, one piece more, and never moves the cursor back |
| Furigana.WalkStepKeeps | main.py:1444-1487 | a step keeps earlier pieces, except that the previous kanji run may receive the reading slice between the old and the new cursor |
| Furigana.WalkStepSlices | main.py:1444-1487 | a step keeps every ruby text a non-empty slice of the reading before the cursor |
| Furigana.WalkSlices | main.py:1444-1487 | every ruby text is a non-empty slice of the reading ending at or before the cursor |
| Furigana.AlignSlices | main.py:1489-1498 | after the trailing-kanji step every ruby text is still a non-empty slice of the reading |
| Furigana.Drop | main.py:1379 | Python's s[n:], including an n past the end |
| Furigana.CountKanji | main.py:1337-1342 | the count is zero iff the word has no kanji |
| Furigana.HiraganaOnly | main.py:1349 | only hiragana is kept |
| Furigana.KataPrefix | main.py:1369-1374 | the longest leading run of katakana or ー |
| Furigana.KataPrefixIs | main.py:1369-1374 | the prefix loop stops where that run ends |
| Furigana.ValidReadingSpec | main.py:1323-1383 | the reading is kept for an empty word or reading, a word without kanji, or when the word's hiragana occurs in the folded reading; it is replaced only when shorter than the kanji and kana count and the fallback is longer; a leading katakana run is kept; with none the fallback is returned whole; conversely, whenever all the replacement conditions hold, the result is the fallback (after the katakana run, if any) |
| Furigana.ExampleReadingRepaired | main.py:1326 | あなたの猫 read as あなた becomes あなたのねこ |
| Furigana.ExampleKatakanaPrefixKept | main.py:1327 | スポーツ用品店 read as スポーツ keeps スポーツ and takes the rest of the fallback, ようひんてん |
| Furigana.ValidReadingNonEmpty | main.py:1323-1383 | a non-empty reading never validates to an empty one |
| Furigana.ValidateReading | main.py:1323-1383 | the method with the prefix loop computes the validated reading |
| Furigana.GenerateNoKanji | main.py:1393-1396 | a word without kanji is returned unchanged |
| Furigana.GenerateAllKanji | main.py:1432-1434 | a word of kanji only is wrapped whole with its validated reading |
| Furigana.GenerateFallback | main.py:1500-1502 | the pieces always annotate exactly the word, and with no ruby the markup is the word |
| Furigana.GenerateShape | main.py:1386-1504 | the output is a whole-word wrap, or markup whose bases spell the word and whose ruby texts are slices of the reading on kanji runs |
| Furigana.GeneratePerCharSpecCases | main.py:1507-1518 | a single kanji is wrapped with the reading as given; a longer word is generated as usual |
| Furigana.RenderDropLast | main.py:1470-1474 | the markup ends with the last plain run, and cutting it off gives the markup before it |
| Furigana.Generate | main.py:1386-1504 | the method with the segmentation and walk loops produces the generated markup |
| Furigana.AnnotateRuns | main.py:1410-1504 | after validation, the segmentation, walk, trailing-kanji step and fallback yield the annotation of the word with the reading |
| Furigana.TrailingKanji | main.py:1489-1498 | from the walk's markup and cursor, the step yields the markup of the aligned pieces |
| Furigana.WalkRuns | main.py:1444-1487 | the walk loop leaves the walk's cursor and its markup |
| Furigana.WalkRenderStep | main.py:1444-1487 | one run either appends its text or rewrites the previous kanji run as ruby with the reading slice up to the match |
| Furigana.WalkRun | main.py:1444-1487 | one turn of the walk loop advances the markup and the cursor by one step of the walk |
| Furigana.KanjiRunsBefore | main.py:1460-1465 | the look-back loop collects the previous run's text when it is kanji, and nothing otherwise |
| Furigana.KanjiBefore | main.py:1460-1465 | with alternating runs the look-back finds at most the previous run |
| Furigana.GeneratePerChar | main.py:1507-1518 | the method computes the per-character markup |
| Furigana.ExampleReadingKept | main.py:1349-1356 | the reading しめる is kept for 閉める |
| Furigana.ExampleRuns | main.py:1411-1430 | 閉める splits into the kanji run 閉 and the kana run める |
| Furigana.ExampleWalk | main.py:1444-1498 | 閉 receives し and める stays plain |
| Furigana.ExampleWalkFirst | main.py:1485-1487 | the kanji run 閉 is copied and the cursor stays at the start |
| Furigana.ExampleFind | main.py:1446-1450 | める is found in しめる at index 1 |
| Furigana.ExampleMarkup | main.py:1475-1477 | the ruby markup for 閉 read し followed by める |
| Furigana.ExampleRender | main.py:1475-1477 | the markup of those pieces is `<ruby>閉<rt>し</rt></ruby>める` |
| Furigana.GenerateExample | main.py:1386-1504 | 閉める read しめる gives `<ruby>閉<rt>し</rt></ruby>める` |
| Radicals.SymbolIndex | main.py:998-999 | the symbol index has exactly the catalogue's symbols as keys |
| Radicals.SymbolIndexSound | main.py:998-999 | each symbol maps to a catalogue entry with that symbol |
| Radicals.AddVariants | main.py:1000-1001 | registering an entry adds exactly its variants as keys |
| Radicals.AddVariantsSound | main.py:1000-1001 | a registered variant maps to that entry and every other key keeps its entry |
| Radicals.VariantIndexSound | main.py:998-1001 | each variant maps to a catalogue entry that lists it |
| Radicals.MatchOf | main.py:1178-1190 | a component matches iff it is a symbol or a variant; a symbol matches itself without found_as, a variant its entry's symbol with found_as |
| Radicals.ScanDistinct | main.py:1176-1190 | no canonical symbol appears twice among the results |
| Radicals.ScanSound | main.py:1176-1193 | every result is the match of some component |
| Radicals.ScanNone | main.py:1176-1193 | components that match nothing give no results |
| Radicals.ScanComplete | main.py:1176-1193 | every matching component's symbol is among the results |
| Radicals.IndexIn | main.py:1176-1193 | a result has an index in the list |
| Radicals.ScanPrefix | main.py:1176-1193 | results from earlier components come first and are never displaced |
| Radicals.ComponentsSpec | main.py:1054-1074 | a cached list is returned unchanged; no answer gives [] and caches nothing; an answer is cached and then served from the cache |
| Radicals.AllRadicalsSpec | main.py:1159-1199 | a catalogued kanji yields only itself; otherwise the matches of its components in order; and with no match the single main radical, if any |
| Radicals.Tier | main.py:1078-1089 | the tier lies in 0..4 |
| Radicals.TierMonotone | main.py:1078-1089 | a more frequent radical never gets a lower tier, and a jōyō-marked radical is always essential |
| Radicals.TierBands | main.py:1078-1089 | without the jōyō mark the tiers are exactly the bands ≥500, 200-499, 50-199 and <50 |
| Radicals.ImportanceLabelTellsTier | main.py:1078-1089 | two radicals get the same importance label exactly when they fall in the same tier |
| Radicals.LabelsDistinct | main.py:1078-1089 | the five labels differ, so the label tells the tier |
| Radicals.RadicalDb.constructor | main.py:987-1040 | the two indexes are those of the catalogue and the component cache is the persisted one |
| Radicals.RadicalDb.GetComponents | main.py:1054-1074 | returns the step's components and stores its cache |
| Radicals.RadicalDb.IdentifyAllRadicals | main.py:1159-1199 | the loop with its seen set computes the identification and its cache |
| LocalData.JapaneseOnly | main.py:201-214 | the kept text is no longer than the input and has only Japanese characters or 々 |
| LocalData.NonJapanese | main.py:216-229 | the kept text is no longer than the input and has no Japanese characters |
| LocalData.FiltersSplit | main.py:201-229 | each character goes to exactly one filter, except 々, which goes to both |
| LocalData.JapaneseOnlyIdempotent | main.py:201-214 | filtering twice equals filtering once |
| LocalData.JapaneseOnlyKeeps | main.py:201-214 | text of kept characters only passes through unchanged |
| LocalData.CleanJapanese | main.py:201-214 | the loop computes the Japanese filter |
| LocalData.CleanVietnamese | main.py:216-229 | the stripped non-Japanese text, with no Japanese character and no white space at either end |
| LocalData.StripSlice | main.py:229 | stripping keeps a contiguous part with no white space at either end |
| LocalData.HanVietPartsSpec | main.py:960-966 | the readings of a word are those of its parts, in order |
| LocalData.HanVietPartsEmpty | main.py:960-966 | a word has no reading iff the table knows none of its characters |
| LocalData.GetHanViet | main.py:960-966 | the loop joins the known readings with spaces |
| LocalData.FirstKnown | main.py:1226-1232 | None iff no character is known; otherwise the entry of the first known character, tagged with it |
| LocalData.GetWordFrequency | main.py:1226-1232 | the loop returns that first known character's entry |
| Enrichment.FirstKanji | main.py:3026 | None iff the word has no kanji; otherwise the kanji at the first position holding one |
| Enrichment.EnglishNeverFetches | main.py:3188-3193 | get_english_meaning never requests inside an entry, since get_reading already cached the word |
| Enrichment.AsWrittenIgnoresDictionaries | main.py:2989-3193 | the flag as written depends only on the other steps |
| Enrichment.AsWrittenMissesRequest | main.py:2989-3193 | a new word with nothing else to fetch needs a request and gets one, yet the flag as written stays clear |
| Enrichment.FlagIffNeedsNetwork | main.py:2989-3193 | the corrected flag is raised exactly when the caches before the entry force a request |
| Enrichment.AsWrittenNeverOverReports | main.py:2989-3193 | the flag as written is raised only when a request was made |
| Enrichment.SecondPassQuiet | main.py:2979-3263 | enriching a word again from the caches left behind makes no dictionary request, except a kanji lookup whose request failed |
| Enrichment.Run | main.py:2928-2952 | corrected (see Findings): one wait decision per entry |
| Enrichment.RunWaitsIffNeeded | main.py:2950-2952 | corrected (see Findings): the loop waits after an entry exactly when that entry needed the network, given the caches the earlier entries left |
| Enrichment.RunAsWritten | main.py:2928-2952 | as written: one wait decision per entry, and the same caches as the corrected loop |
| Enrichment.RunAsWrittenWaitsIffOthers | main.py:2950-2952 | as written, the loop waits after an entry exactly when one of the entry's other steps requested |
| Enrichment.RunAsWrittenMissesWait | main.py:2950-2952 | on the single entry ねこ with empty caches, the loop as written does not wait while the corrected loop does |
| Enrichment.Generator.constructor | main.py:2904 | the generator shares the two clients and starts with the flag clear |
| Enrichment.Generator.EnrichEntry | main.py:2979-3263 | corrected (see Findings): the dictionary caches become those of the entry's steps, the flag is the corrected one, and the clients' own flags are those their last calls left |
| Enrichment.Generator.LookupSteps | main.py:2993-3028 | the Jisho and kanji caches become those of get_reading and get_readings, the result reports whether either requested, and the clients' flags report their own calls (the kanji flag is untouched for a word without kanji) |
| Enrichment.Generator.EnglishSteps | main.py:3188-3193 | the Jisho cache and English text become those of get_english_meaning, and the result and the Jisho flag report whether it requested |
| Enrichment.RunStep | main.py:2928-2952 | one more entry keeps the earlier wait decisions and adds the corrected flag of that entry |
| Enrichment.Generator.Process | main.py:2928-2952 | corrected (see Findings): the caches and the wait decisions are those of the loop over the entries |

## Left out

- SVG, HTML and CSS markup text: only the numbers (widths, heights, points, labels) are modelled.
- `PitchAccentService.generate_svg` and `generate_comparison`: they only pass model values to the SVG generator.
- `PitchDiagram.PatternNumber`: reads only ASCII digits. Python's `str.isdigit` and `int` also accept other decimal digits (`int("１２")` is 12), which the model reads as -1; `int` fails only on digits that `isdigit` accepts but that are not decimal, such as "²"; the source then falls back to -1, as the model does.
- HTTP requests, scrapers and their regular expressions: each answer is a parameter (an `Option`, or a function for the sentence services).
- pykakasi (the full reading used by reading validation, `format_conjugations`) and jamdict (the component list and `identify_radical`): their results are parameters. `identify_radical`'s result is the `main` argument of `identify_all_radicals`.
- MD5 cache keys, JSON files, corrupt cache files and the `_load`/`_save` plumbing: a cache is a map keyed by the word; file loading becomes constructor arguments.
- The bundled JSON tables keyed by one character (Sino-Vietnamese readings, kanji frequency) are maps keyed by `char`.
- `_romaji_to_hiragana`, `get_word_type`, `get_synonyms_antonyms`, TTS, stroke order, audio, EPUB parsing, deck export and the command line: these are outside the annotation core. In the enrichment flag, their requests enter as the booleans of `OtherRequests`.
- `time.sleep` itself: the loop's wait decision after each entry is returned as a boolean.
- Of the run options of `_enrich_entry`, only offline mode and the English switch are modelled; the other switches act through `OtherRequests`.
- `ExampleSentences.ExampleStep`: a negative `limit` (Python slicing from the end) is not modelled; `limit` is a `nat`.
- `Jisho.EnglishIdempotent`: the meaning is preserved only when it is not the literal text `_EMPTY_`, which the sentinel cannot tell apart from "no meaning".

## Findings

| source | as written | input that shows it | evidently intended | confidence | as-written member | corrected member |
|---|---|---|---|---|---|---|
| main.py:2989-3193 | `_last_api_called` is cleared at the start of an entry and raised only by the other steps and by `JishoAPI.last_api_called` after `get_english_meaning`; that call resets the Jisho flag and always hits the cache `get_reading` just filled, while the `KanjiAPI` flag is never read | empty caches, word ねこ, English enabled, online, no other step requesting: `get_reading` queries Jisho, yet the flag stays clear and the loop does not wait | the flag is raised whenever any step of the entry made a request, so the rate-limit delay follows every request | not executed | Enrichment.AsWrittenMissesRequest, Enrichment.RunAsWrittenMissesWait | Enrichment.FlagIffNeedsNetwork, Enrichment.RunWaitsIffNeeded |
| pitch_accent.py:30, 513-517, 551 | `pattern_name` is a dataclass field without a default, and every `PitchData(...)` call leaves it out, so the construction raises TypeError before `__post_init__` can set it | word 雨 with entry (あめ, 1) and reading あめ: `get_pitch_data` and `lookup` raise instead of returning the record | `pattern_name` defaults to "" so that `__post_init__` fills it in, and the lookups return the record | not executed | PitchAccent.AsWrittenRaisesOnKnownWord | PitchAccent.ServiceLookup |

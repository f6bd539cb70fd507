/** The pitch-accent module pitch_accent.py: the mora heights of a pattern, the
    pattern's family name, the geometry of the diagram, and the offline lookup
    with its "unknown pattern" fallback. */
module PitchAccent {
  import opened Common
  import Morae

  // Style constants of PitchSVGGenerator (pitch_accent.py:125-130).
  const MoraWidth := 35
  const PaddingX := 15
  const HighY := 25
  const LowY := 55
  const TextY := 80

  /** Whether mora `i` is high under `pattern`, in closed form: the first mora
      is high only for atamadaka (1) and for an unknown (negative) pattern; a
      later mora is high for heiban (0), for an unknown pattern, and before the
      downstep of a pattern above 1. */
  predicate IsHigh(pattern: int, i: nat) {
    if i == 0 then pattern == 1 || pattern < 0
    else pattern == 0 || pattern < 0 || (pattern > 1 && i < pattern)
  }

  /** `get_pitch_heights` (pitch_accent.py:83-118): list expressions for
      patterns 0 and 1 and for unknown patterns, an append loop otherwise. */
  method GetPitchHeights(pattern: int, numMorae: nat) returns (heights: seq<bool>)
    ensures |heights| == numMorae
    ensures forall i :: 0 <= i < numMorae ==> heights[i] == IsHigh(pattern, i)
    ensures numMorae > 0 && pattern == 0 ==>
      !heights[0] && forall i :: 1 <= i < numMorae ==> heights[i]
    ensures numMorae > 0 && pattern == 1 ==>
      heights[0] && forall i :: 1 <= i < numMorae ==> !heights[i]
    ensures numMorae > 0 && pattern > 1 ==>
      !heights[0] && forall i :: 1 <= i < numMorae ==> (heights[i] <==> i < pattern)
    ensures pattern < 0 ==> forall i :: 0 <= i < numMorae ==> heights[i]
  {
    if numMorae == 0 {
      return [];
    }
    if pattern == 0 {
      heights := [false] + seq(numMorae - 1, _ => true);
    } else if pattern == 1 {
      heights := [true] + seq(numMorae - 1, _ => false);
    } else if pattern > 0 {
      heights := [false];
      var i := 1;
      while i < numMorae
        invariant 1 <= i <= numMorae
        invariant |heights| == i && !heights[0]
        invariant forall k :: 1 <= k < i ==> (heights[k] <==> k < pattern)
      {
        if i < pattern {
          heights := heights + [true];
        } else {
          heights := heights + [false];
        }
        i := i + 1;
      }
    } else {
      heights := seq(numMorae, _ => true);
    }
  }

  /** The pattern families of PitchData.pattern_name. */
  datatype PatternName = Heiban | Atamadaka | Odaka | Nakadaka | Unknown

  function Label(name: PatternName): string {
    match name
    case Heiban => "平板型 (Heiban)"
    case Atamadaka => "頭高型 (Atamadaka)"
    case Odaka => "尾高型 (Odaka)"
    case Nakadaka => "中高型 (Nakadaka)"
    case Unknown => "Unknown"
  }

  /** Distinct families have distinct names, so `pattern_name` tells the
      family. */
  lemma LabelInjective(a: PatternName, b: PatternName)
    ensures Label(a) == Label(b) <==> a == b
  {
    if a != b {
      assert Label(a)[0] != Label(b)[0];
    }
  }

  /** The family of a downstep `pattern` in a word of `n` morae, in the order
      `_set_pattern_name` tests them (pitch_accent.py:37-48). */
  function NameOf(pattern: int, n: int): PatternName {
    if pattern == 0 then Heiban
    else if pattern == 1 then Atamadaka
    else if pattern == n then Odaka
    else if 1 < pattern < n then Nakadaka
    else Unknown
  }

  /** Each family, characterised without reference to the order of the tests:
      atamadaka wins over odaka for a one-mora word, and a downstep beyond the
      word (or a negative one) is unknown. */
  lemma NameOfClassifies(pattern: int, n: nat)
    ensures NameOf(pattern, n) == Heiban <==> pattern == 0
    ensures NameOf(pattern, n) == Atamadaka <==> pattern == 1
    ensures NameOf(pattern, n) == Odaka <==> pattern == n && n >= 2
    ensures NameOf(pattern, n) == Nakadaka <==> 1 < pattern < n
    ensures NameOf(pattern, n) == Unknown <==> pattern < 0 || (pattern > n && pattern > 1)
  {
  }

  /** Heiban and odaka words have the same mora heights; only the particle that
      follows tells them apart, which is why the diagram draws it. */
  lemma HeibanOdakaDifferOnlyInParticle(n: nat)
    requires n >= 2
    ensures forall i :: 0 <= i < n ==> IsHigh(0, i) == IsHigh(n, i)
    ensures ParticleHigh(0) && !ParticleHigh(n)
    ensures NameOf(0, n) == Heiban && NameOf(n, n) == Odaka
  {
  }

  /** Nakadaka is the family whose heights drop inside the word: the mora just
      before the downstep is high and the downstep mora is low. */
  lemma NakadakaDropsInside(pattern: int, n: nat)
    requires NameOf(pattern, n) == Nakadaka
    ensures IsHigh(pattern, pattern - 1) && !IsHigh(pattern, pattern) && pattern < n
  {
  }

  /** The height of the particle mark after the word (pitch_accent.py:175-181). */
  predicate ParticleHigh(pattern: int) {
    pattern == 0
  }

  /** The PitchData record, a dataclass whose `__post_init__` fills in missing
      morae and sets the pattern name. */
  class PitchData {
    var word: string
    var reading: string
    var morae: seq<string>
    var pattern: int
    var patternName: PatternName

    constructor (word: string, reading: string, morae: seq<string>, pattern: int)
      ensures this.word == word && this.reading == reading && this.pattern == pattern
      ensures this.morae == if morae == [] then Morae.Split(reading, Morae.PitchSmallKana) else morae
      ensures patternName == NameOf(pattern, |this.morae|)
    {
      this.word := word;
      this.reading := reading;
      this.pattern := pattern;
      if morae == [] {
        var split := Morae.SplitMorae(reading, Morae.PitchSmallKana);
        this.morae := split;
      } else {
        this.morae := morae;
      }
      this.patternName := NameOf(pattern, if morae == [] then |Morae.Split(reading, Morae.PitchSmallKana)| else |morae|);
    }

    /** `_set_pattern_name` (pitch_accent.py:37-48). */
    method SetPatternName()
      modifies this`patternName
      ensures patternName == NameOf(pattern, |morae|)
    {
      var n := |morae|;
      if pattern == 0 {
        patternName := Heiban;
      } else if pattern == 1 {
        patternName := Atamadaka;
      } else if pattern == n {
        patternName := Odaka;
      } else if 1 < pattern < n {
        patternName := Nakadaka;
      } else {
        patternName := Unknown;
      }
    }
  }

  /** The numbers PitchSVGGenerator.generate draws: canvas size, and one point
      per mora plus one for the particle when it is shown. */
  datatype Layout = Layout(width: int, height: int, labels: seq<string>, points: seq<(int, int)>)

  function PointX(i: int): int {
    PaddingX + i * MoraWidth + MoraWidth / 2
  }

  function LevelY(high: bool): int {
    if high then HighY else LowY
  }

  /** `PitchSVGGenerator.generate` (pitch_accent.py:138-222): nothing when there
      are no morae; otherwise the width grows by one mora width per mora and for
      the particle, and the particle point is high only after a heiban word. */
  method Generate(reading: string, pattern: int, morae: seq<string>, showParticle: bool)
    returns (d: Option<Layout>)
    ensures var ms := if morae == [] then Morae.Split(reading, Morae.PitchSmallKana) else morae;
      var units := if showParticle then |ms| + 1 else |ms|;
      && (d.None? <==> ms == [])
      && (d.Some? ==>
        && d.value.labels == ms
        && d.value.width == 2 * PaddingX + MoraWidth * units
        && d.value.height == TextY + 15
        && |d.value.points| == units
        && (forall i :: 0 <= i < |ms| ==> d.value.points[i] == (PointX(i), LevelY(IsHigh(pattern, i))))
        && (showParticle ==> d.value.points[|ms|] == (PointX(|ms|), LevelY(ParticleHigh(pattern)))))
  {
    var ms := morae;
    if ms == [] {
      ms := Morae.SplitMorae(reading, Morae.PitchSmallKana);
    }
    if ms == [] {
      return None;
    }
    var numMorae := |ms|;
    var extra := if showParticle then 1 else 0;
    var totalUnits := numMorae + extra;
    var width := PaddingX * 2 + MoraWidth * totalUnits;
    var height := TextY + 15;
    var heights := GetPitchHeights(pattern, numMorae);
    if showParticle {
      if pattern == 0 {
        heights := heights + [true];
      } else {
        heights := heights + [false];
      }
    }
    var points: seq<(int, int)> := [];
    var i := 0;
    while i < |heights|
      invariant 0 <= i <= |heights|
      invariant |points| == i
      invariant forall k :: 0 <= k < i ==> points[k] == (PointX(k), LevelY(heights[k]))
    {
      var x := PaddingX + i * MoraWidth + MoraWidth / 2;
      var y := if heights[i] then HighY else LowY;
      points := points + [(x, y)];
      i := i + 1;
    }
    d := Some(Layout(width, height, ms, points));
  }

  /** Which (reading, pattern) entry `OfflinePitchDB.get_pitch_data` picks: none
      for an unknown word or an empty entry list, the first entry whose reading
      equals a non-empty requested reading, and otherwise the first entry. */
  function OfflineChoice(db: map<string, seq<(string, int)>>, word: string, reading: string): Option<(string, int)> {
    if word !in db || db[word] == [] then None
    else if reading != [] && FirstWithReading(db[word], reading).Some? then FirstWithReading(db[word], reading)
    else Some(db[word][0])
  }

  function FirstWithReading(entries: seq<(string, int)>, reading: string): (r: Option<(string, int)>)
    ensures r.Some? ==> r.value in entries && r.value.0 == reading
    ensures r.None? ==> forall k :: 0 <= k < |entries| ==> entries[k].0 != reading
    ensures r.Some? ==> exists k :: (0 <= k < |entries| && entries[k] == r.value
      && forall j :: 0 <= j < k ==> entries[j].0 != reading)
  {
    if entries == [] then None
    else if entries[0].0 == reading then Some(entries[0])
    else
      var rest := FirstWithReading(entries[1..], reading);
      if rest.Some? then
        assert forall k :: 1 <= k < |entries| ==> entries[k] == entries[1..][k - 1];
        rest
      else rest
  }

  /** The offline choice, as a property of its result: it exists exactly for a
      word with entries, it comes from the word's entries, and it carries the
      requested reading whenever one of the entries has it. */
  lemma OfflineChoiceSpec(db: map<string, seq<(string, int)>>, word: string, reading: string)
    ensures OfflineChoice(db, word, reading).Some? <==> word in db && db[word] != []
    ensures OfflineChoice(db, word, reading).Some? ==> OfflineChoice(db, word, reading).value in db[word]
    ensures reading != [] && word in db && (exists k :: 0 <= k < |db[word]| && db[word][k].0 == reading) ==>
      OfflineChoice(db, word, reading).value.0 == reading
    ensures word in db && db[word] != [] && (reading == [] || forall k :: 0 <= k < |db[word]| ==> db[word][k].0 != reading) ==>
      OfflineChoice(db, word, reading) == Some(db[word][0])
  {
  }

  /** `OfflinePitchDB.get_pitch_data`, corrected (pitch_accent.py:503-517):
      the record is built with its pattern name, which `__post_init__` sets
      from the pattern. */
  method GetPitchData(db: map<string, seq<(string, int)>>, word: string, reading: string)
    returns (data: PitchData?)
    ensures (data == null) <==> OfflineChoice(db, word, reading).None?
    ensures data != null ==> (fresh(data)
      && (data.reading, data.pattern) == OfflineChoice(db, word, reading).value
      && data.word == word
      && data.morae == Morae.Split(data.reading, Morae.PitchSmallKana)
      && data.patternName == NameOf(data.pattern, |data.morae|))
  {
    if word !in db || db[word] == [] {
      return null;
    }
    var entries := db[word];
    if reading != [] {
      var i := 0;
      while i < |entries|
        invariant 0 <= i <= |entries|
        invariant forall k :: 0 <= k < i ==> entries[k].0 != reading
      {
        var (r, p) := entries[i];
        if r == reading {
          assert FirstWithReading(entries, reading) == Some(entries[i]) by {
            FirstWithReadingAt(entries, reading, i);
          }
          var morae := Morae.SplitMorae(r, Morae.PitchSmallKana);
          data := new PitchData(word, r, morae, p);
          return;
        }
        i := i + 1;
      }
    }
    var (r, p) := entries[0];
    var morae := Morae.SplitMorae(r, Morae.PitchSmallKana);
    data := new PitchData(word, r, morae, p);
  }

  lemma {:induction false} FirstWithReadingAt(entries: seq<(string, int)>, reading: string, i: nat)
    requires i < |entries| && entries[i].0 == reading
    requires forall k :: 0 <= k < i ==> entries[k].0 != reading
    ensures FirstWithReading(entries, reading) == Some(entries[i])
  {
    if i > 0 {
      FirstWithReadingAt(entries[1..], reading, i - 1);
    }
  }

  /** What `PitchAccentService.lookup` answers: the offline entry when its
      pattern is known (not negative); otherwise, when a reading was given, an
      unknown pattern (-1) for that reading; otherwise nothing. */
  function ServiceChoice(db: map<string, seq<(string, int)>>, word: string, reading: string): Option<(string, int)> {
    var offline := OfflineChoice(db, word, reading);
    if offline.Some? && offline.value.1 >= 0 then offline
    else if reading != [] then Some((reading, -1))
    else None
  }

  /** The service never answers with a negative pattern other than -1, and
      answers -1 only for the requested reading. */
  lemma ServiceChoiceSpec(db: map<string, seq<(string, int)>>, word: string, reading: string)
    ensures ServiceChoice(db, word, reading).None? <==>
      reading == [] && (OfflineChoice(db, word, reading).None? || OfflineChoice(db, word, reading).value.1 < 0)
    ensures ServiceChoice(db, word, reading).Some? ==>
      ServiceChoice(db, word, reading).value.1 >= 0 || ServiceChoice(db, word, reading) == Some((reading, -1))
  {
  }

  /** What a lookup yields in the source as written: no data, the TypeError
      of a dataclass construction, or a record with its reading and pattern. */
  datatype Outcome = NoData | RaisesTypeError | Data(reading: string, pattern: int)

  /** The generated `PitchData.__init__` (pitch_accent.py:24-30): `pattern_name`
      is a field without a default, so a construction that omits it raises
      TypeError before `__post_init__` runs. */
  function Construct(reading: string, pattern: int, patternName: Option<string>): (r: Outcome)
    ensures r.RaisesTypeError? <==> patternName.None?
    ensures r.Data? ==> r == Data(reading, pattern)
  {
    if patternName.None? then RaisesTypeError else Data(reading, pattern)
  }

  /** `OfflinePitchDB.get_pitch_data` as written (pitch_accent.py:503-517):
      both constructions leave out `pattern_name`. */
  function GetPitchDataAsWritten(db: map<string, seq<(string, int)>>, word: string, reading: string): Outcome {
    match OfflineChoice(db, word, reading)
    case None => NoData
    case Some((r, p)) => Construct(r, p, None)
  }

  /** `PitchAccentService.lookup` as written (pitch_accent.py:527-553): the
      TypeError of the offline lookup propagates, and the unknown-pattern
      construction leaves out `pattern_name` too. */
  function ServiceLookupAsWritten(db: map<string, seq<(string, int)>>, word: string, reading: string): Outcome {
    var offline := GetPitchDataAsWritten(db, word, reading);
    if offline.RaisesTypeError? then RaisesTypeError
    else if offline.Data? && offline.pattern >= 0 then offline
    else if reading != [] then Construct(reading, -1, None)
    else NoData
  }

  /** As written, no lookup ever returns a record: the offline lookup raises
      for every word of the database, and the service raises for every input
      except an unknown word without a reading. In particular it raises
      wherever the corrected service answers. */
  lemma AsWrittenAlwaysRaises(db: map<string, seq<(string, int)>>, word: string, reading: string)
    ensures GetPitchDataAsWritten(db, word, reading) ==
      (if OfflineChoice(db, word, reading).None? then NoData else RaisesTypeError)
    ensures ServiceLookupAsWritten(db, word, reading) ==
      (if OfflineChoice(db, word, reading).None? && reading == [] then NoData else RaisesTypeError)
    ensures ServiceChoice(db, word, reading).Some? ==> ServiceLookupAsWritten(db, word, reading) == RaisesTypeError
  {
  }

  /** A word of the database with its own reading: the service as written
      raises, while the corrected service answers with the stored pattern. */
  lemma AsWrittenRaisesOnKnownWord()
    ensures ServiceLookupAsWritten(map["雨" := [("あめ", 1)]], "雨", "あめ") == RaisesTypeError
    ensures ServiceChoice(map["雨" := [("あめ", 1)]], "雨", "あめ") == Some(("あめ", 1))
  {
    var db := map["雨" := [("あめ", 1)]];
    assert FirstWithReading(db["雨"], "あめ") == Some(("あめ", 1));
  }

  /** `PitchAccentService.lookup`, corrected (pitch_accent.py:527-553): the
      records carry their pattern name, as `__post_init__` sets it. The online
      scrapers it mentions are commented out in the source. */
  method ServiceLookup(db: map<string, seq<(string, int)>>, word: string, reading: string)
    returns (data: PitchData?)
    ensures (data == null) <==> ServiceChoice(db, word, reading).None?
    ensures data != null ==> (fresh(data)
      && (data.reading, data.pattern) == ServiceChoice(db, word, reading).value
      && data.word == word
      && data.morae == Morae.Split(data.reading, Morae.PitchSmallKana)
      && data.patternName == NameOf(data.pattern, |data.morae|))
  {
    data := GetPitchData(db, word, reading);
    if data != null && data.pattern >= 0 {
      return;
    }
    if reading != [] {
      var morae := Morae.SplitMorae(reading, Morae.PitchSmallKana);
      data := new PitchData(word, reading, morae, -1);
      return;
    }
    data := null;
  }
}

/** `VerbConjugator` of main.py: a classifier that decides, by a fixed order of
    tests, which conjugation class a word belongs to, and a conjugator that
    builds the five forms (polite, te, past, negative, potential) from fixed
    suffix tables. The result is always all five forms or none. */
module Verbs {
  import opened Common

  /** The class names `detect_verb_type` returns. */
  datatype VerbType = NotVerb | Suru | Kuru | Iku | Aru | Ichidan | Godan

  function TypeName(t: VerbType): string {
    match t
    case NotVerb => "not_verb"
    case Suru => "suru"
    case Kuru => "kuru"
    case Iku => "iku"
    case Aru => "aru"
    case Ichidan => "ichidan"
    case Godan => "godan"
  }

  /** Distinct classes have distinct names, so the source's comparisons of
      the returned strings are comparisons of classes. */
  lemma TypeNameInjective(t1: VerbType, t2: VerbType)
    ensures TypeName(t1) == TypeName(t2) <==> t1 == t2
  {
    if t1 != t2 {
      assert TypeName(t1)[0] != TypeName(t2)[0] || TypeName(t1)[1] != TypeName(t2)[1];
    }
  }

  /** The five form keys of every non-empty conjugation. */
  const FormKeys: set<string> := {"masu", "te", "ta", "nai", "potential"}

  /** A conjugation: a dictionary from form key to form. */
  type Forms = map<string, string>

  function MakeForms(masu: string, te: string, ta: string, nai: string, potential: string): (f: Forms)
    ensures f.Keys == FormKeys
  {
    map["masu" := masu, "te" := te, "ta" := ta, "nai" := nai, "potential" := potential]
  }

  /** Every form of `f` is `stem` followed by the form of `endings`. */
  function Prefixed(stem: string, endings: Forms): (f: Forms)
    ensures f.Keys == endings.Keys
    ensures forall k :: k in f ==> f[k] == stem + endings[k]
  {
    map k | k in endings :: stem + endings[k]
  }

  /** Prefixing a literal table prefixes each of its five forms. */
  lemma PrefixedLiteral(stem: string, masu: string, te: string, ta: string, nai: string, potential: string)
    ensures Prefixed(stem, MakeForms(masu, te, ta, nai, potential))
      == MakeForms(stem + masu, stem + te, stem + ta, stem + nai, stem + potential)
  {
  }

  /** GODAN_ENDINGS (main.py:1579-1643): the forms' endings by final kana. */
  function GodanRow(c: char): (r: Option<Forms>)
    ensures r.Some? ==> r.value.Keys == FormKeys
  {
    match c
    case 'う' => Some(MakeForms("います", "って", "った", "わない", "える"))
    case 'く' => Some(MakeForms("きます", "いて", "いた", "かない", "ける"))
    case 'ぐ' => Some(MakeForms("ぎます", "いで", "いだ", "がない", "げる"))
    case 'す' => Some(MakeForms("します", "して", "した", "さない", "せる"))
    case 'つ' => Some(MakeForms("ちます", "って", "った", "たない", "てる"))
    case 'ぬ' => Some(MakeForms("にます", "んで", "んだ", "なない", "ねる"))
    case 'ぶ' => Some(MakeForms("びます", "んで", "んだ", "ばない", "べる"))
    case 'む' => Some(MakeForms("みます", "んで", "んだ", "まない", "める"))
    case 'る' => Some(MakeForms("ります", "って", "った", "らない", "れる"))
    case _ => None
  }

  /** An IRREGULARS entry without its "type" key, and that type. */
  datatype Irregular = Irregular(forms: Forms, vtype: VerbType)

  /** IRREGULARS (main.py:1646-1695). */
  function IrregularOf(word: string): (r: Option<Irregular>)
    ensures r.Some? ==> word != "" && r.value.forms.Keys == FormKeys && r.value.vtype in {Suru, Kuru, Iku, Aru}
  {
    if word == "する" then Some(Irregular(MakeForms("します", "して", "した", "しない", "できる"), Suru))
    else if word == "来る" then Some(Irregular(MakeForms("来ます", "来て", "来た", "来ない", "来られる"), Kuru))
    else if word == "くる" then Some(Irregular(MakeForms("きます", "きて", "きた", "こない", "こられる"), Kuru))
    else if word == "行く" then Some(Irregular(MakeForms("行きます", "行って", "行った", "行かない", "行ける"), Iku))
    else if word == "いく" then Some(Irregular(MakeForms("いきます", "いって", "いった", "いかない", "いける"), Iku))
    else if word == "ある" then Some(Irregular(MakeForms("あります", "あって", "あった", "ない", "ありえる"), Aru))
    else None
  }

  /** ICHIDAN_COMMON (main.py:1698-1722). */
  const IchidanCommon: set<string> := {
    "食べる", "見る", "起きる", "寝る", "着る", "出る", "開ける", "閉める", "教える",
    "考える", "答える", "忘れる", "覚える", "始める", "終わる", "たべる", "みる",
    "おきる", "ねる", "きる", "でる", "あける", "しめる"
  }

  const VerbMarkers: seq<string> := ["Verb", "動詞", "Động từ", "verb"]
  const IchidanMarkers: seq<string> := ["Ichidan", "ichidan", "一段"]
  const GodanMarkers: seq<string> := ["Godan", "godan", "五段"]

  /** The え-row and い-row kana that, before a final る, suggest ichidan. */
  const ERow: string := "えけせてねへめれげぜでべぺ"
  const IRow: string := "いきしちにひみりぎじぢびぴ"

  /** `any(m in text for m in markers)`. */
  predicate AnyMarker(text: string, markers: seq<string>) {
    exists i :: 0 <= i < |markers| && Contains(text, markers[i])
  }

  /** The ending heuristic: a final る after an え-row or い-row kana. */
  predicate LooksIchidan(word: string) {
    |word| >= 2 && word[|word| - 1] == 'る' && (word[|word| - 2] in ERow || word[|word| - 2] in IRow)
  }

  /** `detect_verb_type` (main.py:1725-1776), test by test. */
  function DetectVerbType(word: string, wordType: string): (t: VerbType)
    ensures t != NotVerb ==> wordType == "" || AnyMarker(wordType, VerbMarkers)
    ensures t in {Kuru, Iku, Aru} ==> IrregularOf(word).Some? && IrregularOf(word).value.vtype == t
  {
    if wordType != "" && !AnyMarker(wordType, VerbMarkers) then NotVerb
    else if IrregularOf(word).Some? then IrregularOf(word).value.vtype
    else if EndsWith(word, "する") then Suru
    else if wordType != "" && AnyMarker(wordType, IchidanMarkers) then Ichidan
    else if wordType != "" && AnyMarker(wordType, GodanMarkers) then Godan
    else if word in IchidanCommon then Ichidan
    else if word == "" then NotVerb
    else if LooksIchidan(word) then Ichidan
    else if GodanRow(word[|word| - 1]).Some? then Godan
    else NotVerb
  }

  /** The priority order of the classifier: a word type without any verb
      marker always wins; then the irregular table, the する suffix, the word
      type's class markers, the common-ichidan list and the ending heuristics. */
  lemma DetectVerbTypeOrder(word: string, wordType: string)
    ensures var t := DetectVerbType(word, wordType);
      && (wordType != "" && !AnyMarker(wordType, VerbMarkers) ==> t == NotVerb)
      && (wordType == "" && word == "" ==> t == NotVerb)
      && (t in {Kuru, Iku, Aru} ==> IrregularOf(word).Some?)
      && (t == Suru ==> IrregularOf(word).Some? || EndsWith(word, "する"))
      && (t != NotVerb && IrregularOf(word).None? ==> t in {Suru, Ichidan, Godan})
      && (t == Godan && IrregularOf(word).None? && !AnyMarker(wordType, GodanMarkers) ==>
            word != "" && GodanRow(word[|word| - 1]).Some? && !LooksIchidan(word))
      && (wordType == "" || AnyMarker(wordType, VerbMarkers) ==>
            && (IrregularOf(word).Some? ==> t == IrregularOf(word).value.vtype)
            && (IrregularOf(word).None? && EndsWith(word, "する") ==> t == Suru)
            && (IrregularOf(word).None? && !EndsWith(word, "する") && wordType != "" ==>
                  && (AnyMarker(wordType, IchidanMarkers) ==> t == Ichidan)
                  && (AnyMarker(wordType, GodanMarkers) && !AnyMarker(wordType, IchidanMarkers) ==> t == Godan))
            && (IrregularOf(word).None? && !EndsWith(word, "する")
                && (wordType == "" || (!AnyMarker(wordType, IchidanMarkers) && !AnyMarker(wordType, GodanMarkers))) ==>
                  && (word in IchidanCommon ==> t == Ichidan)
                  && (word !in IchidanCommon && word == "" ==> t == NotVerb)
                  && (word !in IchidanCommon && LooksIchidan(word) ==> t == Ichidan)
                  && (word !in IchidanCommon && word != "" && !LooksIchidan(word) ==>
                        t in {Godan, NotVerb} && (t == Godan <==> GodanRow(word[|word| - 1]).Some?))))
  {
  }

  /** "Godan verb" carries the marker "verb". */
  lemma GodanVerbIsVerb()
    ensures AnyMarker("Godan verb", VerbMarkers)
  {
    assert OccursAt("Godan verb", "verb", 6);
    ContainsIff("Godan verb", "verb");
    assert Contains("Godan verb", VerbMarkers[3]);
  }

  /** "Godan verb" carries no ichidan marker. */
  lemma GodanVerbNotIchidan()
    ensures !AnyMarker("Godan verb", IchidanMarkers)
  {
    forall i | 0 <= i < |IchidanMarkers|
      ensures !Contains("Godan verb", IchidanMarkers[i])
    {
      var m := IchidanMarkers[i];
      assert m[0] in {'I', 'i', '一'};
      FirstCharAbsent("Godan verb", m);
    }
  }

  /** "Godan verb" carries the marker "Godan". */
  lemma GodanVerbIsGodan()
    ensures AnyMarker("Godan verb", GodanMarkers)
  {
    assert OccursAt("Godan verb", "Godan", 0);
    ContainsIff("Godan verb", "Godan");
    assert Contains("Godan verb", GodanMarkers[0]);
  }

  /** A godan marker in the word type decides a word the ending heuristic
      would call ichidan. */
  lemma DetectVerbTypeMarkerExample()
    ensures DetectVerbType("帰る", "Godan verb") == Godan
  {
    assert IrregularOf("帰る").None? && "帰る"[0..] != "する";
    GodanVerbIsVerb();
    GodanVerbNotIchidan();
    GodanVerbIsGodan();
  }

  /** With no word type, the ending heuristic calls 帰る godan (its kana
      before る is not in the え or い row). */
  lemma DetectVerbTypeHeuristicExample()
    ensures DetectVerbType("帰る", "") == Godan
    ensures DetectVerbType("起きる", "") == Ichidan
    ensures DetectVerbType("借りる", "") == Ichidan
  {
    KaeruIsGodan();
    KariruIsIchidan();
    assert "起きる" in IchidanCommon && IrregularOf("起きる").None? && "起きる"[1..] != "する";
  }

  lemma KaeruIsGodan()
    ensures DetectVerbType("帰る", "") == Godan
  {
    assert IrregularOf("帰る").None? && "帰る"[0..] != "する" && "帰る" !in IchidanCommon;
    assert !LooksIchidan("帰る") && "帰る"[1] == 'る';
  }

  lemma KariruIsIchidan()
    ensures DetectVerbType("借りる", "") == Ichidan
  {
    assert IrregularOf("借りる").None? && "借りる"[1..] != "する" && "借りる" !in IchidanCommon;
    assert "借りる"[1] == 'り' && 'り' in IRow;
  }

  /** `conjugate` (main.py:1779-1830): classify, then build the forms. */
  function Conjugate(word: string, wordType: string): (f: Forms)
    ensures f != map[] ==> DetectVerbType(word, wordType) != NotVerb
    ensures IrregularOf(word).Some? && (wordType == "" || AnyMarker(wordType, VerbMarkers)) ==>
      f == IrregularOf(word).value.forms
  {
    ConjugateAs(word, DetectVerbType(word, wordType))
  }

  /** The forms `conjugate` builds for a word of class `t`. */
  function ConjugateAs(word: string, t: VerbType): Forms {
    if t == NotVerb then map[]
    else if IrregularOf(word).Some? then IrregularOf(word).value.forms
    else if t == Suru && EndsWith(word, "する") then
      Prefixed(word[..|word| - 2], MakeForms("します", "して", "した", "しない", "できる"))
    else if word == "" then map[]
    else if t == Ichidan then Prefixed(word[..|word| - 1], MakeForms("ます", "て", "た", "ない", "られる"))
    else if t == Godan && GodanRow(word[|word| - 1]).Some? then
      Prefixed(word[..|word| - 1], GodanRow(word[|word| - 1]).value)
    else map[]
  }

  /** All five forms or nothing. */
  lemma ConjugateAllOrNothing(word: string, wordType: string)
    ensures Conjugate(word, wordType) == map[] || Conjugate(word, wordType).Keys == FormKeys
  {
  }

  /** Exactly when nothing is produced: a non-verb, an empty word (which a
      class marker in the word type can still call ichidan or godan), or a
      godan-marked word whose final kana has no row. */
  lemma ConjugateEmptyIff(word: string, wordType: string)
    ensures var t := DetectVerbType(word, wordType);
      Conjugate(word, wordType) == map[] <==>
        (t == NotVerb || (IrregularOf(word).None?
          && (word == "" || (t == Godan && GodanRow(word[|word| - 1]).None?))))
  {
    DetectVerbTypeOrder(word, wordType);
  }

  /** `s` ends with the character `c`. */
  predicate EndsIn(s: string, c: char) {
    s != [] && s[|s| - 1] == c
  }

  /** `s` ends with the two characters `a`, `b`. */
  predicate EndsIn2(s: string, a: char, b: char) {
    |s| >= 2 && s[|s| - 2] == a && s[|s| - 1] == b
  }

  /** The shape every form has: polite ends in ます, negative in ない, te in
      て or で, past in た or だ, potential in る. */
  predicate WellFormed(f: Forms) {
    && f.Keys == FormKeys
    && EndsIn2(f["masu"], 'ま', 'す') && EndsIn2(f["nai"], 'な', 'い')
    && (EndsIn(f["te"], 'て') || EndsIn(f["te"], 'で'))
    && (EndsIn(f["ta"], 'た') || EndsIn(f["ta"], 'だ'))
    && EndsIn(f["potential"], 'る')
  }

  /** Five forms with the expected endings make a well-formed table. */
  lemma MakeFormsWellFormed(masu: string, te: string, ta: string, nai: string, potential: string)
    requires EndsIn2(masu, 'ま', 'す') && EndsIn2(nai, 'な', 'い')
    requires EndsIn(te, 'て') || EndsIn(te, 'で')
    requires EndsIn(ta, 'た') || EndsIn(ta, 'だ')
    requires EndsIn(potential, 'る')
    ensures WellFormed(MakeForms(masu, te, ta, nai, potential))
  {
  }

  lemma IrregularWellFormed(word: string)
    requires IrregularOf(word).Some?
    ensures WellFormed(IrregularOf(word).value.forms)
  {
    if word == "する" {
      MakeFormsWellFormed("します", "して", "した", "しない", "できる");
    } else if word == "来る" {
      MakeFormsWellFormed("来ます", "来て", "来た", "来ない", "来られる");
    } else if word == "くる" {
      MakeFormsWellFormed("きます", "きて", "きた", "こない", "こられる");
    } else if word == "行く" {
      MakeFormsWellFormed("行きます", "行って", "行った", "行かない", "行ける");
    } else if word == "いく" {
      MakeFormsWellFormed("いきます", "いって", "いった", "いかない", "いける");
    } else {
      MakeFormsWellFormed("あります", "あって", "あった", "ない", "ありえる");
    }
  }

  lemma GodanRowWellFormed(c: char)
    requires GodanRow(c).Some?
    ensures WellFormed(GodanRow(c).value)
  {
    if c == 'う' || c == 'く' || c == 'ぐ' || c == 'す' {
      GodanRowWellFormedFirst(c);
    } else {
      GodanRowWellFormedRest(c);
    }
  }

  lemma GodanRowWellFormedFirst(c: char)
    requires c == 'う' || c == 'く' || c == 'ぐ' || c == 'す'
    ensures WellFormed(GodanRow(c).value)
  {
    match c
    case 'う' => MakeFormsWellFormed("います", "って", "った", "わない", "える");
    case 'く' => MakeFormsWellFormed("きます", "いて", "いた", "かない", "ける");
    case 'ぐ' => MakeFormsWellFormed("ぎます", "いで", "いだ", "がない", "げる");
    case 'す' => MakeFormsWellFormed("します", "して", "した", "さない", "せる");
  }

  lemma GodanRowWellFormedRest(c: char)
    requires c == 'つ' || c == 'ぬ' || c == 'ぶ' || c == 'む' || c == 'る'
    ensures WellFormed(GodanRow(c).value)
  {
    match c
    case 'つ' => MakeFormsWellFormed("ちます", "って", "った", "たない", "てる");
    case 'ぬ' => MakeFormsWellFormed("にます", "んで", "んだ", "なない", "ねる");
    case 'ぶ' => MakeFormsWellFormed("びます", "んで", "んだ", "ばない", "べる");
    case 'む' => MakeFormsWellFormed("みます", "んで", "んだ", "まない", "める");
    case 'る' => MakeFormsWellFormed("ります", "って", "った", "らない", "れる");
  }

  lemma PrefixedWellFormed(stem: string, endings: Forms)
    requires WellFormed(endings)
    ensures WellFormed(Prefixed(stem, endings))
  {
    forall k | k in endings
      ensures var e := endings[k];
        var s := Prefixed(stem, endings)[k];
        |s| >= |e| && s[|s| - 1] == e[|e| - 1] && (|e| >= 2 ==> s[|s| - 2] == e[|e| - 2])
    {
      var e := endings[k];
      assert Prefixed(stem, endings)[k] == stem + e;
    }
  }

  /** Every non-empty conjugation, irregular or built from a stem, has the
      five forms in their expected shapes. */
  lemma ConjugateWellFormed(word: string, wordType: string)
    ensures Conjugate(word, wordType) == map[] || WellFormed(Conjugate(word, wordType))
  {
    ConjugateAsWellFormed(word, DetectVerbType(word, wordType));
  }

  /** The same for every class the classifier may return. */
  lemma ConjugateAsWellFormed(word: string, t: VerbType)
    ensures ConjugateAs(word, t) == map[] || WellFormed(ConjugateAs(word, t))
  {
    if t == NotVerb {
    } else if IrregularOf(word).Some? {
      IrregularWellFormed(word);
    } else if t == Suru && EndsWith(word, "する") {
      PrefixedWellFormed(word[..|word| - 2], MakeForms("します", "して", "した", "しない", "できる"));
    } else if word == "" {
    } else if t == Ichidan {
      PrefixedWellFormed(word[..|word| - 1], MakeForms("ます", "て", "た", "ない", "られる"));
    } else if t == Godan && GodanRow(word[|word| - 1]).Some? {
      GodanRowWellFormed(word[|word| - 1]);
      PrefixedWellFormed(word[..|word| - 1], GodanRow(word[|word| - 1]).value);
    }
  }

  /** Outside the irregular table every form keeps the word's stem: the word
      without its final kana, or without する for a する compound. */
  lemma ConjugateKeepsStem(word: string, wordType: string)
    requires IrregularOf(word).None? && Conjugate(word, wordType) != map[]
    ensures var f := Conjugate(word, wordType);
      var stem := if DetectVerbType(word, wordType) == Suru then word[..|word| - 2] else word[..|word| - 1];
      forall k :: k in f ==> |stem| <= |f[k]| && f[k][..|stem|] == stem
  {
  }

  lemma ConjugateIchidanExample()
    ensures Conjugate("食べる", "") == MakeForms("食べます", "食べて", "食べた", "食べない", "食べられる")
  {
    assert IrregularOf("食べる").None?;
    assert "食べる"[1..] != "する";
    assert "食べる" in IchidanCommon;
    assert DetectVerbType("食べる", "") == Ichidan;
    assert "食べる"[..2] == "食べ";
    var e := MakeForms("ます", "て", "た", "ない", "られる");
    assert ConjugateAs("食べる", Ichidan) == Prefixed("食べ", e);
    PrefixedLiteral("食べ", "ます", "て", "た", "ない", "られる");
    assert "食べ" + "ます" == "食べます" && "食べ" + "て" == "食べて" && "食べ" + "た" == "食べた";
    assert "食べ" + "ない" == "食べない" && "食べ" + "られる" == "食べられる";
  }

  lemma ConjugateGodanExample()
    ensures Conjugate("書く", "") == MakeForms("書きます", "書いて", "書いた", "書かない", "書ける")
  {
    KakuIsGodan();
    assert "書く"[..1] == "書";
    assert ConjugateAs("書く", Godan) == Prefixed("書", MakeForms("きます", "いて", "いた", "かない", "ける"));
    PrefixedLiteral("書", "きます", "いて", "いた", "かない", "ける");
    assert "書" + "きます" == "書きます" && "書" + "いて" == "書いて" && "書" + "いた" == "書いた";
    assert "書" + "かない" == "書かない" && "書" + "ける" == "書ける";
  }

  lemma KakuIsGodan()
    ensures DetectVerbType("書く", "") == Godan
  {
    assert IrregularOf("書く").None? && "書く"[0..] != "する" && "書く" !in IchidanCommon;
    assert !LooksIchidan("書く") && "書く"[1] == 'く';
  }

  lemma ConjugateSuruExample()
    ensures Conjugate("勉強する", "") == MakeForms("勉強します", "勉強して", "勉強した", "勉強しない", "勉強できる")
  {
    assert IrregularOf("勉強する").None?;
    assert "勉強する"[2..] == "する";
    assert DetectVerbType("勉強する", "") == Suru;
    assert "勉強する"[..2] == "勉強";
    assert ConjugateAs("勉強する", Suru) == Prefixed("勉強", MakeForms("します", "して", "した", "しない", "できる"));
    PrefixedLiteral("勉強", "します", "して", "した", "しない", "できる");
    assert "勉強" + "します" == "勉強します" && "勉強" + "して" == "勉強して" && "勉強" + "した" == "勉強した";
    assert "勉強" + "しない" == "勉強しない" && "勉強" + "できる" == "勉強できる";
  }

  lemma ConjugateIrregularExample()
    ensures Conjugate("来る", "") == MakeForms("来ます", "来て", "来た", "来ない", "来られる")
  {
  }

  /** A word with no verb ending is no verb, and neither is any word whose
      word type carries no verb marker. */
  lemma ConjugateNotVerbExamples()
    ensures Conjugate("本", "") == map[]
    ensures Conjugate("食べる", "Noun") == map[]
  {
    HonIsNotVerb();
    NounIsNotVerb();
    assert DetectVerbType("食べる", "Noun") == NotVerb;
  }

  lemma HonIsNotVerb()
    ensures DetectVerbType("本", "") == NotVerb
  {
    assert IrregularOf("本").None? && "本"[0..] != "する" && "本" !in IchidanCommon;
    assert !LooksIchidan("本") && GodanRow("本"[0]).None?;
  }

  /** "Noun" carries no verb marker. */
  lemma NounIsNotVerb()
    ensures !AnyMarker("Noun", VerbMarkers)
  {
    forall i | 0 <= i < |VerbMarkers|
      ensures !Contains("Noun", VerbMarkers[i])
    {
      var m := VerbMarkers[i];
      assert m[0] in {'V', '動', 'Đ', 'v'};
      FirstCharAbsent("Noun", m);
    }
  }
}

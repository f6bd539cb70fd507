/** Mora segmentation, as written twice in the source: `PitchAccentAPI.split_morae`
    in main.py and the module-level `split_morae` in pitch_accent.py. Both scan the
    text once and fuse a character with the following one when that one is a
    small kana; they differ only in the set of small kana. */
module Morae {
  import opened Common

  /** main.py:725: small ya/yu/yo in both scripts and the katakana small vowels. */
  const MainSmallKana: set<char> :=
    {'ゃ', 'ゅ', 'ょ', 'ャ', 'ュ', 'ョ', 'ァ', 'ィ', 'ゥ', 'ェ', 'ォ'}

  /** pitch_accent.py:63: the same set plus the hiragana small vowels. */
  const PitchSmallKana: set<char> := MainSmallKana + {'ぁ', 'ぃ', 'ぅ', 'ぇ', 'ぉ'}

  /** The segmentation the loop computes, one mora at a time from the left. */
  function Split(text: string, small: set<char>): seq<string>
    decreases |text|
  {
    if text == [] then []
    else if 1 < |text| && text[1] in small then [text[..2]] + Split(text[2..], small)
    else [text[..1]] + Split(text[1..], small)
  }

  /** The morae concatenate back to the input. */
  lemma {:induction false} SplitConcat(text: string, small: set<char>)
    ensures Concat(Split(text, small)) == text
    decreases |text|
  {
    if text == [] {
    } else if 1 < |text| && text[1] in small {
      SplitConcat(text[2..], small);
      assert text == text[..2] + text[2..];
    } else {
      SplitConcat(text[1..], small);
      assert text == text[..1] + text[1..];
    }
  }

  /** Every mora has one or two characters, and a two-character mora ends in a
      small kana; so the number of morae lies between half the length and the length. */
  lemma {:induction false} SplitShape(text: string, small: set<char>)
    ensures forall k :: 0 <= k < |Split(text, small)| ==>
      var m := Split(text, small)[k];
      (|m| == 1 || |m| == 2) && (|m| == 2 ==> m[1] in small)
    ensures |text| <= 2 * |Split(text, small)| && |Split(text, small)| <= |text|
    decreases |text|
  {
    if text == [] {
    } else if 1 < |text| && text[1] in small {
      SplitShape(text[2..], small);
    } else {
      SplitShape(text[1..], small);
    }
  }

  /** A character is fused with the next one exactly when the next one is small:
      the first mora of a non-empty text is two characters long iff the second
      character is a small kana. */
  lemma FirstMora(text: string, small: set<char>)
    requires text != []
    ensures Split(text, small) != []
    ensures |Split(text, small)[0]| == 2 <==> (1 < |text| && text[1] in small)
    ensures Split(text, small)[0][0] == text[0]
  {
  }

  lemma SingleMora(c: string, small: set<char>)
    requires |c| == 1
    ensures Split(c, small) == [c]
  {
    assert c[..1] == c && c[1..] == "";
  }

  lemma SplitExamples()
    ensures Split("きょう", MainSmallKana) == ["きょ", "う"]
    ensures Split("しゃしん", MainSmallKana) == ["しゃ", "し", "ん"]
    ensures Split("", PitchSmallKana) == []
    ensures Split("ふぁ", MainSmallKana) == ["ふ", "ぁ"]
    ensures Split("ふぁ", PitchSmallKana) == ["ふぁ"]
  {
    SingleMora("う", MainSmallKana);
    SingleMora("ん", MainSmallKana);
    SingleMora("ぁ", MainSmallKana);
    assert "しん"[1] !in MainSmallKana && "しん"[..1] == "し" && "しん"[1..] == "ん";
    assert Split("しん", MainSmallKana) == ["し", "ん"];
    assert "きょう"[1] in MainSmallKana && "きょう"[..2] == "きょ" && "きょう"[2..] == "う";
    assert "しゃしん"[1] in MainSmallKana && "しゃしん"[..2] == "しゃ" && "しゃしん"[2..] == "しん";
    assert "ふぁ"[1] !in MainSmallKana && "ふぁ"[..1] == "ふ" && "ふぁ"[1..] == "ぁ";
    assert "ふぁ"[1] in PitchSmallKana && "ふぁ"[..2] == "ふぁ" && "ふぁ"[2..] == "";
  }

  /** The pitch_accent.py set is a strict superset of main.py's: it also fuses
      the small hiragana vowels. */
  lemma PitchSetExtendsMain()
    ensures MainSmallKana < PitchSmallKana
    ensures 'ぁ' in PitchSmallKana && 'ぁ' !in MainSmallKana
  {
  }

  /** One step of the scan, stated on the suffix that starts at index `i`. */
  lemma SplitStep(text: string, small: set<char>, i: nat)
    requires i < |text|
    ensures i + 1 < |text| && text[i + 1] in small ==>
      Split(text[i..], small) == [text[i..i + 2]] + Split(text[i + 2..], small)
    ensures !(i + 1 < |text| && text[i + 1] in small) ==>
      Split(text[i..], small) == [text[i..i + 1]] + Split(text[i + 1..], small)
  {
    var t := text[i..];
    assert t[..1] == text[i..i + 1] && t[1..] == text[i + 1..];
    if i + 1 < |text| {
      assert t[1] == text[i + 1];
      assert t[..2] == text[i..i + 2] && t[2..] == text[i + 2..];
    }
  }

  /** `split_morae` (main.py:722-736, pitch_accent.py:51-80): an index loop that
      appends a two-character mora when the next character is small and a
      one-character mora otherwise. */
  method SplitMorae(text: string, small: set<char>) returns (morae: seq<string>)
    ensures morae == Split(text, small)
    ensures Concat(morae) == text
    ensures text == [] ==> morae == []
  {
    morae := [];
    var i := 0;
    while i < |text|
      invariant 0 <= i <= |text|
      invariant morae + Split(text[i..], small) == Split(text, small)
    {
      SplitStep(text, small, i);
      if i + 1 < |text| && text[i + 1] in small {
        morae := morae + [text[i..i + 2]];
        i := i + 2;
      } else {
        morae := morae + [text[i..i + 1]];
        i := i + 1;
      }
    }
    SplitConcat(text, small);
  }
}

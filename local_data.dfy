/** The local helpers around an entry: the two character filters of
    `EPUBVocabParser`, the Sino-Vietnamese reading of `HanVietDB` and the
    word frequency of `KanjiFrequencyDB`. The JSON tables are given as maps
    keyed by character. */
module LocalData {
  import opened Common
  import opened Kana

  /** The three ranges both filters test (main.py:206-210, 222-225). */
  predicate IsJapanese(c: char) {
    IsHiragana(c) || IsKatakana(c) || IsKanji(c)
  }

  /** `_clean_japanese` also keeps the iteration mark 々. */
  predicate KeptAsJapanese(c: char) {
    IsJapanese(c) || c == '々'
  }

  /** The characters of `text` that satisfy `KeptAsJapanese`, in order. */
  function JapaneseOnly(text: string): (r: string)
    ensures |r| <= |text|
    ensures forall i :: 0 <= i < |r| ==> KeptAsJapanese(r[i])
  {
    if text == [] then ""
    else JapaneseOnly(text[..|text| - 1]) + (if KeptAsJapanese(text[|text| - 1]) then [text[|text| - 1]] else "")
  }

  /** The characters of `text` outside the three ranges, in order. */
  function NonJapanese(text: string): (r: string)
    ensures |r| <= |text|
    ensures forall i :: 0 <= i < |r| ==> !IsJapanese(r[i])
  {
    if text == [] then ""
    else NonJapanese(text[..|text| - 1]) + (if IsJapanese(text[|text| - 1]) then "" else [text[|text| - 1]])
  }

  /** How often 々 occurs. */
  function IterationMarks(text: string): nat {
    if text == [] then 0
    else IterationMarks(text[..|text| - 1]) + (if text[|text| - 1] == '々' then 1 else 0)
  }

  /** The two filters share out the characters: each goes to exactly one
      side, except 々, which lies outside the ranges and so goes to both. */
  lemma {:induction false} FiltersSplit(text: string)
    ensures |JapaneseOnly(text)| + |NonJapanese(text)| == |text| + IterationMarks(text)
    decreases |text|
  {
    if text != [] {
      FiltersSplit(text[..|text| - 1]);
      var c := text[|text| - 1];
      assert c == '々' ==> !IsJapanese(c) by {
        if c == '々' {
          assert !IsHiragana(c) && !IsKatakana(c) && !IsKanji(c);
        }
      }
    }
  }

  /** Filtering twice changes nothing. */
  lemma {:induction false} JapaneseOnlyIdempotent(text: string)
    ensures JapaneseOnly(JapaneseOnly(text)) == JapaneseOnly(text)
    decreases |text|
  {
    if text != [] {
      var pre := text[..|text| - 1];
      var c := text[|text| - 1];
      JapaneseOnlyIdempotent(pre);
      var kept := JapaneseOnly(pre);
      if KeptAsJapanese(c) {
        assert (kept + [c])[..|kept|] == kept;
        assert JapaneseOnly(kept + [c]) == JapaneseOnly(kept) + [c];
        assert JapaneseOnly(text) == kept + [c];
      } else {
        assert JapaneseOnly(text) == kept + "" == kept;
      }
    }
  }

  /** Text made only of kept characters passes through unchanged. */
  lemma {:induction false} JapaneseOnlyKeeps(text: string)
    requires forall i :: 0 <= i < |text| ==> KeptAsJapanese(text[i])
    ensures JapaneseOnly(text) == text
    decreases |text|
  {
    if text != [] {
      JapaneseOnlyKeeps(text[..|text| - 1]);
      assert text[..|text| - 1] + [text[|text| - 1]] == text;
    }
  }

  /** `_clean_japanese` (main.py:201-214). */
  method CleanJapanese(text: string) returns (r: string)
    ensures r == JapaneseOnly(text)
  {
    r := "";
    var i := 0;
    while i < |text|
      invariant 0 <= i <= |text|
      invariant r == JapaneseOnly(text[..i])
    {
      assert text[..i + 1][..i] == text[..i];
      var c := text[i];
      if IsHiragana(c) || IsKatakana(c) || IsKanji(c) || c == '々' {
        r := r + [c];
      }
      i := i + 1;
    }
    assert text[..i] == text;
  }

  /** `_clean_vietnamese` (main.py:216-229): drop the Japanese characters,
      then strip surrounding white space. */
  method CleanVietnamese(text: string) returns (r: string)
    ensures r == Strip(NonJapanese(text))
    ensures forall i :: 0 <= i < |r| ==> !IsJapanese(r[i])
    ensures r != [] ==> !IsSpace(r[0]) && !IsSpace(r[|r| - 1])
  {
    var kept := "";
    var i := 0;
    while i < |text|
      invariant 0 <= i <= |text|
      invariant kept == NonJapanese(text[..i])
    {
      assert text[..i + 1][..i] == text[..i];
      var c := text[i];
      if !(IsHiragana(c) || IsKatakana(c) || IsKanji(c)) {
        kept := kept + [c];
      }
      i := i + 1;
    }
    assert text[..i] == text;
    StripSlice(kept);
    r := Strip(kept);
  }

  /** Stripping keeps a contiguous part of the text and leaves no white space
      at either end. */
  lemma StripSlice(s: string)
    ensures exists a, b :: 0 <= a <= b <= |s| && Strip(s) == s[a..b]
    ensures Strip(s) != [] ==> !IsSpace(Strip(s)[0]) && !IsSpace(Strip(s)[|Strip(s)| - 1])
  {
    var t := TrimStart(s);
    var u := TrimEnd(t);
    var a := |s| - |t|;
    SliceOfSuffix(s, a, |u|);
    if u != [] {
      assert u[0] == t[0];
    }
  }

  lemma SliceOfSuffix(s: string, a: nat, n: nat)
    requires a + n <= |s|
    ensures s[a..][..n] == s[a..a + n]
  {
  }

  /** The Sino-Vietnamese readings of the characters the table knows, in
      order. */
  function HanVietParts(table: map<char, string>, word: string): seq<string>
  {
    if word == [] then []
    else HanVietParts(table, word[..|word| - 1])
         + (if word[|word| - 1] in table then [table[word[|word| - 1]]] else [])
  }

  /** One reading per known character, in the order of the word, and the
      readings of a word are those of its parts. */
  lemma {:induction false} HanVietPartsSpec(table: map<char, string>, w1: string, w2: string)
    ensures HanVietParts(table, w1 + w2) == HanVietParts(table, w1) + HanVietParts(table, w2)
    decreases |w2|
  {
    if w2 != [] {
      var pre := w2[..|w2| - 1];
      HanVietPartsSpec(table, w1, pre);
      assert (w1 + w2)[..|w1 + w2| - 1] == w1 + pre;
    } else {
      assert w1 + w2 == w1;
    }
  }

  /** A word none of whose characters is in the table has no reading. */
  lemma {:induction false} HanVietPartsEmpty(table: map<char, string>, word: string)
    ensures HanVietParts(table, word) == [] <==> forall i :: 0 <= i < |word| ==> word[i] !in table
    decreases |word|
  {
    if word != [] {
      var pre := word[..|word| - 1];
      HanVietPartsEmpty(table, pre);
      assert forall i :: 0 <= i < |pre| ==> pre[i] == word[i];
    }
  }

  /** `get_hanviet` (main.py:960-966): the known readings joined by spaces. */
  method GetHanViet(table: map<char, string>, word: string) returns (r: string)
    ensures r == Join(HanVietParts(table, word), " ")
  {
    var result: seq<string> := [];
    var i := 0;
    while i < |word|
      invariant 0 <= i <= |word|
      invariant result == HanVietParts(table, word[..i])
    {
      assert word[..i + 1][..i] == word[..i];
      if word[i] in table {
        result := result + [table[word[i]]];
      }
      i := i + 1;
    }
    assert word[..i] == word;
    r := if result != [] then Join(result, " ") else "";
  }

  /** A `kanji_frequency.json` entry. */
  datatype Frequency = Frequency(rank: int, tier: string)

  /** The first character of `word` the table knows, with its entry. */
  function FirstKnown(table: map<char, Frequency>, word: string): (r: Option<(Frequency, char)>)
    ensures r.None? <==> forall i :: 0 <= i < |word| ==> word[i] !in table
    ensures r.Some? ==> r.value.1 in table && r.value.0 == table[r.value.1]
    ensures r.Some? ==>
      exists i :: (0 <= i < |word| && word[i] == r.value.1 && forall j :: 0 <= j < i ==> word[j] !in table)
  {
    if word == [] then None
    else if word[0] in table then Some((table[word[0]], word[0]))
    else
      var r := FirstKnown(table, word[1..]);
      assert forall i :: 1 <= i < |word| ==> word[i] == word[1..][i - 1];
      if r.Some? then
        var i :| 0 <= i < |word[1..]| && word[1..][i] == r.value.1 && forall j :: 0 <= j < i ==> word[1..][j] !in table;
        assert word[i + 1] == r.value.1;
        r
      else r
  }

  /** `get_word_frequency` (main.py:1226-1232): the entry of the first
      character with frequency data, tagged with that character. */
  method GetWordFrequency(table: map<char, Frequency>, word: string) returns (r: Option<(Frequency, char)>)
    ensures r == FirstKnown(table, word)
  {
    var i := 0;
    while i < |word|
      invariant 0 <= i <= |word|
      invariant FirstKnown(table, word) == FirstKnown(table, word[i..])
    {
      if word[i] in table {
        return Some((table[word[i]], word[i]));
      }
      assert word[i..][1..] == word[i + 1..];
      i := i + 1;
    }
    return None;
  }
}

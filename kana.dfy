/** Character classes of the furigana code (main.py, FuriganaGenerator) and its
    katakana-to-hiragana folding. Katakana U+30A0..U+30FF sits exactly 0x60
    above hiragana U+3040..U+309F, so folding subtracts 0x60. */
module Kana {

  /** CJK unified ideographs U+4E00..U+9FFF. */
  predicate IsKanji(c: char) {
    '\U{4E00}' <= c <= '\U{9FFF}'
  }

  predicate IsHiragana(c: char) {
    '\U{3040}' <= c <= '\U{309F}'
  }

  predicate IsKatakana(c: char) {
    '\U{30A0}' <= c <= '\U{30FF}'
  }

  predicate HasKanji(s: string) {
    exists i :: 0 <= i < |s| && IsKanji(s[i])
  }

  function FoldChar(c: char): (d: char)
    ensures !IsKatakana(d)
    ensures IsKatakana(c) ==> IsHiragana(d) && d as int == c as int - 0x60
    ensures !IsKatakana(c) ==> d == c
  {
    if IsKatakana(c) then (c as int - 0x60) as char else c
  }

  /** The specification of `_katakana_to_hiragana`: every katakana character
      is shifted to its hiragana counterpart, everything else is kept. */
  function Fold(s: string): (r: string)
    ensures |r| == |s|
  {
    seq(|s|, i requires 0 <= i < |s| => FoldChar(s[i]))
  }

  lemma FoldAt(s: string, i: int)
    requires 0 <= i < |s|
    ensures Fold(s)[i] == FoldChar(s[i])
  {
  }

  /** Folding leaves no katakana behind and is therefore idempotent. */
  lemma FoldIdempotent(s: string)
    ensures forall i :: 0 <= i < |s| ==> !IsKatakana(Fold(s)[i])
    ensures Fold(Fold(s)) == Fold(s)
  {
  }

  /** A string without katakana folds to itself. */
  lemma FoldNoKatakana(s: string)
    requires forall i :: 0 <= i < |s| ==> !IsKatakana(s[i])
    ensures Fold(s) == s
  {
  }

  lemma FoldAppend(a: string, b: string)
    ensures Fold(a + b) == Fold(a) + Fold(b)
  {
  }

  lemma FoldSlice(s: string, i: int, j: int)
    requires 0 <= i <= j <= |s|
    ensures Fold(s[i..j]) == Fold(s)[i..j]
  {
  }

  /** `_katakana_to_hiragana` (main.py:1311-1320): a loop that appends the
      shifted or unchanged character. */
  method KatakanaToHiragana(text: string) returns (r: string)
    ensures r == Fold(text)
    ensures forall i :: 0 <= i < |r| ==> !IsKatakana(r[i])
  {
    r := "";
    var i := 0;
    while i < |text|
      invariant 0 <= i <= |text|
      invariant r == Fold(text[..i])
    {
      var c := text[i];
      if IsKatakana(c) {
        r := r + [(c as int - 0x60) as char];
      } else {
        r := r + [c];
      }
      assert text[..i + 1] == text[..i] + [c];
      i := i + 1;
    }
    assert text[..i] == text;
  }
}

/** `FuriganaGenerator` of main.py: ruby markup for a word from its reading.
    The word is cut into alternating runs of kanji and of other characters;
    a cursor then walks the reading, finds each non-kanji run in it, and gives
    the kanji run just before it the part of the reading it skipped.

    The walk is specified by `Align`, which produces a list of pieces (plain
    text or a base with its ruby text) rather than markup; `Render` turns the
    pieces into the markup the source builds. The method `Generate` performs
    the source's string operations and is proved to yield `GenerateSpec`. */
module Furigana {
  import opened Common
  import opened Kana

  /** A run of the word: its text and whether it is a kanji run. */
  datatype Seg = Seg(text: string, kanji: bool)

  /** The runs of a word, built one character at a time from the left as the
      segmentation loop does: a character of the current run's class extends
      it, any other character starts a new run. */
  function Runs(word: string): seq<Seg>
    decreases |word|
  {
    if word == [] then []
    else
      var r := Runs(word[..|word| - 1]);
      var c := word[|word| - 1];
      if r != [] && r[|r| - 1].kanji == IsKanji(c) then r[..|r| - 1] + [Seg(r[|r| - 1].text + [c], IsKanji(c))]
      else r + [Seg([c], IsKanji(c))]
  }

  /** The texts of the runs, concatenated. */
  function Joined(segs: seq<Seg>): string {
    if segs == [] then "" else Joined(segs[..|segs| - 1]) + segs[|segs| - 1].text
  }

  /** A partition of `word` into non-empty runs, each all kanji or all
      non-kanji as its flag says, with the flags alternating. */
  predicate IsRunPartition(segs: seq<Seg>, word: string) {
    && Joined(segs) == word
    && (forall k :: 0 <= k < |segs| ==> segs[k].text != [])
    && (forall k, j :: 0 <= k < |segs| && 0 <= j < |segs[k].text| ==> IsKanji(segs[k].text[j]) == segs[k].kanji)
    && (forall k :: 0 < k < |segs| ==> segs[k].kanji != segs[k - 1].kanji)
  }

  /** One step of `Runs`: the runs of a prefix one character longer. */
  lemma RunsStep(word: string, i: nat)
    requires i < |word|
    ensures var r := Runs(word[..i]);
      var c := word[i];
      Runs(word[..i + 1]) ==
        if r != [] && r[|r| - 1].kanji == IsKanji(c) then r[..|r| - 1] + [Seg(r[|r| - 1].text + [c], IsKanji(c))]
        else r + [Seg([c], IsKanji(c))]
  {
    assert word[..i + 1][..i] == word[..i];
  }

  lemma JoinedAppend(segs: seq<Seg>, s: Seg)
    ensures Joined(segs + [s]) == Joined(segs) + s.text
  {
    assert (segs + [s])[..|segs|] == segs;
  }

  /** Extending the last run by one character extends the joined text. */
  lemma JoinedExtendLast(r: seq<Seg>, c: char, kanji: bool)
    requires r != []
    ensures Joined(r[..|r| - 1] + [Seg(r[|r| - 1].text + [c], kanji)]) == Joined(r) + [c]
  {
    var front := r[..|r| - 1];
    var last := r[|r| - 1];
    var s := Seg(last.text + [c], kanji);
    JoinedAppend(front, s);
    assert Joined(r) == Joined(front) + last.text;
    AppendAssoc(Joined(front), last.text, [c]);
  }

  lemma {:induction false} RunsJoined(word: string)
    ensures Joined(Runs(word)) == word
    ensures word != [] ==> Runs(word) != []
    decreases |word|
  {
    if word != [] {
      var w := word[..|word| - 1];
      var c := word[|word| - 1];
      RunsJoined(w);
      var r := Runs(w);
      SplitLast(word);
      if r != [] && r[|r| - 1].kanji == IsKanji(c) {
        JoinedExtendLast(r, c, IsKanji(c));
      } else {
        JoinedAppend(r, Seg([c], IsKanji(c)));
      }
    }
  }

  lemma {:induction false} RunsHomogeneous(word: string)
    ensures forall k :: 0 <= k < |Runs(word)| ==> Runs(word)[k].text != []
    ensures forall k, j :: 0 <= k < |Runs(word)| && 0 <= j < |Runs(word)[k].text| ==>
      IsKanji(Runs(word)[k].text[j]) == Runs(word)[k].kanji
    decreases |word|
  {
    if word != [] {
      var w := word[..|word| - 1];
      var c := word[|word| - 1];
      RunsHomogeneous(w);
      var r := Runs(w);
      if r != [] && r[|r| - 1].kanji == IsKanji(c) {
        var r' := r[..|r| - 1] + [Seg(r[|r| - 1].text + [c], IsKanji(c))];
        forall k, j | 0 <= k < |r'| && 0 <= j < |r'[k].text|
          ensures IsKanji(r'[k].text[j]) == r'[k].kanji
        {
          if k == |r'| - 1 && j < |r'[k].text| - 1 {
            assert r'[k].text[j] == r[k].text[j];
          } else if k < |r'| - 1 {
            assert r'[k] == r[k];
          }
        }
      }
    }
  }

  lemma {:induction false} RunsAlternate(word: string)
    ensures forall k :: 0 < k < |Runs(word)| ==> Runs(word)[k].kanji != Runs(word)[k - 1].kanji
    decreases |word|
  {
    if word != [] {
      var w := word[..|word| - 1];
      RunsAlternate(w);
    }
  }

  lemma RunsPartition(word: string)
    ensures IsRunPartition(Runs(word), word)
    ensures word != [] ==> Runs(word) != []
  {
    RunsJoined(word);
    RunsHomogeneous(word);
    RunsAlternate(word);
  }

  /** A word made only of kanji is a single kanji run. */
  lemma AllKanjiOneRun(word: string)
    requires word != [] && forall j :: 0 <= j < |word| ==> IsKanji(word[j])
    ensures |Runs(word)| == 1 && Runs(word)[0] == Seg(word, true)
  {
    RunsPartition(word);
    var r := Runs(word);
    assert forall k :: 0 <= k < |r| ==> r[k].kanji by {
      forall k | 0 <= k < |r| ensures r[k].kanji {
        JoinedCovers(r, k);
        var j := |Joined(r[..k])|;
        assert r[k].text[0] == word[j];
      }
    }
    if |r| > 1 {
      assert false;
    }
    assert r == [r[0]];
    assert Joined(r) == Joined([]) + r[0].text;
  }

  /** Run `k` sits in the word right after the runs before it. */
  lemma {:induction false} JoinedCovers(segs: seq<Seg>, k: nat)
    requires k < |segs|
    ensures Joined(segs[..k]) + segs[k].text == Joined(segs[..k + 1])
    ensures Joined(segs[..k + 1]) <= Joined(segs)
    decreases |segs|
  {
    assert segs[..k + 1][..k] == segs[..k];
    if k + 1 < |segs| {
      JoinedCovers(segs[..|segs| - 1], k);
      assert segs[..|segs| - 1][..k] == segs[..k];
      assert segs[..|segs| - 1][..k + 1] == segs[..k + 1];
    } else {
      assert segs[..k + 1] == segs;
    }
  }

  /** The segmentation loop of `generate` (main.py:1411-1430). */
  method Segment(word: string) returns (segments: seq<Seg>)
    ensures segments == Runs(word)
    ensures IsRunPartition(segments, word)
  {
    segments := [];
    var current := "";
    var currentIsKanji: Option<bool> := None;
    var i := 0;
    while i < |word|
      invariant 0 <= i <= |word|
      invariant currentIsKanji.None? <==> i == 0
      invariant i > 0 ==> current != []
      invariant i == 0 ==> current == [] && segments == []
      invariant i > 0 ==> segments + [Seg(current, currentIsKanji.value)] == Runs(word[..i])
    {
      var c := word[i];
      var isKanji := IsKanji(c);
      RunsStep(word, i);
      if i == 0 {
        assert word[..0] == [];
      } else {
        var r := Runs(word[..i]);
        assert r[..|r| - 1] == segments && r[|r| - 1] == Seg(current, currentIsKanji.value);
      }
      if currentIsKanji.None? {
        currentIsKanji := Some(isKanji);
      }
      if Some(isKanji) == currentIsKanji {
        if i == 0 {
          assert current + [c] == [c];
          assert Runs(word[..0]) == [];
        } else {
          var r := Runs(word[..i]);
          assert r != [] && r[|r| - 1].kanji == IsKanji(c);
          assert Runs(word[..i + 1]) == segments + [Seg(current + [c], IsKanji(c))];
        }
        current := current + [c];
        assert segments + [Seg(current, currentIsKanji.value)] == Runs(word[..i + 1]);
      } else {
        if current != [] {
          segments := segments + [Seg(current, currentIsKanji.value)];
        }
        current := [c];
        currentIsKanji := Some(isKanji);
        assert segments + [Seg(current, currentIsKanji.value)] == Runs(word[..i + 1]);
      }
      i := i + 1;
    }
    if current != [] {
      segments := segments + [Seg(current, currentIsKanji.value)];
    }
    assert word[..i] == word;
    RunsPartition(word);
  }

  /** A piece of the output: text copied as is, or a base with its ruby text. */
  datatype Piece = Plain(text: string) | Ruby(base: string, rt: string)

  /** `<ruby>base<rt>rt</rt></ruby>`. */
  function RubyMarkup(base: string, rt: string): string {
    "<ruby>" + base + "<rt>" + rt + "</rt></ruby>"
  }

  function PieceMarkup(p: Piece): string {
    match p
    case Plain(t) => t
    case Ruby(b, r) => RubyMarkup(b, r)
  }

  function BaseOf(p: Piece): string {
    match p
    case Plain(t) => t
    case Ruby(b, _) => b
  }

  /** The markup of a list of pieces. */
  function Render(ps: seq<Piece>): string {
    if ps == [] then "" else Render(ps[..|ps| - 1]) + PieceMarkup(ps[|ps| - 1])
  }

  /** The text the pieces annotate, without any ruby text. */
  function Bases(ps: seq<Piece>): string {
    if ps == [] then "" else Bases(ps[..|ps| - 1]) + BaseOf(ps[|ps| - 1])
  }

  lemma RenderAppend(ps: seq<Piece>, p: Piece)
    ensures Render(ps + [p]) == Render(ps) + PieceMarkup(p)
  {
    assert (ps + [p])[..|ps|] == ps;
  }

  /** Pieces that carry the runs' texts one for one annotate the word. */
  lemma {:induction false} BasesOfRuns(ps: seq<Piece>, segs: seq<Seg>)
    requires |ps| == |segs|
    requires forall k :: 0 <= k < |ps| ==> BaseOf(ps[k]) == segs[k].text
    ensures Bases(ps) == Joined(segs)
    decreases |ps|
  {
    if ps != [] {
      BasesOfRuns(ps[..|ps| - 1], segs[..|segs| - 1]);
    }
  }

  /** Without ruby the markup is the text itself. */
  lemma {:induction false} RenderPlain(ps: seq<Piece>)
    requires forall k :: 0 <= k < |ps| ==> ps[k].Plain?
    ensures Render(ps) == Bases(ps)
    decreases |ps|
  {
    if ps != [] {
      RenderPlain(ps[..|ps| - 1]);
    }
  }

  /** The state of the walk: the pieces so far and the cursor in the reading. */
  datatype WalkState = WalkState(pieces: seq<Piece>, pos: nat)

  /** What the walk guarantees after `i` runs: one piece per run, carrying
      that run's text; ruby only on a kanji run followed by a non-kanji run,
      and never empty; the latest piece still plain. */
  predicate WalkInv(segs: seq<Seg>, reading: string, i: nat, st: WalkState) {
    && i <= |segs| && st.pos <= |reading| && |st.pieces| == i
    && (forall k :: 0 <= k < i ==> BaseOf(st.pieces[k]) == segs[k].text)
    && (forall k :: 0 <= k < i && st.pieces[k].Ruby? ==>
          segs[k].kanji && st.pieces[k].rt != [] && k + 1 < i && !segs[k + 1].kanji)
    && (i > 0 ==> st.pieces[i - 1] == Plain(segs[i - 1].text))
  }

  /** The walk over the first `n` runs (main.py:1444-1487). A kanji run is
      copied as plain text for now. A non-kanji run is looked for, folded to
      hiragana, in the folded reading from the cursor on; when found past the
      cursor, the skipped part of the reading becomes the ruby text of the
      kanji run just before it; the cursor then moves past the match. A run
      that is not found is copied and the cursor stays. */
  function Walk(segs: seq<Seg>, reading: string, n: nat): (st: WalkState)
    requires n <= |segs|
    ensures WalkInv(segs, reading, n, st)
    decreases n
  {
    if n == 0 then WalkState([], 0)
    else WalkStep(segs, reading, n - 1, Walk(segs, reading, n - 1))
  }

  /** The walk's treatment of run `i`, from the state the earlier runs left. */
  function WalkStep(segs: seq<Seg>, reading: string, i: nat, st: WalkState): (st': WalkState)
    requires i < |segs| && WalkInv(segs, reading, i, st)
    ensures WalkInv(segs, reading, i + 1, st')
    ensures st.pos <= st'.pos
  {
    if segs[i].kanji then
      PlainKeepsInv(segs, reading, i, st.pieces, st.pos);
      WalkState(st.pieces + [Plain(segs[i].text)], st.pos)
    else
      var seg := Fold(segs[i].text);
      var m := Find(Fold(reading), seg, st.pos);
      if m == -1 then
        PlainKeepsInv(segs, reading, i, st.pieces, st.pos);
        WalkState(st.pieces + [Plain(segs[i].text)], st.pos)
      else if m > st.pos && i > 0 && segs[i - 1].kanji then
        assert OccursAt(Fold(reading), seg, m);
        var ps := st.pieces[..i - 1] + [Ruby(segs[i - 1].text, reading[st.pos..m])];
        RubyKeepsInv(segs, reading, i, st, reading[st.pos..m], m + |seg|);
        WalkState(ps + [Plain(segs[i].text)], m + |seg|)
      else
        assert OccursAt(Fold(reading), seg, m);
        PlainKeepsInv(segs, reading, i, st.pieces, m + |seg|);
        WalkState(st.pieces + [Plain(segs[i].text)], m + |seg|)
  }

  /** Appending run `i` as plain text keeps the invariant. */
  lemma PlainKeepsInv(segs: seq<Seg>, reading: string, i: nat, ps: seq<Piece>, pos: nat)
    requires i < |segs| && pos <= |reading| && WalkInv(segs, reading, i, WalkState(ps, 0))
    ensures WalkInv(segs, reading, i + 1, WalkState(ps + [Plain(segs[i].text)], pos))
  {
  }

  /** Putting non-empty ruby text on a kanji run just before a non-kanji run
      `i`, then appending run `i` as plain text, keeps the invariant. */
  lemma RubyKeepsInv(segs: seq<Seg>, reading: string, i: nat, st: WalkState, rt: string, pos: nat)
    requires i < |segs| && 0 < i && pos <= |reading| && WalkInv(segs, reading, i, st)
    requires segs[i - 1].kanji && !segs[i].kanji && rt != []
    ensures WalkInv(segs, reading, i + 1,
      WalkState(st.pieces[..i - 1] + [Ruby(segs[i - 1].text, rt)] + [Plain(segs[i].text)], pos))
  {
  }

  /** The walk followed by the trailing-kanji step (main.py:1489-1498): a
      final kanji run gets whatever is left of the reading. */
  function Align(segs: seq<Seg>, reading: string): (ps: seq<Piece>)
    ensures |ps| == |segs|
    ensures forall k :: 0 <= k < |segs| ==> BaseOf(ps[k]) == segs[k].text
    ensures forall k :: 0 <= k < |segs| && ps[k].Ruby? ==> segs[k].kanji && ps[k].rt != []
  {
    var st := Walk(segs, reading, |segs|);
    var n := |segs|;
    if n > 0 && segs[n - 1].kanji && st.pos < |reading|
    then st.pieces[..n - 1] + [Ruby(segs[n - 1].text, reading[st.pos..])]
    else st.pieces
  }

  /** `t` is a non-empty slice of `reading` ending at or before `p`. */
  predicate SliceBefore(t: string, reading: string, p: nat) {
    exists a: nat, b: nat :: a < b <= p && b <= |reading| && t == reading[a..b]
  }

  /** The cursor never moves back. */
  lemma WalkStepMonotone(segs: seq<Seg>, reading: string, n: nat)
    requires 0 < n <= |segs|
    ensures Walk(segs, reading, n - 1).pos <= Walk(segs, reading, n).pos
  {
    var st := Walk(segs, reading, n - 1);
    assert Walk(segs, reading, n) == WalkStep(segs, reading, n - 1, st);
  }

  /** A step keeps every earlier piece, except that it may put ruby text on
      the piece just before the new one; that text is the part of the reading
      the step skipped. */
  lemma WalkStepKeeps(segs: seq<Seg>, reading: string, i: nat, st: WalkState, k: nat)
    requires i < |segs| && WalkInv(segs, reading, i, st) && k < i
    ensures var st' := WalkStep(segs, reading, i, st);
      st'.pieces[k] == st.pieces[k]
      || (k == i - 1 && st'.pieces[k].Ruby? && st.pos < |reading| &&
          exists m: nat :: st.pos < m <= st'.pos && m <= |reading| && st'.pieces[k].rt == reading[st.pos..m])
  {
    var st' := WalkStep(segs, reading, i, st);
    if !segs[i].kanji {
      var seg := Fold(segs[i].text);
      var m := Find(Fold(reading), seg, st.pos);
      if m != -1 && m > st.pos && i > 0 && segs[i - 1].kanji {
        var ps := st.pieces[..i - 1] + [Ruby(segs[i - 1].text, reading[st.pos..m])];
        assert st'.pieces == ps + [Plain(segs[i].text)];
        if k == i - 1 {
          assert OccursAt(Fold(reading), seg, m);
          assert st'.pieces[k].rt == reading[st.pos..m] && m <= |reading| && st'.pos == m + |seg|;
        } else {
          assert st'.pieces[k] == ps[k] == st.pieces[k];
        }
      } else {
        assert st'.pieces[k] == st.pieces[k];
      }
    } else {
      assert st'.pieces[k] == st.pieces[k];
    }
  }

  /** The ruby text of every annotated run is a slice of the reading that
      lies before the cursor. */
  lemma {:induction false} WalkSlices(segs: seq<Seg>, reading: string, n: nat)
    requires n <= |segs|
    ensures forall k :: 0 <= k < n && Walk(segs, reading, n).pieces[k].Ruby? ==>
      SliceBefore(Walk(segs, reading, n).pieces[k].rt, reading, Walk(segs, reading, n).pos)
    decreases n
  {
    if n > 0 {
      WalkSlices(segs, reading, n - 1);
      var st := Walk(segs, reading, n - 1);
      assert Walk(segs, reading, n) == WalkStep(segs, reading, n - 1, st);
      WalkStepSlices(segs, reading, n - 1, st);
    }
  }

  /** `WalkSlices` for one step. */
  lemma WalkStepSlices(segs: seq<Seg>, reading: string, i: nat, st: WalkState)
    requires i < |segs| && WalkInv(segs, reading, i, st)
    requires forall k :: 0 <= k < i && st.pieces[k].Ruby? ==> SliceBefore(st.pieces[k].rt, reading, st.pos)
    ensures var st' := WalkStep(segs, reading, i, st);
      forall k :: 0 <= k <= i && st'.pieces[k].Ruby? ==> SliceBefore(st'.pieces[k].rt, reading, st'.pos)
  {
    var st' := WalkStep(segs, reading, i, st);
    forall k | 0 <= k <= i && st'.pieces[k].Ruby?
      ensures SliceBefore(st'.pieces[k].rt, reading, st'.pos)
    {
      if k < i {
        WalkStepKeeps(segs, reading, i, st, k);
        if st'.pieces[k] == st.pieces[k] {
          var a: nat, b: nat :| a < b <= st.pos && b <= |reading| && st.pieces[k].rt == reading[a..b];
          assert b <= st'.pos;
        } else {
          var m: nat :| st.pos < m <= st'.pos && m <= |reading| && st'.pieces[k].rt == reading[st.pos..m];
        }
      }
    }
  }

  /** Python's `s[n:]`. */
  function Drop(s: string, n: nat): (r: string)
    ensures n <= |s| ==> r == s[n..]
    ensures n > |s| ==> r == []
  {
    if n <= |s| then s[n..] else []
  }

  function CountKanji(s: string): (n: nat)
    ensures n == 0 <==> !HasKanji(s)
  {
    if s == [] then 0
    else
      assert forall i :: 1 <= i < |s| ==> s[i] == s[1..][i - 1];
      (if IsKanji(s[0]) then 1 else 0) + CountKanji(s[1..])
  }

  function CountKana(s: string): nat {
    if s == [] then 0 else (if IsHiragana(s[0]) || IsKatakana(s[0]) then 1 else 0) + CountKana(s[1..])
  }

  /** `"".join(c for c in word if is_hiragana(c))`. */
  function HiraganaOnly(s: string): (r: string)
    ensures forall i :: 0 <= i < |r| ==> IsHiragana(r[i])
  {
    if s == [] then "" else (if IsHiragana(s[0]) then [s[0]] else "") + HiraganaOnly(s[1..])
  }

  /** The leading run of katakana (or long-vowel marks) of a word. */
  function KataPrefix(s: string): (r: string)
    ensures |r| <= |s| && r == s[..|r|]
    ensures forall i :: 0 <= i < |r| ==> IsKatakana(r[i]) || r[i] == 'ー'
    ensures |r| < |s| ==> !(IsKatakana(s[|r|]) || s[|r|] == 'ー')
  {
    if s != [] && (IsKatakana(s[0]) || s[0] == 'ー') then [s[0]] + KataPrefix(s[1..]) else ""
  }

  /** `_validate_reading` (main.py:1323-1383); `full` is the reading the
      morphological analyser gives for the whole word ("" when unavailable). */
  function ValidReading(word: string, reading: string, full: string): string {
    if word == "" || reading == "" then reading
    else if CountKanji(word) == 0 then reading
    else
      var norm := Fold(reading);
      var parts := HiraganaOnly(word);
      if parts != "" && Contains(norm, parts) then reading
      else if |norm| < CountKanji(word) + CountKana(word) && full != "" && |full| > |norm| then
        var kp := KataPrefix(word);
        if kp != "" then kp + Drop(full, |kp|) else full
      else reading
  }

  /** The reading is kept unless it is evidently incomplete: it is replaced
      only when it is shorter than one character per kanji plus the word's
      kana and the full reading is strictly longer; a replacement keeps the
      word's leading katakana and takes the rest from the full reading. */
  lemma ValidReadingSpec(word: string, reading: string, full: string)
    ensures var r := ValidReading(word, reading, full);
      && (word == "" || reading == "" || !HasKanji(word) ==> r == reading)
      && (HiraganaOnly(word) != "" && Contains(Fold(reading), HiraganaOnly(word)) ==> r == reading)
      && (r != reading ==>
            && |reading| < CountKanji(word) + CountKana(word) && |full| > |reading|
            && r[..|KataPrefix(word)|] == KataPrefix(word)
            && Drop(r, |KataPrefix(word)|) == Drop(full, |KataPrefix(word)|))
      && (r != reading && KataPrefix(word) == "" ==> r == full)
      && (word != "" && reading != "" && HasKanji(word)
          && !(HiraganaOnly(word) != "" && Contains(Fold(reading), HiraganaOnly(word)))
          && |reading| < CountKanji(word) + CountKana(word) && full != "" && |full| > |reading|
          ==> r == (if KataPrefix(word) != "" then KataPrefix(word) + Drop(full, |KataPrefix(word)|) else full))
  {
  }

  /** An incomplete reading is repaired from the full one: あなたの猫 read
      あなた becomes あなたのねこ. */
  lemma ExampleReadingRepaired()
    ensures ValidReading("あなたの猫", "あなた", "あなたのねこ") == "あなたのねこ"
  {
    var w := "あなたの猫";
    assert IsKanji(w[4]) && !IsKanji(w[0]) && !IsKanji(w[1]) && !IsKanji(w[2]) && !IsKanji(w[3]);
    assert CountKanji(w) == 1 by {
      assert w[1..][1..][1..][1..][1..] == [];
    }
    assert CountKana(w) == 4 by {
      assert w[1..][1..][1..][1..][1..] == [];
    }
    assert HiraganaOnly(w) == "あなたの" by {
      assert w[1..][1..][1..][1..][1..] == [];
    }
    FoldNoKatakana("あなた");
    assert !Contains("あなた", "あなたの");
    assert KataPrefix(w) == "" by { assert !IsKatakana(w[0]); }
  }

  /** A leading katakana run is kept and the rest taken from the full
      reading: スポーツ用品店 read スポーツ becomes スポーツようひんてん. */
  lemma ExampleKatakanaPrefixKept()
    ensures ValidReading("スポーツ用品店", "スポーツ", "すぽーつ" + "ようひんてん") == "スポーツ" + "ようひんてん"
  {
    var w := "スポーツ用品店";
    ExampleSportsCounts();
    ExampleSportsPrefix();
    ValidReadingSpec(w, "スポーツ", "すぽーつ" + "ようひんてん");
    DropPrefix("すぽーつ", "ようひんてん");
  }

  lemma DropPrefix(a: string, b: string)
    ensures Drop(a + b, |a|) == b
  {
    assert (a + b)[|a|..] == b;
  }

  lemma ExampleSportsCounts()
    ensures var w := "スポーツ用品店";
      HasKanji(w) && CountKanji(w) + CountKana(w) > 4 && HiraganaOnly(w) == ""
  {
    var w := "スポーツ用品店";
    assert w[1..][1..][1..][1..][1..][1..][1..] == [];
    assert IsKanji(w[4]) && IsKanji(w[5]) && IsKanji(w[6]);
    assert IsKatakana(w[0]) && IsKatakana(w[1]) && IsKatakana(w[3]);
  }

  lemma ExampleSportsPrefix()
    ensures KataPrefix("スポーツ用品店") == "スポーツ"
  {
    var w := "スポーツ用品店";
    assert IsKatakana(w[0]) && IsKatakana(w[1]) && IsKatakana(w[3]) && w[2] == 'ー';
    assert !IsKatakana(w[4]) && w[4] != 'ー';
    assert w[..4] == "スポーツ";
  }


  /** `generate` (main.py:1386-1504) as a function of its inputs. */
  function GenerateSpec(word: string, reading: string, full: string): string {
    if !HasKanji(word) then word
    else
      var r := ValidReading(word, reading, full);
      if word == r then word
      else
        var r2 := if r == "" then full else r;
        if r2 == "" then word else Annotate(word, r2)
  }

  /** The annotation of `word` with a reading that is to be used: a word that
      is one kanji run is wrapped whole, any other gets the walk's markup,
      unless that is empty or unchanged, when the word is wrapped whole. */
  function Annotate(word: string, r: string): string {
    var segs := Runs(word);
    if |segs| == 1 && segs[0].kanji then RubyMarkup(word, r)
    else
      var res := Render(Align(segs, r));
      if res == "" || res == word then RubyMarkup(word, r) else res
  }

  /** A word without kanji is returned unchanged. */
  lemma GenerateNoKanji(word: string, reading: string, full: string)
    requires !HasKanji(word)
    ensures GenerateSpec(word, reading, full) == word
  {
  }

  /** A word made only of kanji is wrapped whole with its (validated)
      reading. */
  lemma GenerateAllKanji(word: string, reading: string, full: string)
    requires word != [] && forall j :: 0 <= j < |word| ==> IsKanji(word[j])
    requires reading != []
    ensures HasKanji(word)
    ensures ValidReading(word, reading, full) != word ==>
      GenerateSpec(word, reading, full) == RubyMarkup(word, ValidReading(word, reading, full))
  {
    assert IsKanji(word[0]);
    AllKanjiOneRun(word);
    ValidReadingNonEmpty(word, reading, full);
  }

  lemma ValidReadingNonEmpty(word: string, reading: string, full: string)
    requires reading != []
    ensures ValidReading(word, reading, full) != []
  {
  }

  /** When no run receives ruby text the whole word is wrapped instead; and
      whatever the outcome, the runs' pieces annotate exactly the word. */
  lemma GenerateFallback(word: string, reading: string)
    requires |Runs(word)| != 1 || !Runs(word)[0].kanji
    ensures Bases(Align(Runs(word), reading)) == word
    ensures (forall k :: 0 <= k < |Runs(word)| ==> Align(Runs(word), reading)[k].Plain?) ==>
      Render(Align(Runs(word), reading)) == word
  {
    var segs := Runs(word);
    RunsPartition(word);
    BasesOfRuns(Align(segs, reading), segs);
    if forall k :: 0 <= k < |segs| ==> Align(segs, reading)[k].Plain? {
      RenderPlain(Align(segs, reading));
    }
  }

  /** `generate_per_char` (main.py:1507-1518). */
  function GeneratePerCharSpec(word: string, reading: string, full: string): string {
    if !HasKanji(word) then word
    else if |word| == 1 then RubyMarkup(word, reading)
    else GenerateSpec(word, reading, full)
  }

  /** A single kanji is wrapped with the reading as given, without
      validation; a longer word is left to `generate`. */
  lemma GeneratePerCharSpecCases(word: string, reading: string, full: string)
    ensures |word| == 1 && IsKanji(word[0]) ==> GeneratePerCharSpec(word, reading, full) == RubyMarkup(word, reading)
    ensures |word| != 1 ==> GeneratePerCharSpec(word, reading, full) == GenerateSpec(word, reading, full)
  {
  }

  /** Cutting a final plain piece off the markup. */
  lemma RenderDropLast(ps: seq<Piece>)
    requires ps != [] && ps[|ps| - 1].Plain?
    ensures var t := ps[|ps| - 1].text;
      EndsWith(Render(ps), t) && Render(ps)[..|Render(ps)| - |t|] == Render(ps[..|ps| - 1])
  {
    var t := ps[|ps| - 1].text;
    assert Render(ps) == Render(ps[..|ps| - 1]) + t;
  }

  /** `_validate_reading` with its prefix loop; the kana counts and the
      filtered kana are the source's generator expressions. */
  method ValidateReading(word: string, reading: string, full: string) returns (r: string)
    ensures r == ValidReading(word, reading, full)
  {
    if word == "" || reading == "" {
      return reading;
    }
    var wordKanji := CountKanji(word);
    var wordKana := CountKana(word);
    if wordKanji == 0 {
      return reading;
    }
    var norm := KatakanaToHiragana(reading);
    var parts := HiraganaOnly(word);
    if parts != "" && Contains(norm, parts) {
      return reading;
    }
    if |norm| < wordKanji + wordKana && full != "" && |full| > |norm| {
      var kataPrefix := "";
      var i := 0;
      while i < |word| && (IsKatakana(word[i]) || word[i] == 'ー')
        invariant 0 <= i <= |word|
        invariant kataPrefix == word[..i]
        invariant forall j :: 0 <= j < i ==> IsKatakana(word[j]) || word[j] == 'ー'
      {
        kataPrefix := kataPrefix + [word[i]];
        i := i + 1;
      }
      KataPrefixIs(word, i);
      if kataPrefix != "" {
        return kataPrefix + Drop(full, |kataPrefix|);
      }
      return full;
    }
    return reading;
  }

  /** The prefix loop stops where `KataPrefix` does. */
  lemma {:induction false} KataPrefixIs(s: string, i: nat)
    requires i <= |s|
    requires forall j :: 0 <= j < i ==> IsKatakana(s[j]) || s[j] == 'ー'
    requires i < |s| ==> !(IsKatakana(s[i]) || s[i] == 'ー')
    ensures KataPrefix(s) == s[..i]
    decreases i
  {
    if i > 0 {
      KataPrefixIs(s[1..], i - 1);
      assert s[1..][..i - 1] == s[1..i];
      assert s[..i] == [s[0]] + s[1..i];
    }
  }

  /** `generate`: validation, segmentation, the walk over the runs with its
      look-back for the kanji runs before a kana run, and the trailing-kanji
      step, on strings as the source builds them. */
  method Generate(word: string, reading: string, full: string) returns (html: string)
    ensures html == GenerateSpec(word, reading, full)
  {
    if !HasKanji(word) {
      return word;
    }
    var r := ValidateReading(word, reading, full);
    if word == r {
      return word;
    }
    if r == "" {
      r := full;
      if r == "" {
        return word;
      }
    }
    html := AnnotateRuns(word, r);
  }

  /** The part of `generate` after validation: segmentation, the walk, the
      trailing-kanji step and the fallback to wrapping the whole word. */
  method AnnotateRuns(word: string, r: string) returns (html: string)
    ensures html == Annotate(word, r)
  {
    var segs := Segment(word);
    if |segs| == 1 && segs[0].kanji {
      return RubyMarkup(word, r);
    }
    var hira := KatakanaToHiragana(r);
    var result, pos := WalkRuns(segs, r, hira);
    result := TrailingKanji(segs, r, result, pos);
    if result == "" || result == word {
      return RubyMarkup(word, r);
    }
    return result;
  }

  /** The trailing-kanji step of `generate` (main.py:1489-1498): a final
      kanji run left without ruby gets the rest of the reading. */
  method TrailingKanji(segs: seq<Seg>, r: string, result0: string, pos: nat) returns (result: string)
    requires pos == Walk(segs, r, |segs|).pos && result0 == Render(Walk(segs, r, |segs|).pieces)
    ensures result == Render(Align(segs, r))
  {
    result := result0;
    ghost var ps := Walk(segs, r, |segs|).pieces;
    if |segs| > 0 && segs[|segs| - 1].kanji && pos < |r| {
      var kanjiReading := r[pos..];
      var kanjiText := segs[|segs| - 1].text;
      RenderDropLast(ps);
      if EndsWith(result, kanjiText) {
        result := result[..|result| - |kanjiText|];
        result := result + RubyMarkup(kanjiText, kanjiReading);
      }
      RenderAppend(ps[..|segs| - 1], Ruby(kanjiText, kanjiReading));
    }
  }

  /** The loop of `generate` over the runs. */
  method WalkRuns(segs: seq<Seg>, r: string, hira: string) returns (result: string, pos: nat)
    requires IsRunPartition(segs, Joined(segs)) && hira == Fold(r)
    ensures pos == Walk(segs, r, |segs|).pos
    ensures result == Render(Walk(segs, r, |segs|).pieces)
  {
    result := "";
    pos := 0;
    var i := 0;
    while i < |segs|
      invariant 0 <= i <= |segs|
      invariant Walk(segs, r, i).pos == pos
      invariant result == Render(Walk(segs, r, i).pieces)
    {
      result, pos := WalkRun(segs, r, hira, i, result, pos);
      i := i + 1;
    }
  }

  /** What one step of the walk does to the markup. */
  lemma WalkRenderStep(segs: seq<Seg>, r: string, i: nat)
    requires i < |segs|
    ensures var st := Walk(segs, r, i);
      var st' := Walk(segs, r, i + 1);
      var t := segs[i].text;
      var m := Find(Fold(r), Fold(t), st.pos);
      && (segs[i].kanji || m == -1 ==> st'.pos == st.pos && Render(st'.pieces) == Render(st.pieces) + t)
      && (!segs[i].kanji && m != -1 ==> st'.pos == m + |Fold(t)| && st.pos <= m <= |r|)
      && (!segs[i].kanji && m != -1 && !(m > st.pos && i > 0 && segs[i - 1].kanji) ==>
            Render(st'.pieces) == Render(st.pieces) + t)
      && (!segs[i].kanji && m != -1 && m > st.pos && i > 0 && segs[i - 1].kanji ==>
            var prev := segs[i - 1].text;
            var out := Render(st.pieces);
            && EndsWith(out, prev)
            && Render(st'.pieces) == out[..|out| - |prev|] + RubyMarkup(prev, r[st.pos..m]) + t)
  {
    var st := Walk(segs, r, i);
    var t := segs[i].text;
    RenderAppend(st.pieces, Plain(t));
    if !segs[i].kanji {
      var m := Find(Fold(r), Fold(t), st.pos);
      if m != -1 && m > st.pos && i > 0 && segs[i - 1].kanji {
        var ruby := Ruby(segs[i - 1].text, r[st.pos..m]);
        RenderDropLast(st.pieces);
        RenderAppend(st.pieces[..i - 1], ruby);
        RenderAppend(st.pieces[..i - 1] + [ruby], Plain(t));
      }
    }
  }

  /** One turn of that loop, for run `i`. */
  method WalkRun(segs: seq<Seg>, r: string, hira: string, i: nat, result0: string, pos0: nat)
    returns (result: string, pos: nat)
    requires forall k :: 0 < k < |segs| ==> segs[k].kanji != segs[k - 1].kanji
    requires hira == Fold(r) && i < |segs|
    requires Walk(segs, r, i).pos == pos0 && result0 == Render(Walk(segs, r, i).pieces)
    ensures Walk(segs, r, i + 1).pos == pos && result == Render(Walk(segs, r, i + 1).pieces)
  {
    WalkRenderStep(segs, r, i);
    result, pos := result0, pos0;
    var seg := segs[i];
    if !seg.kanji {
      var segHira := KatakanaToHiragana(seg.text);
      var m := Find(hira, segHira, pos);
      if m != -1 {
        if m > pos {
          var kanjiReading := r[pos..m];
          var kanjiSegments := KanjiRunsBefore(segs, i);
          if kanjiSegments != [] && kanjiReading != "" {
            ConcatOne(segs[i - 1].text);
            var kanjiText := Concat(kanjiSegments);
            if EndsWith(result, kanjiText) {
              result := result[..|result| - |kanjiText|];
            }
            result := result + RubyMarkup(kanjiText, kanjiReading);
          }
        }
        result := result + seg.text;
        pos := m + |segHira|;
      } else {
        result := result + seg.text;
      }
    } else {
      result := result + seg.text;
    }
  }

  /** The look-back loop of `generate`: collects the kanji runs that end
      right before run `i`, nearest last. */
  method KanjiRunsBefore(segs: seq<Seg>, i: nat) returns (kanjiSegments: seq<string>)
    requires i <= |segs|
    requires forall k :: 0 < k < |segs| ==> segs[k].kanji != segs[k - 1].kanji
    ensures kanjiSegments == KanjiBefore(segs, i)
  {
    kanjiSegments := [];
    var j := i - 1;
    while j >= 0 && segs[j].kanji
      invariant (j == i - 1 && kanjiSegments == []) || (j == i - 2 && i >= 1 && segs[i - 1].kanji && kanjiSegments == [segs[i - 1].text])
    {
      kanjiSegments := [segs[j].text] + kanjiSegments;
      j := j - 1;
    }
  }

  /** The look-back of `generate`: the texts of the kanji runs that end
      right before run `i`, nearest last. */
  function KanjiBefore(segs: seq<Seg>, i: nat): (r: seq<string>)
    requires i <= |segs|
    requires forall k :: 0 < k < |segs| ==> segs[k].kanji != segs[k - 1].kanji
    ensures r == (if i > 0 && segs[i - 1].kanji then [segs[i - 1].text] else [])
  {
    if i == 0 || !segs[i - 1].kanji then []
    else KanjiBefore(segs, i - 1) + [segs[i - 1].text]
  }

  /** `generate_per_char`. */
  method GeneratePerChar(word: string, reading: string, full: string) returns (html: string)
    ensures html == GeneratePerCharSpec(word, reading, full)
  {
    if !HasKanji(word) {
      return word;
    }
    if |word| == 1 {
      return RubyMarkup(word, reading);
    }
    html := Generate(word, reading, full);
  }

  /** After the trailing-kanji step every ruby text is still a non-empty
      slice of the reading. */
  lemma AlignSlices(segs: seq<Seg>, reading: string)
    ensures forall k :: 0 <= k < |segs| && Align(segs, reading)[k].Ruby? ==>
      SliceBefore(Align(segs, reading)[k].rt, reading, |reading|)
  {
    var n := |segs|;
    var st := Walk(segs, reading, n);
    WalkSlices(segs, reading, n);
    var ps := Align(segs, reading);
    forall k | 0 <= k < n && ps[k].Ruby?
      ensures SliceBefore(ps[k].rt, reading, |reading|)
    {
      if n > 0 && segs[n - 1].kanji && st.pos < |reading| && k == n - 1 {
        assert ps[k].rt == reading[st.pos..|reading|];
      } else {
        assert ps[k] == st.pieces[k];
        assert 0 <= k < n && st.pieces[k].Ruby?;
        assert SliceBefore(st.pieces[k].rt, reading, st.pos);
        var a: nat, b: nat :| a < b <= st.pos && b <= |reading| && ps[k].rt == reading[a..b];
      }
    }
  }

  /** What `generate` produces for a word with kanji and a usable reading
      that differs from it: either the whole word wrapped with the reading, or
      the markup of pieces that annotate exactly the word, where only kanji
      runs carry ruby and every ruby text is a non-empty slice of the
      reading. */
  lemma GenerateShape(word: string, reading: string, full: string)
    requires HasKanji(word)
    ensures var r := ValidReading(word, reading, full);
      var r2 := if r == "" then full else r;
      var ps := Align(Runs(word), r2);
      word != r && r2 != "" ==>
        (GenerateSpec(word, reading, full) == RubyMarkup(word, r2)
         || (&& GenerateSpec(word, reading, full) == Render(ps)
             && Bases(ps) == word
             && (forall k :: 0 <= k < |ps| && ps[k].Ruby? ==>
                   Runs(word)[k].kanji && SliceBefore(ps[k].rt, r2, |r2|))))
  {
    var r := ValidReading(word, reading, full);
    var r2 := if r == "" then full else r;
    var segs := Runs(word);
    RunsPartition(word);
    BasesOfRuns(Align(segs, r2), segs);
    AlignSlices(segs, r2);
  }

  lemma ExampleReadingKept()
    ensures ValidReading("閉める", "しめる", "") == "しめる"
    ensures Fold("しめる") == "しめる" && Fold("める") == "める"
  {
    var w := "閉める";
    var rd := "しめる";
    assert IsKanji(w[0]);
    assert !IsKatakana(rd[0]) && !IsKatakana(rd[1]) && !IsKatakana(rd[2]);
    assert HiraganaOnly(w) == "める" by {
      assert w[1..][1..][1..] == [];
    }
    FoldNoKatakana(rd);
    FoldNoKatakana("める");
    assert OccursAt(rd, "める", 1) by { assert rd[1..3] == "める"; }
    ContainsIff(rd, "める");
  }

  lemma ExampleRuns()
    ensures Runs("閉める") == [Seg("閉", true), Seg("める", false)]
  {
    assert IsKanji('閉') && !IsKanji('め') && !IsKanji('る');
    assert Runs("閉") == [Seg("閉", true)] by {
      assert "閉"[..0] == [];
    }
    assert Runs("閉め") == [Seg("閉", true), Seg("め", false)] by {
      assert "閉め"[..1] == "閉";
    }
    assert Runs("閉める") == [Seg("閉", true), Seg("める", false)] by {
      assert "閉める"[..2] == "閉め";
      assert "め" + ['る'] == "める";
    }
  }

  lemma ExampleWalk()
    ensures Align([Seg("閉", true), Seg("める", false)], "しめる") == [Ruby("閉", "し"), Plain("める")]
  {
    var segs := [Seg("閉", true), Seg("める", false)];
    var rd := "しめる";
    ExampleWalkFirst();
    ExampleFind();
    assert rd[0..1] == "し";
    assert Walk(segs, rd, 2) == WalkState([Ruby("閉", "し"), Plain("める")], 3);
  }

  /** The kanji run 閉 is copied and the cursor stays at the start. */
  lemma ExampleWalkFirst()
    ensures Walk([Seg("閉", true), Seg("める", false)], "しめる", 1) == WalkState([Plain("閉")], 0)
  {
    assert Walk([Seg("閉", true), Seg("める", false)], "しめる", 0) == WalkState([], 0);
  }

  /** める is found in しめる, already hiragana, right after し. */
  lemma ExampleFind()
    ensures Find(Fold("しめる"), Fold("める"), 0) == 1
  {
    var rd := "しめる";
    ExampleReadingKept();
    assert !OccursAt(rd, "める", 0) by { assert rd[0] != 'め'; }
    assert OccursAt(rd, "める", 1) by { assert rd[1..3] == "める"; }
  }

  lemma ExampleRender()
    ensures Render([Ruby("閉", "し"), Plain("める")]) == "<ruby>閉<rt>し</rt></ruby>める"
  {
    var ruby := Ruby("閉", "し");
    RenderAppend([], ruby);
    assert [] + [ruby] == [ruby];
    RenderAppend([ruby], Plain("める"));
    assert [ruby] + [Plain("める")] == [ruby, Plain("める")];
    ExampleMarkup();
  }

  lemma ExampleMarkup()
    ensures "" + RubyMarkup("閉", "し") + "める" == "<ruby>閉<rt>し</rt></ruby>める"
  {
  }

  /** `閉める` read `しめる`: the kanji gets `し`, the okurigana stay plain. */
  lemma GenerateExample()
    ensures GenerateSpec("閉める", "しめる", "") == "<ruby>閉<rt>し</rt></ruby>める"
  {
    assert IsKanji("閉める"[0]);
    ExampleReadingKept();
    ExampleRuns();
    ExampleWalk();
    ExampleRender();
    var out := "<ruby>閉<rt>し</rt></ruby>める";
    assert |out| != |"閉める"|;
  }
}

/** The numeric part of main.py's `PitchDiagramGenerator.generate_svg`: which
    pattern number a pattern string denotes, the y-level of every mora and where
    each marker is drawn. The SVG markup itself is not modelled. */
module PitchDiagram {
  import opened Common
  import Morae

  const MoraWidth := 30
  const HighY := 20
  const LowY := 50
  const TextY := 70
  const DiagramHeight := 80

  /** Python's `s.isdigit()` restricted to ASCII digits. */
  predicate IsDigits(s: string) {
    s != [] && forall k :: 0 <= k < |s| ==> '0' <= s[k] <= '9'
  }

  /** `int(pattern) if pattern.isdigit() else -1` (main.py:774-777). */
  function PatternNumber(pattern: string): (p: int)
    ensures p >= -1
    ensures p == -1 <==> !IsDigits(pattern)
  {
    if IsDigits(pattern) then DecimalValue(pattern) else -1
  }

  /** A pattern written by `str(n)` for a downstep n reads back as n. */
  lemma PatternNumberOfString(n: nat)
    ensures PatternNumber(NatToString(n)) == n
  {
    DecimalOfNatToString(n);
  }

  lemma PatternNumberExamples()
    ensures PatternNumber("?") == -1 && PatternNumber("") == -1 && PatternNumber("-1") == -1
    ensures PatternNumber("0") == 0 && PatternNumber("12") == 12
  {
    assert "?"[0] == '?' && "-1"[0] == '-';
    assert "12"[..1] == "1";
  }

  /** The height table of main.py:775-795, built by list expressions for the
      first two patterns and by a loop for a downstep after the second mora. */
  method MoraHeights(p: int, n: nat) returns (heights: seq<int>)
    requires n > 0
    ensures |heights| == n
    ensures p == 0 ==> heights[0] == LowY && forall i :: 1 <= i < n ==> heights[i] == HighY
    ensures p == 1 ==> heights[0] == HighY && forall i :: 1 <= i < n ==> heights[i] == LowY
    ensures p > 1 ==> (heights[0] == LowY
      && forall i :: 1 <= i < n ==> heights[i] == (if i < p then HighY else LowY))
    ensures p < 0 ==> forall i :: 0 <= i < n ==> heights[i] == HighY
  {
    if p == 0 {
      heights := [LowY] + seq(n - 1, _ => HighY);
    } else if p == 1 {
      heights := [HighY] + seq(n - 1, _ => LowY);
    } else if p > 1 {
      heights := [LowY];
      var i := 1;
      while i < n
        invariant 1 <= i <= n
        invariant |heights| == i && heights[0] == LowY
        invariant forall k :: 1 <= k < i ==> heights[k] == (if k < p then HighY else LowY)
      {
        if i < p {
          heights := heights + [HighY];
        } else {
          heights := heights + [LowY];
        }
        i := i + 1;
      }
    } else {
      heights := seq(n, _ => HighY);
    }
  }

  /** What generate_svg draws, as numbers: the canvas width, and for each mora
      its label and the centre of its marker. */
  datatype Diagram = Diagram(width: int, height: int, labels: seq<string>, points: seq<(int, int)>)

  /** The x coordinate of the i-th marker (main.py:810). */
  function MarkerX(i: int): int {
    20 + i * MoraWidth + MoraWidth / 2
  }

  /** `generate_svg` (main.py:743-829): no diagram (the empty string) when there
      are no morae even after splitting the reading; otherwise one marker per
      mora, spaced MoraWidth apart, at the high or low level. */
  method GenerateSvg(reading: string, pattern: string, morae: seq<string>) returns (d: Option<Diagram>)
    ensures var ms := if morae == [] then Morae.Split(reading, Morae.MainSmallKana) else morae;
      && (d.None? <==> ms == [])
      && (d.Some? ==>
        && d.value.labels == ms
        && d.value.width == MoraWidth * |ms| + 40
        && d.value.height == DiagramHeight
        && |d.value.points| == |ms|
        && (forall i :: 0 <= i < |ms| ==> d.value.points[i].0 == MarkerX(i))
        && (forall i :: 0 <= i < |ms| ==> d.value.points[i].1 in {HighY, LowY}))
    ensures d.Some? && PatternNumber(pattern) == 0 ==>
      d.value.points[0].1 == LowY && forall i :: 1 <= i < |d.value.points| ==> d.value.points[i].1 == HighY
    ensures d.Some? && PatternNumber(pattern) == 1 ==>
      d.value.points[0].1 == HighY && forall i :: 1 <= i < |d.value.points| ==> d.value.points[i].1 == LowY
    ensures d.Some? && PatternNumber(pattern) > 1 ==>
      d.value.points[0].1 == LowY && forall i :: 1 <= i < |d.value.points| ==>
        d.value.points[i].1 == (if i < PatternNumber(pattern) then HighY else LowY)
    ensures d.Some? && PatternNumber(pattern) == -1 ==>
      forall i :: 0 <= i < |d.value.points| ==> d.value.points[i].1 == HighY
  {
    var ms := morae;
    if ms == [] {
      ms := Morae.SplitMorae(reading, Morae.MainSmallKana);
    }
    var n := |ms|;
    if n == 0 {
      return None;
    }
    var width := MoraWidth * n + 40;
    var p := PatternNumber(pattern);
    var heights := MoraHeights(p, n);
    var points: seq<(int, int)> := [];
    var i := 0;
    while i < n
      invariant 0 <= i <= n
      invariant |points| == i
      invariant forall k :: 0 <= k < i ==> points[k] == (MarkerX(k), heights[k])
    {
      points := points + [(20 + i * MoraWidth + MoraWidth / 2, heights[i])];
      i := i + 1;
    }
    d := Some(Diagram(width, DiagramHeight, ms, points));
  }
}

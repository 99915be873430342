/** `SkillLevelIndicator`: a skill's level drawn as a three-segment bar or as a coloured badge. */
module SkillLevel {
  import opened Wrappers
  import opened Records
  import Skills

  /** The position of the first occurrence of `x` in `xs`, or -1 when it does not occur. */
  function IndexOf(xs: seq<string>, x: string): (k: int)
    ensures -1 <= k < |xs|
    ensures k == -1 <==> x !in xs
    ensures 0 <= k ==> xs[k] == x && x !in xs[..k]
  {
    if xs == [] then -1
    else if xs[0] == x then 0
    else
      var k := IndexOf(xs[1..], x);
      assert xs[1..][..if k < 0 then 0 else k] == xs[1..if k < 0 then 1 else k + 1];
      if k == -1 then -1 else k + 1
  }

  /** The index of a level in the level order: 0, 1, 2, or -1 for anything else. */
  function LevelIndex(level: string): (k: int)
    ensures level == BEGINNER <==> k == 0
    ensures level == INTERMEDIATE <==> k == 1
    ensures level == ADVANCED <==> k == 2
    ensures level !in LEVELS <==> k == -1
  {
    IndexOf(LEVELS, level)
  }

  /** The bar: one segment per level, in level order, segment i filled when i is at most the level's index. */
  function Segments(level: string): (s: seq<bool>)
    ensures |s| == |LEVELS|
    ensures forall i | 0 <= i < |s| :: s[i] <==> i <= LevelIndex(level)
  {
    seq(|LEVELS|, i requires 0 <= i < |LEVELS| => i <= LevelIndex(level))
  }

  /** The number of filled segments. */
  function Filled(s: seq<bool>): nat {
    if s == [] then 0 else (if s[0] then 1 else 0) + Filled(s[1..])
  }

  /** The filled segments come first: any later segment being filled means every earlier one is. */
  lemma FilledPrefix(level: string, i: int, j: int)
    requires 0 <= i <= j < |LEVELS| && Segments(level)[j]
    ensures Segments(level)[i]
  {
  }

  /** Beginner fills one segment, intermediate two, advanced three, any other level none. */
  lemma FilledCount(level: string)
    ensures level == BEGINNER ==> Filled(Segments(level)) == 1
    ensures level == INTERMEDIATE ==> Filled(Segments(level)) == 2
    ensures level == ADVANCED ==> Filled(Segments(level)) == 3
    ensures level !in LEVELS ==> Filled(Segments(level)) == 0
  {
    var k := LevelIndex(level);
    assert Segments(level) == [0 <= k, 1 <= k, 2 <= k];
    FilledOfThree(0 <= k, 1 <= k, 2 <= k);
  }

  lemma FilledOfThree(a: bool, b: bool, c: bool)
    ensures Filled([a, b, c]) == (if a then 1 else 0) + (if b then 1 else 0) + (if c then 1 else 0)
  {
    assert [a, b, c][1..] == [b, c];
    assert [b, c][1..] == [c];
    assert [c][1..] == [];
    assert Filled([c]) == (if c then 1 else 0) + Filled([]);
    assert Filled([b, c]) == (if b then 1 else 0) + Filled([c]);
    assert Filled([a, b, c]) == (if a then 1 else 0) + Filled([b, c]);
  }

  /** The bar and the percentage of the skills page rank levels alike. */
  lemma BarAgreesWithProgress(a: string, b: string)
    requires a in LEVELS && b in LEVELS
    ensures Filled(Segments(a)) <= Filled(Segments(b)) <==> Skills.LevelProgress(a) <= Skills.LevelProgress(b)
  {
    FilledCount(a);
    FilledCount(b);
  }

  datatype Tone = Strong | Medium | Muted
  datatype Variant = BarVariant | BadgeVariant

  /** What the indicator draws. */
  datatype Drawing =
    | Badge(tone: Tone, text: string)
    | Bar(segments: seq<bool>, caption: Option<string>)

  /** The badge's colour: strong for advanced, medium for intermediate, muted for anything else. */
  function BadgeTone(level: string): (t: Tone)
    ensures t == Strong <==> level == ADVANCED
    ensures t == Medium <==> level == INTERMEDIATE
  {
    if level == ADVANCED then Strong else if level == INTERMEDIATE then Medium else Muted
  }

  /**
   * The whole component: a badge showing the level, or the bar with the level as label only when asked for.
   * A prop the caller leaves out is `None`: the variant then defaults to the bar and the label to hidden.
   */
  function Draw(level: string, showLabel: Option<bool>, variant: Option<Variant>): (d: Drawing)
    ensures variant == Some(BadgeVariant) ==> d == Badge(BadgeTone(level), level)
    ensures variant != Some(BadgeVariant) ==> d.Bar? && d.segments == Segments(level)
    ensures variant != Some(BadgeVariant) ==> (d.caption.Some? <==> showLabel == Some(true))
    ensures d.Bar? && d.caption.Some? ==> d.caption == Some(level)
  {
    match variant.GetOr(BarVariant)
    case BadgeVariant => Badge(BadgeTone(level), level)
    case BarVariant => Bar(Segments(level), if showLabel.GetOr(false) then Some(level) else None)
  }

  /** With only a level given, the indicator is the bar without a label. */
  lemma DefaultIsUnlabelledBar(level: string)
    ensures Draw(level, None, None) == Bar(Segments(level), None)
  {
  }
}

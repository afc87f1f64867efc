/**
  The four colour tiers of a 0-100 score (`getScoreColor`), used for the
  overall score on a card and, through an identical copy, for the rating
  sliders.
 */
module Score {

  datatype Tier = Top | High | Mid | Low

  const TopColour := "#00FF41"
  const HighColour := "#00BFFF"
  const MidColour := "#FF8C00"
  const LowColour := "#8A2BE2"

  /** Position of a tier, from 0 (lowest) to 3 (highest). */
  function Rank(t: Tier): nat
  {
    match t
    case Low => 0
    case Mid => 1
    case High => 2
    case Top => 3
  }

  /** The tier of a score: the thresholds 80, 60 and 40 are tried from the top. */
  function ScoreTier(score: int): (t: Tier)
    ensures t == Top <==> 80 <= score
    ensures t == High <==> 60 <= score < 80
    ensures t == Mid <==> 40 <= score < 60
    ensures t == Low <==> score < 40
  {
    if score >= 80 then Top
    else if score >= 60 then High
    else if score >= 40 then Mid
    else Low
  }

  function TierColour(t: Tier): string
  {
    match t
    case Top => TopColour
    case High => HighColour
    case Mid => MidColour
    case Low => LowColour
  }

  /** `getScoreColor(score)`. */
  function ScoreColour(score: int): (c: string)
    ensures c in {TopColour, HighColour, MidColour, LowColour}
    ensures c == TopColour <==> 80 <= score
    ensures c == HighColour <==> 60 <= score < 80
    ensures c == MidColour <==> 40 <= score < 60
    ensures c == LowColour <==> score < 40
  {
    TierColour(ScoreTier(score))
  }

  /** A higher score never lands in a lower tier. */
  lemma TierMonotone(a: int, b: int)
    requires a <= b
    ensures Rank(ScoreTier(a)) <= Rank(ScoreTier(b))
  {
  }

  /** The four colours are distinct, so a colour tells which tier produced it. */
  lemma ColourDeterminesTier(s1: int, s2: int)
    ensures ScoreColour(s1) == ScoreColour(s2) <==> ScoreTier(s1) == ScoreTier(s2)
  {
    assert TopColour[3] != HighColour[3];
    assert TopColour[1] != MidColour[1] && TopColour[1] != LowColour[1];
    assert HighColour[1] != MidColour[1] && HighColour[1] != LowColour[1] && MidColour[1] != LowColour[1];
  }

  /** The scores of one tier form an interval: between two scores of a tier, every score has that tier. */
  lemma TierIsInterval(a: int, m: int, b: int)
    requires a <= m <= b && ScoreTier(a) == ScoreTier(b)
    ensures ScoreTier(m) == ScoreTier(a)
  {
  }
}

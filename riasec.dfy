/**
 * The six Holland (RIASEC) interest dimensions as the application orders them:
 * Realistic, Investigative, Artistic, Social, Enterprising, Conventional.
 */
module Riasec {

  /** A dimension, by its position in the order R, I, A, S, E, C. */
  type Dim = d: nat | d < 6

  /** One letter per dimension, in dimension order. */
  const Letters: string := "RIASEC"

  /** The score column of each dimension in the occupation table. */
  const Features: seq<string> := ["R_score", "I_score", "A_score", "S_score", "E_score", "C_score"]

  /** A profile or centroid: one value per dimension. */
  type Vector = v: seq<real> | |v| == 6 witness [0.0, 0.0, 0.0, 0.0, 0.0, 0.0]

  /** The position of a dimension letter, or 6 for any other character. */
  function LetterIndex(c: char): (d: nat)
    ensures d <= 6
    ensures d < 6 <==> c in Letters
    ensures d < 6 ==> Letters[d] == c
  {
    if c == 'R' then 0 else if c == 'I' then 1 else if c == 'A' then 2
    else if c == 'S' then 3 else if c == 'E' then 4 else if c == 'C' then 5 else 6
  }

  /** Each score column begins with its dimension's letter, and the letters are distinct. */
  lemma FeatureLetters()
    ensures forall d: Dim :: |Features[d]| > 0 && Features[d][0] == Letters[d]
    ensures forall d: Dim :: LetterIndex(Letters[d]) == d
  {
  }
}

/** The two display helpers of the restaurant card. */
module RestaurantCard {

  /** The three faces the card can show. */
  datatype Face = Smiling | Neutral | Confused

  /** The emoji each face is drawn with. */
  function Glyph(face: Face): string {
    match face
    case Smiling => "\U{1F60A}"
    case Neutral => "\U{1F610}"
    case Confused => "\U{1F615}"
  }

  /** How cheerful a face is, for comparing faces. */
  function Cheer(face: Face): nat {
    match face
    case Confused => 0
    case Neutral => 1
    case Smiling => 2
  }

  const SmilingFrom: real := 0.7
  const NeutralFrom: real := 0.4

  /** `getSentimentEmoji`: three bands split at 0.4 and 0.7, lower ends
      inclusive. */
  function GetSentimentEmoji(score: real): (face: Face)
    ensures face == Smiling <==> score >= 0.7
    ensures face == Neutral <==> 0.4 <= score < 0.7
    ensures face == Confused <==> score < 0.4
  {
    if score >= SmilingFrom then Smiling
    else if score >= NeutralFrom then Neutral
    else Confused
  }

  /** A higher score never shows a less cheerful face. */
  lemma SentimentEmojiMonotone(a: real, b: real)
    requires a <= b
    ensures Cheer(GetSentimentEmoji(a)) <= Cheer(GetSentimentEmoji(b))
  {
  }

  /** The faces are drawn with distinct emoji. */
  lemma GlyphsDistinct(f: Face, g: Face)
    requires f != g
    ensures Glyph(f) != Glyph(g)
  {
  }

  /** `"".padStart(level, "$")`: `level` dollar signs, and nothing for a
      level of zero or below. */
  function GetPriceString(level: int): (s: string)
    ensures |s| == if level <= 0 then 0 else level
    ensures forall i :: 0 <= i < |s| ==> s[i] == '$'
    decreases level
  {
    if level <= 0 then "" else GetPriceString(level - 1) + "$"
  }

  /** A lower price level's string is a prefix of a higher one's, and the
      string determines a non-negative level. */
  lemma {:induction false} PriceStringsNest(a: int, b: int)
    requires 0 <= a <= b
    ensures GetPriceString(a) == GetPriceString(b)[..a]
    ensures GetPriceString(a) == GetPriceString(b) ==> a == b
    decreases b - a
  {
    if a < b {
      PriceStringsNest(a, b - 1);
      assert GetPriceString(b)[..b - 1] == GetPriceString(b - 1);
    }
  }
}

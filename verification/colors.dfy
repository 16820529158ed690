/** The five-colour balloon palette and the colour-keyed scoring rule. */
module Colors {

  /** One constructor per palette entry, in palette order. */
  datatype Color = Cream | Orange | SkyBlue | DeepBlue | BrightOrange

  /** The palette as the sketch lists it; random(COLORS) indexes into it. */
  const Palette: seq<Color> := [Cream, Orange, SkyBlue, DeepBlue, BrightOrange]

  /** The hex string the sketch stores as a balloon's base colour. */
  function Hex(c: Color): string
  {
    match c
    case Cream => "#eff3d4"
    case Orange => "#fc9e4f"
    case SkyBlue => "#81a4cd"
    case DeepBlue => "#12355b"
    case BrightOrange => "#f26419"
  }

  /** The colour string the press handler compares against. */
  const BonusHex: string := "#12355b"

  /** The press handler's test: the base colour string equals the bonus string. */
  predicate IsBonus(c: Color)
  {
    Hex(c) == BonusHex
  }

  /** Every colour occurs in the palette exactly once, and the hex strings are distinct,
      so comparing strings is the same as comparing colours. */
  lemma PaletteIsExact()
    ensures |Palette| == 5
    ensures forall c: Color :: c in Palette
    ensures forall i, j :: 0 <= i < j < |Palette| ==> Palette[i] != Palette[j]
    ensures forall c: Color, d: Color :: Hex(c) == Hex(d) ==> c == d
  {
    forall c: Color ensures c in Palette {
      match c
      case Cream => assert Palette[0] == c;
      case Orange => assert Palette[1] == c;
      case SkyBlue => assert Palette[2] == c;
      case DeepBlue => assert Palette[3] == c;
      case BrightOrange => assert Palette[4] == c;
    }
  }

  /** Exactly one colour is the bonus colour: the deep blue one. */
  lemma BonusIsDeepBlue(c: Color)
    ensures IsBonus(c) <==> c == DeepBlue
  {
  }

  /** The score change of popping a balloon of colour c: +1 for the bonus colour, -1 for any other. */
  function ScoreDelta(c: Color): (d: int)
    ensures d == 1 || d == -1
    ensures d == 1 <==> c == DeepBlue
  {
    if IsBonus(c) then 1 else -1
  }
}

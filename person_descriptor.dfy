/**
 * Assets/Scripts/PersonDescriptor.cs: the two categorical attributes of a person,
 * their randomisation at start-up and the short description used in reports.
 */
module PersonDescriptors {
  import opened Wrappers
  import opened Geometry

  datatype JacketColor = Orange | Red | Blue | Green | Yellow | Black
  datatype HelmetColor = Yellow | White | Orange | None

  /** The enums' values in declaration order, as `Enum.GetValues` lists them. */
  const AllJackets: seq<JacketColor> := [JacketColor.Orange, Red, Blue, Green, JacketColor.Yellow, Black]
  const AllHelmets: seq<HelmetColor> := [HelmetColor.Yellow, White, HelmetColor.Orange, HelmetColor.None]

  /** The enum member's name, as `ToString` prints it. */
  function JacketName(j: JacketColor): string
  {
    match j
    case Orange => "Orange"
    case Red => "Red"
    case Blue => "Blue"
    case Green => "Green"
    case Yellow => "Yellow"
    case Black => "Black"
  }

  function HelmetName(h: HelmetColor): string
  {
    match h
    case Yellow => "Yellow"
    case White => "White"
    case Orange => "Orange"
    case None => "None"
  }

  /** `ShortText`: "{jacket} jacket, {helmet} helmet", or "... no helmet" without one. */
  function ShortText(j: JacketColor, h: HelmetColor): string
  {
    var hp := if h == HelmetColor.None then "no helmet" else HelmetName(h) + " helmet";
    JacketName(j) + " jacket, " + hp
  }

  /** Recovers the jacket from a short text: the first three letters tell the colours apart. */
  function JacketOfText(s: string): Option<JacketColor>
  {
    if |s| < 3 then Option.None
    else if s[..3] == "Ora" then Some(JacketColor.Orange)
    else if s[..3] == "Red" then Some(Red)
    else if s[..3] == "Blu" then Some(Blue)
    else if s[..3] == "Gre" then Some(Green)
    else if s[..3] == "Yel" then Some(JacketColor.Yellow)
    else if s[..3] == "Bla" then Some(Black)
    else Option.None
  }

  /** Recovers the helmet: the ninth character from the end tells the endings apart. */
  function HelmetOfText(s: string): Option<HelmetColor>
  {
    if |s| < 9 then Option.None
    else if s[|s| - 9] == 'n' then Some(HelmetColor.None)
    else if s[|s| - 9] == 'o' then Some(HelmetColor.Yellow)
    else if s[|s| - 9] == 't' then Some(White)
    else if s[|s| - 9] == 'g' then Some(HelmetColor.Orange)
    else Option.None
  }

  /** The short text determines both attributes. */
  lemma ShortTextDecodes(j: JacketColor, h: HelmetColor)
    ensures JacketOfText(ShortText(j, h)) == Some(j)
    ensures HelmetOfText(ShortText(j, h)) == Some(h)
  {
    var hp := if h == HelmetColor.None then "no helmet" else HelmetName(h) + " helmet";
    var s := ShortText(j, h);
    assert s[..3] == JacketName(j)[..3];
    match j {
      case Orange => assert s[..3] == "Ora";
      case Red => assert s[..3] == "Red";
      case Blue => assert s[..3] == "Blu";
      case Green => assert s[..3] == "Gre";
      case Yellow => assert s[..3] == "Yel";
      case Black => assert s[..3] == "Bla";
    }
    assert s[|s| - 9..] == hp[|hp| - 9..];
    assert s[|s| - 9] == hp[|hp| - 9];
  }

  /** Distinct attribute pairs are described differently, so grouping by text groups by pair. */
  lemma ShortTextInjective(j1: JacketColor, h1: HelmetColor, j2: JacketColor, h2: HelmetColor)
    requires ShortText(j1, h1) == ShortText(j2, h2)
    ensures j1 == j2 && h1 == h2
  {
    ShortTextDecodes(j1, h1);
    ShortTextDecodes(j2, h2);
  }

  lemma ShortTextWithoutHelmet(j: JacketColor)
    ensures ShortText(j, HelmetColor.None) == JacketName(j) + " jacket, no helmet"
  {
  }

  /** A person in the scene. Besides the two attributes it carries the state the
   *  simulation reads from its GameObject: name, position, renderer bounds and whether
   *  it has been destroyed or lives outside a loaded scene. */
  class PersonDescriptor {
    var jacketColor: JacketColor
    var helmet: HelmetColor
    var randomizeOnStart: bool

    var name: string
    var position: Vec3
    var rendererBounds: Option<Bounds>
    var destroyed: bool
    var sceneValid: bool

    /** The component's field initialisers. */
    constructor (name: string, position: Vec3, rendererBounds: Option<Bounds>)
      ensures jacketColor == JacketColor.Orange && helmet == HelmetColor.Yellow && randomizeOnStart
      ensures this.name == name && this.position == position && this.rendererBounds == rendererBounds
      ensures !destroyed && sceneValid
    {
      jacketColor := JacketColor.Orange;
      helmet := HelmetColor.Yellow;
      randomizeOnStart := true;
      this.name := name;
      this.position := position;
      this.rendererBounds := rendererBounds;
      destroyed := false;
      sceneValid := true;
    }

    /** `Start`: with randomisation on, draws each attribute with `Random.Range(0, count)`,
     *  whose exclusive upper bound is the enum's size, so every draw names a declared value. */
    method Start(rangeInt: (int, int) -> int)
      requires forall lo, hi :: lo < hi ==> lo <= rangeInt(lo, hi) < hi
      modifies this`jacketColor, this`helmet
      ensures !randomizeOnStart ==> jacketColor == old(jacketColor) && helmet == old(helmet)
      ensures randomizeOnStart ==>
        jacketColor == AllJackets[rangeInt(0, |AllJackets|)] && helmet == AllHelmets[rangeInt(0, |AllHelmets|)]
    {
      if !randomizeOnStart {
        return;
      }
      jacketColor := AllJackets[rangeInt(0, |AllJackets|)];
      helmet := AllHelmets[rangeInt(0, |AllHelmets|)];
    }

    function Describe(): (s: string)
      reads this
      ensures JacketOfText(s) == Some(jacketColor) && HelmetOfText(s) == Some(helmet)
    {
      ShortTextDecodes(jacketColor, helmet);
      ShortText(jacketColor, helmet)
    }
  }

  /** Unity's overloaded `pd != null`: a destroyed component compares equal to null. */
  predicate Live(pd: PersonDescriptor?)
    reads pd
  {
    pd != null && !pd.destroyed
  }
}

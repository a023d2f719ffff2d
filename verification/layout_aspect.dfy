/**
  Canvas aspect presets (`LayoutAspect`): a string-backed enumeration with a ratio and a
  label per case, and the canvas height the main screen derives from a width.
*/
module LayoutAspect {
  import opened Wrappers

  datatype LayoutAspect = SquareLayout | PortraitLayout | LandscapeLayout | StoryLayout

  datatype Ratio = Ratio(w: real, h: real)

  /** `CaseIterable.allCases`, in declaration order. */
  const AllCases: seq<LayoutAspect> := [SquareLayout, PortraitLayout, LandscapeLayout, StoryLayout]

  /** The string raw value of each case. */
  function RawValue(a: LayoutAspect): string {
    match a
    case SquareLayout => "1:1"
    case PortraitLayout => "4:5"
    case LandscapeLayout => "1.91:1"
    case StoryLayout => "9:16"
  }

  /** `Identifiable.id`, which is the raw value. */
  function Id(a: LayoutAspect): string {
    RawValue(a)
  }

  /** The synthesized `init?(rawValue:)` of a string-backed enumeration. */
  function FromRawValue(s: string): (r: Option<LayoutAspect>)
    ensures r.Some? ==> RawValue(r.value) == s
    ensures r.None? ==> forall a :: RawValue(a) != s
  {
    if s == "1:1" then Some(SquareLayout)
    else if s == "4:5" then Some(PortraitLayout)
    else if s == "1.91:1" then Some(LandscapeLayout)
    else if s == "9:16" then Some(StoryLayout)
    else None
  }

  /** Width-to-height proportion of each preset; every component is positive. */
  function RatioOf(a: LayoutAspect): (r: Ratio)
    ensures r.w > 0.0 && r.h > 0.0
  {
    match a
    case SquareLayout => Ratio(1.0, 1.0)
    case PortraitLayout => Ratio(4.0, 5.0)
    case LandscapeLayout => Ratio(1.91, 1.0)
    case StoryLayout => Ratio(9.0, 16.0)
  }

  function Label(a: LayoutAspect): string {
    match a
    case SquareLayout => "Square"
    case PortraitLayout => "Portrait"
    case LandscapeLayout => "Landscape"
    case StoryLayout => "Story"
  }

  /** Parsing a case's raw value gives back that case. */
  lemma RawValueRoundTrip(a: LayoutAspect)
    ensures FromRawValue(RawValue(a)) == Some(a)
  {
  }

  /** Raw values, and therefore identifiers, of distinct cases differ. */
  lemma RawValueInjective(a: LayoutAspect, b: LayoutAspect)
    ensures RawValue(a) == RawValue(b) ==> a == b
    ensures Id(a) == Id(b) ==> a == b
  {
    RawValueRoundTrip(a);
    RawValueRoundTrip(b);
  }

  /** `allCases` lists every case exactly once. */
  lemma AllCasesComplete(a: LayoutAspect)
    ensures a in AllCases
    ensures |AllCases| == 4
    ensures forall i, j :: 0 <= i < j < |AllCases| ==> AllCases[i] != AllCases[j]
  {
  }

  /** The labels of distinct cases differ. */
  lemma LabelInjective(a: LayoutAspect, b: LayoutAspect)
    ensures Label(a) == Label(b) ==> a == b
  {
  }

  /** The canvas height for a canvas `width` wide: `width * h / w` of the preset ratio. */
  function CanvasHeight(width: real, a: LayoutAspect): (height: real)
    ensures height * RatioOf(a).w == width * RatioOf(a).h
    ensures width > 0.0 ==> height > 0.0
    ensures a == SquareLayout ==> height == width
  {
    width * RatioOf(a).h / RatioOf(a).w
  }
}

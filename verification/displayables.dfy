/** The displayables an image reference resolves to, and the placement
    (position and anchor on each axis) that a displayable reports. What a
    displayable draws and how it handles events are outside this model. */
module Displayables {

  import opened Wrappers

  /** An RGBA colour. */
  type Color = (int, int, int, int)

  /** The colour of the text shown in place of an image that failed to
      resolve. */
  const Red: Color := (255, 0, 0, 255)

  /** A position or anchor: a number of pixels, or a fraction of the
      available space. */
  datatype Position = Absolute(pixels: int) | Relative(fraction: real)

  /** The four placement components; `None` means "not given here, take it
      from the style". */
  datatype Placement = Placement(
    xpos: Option<Position>,
    ypos: Option<Position>,
    xanchor: Option<Position>,
    yanchor: Option<Position>)

  /** Every component is given. */
  predicate Complete(p: Placement)
  {
    p.xpos.Some? && p.ypos.Some? && p.xanchor.Some? && p.yanchor.Some?
  }

  /** The placement at the top-left corner of the area. */
  const Origin: Placement :=
    Placement(Some(Absolute(0)), Some(Absolute(0)), Some(Absolute(0)), Some(Absolute(0)))

  /** A displayable is either one this model does not look inside (a
      registered image, a user-supplied displayable), told apart by an
      identity, or a text displayable with its colour and placement. */
  datatype Displayable =
    | Opaque(id: nat)
    | Text(text: string, color: Color, placement: Placement)

  /** The red text displayed at the origin in place of an image that could
      not be resolved. */
  function ErrorText(msg: string): Displayable
  {
    Text(msg, Red, Origin)
  }

  /** One placement component: the displayable's own value if it gave one,
      the style's otherwise. */
  function OrStyle(own: Option<Position>, style: Option<Position>): Option<Position>
  {
    if own.None? then style else own
  }

  /** The placement of a target with each missing component filled in,
      independently of the others, from the style. */
  function FillFromStyle(own: Placement, style: Placement): (r: Placement)
    ensures own.xpos.Some? ==> r.xpos == own.xpos
    ensures own.ypos.Some? ==> r.ypos == own.ypos
    ensures own.xanchor.Some? ==> r.xanchor == own.xanchor
    ensures own.yanchor.Some? ==> r.yanchor == own.yanchor
    ensures own.xpos.None? ==> r.xpos == style.xpos
    ensures own.ypos.None? ==> r.ypos == style.ypos
    ensures own.xanchor.None? ==> r.xanchor == style.xanchor
    ensures own.yanchor.None? ==> r.yanchor == style.yanchor
    ensures Complete(style) ==> Complete(r)
  {
    Placement(
      OrStyle(own.xpos, style.xpos),
      OrStyle(own.ypos, style.ypos),
      OrStyle(own.xanchor, style.xanchor),
      OrStyle(own.yanchor, style.yanchor))
  }

  /** Filling twice changes nothing more than filling once. */
  lemma FillFromStyleIdempotent(own: Placement, style: Placement)
    ensures FillFromStyle(FillFromStyle(own, style), style) == FillFromStyle(own, style)
  {
  }

  /** A target that gives all four components is not overridden by the
      style. */
  lemma FillFromStyleKeepsComplete(own: Placement, style: Placement)
    requires Complete(own)
    ensures FillFromStyle(own, style) == own
  {
  }

  /** Each component of the result depends only on that component of the
      target and of the style: two styles that agree on a component give
      results that agree on it, whatever the other components are. */
  lemma FillFromStyleComponentwise(own: Placement, s1: Placement, s2: Placement)
    ensures s1.xpos == s2.xpos ==> FillFromStyle(own, s1).xpos == FillFromStyle(own, s2).xpos
    ensures s1.ypos == s2.ypos ==> FillFromStyle(own, s1).ypos == FillFromStyle(own, s2).ypos
    ensures s1.xanchor == s2.xanchor ==>
      FillFromStyle(own, s1).xanchor == FillFromStyle(own, s2).xanchor
    ensures s1.yanchor == s2.yanchor ==>
      FillFromStyle(own, s1).yanchor == FillFromStyle(own, s2).yanchor
  {
  }
}

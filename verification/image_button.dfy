/** The guts of an image button: a button whose child is its idle image
    while unfocused and its hover image while focused. */
module ImageButtons {

  import opened Displayables

  class ImageButton {
    const idleImage: Displayable
    const hoverImage: Displayable
    /** The child the button currently shows. */
    var child: Displayable

    /** The shown child is always one of the two images. */
    ghost predicate Valid()
      reads this
    {
      child == idleImage || child == hoverImage
    }

    constructor (idleImage: Displayable, hoverImage: Displayable)
      ensures Valid()
      ensures this.idleImage == idleImage && this.hoverImage == hoverImage
      ensures child == idleImage
    {
      this.idleImage := idleImage;
      this.hoverImage := hoverImage;
      child := idleImage;
    }

    /** Both images, idle first, whichever one is shown, so that both are
        reached by a traversal of the displayable tree. */
    function Visit(): (r: seq<Displayable>)
      reads this
      requires Valid()
      ensures |r| == 2 && r[0] == idleImage && r[1] == hoverImage
      ensures child in r
    {
      [idleImage, hoverImage]
    }

    method Focus()
      requires Valid()
      modifies this`child
      ensures Valid() && child == hoverImage
    {
      child := hoverImage;
    }

    method Unfocus()
      requires Valid()
      modifies this`child
      ensures Valid() && child == idleImage
    {
      child := idleImage;
    }
  }

  /** A button built from idle and hover images shows the idle image, then
      the hover image once focused, then the idle image again once
      unfocused, and visits both images in every state. */
  method FocusCycle(idleImage: Displayable, hoverImage: Displayable)
    returns (initial: Displayable, focused: Displayable, unfocused: Displayable,
             visits: seq<seq<Displayable>>)
    ensures initial == idleImage && focused == hoverImage && unfocused == idleImage
    ensures |visits| == 3
    ensures forall i :: 0 <= i < |visits| ==> visits[i] == [idleImage, hoverImage]
  {
    var button := new ImageButton(idleImage, hoverImage);
    initial := button.child;
    var v0 := button.Visit();
    button.Focus();
    focused := button.child;
    var v1 := button.Visit();
    button.Unfocus();
    unfocused := button.child;
    var v2 := button.Visit();
    visits := [v0, v1, v2];
  }
}

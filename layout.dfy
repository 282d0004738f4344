/**
 * The integer layout of the combined image: a 500x600 white canvas, the
 * 400x150 receipt image pasted at (50, 0), and the scaled robot image pasted
 * at ((500 - new_width) // 2, 200). The scaled size is an input: the
 * floating-point scaling that produces it is not part of this model.
 */
module Layout {

  const CanvasWidth: int := 500
  const CanvasHeight: int := 600
  const ReceiptWidth: int := 400
  const ReceiptHeight: int := 150
  const RobotTop: int := 200

  datatype Point = Point(x: int, y: int)

  /** Canvas size and where the two images are pasted. */
  datatype Composite = Composite(width: int, height: int, receiptAt: Point, robotAt: Point)

  /**
   * `create_combined_image`'s arithmetic. Python's `//` floors; for the
   * positive divisor 2 that is Dafny's Euclidean `/`, also when the robot is
   * wider than the canvas and the numerator is negative.
   */
  function CombinedLayout(newWidth: nat, newHeight: nat): (c: Composite)
    ensures c.width == CanvasWidth && c.height == CanvasHeight
    ensures 2 * c.receiptAt.x + ReceiptWidth == c.width && c.receiptAt.y == 0
    ensures c.receiptAt.y + ReceiptHeight <= c.robotAt.y == RobotTop
    ensures 2 * c.robotAt.x <= c.width - newWidth < 2 * c.robotAt.x + 2
  {
    Composite(CanvasWidth, CanvasHeight, Point(50, 0), Point((CanvasWidth - newWidth) / 2, RobotTop))
  }

  /**
   * The robot is centred: the margin to its right is the margin to its left,
   * or one more when the leftover width is odd.
   */
  lemma RobotCentred(newWidth: nat, newHeight: nat)
    ensures var c := CombinedLayout(newWidth, newHeight);
      var left := c.robotAt.x;
      var right := c.width - (c.robotAt.x + newWidth);
      right - left == (CanvasWidth - newWidth) % 2
  {
  }

  /** The scaled robot lies wholly inside the canvas exactly when it is at most 500 wide and 400 high. */
  lemma RobotInsideCanvas(newWidth: nat, newHeight: nat)
    ensures var c := CombinedLayout(newWidth, newHeight);
      (0 <= c.robotAt.x && c.robotAt.x + newWidth <= c.width && c.robotAt.y + newHeight <= c.height)
      <==> (newWidth <= CanvasWidth && newHeight <= CanvasHeight - RobotTop)
  {
  }

  /** A robot one pixel wider than the canvas starts at -1, as Python's floor division gives, not at 0. */
  lemma WideRobotFloors()
    ensures CombinedLayout(501, 0).robotAt.x == -1
  {
  }
}

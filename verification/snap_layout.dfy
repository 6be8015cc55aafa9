/**
 * Window snapping: which snap zone a pointer position falls in, and the
 * rectangle each zone gives a window. The viewport size is a parameter; the
 * taskbar takes the bottom 48 pixels.
 */
module SnapLayout {
  import opened Options

  datatype SnapZone = Left | Right | Top | TopLeft | TopRight | BottomLeft | BottomRight

  datatype Rect = Rect(x: real, y: real, width: real, height: real)

  const EdgeThreshold: real := 20.0
  const CornerThreshold: real := 50.0
  const TaskbarHeight: real := 48.0

  /**
   * `getSnapZone`: corners first (top-left, top-right, bottom-left,
   * bottom-right), then the left, right and top edges; the bottom edge alone
   * gives no zone. The postconditions say, zone by zone, exactly which
   * pointer positions produce it.
   */
  function GetSnapZone(x: real, y: real, screenWidth: real, screenHeight: real): (r: Option<SnapZone>)
    ensures r == Some(TopLeft) <==> x < 20.0 && y < 20.0
    ensures r == Some(TopRight) <==> !(x < 20.0) && x > screenWidth - 20.0 && y < 20.0
    ensures r == Some(BottomLeft) <==> x < 20.0 && !(y < 20.0) && y > screenHeight - 68.0
    ensures r == Some(BottomRight) <==> !(x < 20.0) && x > screenWidth - 20.0 && !(y < 20.0) && y > screenHeight - 68.0
    ensures r == Some(Left) <==> x < 20.0 && !(y < 20.0) && !(y > screenHeight - 68.0)
    ensures r == Some(Right) <==> !(x < 20.0) && x > screenWidth - 20.0 && !(y < 20.0) && !(y > screenHeight - 68.0)
    ensures r == Some(Top) <==> !(x < 20.0) && !(x > screenWidth - 20.0) && y < 20.0
    ensures r == None <==> !(x < 20.0) && !(x > screenWidth - 20.0) && !(y < 20.0)
  {
    var nearLeft := x < EdgeThreshold;
    var nearRight := x > screenWidth - EdgeThreshold;
    var nearTop := y < EdgeThreshold;
    var nearBottom := y > screenHeight - TaskbarHeight - EdgeThreshold;
    if nearLeft && nearTop && x < CornerThreshold && y < CornerThreshold then Some(TopLeft)
    else if nearRight && nearTop && x > screenWidth - CornerThreshold && y < CornerThreshold then Some(TopRight)
    else if nearLeft && nearBottom then Some(BottomLeft)
    else if nearRight && nearBottom then Some(BottomRight)
    else if nearLeft then Some(Left)
    else if nearRight then Some(Right)
    else if nearTop then Some(Top)
    else None
  }

  /** `getSnapDimensions`: the rectangle of a zone within the area above the taskbar; no zone gives no rectangle. */
  function GetSnapDimensions(zone: Option<SnapZone>, screenWidth: real, screenHeight: real): (r: Option<Rect>)
    ensures r.None? <==> zone.None?
    ensures r.Some? && screenWidth >= 0.0 && screenHeight >= TaskbarHeight ==>
      && 0.0 <= r.value.x && r.value.x + r.value.width <= screenWidth
      && 0.0 <= r.value.y && r.value.y + r.value.height <= screenHeight - TaskbarHeight
      && r.value.width >= 0.0 && r.value.height >= 0.0
  {
    var w := screenWidth;
    var h := screenHeight - TaskbarHeight;
    match zone
    case None => None
    case Some(Left) => Some(Rect(0.0, 0.0, w / 2.0, h))
    case Some(Right) => Some(Rect(w / 2.0, 0.0, w / 2.0, h))
    case Some(Top) => Some(Rect(0.0, 0.0, w, h))
    case Some(TopLeft) => Some(Rect(0.0, 0.0, w / 2.0, h / 2.0))
    case Some(TopRight) => Some(Rect(w / 2.0, 0.0, w / 2.0, h / 2.0))
    case Some(BottomLeft) => Some(Rect(0.0, h / 2.0, w / 2.0, h / 2.0))
    case Some(BottomRight) => Some(Rect(w / 2.0, h / 2.0, w / 2.0, h / 2.0))
  }

  /**
   * The halves tile the width, the quarters tile the available height, and
   * the 'top' zone is the whole area above the taskbar.
   */
  lemma SnapRectanglesTile(screenWidth: real, screenHeight: real)
    ensures var left := GetSnapDimensions(Some(Left), screenWidth, screenHeight).value;
      var right := GetSnapDimensions(Some(Right), screenWidth, screenHeight).value;
      left.x == 0.0 && left.x + left.width == right.x && right.x + right.width == screenWidth
    ensures var tl := GetSnapDimensions(Some(TopLeft), screenWidth, screenHeight).value;
      var bl := GetSnapDimensions(Some(BottomLeft), screenWidth, screenHeight).value;
      var tr := GetSnapDimensions(Some(TopRight), screenWidth, screenHeight).value;
      var br := GetSnapDimensions(Some(BottomRight), screenWidth, screenHeight).value;
      && tl.y == 0.0 && tl.y + tl.height == bl.y && bl.y + bl.height == screenHeight - TaskbarHeight
      && tr.y == 0.0 && tr.y + tr.height == br.y && br.y + br.height == screenHeight - TaskbarHeight
      && tl.x + tl.width == tr.x && bl.x + bl.width == br.x
    ensures GetSnapDimensions(Some(Top), screenWidth, screenHeight) == Some(Rect(0.0, 0.0, screenWidth, screenHeight - TaskbarHeight))
  {
  }
}

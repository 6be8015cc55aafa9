/**
 * The behaviour of one window's frame: dragging by the title bar (with
 * snapping to screen edges and corners), resizing from a handle, and the
 * maximize and close buttons. The frame keeps its own interaction state;
 * the window record itself lives in the store, and every handler returns
 * the store calls it makes, in order.
 */
module WindowFrame {
  import opened Options
  import opened WindowTypes
  import opened SnapLayout
  import opened WindowStore

  const MinWidth: real := 400.0
  const MinHeight: real := 300.0
  /** How much of a dragged window must stay on screen on the right and at the bottom. */
  const KeepVisible: real := 100.0

  /** Where a mouse button went down on the window. */
  datatype PressTarget = ControlButtons | TitleBar | Body

  datatype Offset = Offset(x: real, y: real)

  function Max(a: real, b: real): real { if a >= b then a else b }
  function Min(a: real, b: real): real { if a <= b then a else b }

  /** `Math.max(0, Math.min(pointer - offset, viewport - 100))`: one coordinate of a dragged window. */
  function DragCoordinate(pointer: real, offset: real, viewport: real): (r: real)
    ensures r >= 0.0
    ensures viewport >= KeepVisible ==> r <= viewport - KeepVisible
    ensures 0.0 <= pointer - offset <= viewport - KeepVisible ==> r == pointer - offset
    ensures pointer - offset < 0.0 ==> r == 0.0
    ensures viewport >= KeepVisible && pointer - offset > viewport - KeepVisible ==> r == viewport - KeepVisible
  {
    Max(0.0, Min(pointer - offset, viewport - KeepVisible))
  }

  /** `Math.max(minimum, start + delta)`: one dimension while resizing. */
  function ResizedDimension(start: real, delta: real, minimum: real): (r: real)
    ensures r >= minimum && r >= start + delta
    ensures r == minimum || r == start + delta
  {
    Max(minimum, start + delta)
  }

  function Bounds(w: WindowState): Rect {
    Rect(w.x, w.y, w.width, w.height)
  }

  class Frame {
    var isDragging: bool
    var isResizing: bool
    var dragOffset: Offset
    /** The pointer position and the window size when the resize began. */
    var resizeStart: Rect
    var snapZone: Option<SnapZone>
    var isSnapped: bool
    /** The geometry to return to when a snapped window is dragged away. */
    var preSnapPosition: Option<Rect>

    constructor ()
      ensures !isDragging && !isResizing && !isSnapped
      ensures snapZone == None && preSnapPosition == None
      ensures dragOffset == Offset(0.0, 0.0) && resizeStart == Rect(0.0, 0.0, 0.0, 0.0)
    {
      isDragging := false;
      isResizing := false;
      dragOffset := Offset(0.0, 0.0);
      resizeStart := Rect(0.0, 0.0, 0.0, 0.0);
      snapZone := None;
      isSnapped := false;
      preSnapPosition := None;
    }

    /**
     * `handleMouseDown`: presses on the control buttons are left to them;
     * any other press focuses the window, and a press on the title bar starts
     * a drag. A maximized window is first restored and then dragged by its
     * middle; a snapped window records its current geometry to return to.
     */
    method MouseDown(win: WindowState, target: PressTarget, clientX: real, clientY: real) returns (calls: seq<StoreCall>)
      modifies this
      ensures target == ControlButtons ==> calls == [] && unchanged(this)
      ensures target == Body ==> calls == [Focus(win.id)] && unchanged(this)
      ensures target == TitleBar && win.isMaximized ==>
        && calls == [Focus(win.id), Restore(win.id)]
        && isDragging && dragOffset == Offset(win.width / 2.0, 15.0)
        && isSnapped == old(isSnapped) && preSnapPosition == old(preSnapPosition)
      ensures target == TitleBar && !win.isMaximized ==>
        && calls == [Focus(win.id)]
        && isDragging && dragOffset == Offset(clientX - win.x, clientY - win.y)
        && isSnapped == old(isSnapped)
        && preSnapPosition == if old(isSnapped) then Some(Bounds(win)) else old(preSnapPosition)
      ensures isResizing == old(isResizing) && snapZone == old(snapZone) && resizeStart == old(resizeStart)
    {
      if target == ControlButtons {
        return [];
      }
      calls := [Focus(win.id)];
      if target == TitleBar {
        if win.isMaximized {
          calls := calls + [Restore(win.id)];
          isDragging := true;
          dragOffset := Offset(win.width / 2.0, 15.0);
          return;
        }
        if isSnapped {
          preSnapPosition := Some(Bounds(win));
        }
        isDragging := true;
        dragOffset := Offset(clientX - win.x, clientY - win.y);
      }
    }

    /** `handleResizeStart`: a maximized window cannot be resized. */
    method ResizeStart(win: WindowState, clientX: real, clientY: real)
      modifies this
      ensures win.isMaximized ==> unchanged(this)
      ensures !win.isMaximized ==> isResizing && resizeStart == Rect(clientX, clientY, win.width, win.height)
      ensures isDragging == old(isDragging) && isSnapped == old(isSnapped) && preSnapPosition == old(preSnapPosition)
      ensures snapZone == old(snapZone) && dragOffset == old(dragOffset)
    {
      if win.isMaximized {
        return;
      }
      isResizing := true;
      resizeStart := Rect(clientX, clientY, win.width, win.height);
    }

    /**
     * The document `mousemove` listener, attached only while dragging or
     * resizing. A drag moves the window, kept on screen, and tracks the snap
     * zone under the pointer; a resize sets the size, never below 400 by 300.
     */
    method MouseMove(win: WindowState, clientX: real, clientY: real, screenWidth: real, screenHeight: real)
      returns (calls: seq<StoreCall>)
      modifies this`snapZone
      ensures !old(isDragging) && !old(isResizing) ==> calls == [] && snapZone == old(snapZone)
      ensures isDragging ==> snapZone == GetSnapZone(clientX, clientY, screenWidth, screenHeight)
      ensures !isDragging ==> snapZone == old(snapZone)
      ensures calls ==
        (if isDragging then [Move(win.id, DragCoordinate(clientX, dragOffset.x, screenWidth), DragCoordinate(clientY, dragOffset.y, screenHeight))] else [])
        + (if isResizing then [Resize(win.id, ResizedDimension(resizeStart.width, clientX - resizeStart.x, MinWidth),
                                             ResizedDimension(resizeStart.height, clientY - resizeStart.y, MinHeight))] else [])
    {
      calls := [];
      if !(isDragging || isResizing) {
        return;
      }
      if isDragging {
        var newX := DragCoordinate(clientX, dragOffset.x, screenWidth);
        var newY := DragCoordinate(clientY, dragOffset.y, screenHeight);
        snapZone := GetSnapZone(clientX, clientY, screenWidth, screenHeight);
        calls := calls + [Move(win.id, newX, newY)];
      }
      if isResizing {
        var newWidth := ResizedDimension(resizeStart.width, clientX - resizeStart.x, MinWidth);
        var newHeight := ResizedDimension(resizeStart.height, clientY - resizeStart.y, MinHeight);
        calls := calls + [Resize(win.id, newWidth, newHeight)];
      }
    }

    /**
     * The document `mouseup` listener. Releasing a drag over a snap zone
     * gives the window the zone's rectangle and marks it snapped, recording
     * its geometry first unless it was already snapped. Releasing a drag of
     * a snapped window elsewhere gives back the recorded size (the position
     * stays where the drag left it) and forgets the record. Every release
     * ends the drag and the resize and clears the zone.
     */
    method MouseUp(win: WindowState, screenWidth: real, screenHeight: real) returns (calls: seq<StoreCall>)
      modifies this
      ensures !old(isDragging) && !old(isResizing) ==> calls == [] && unchanged(this)
      ensures (old(isDragging) || old(isResizing)) ==> !isDragging && !isResizing && snapZone == None
      ensures old(isDragging) && old(snapZone).Some? ==>
        var r := GetSnapDimensions(old(snapZone), screenWidth, screenHeight).value;
        && calls == [Move(win.id, r.x, r.y), Resize(win.id, r.width, r.height)]
        && isSnapped
        && preSnapPosition == if old(isSnapped) then old(preSnapPosition) else Some(Bounds(win))
      ensures old(isDragging) && old(snapZone).None? && old(isSnapped) && old(preSnapPosition).Some? ==>
        && calls == [Resize(win.id, old(preSnapPosition).value.width, old(preSnapPosition).value.height)]
        && !isSnapped && preSnapPosition == None
      ensures !old(isDragging) || (old(snapZone).None? && !(old(isSnapped) && old(preSnapPosition).Some?)) ==>
        calls == [] && isSnapped == old(isSnapped) && preSnapPosition == old(preSnapPosition)
      ensures dragOffset == old(dragOffset) && resizeStart == old(resizeStart)
    {
      calls := [];
      if !(isDragging || isResizing) {
        return;
      }
      if isDragging && snapZone.Some? {
        var dims := GetSnapDimensions(snapZone, screenWidth, screenHeight);
        if dims.Some? {
          if !isSnapped {
            preSnapPosition := Some(Bounds(win));
          }
          calls := [Move(win.id, dims.value.x, dims.value.y), Resize(win.id, dims.value.width, dims.value.height)];
          isSnapped := true;
        }
      } else if isDragging && isSnapped && preSnapPosition.Some? {
        calls := [Resize(win.id, preSnapPosition.value.width, preSnapPosition.value.height)];
        isSnapped := false;
        preSnapPosition := None;
      }
      isDragging := false;
      isResizing := false;
      snapZone := None;
    }

    /** `handleMaximize`: restore a maximized window, maximize any other; either way it is no longer snapped. */
    method ToggleMaximize(win: WindowState) returns (calls: seq<StoreCall>)
      modifies this`isSnapped
      ensures calls == if win.isMaximized then [Restore(win.id)] else [Maximize(win.id)]
      ensures !isSnapped
    {
      calls := if win.isMaximized then [Restore(win.id)] else [Maximize(win.id)];
      isSnapped := false;
    }

    /** `handleClose`: after the closing animation the window asks the store to close it, subject to its close handler. */
    method CloseButton(win: WindowState) returns (calls: seq<StoreCall>)
      ensures calls == [RequestClose(win.id)]
    {
      calls := [RequestClose(win.id)];
    }
  }
}

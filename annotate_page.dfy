/**
 * The panel annotation tool (frontend/app/annotate/page.tsx): the learner
 * drags a box over the current panel on the PDF page, saves it, and moves
 * through the list of panels that have no position yet. Coordinates are
 * integers and the canvas-to-PDF scale is 1. The canvas's on-screen origin,
 * the save request's outcome and the reloaded panel list are parameters.
 */
module AnnotatePage {
  import opened Common

  /** A drag from (startX, startY) to (endX, endY) in canvas coordinates. */
  datatype BoundingBox = BoundingBox(startX: int, startY: int, endX: int, endY: int)

  /** The canvas element's bounding rectangle on screen; `None` before it is mounted. */
  datatype Rect = Rect(left: int, top: int)

  /** The body posted to the position route. */
  datatype PositionBody = PositionBody(panelId: string, pageNumber: int, x: int, y: int, width: int, height: int)

  datatype SaveOutcome = SaveOk | SaveRejected | SaveThrew

  function Min(a: int, b: int): int { if a <= b then a else b }
  function Max(a: int, b: int): int { if a >= b then a else b }
  function Abs(a: int): nat { if a >= 0 then a else -a }

  /** The saved box: the top-left corner and the absolute extent of the drag. */
  function Normalize(b: BoundingBox, panelId: string, pageNumber: int): (p: PositionBody)
    ensures p.width >= 0 && p.height >= 0
    ensures p.x <= b.startX <= p.x + p.width && p.x <= b.endX <= p.x + p.width
    ensures p.y <= b.startY <= p.y + p.height && p.y <= b.endY <= p.y + p.height
    ensures p.x == b.startX || p.x == b.endX
    ensures p.y == b.startY || p.y == b.endY
    ensures p.pageNumber == pageNumber - 1 && p.panelId == panelId
  {
    PositionBody(panelId, pageNumber - 1, Min(b.startX, b.endX), Min(b.startY, b.endY),
                 Abs(b.endX - b.startX), Abs(b.endY - b.startY))
  }

  /** Normalising ignores which corner the drag started from. */
  lemma NormalizeSymmetric(b: BoundingBox, panelId: string, pageNumber: int)
    ensures Normalize(BoundingBox(b.endX, b.endY, b.startX, b.startY), panelId, pageNumber) ==
      Normalize(b, panelId, pageNumber)
  {
  }

  class AnnotationTool {
    /** The ids of the panels still to be annotated, in list order. */
    var panels: seq<string>
    var currentPanelIndex: nat
    var numPages: int
    var pageNumber: int
    var boundingBox: Option<BoundingBox>
    var isDrawing: bool

    /** The index points at a panel whenever there are panels. */
    ghost predicate Valid()
      reads this
    {
      panels == [] || currentPanelIndex < |panels|
    }

    constructor ()
      ensures panels == [] && currentPanelIndex == 0 && numPages == 0 && pageNumber == 1
      ensures boundingBox.None? && !isDrawing
      ensures Valid()
    {
      panels := [];
      currentPanelIndex := 0;
      numPages := 0;
      pageNumber := 1;
      boundingBox := None;
      isDrawing := false;
    }

    /** `handleMouseDown`: a zero-size box at the cursor, and drawing starts. */
    method MouseDown(clientX: int, clientY: int, canvas: Option<Rect>)
      modifies this
      ensures canvas.None? ==> boundingBox == old(boundingBox) && isDrawing == old(isDrawing)
      ensures canvas.Some? ==>
        var x := clientX - canvas.value.left;
        var y := clientY - canvas.value.top;
        isDrawing && boundingBox == Some(BoundingBox(x, y, x, y))
      ensures panels == old(panels) && currentPanelIndex == old(currentPanelIndex)
      ensures numPages == old(numPages) && pageNumber == old(pageNumber)
    {
      if canvas.None? {
        return;
      }
      var x := clientX - canvas.value.left;
      var y := clientY - canvas.value.top;
      isDrawing := true;
      boundingBox := Some(BoundingBox(x, y, x, y));
    }

    /** `handleMouseMove`: while drawing, only the box's end corner follows the cursor. */
    method MouseMove(clientX: int, clientY: int, canvas: Option<Rect>)
      modifies this
      ensures isDrawing && old(boundingBox).Some? && canvas.Some? ==>
        boundingBox == Some(old(boundingBox).value.(endX := clientX - canvas.value.left, endY := clientY - canvas.value.top))
      ensures !(isDrawing && old(boundingBox).Some? && canvas.Some?) ==> boundingBox == old(boundingBox)
      ensures isDrawing == old(isDrawing)
      ensures panels == old(panels) && currentPanelIndex == old(currentPanelIndex)
      ensures numPages == old(numPages) && pageNumber == old(pageNumber)
    {
      if !isDrawing || boundingBox.None? || canvas.None? {
        return;
      }
      var x := clientX - canvas.value.left;
      var y := clientY - canvas.value.top;
      boundingBox := Some(boundingBox.value.(endX := x, endY := y));
    }

    /** `handleMouseUp` (also on mouse leave): drawing stops and the box stays. */
    method MouseUp()
      modifies this
      ensures !isDrawing
      ensures boundingBox == old(boundingBox)
      ensures panels == old(panels) && currentPanelIndex == old(currentPanelIndex)
      ensures numPages == old(numPages) && pageNumber == old(pageNumber)
    {
      isDrawing := false;
    }

    /**
     * `savePosition`: without a box or a current panel nothing happens.
     * Otherwise the normalised box is posted with the zero-based page; on
     * success the box is cleared and the index advances, or after the last
     * panel the list is reloaded (kept when reloading fails) and the index
     * reset to 0. A failed save changes nothing.
     */
    method SavePosition(outcome: SaveOutcome, reloaded: Option<seq<string>>) returns (posted: Option<PositionBody>)
      modifies this
      ensures old(boundingBox).None? || old(currentPanelIndex) >= |old(panels)| ==>
        posted.None? && panels == old(panels) && currentPanelIndex == old(currentPanelIndex)
        && boundingBox == old(boundingBox)
      ensures old(boundingBox).Some? && old(currentPanelIndex) < |old(panels)| ==>
        posted == Some(Normalize(old(boundingBox).value, old(panels)[old(currentPanelIndex)], old(pageNumber)))
      ensures old(boundingBox).Some? && old(currentPanelIndex) < |old(panels)| && outcome != SaveOk ==>
        panels == old(panels) && currentPanelIndex == old(currentPanelIndex) && boundingBox == old(boundingBox)
      ensures old(boundingBox).Some? && old(currentPanelIndex) < |old(panels)| && outcome == SaveOk ==>
        && boundingBox.None?
        && (old(currentPanelIndex) + 1 < |old(panels)| ==>
              panels == old(panels) && currentPanelIndex == old(currentPanelIndex) + 1)
        && (old(currentPanelIndex) + 1 >= |old(panels)| ==>
              panels == (if reloaded.Some? then reloaded.value else old(panels)) && currentPanelIndex == 0)
      ensures numPages == old(numPages) && pageNumber == old(pageNumber) && isDrawing == old(isDrawing)
      ensures old(Valid()) ==> Valid()
    {
      if boundingBox.None? || currentPanelIndex >= |panels| {
        return None;
      }
      var body := Normalize(boundingBox.value, panels[currentPanelIndex], pageNumber);
      posted := Some(body);
      if outcome == SaveOk {
        boundingBox := None;
        if currentPanelIndex < |panels| - 1 {
          currentPanelIndex := currentPanelIndex + 1;
        } else {
          if reloaded.Some? {
            panels := reloaded.value;
          }
          currentPanelIndex := 0;
        }
      }
    }

    /** `skipPanel`: the box is cleared and the index advances, but never past the last panel. */
    method SkipPanel()
      modifies this
      ensures boundingBox.None?
      ensures old(currentPanelIndex) + 1 < |panels| ==> currentPanelIndex == old(currentPanelIndex) + 1
      ensures old(currentPanelIndex) + 1 >= |panels| ==> currentPanelIndex == old(currentPanelIndex)
      ensures panels == old(panels) && isDrawing == old(isDrawing)
      ensures numPages == old(numPages) && pageNumber == old(pageNumber)
      ensures old(Valid()) ==> Valid()
    {
      boundingBox := None;
      if currentPanelIndex < |panels| - 1 {
        currentPanelIndex := currentPanelIndex + 1;
      }
    }

    /** The previous-page button: one page back, never below page 1. */
    method PreviousPage()
      modifies this
      ensures pageNumber == Max(old(pageNumber) - 1, 1)
      ensures pageNumber >= 1
      ensures 1 <= old(pageNumber) <= numPages ==> 1 <= pageNumber <= numPages
      ensures numPages == old(numPages) && panels == old(panels) && currentPanelIndex == old(currentPanelIndex)
      ensures boundingBox == old(boundingBox) && isDrawing == old(isDrawing)
    {
      pageNumber := Max(pageNumber - 1, 1);
    }

    /** The next-page button: one page on, never beyond the last page. */
    method NextPage()
      modifies this
      ensures pageNumber == Min(old(pageNumber) + 1, numPages)
      ensures pageNumber <= numPages
      ensures 1 <= old(pageNumber) <= numPages ==> 1 <= pageNumber <= numPages
      ensures numPages == old(numPages) && panels == old(panels) && currentPanelIndex == old(currentPanelIndex)
      ensures boundingBox == old(boundingBox) && isDrawing == old(isDrawing)
    {
      pageNumber := Min(pageNumber + 1, numPages);
    }
  }
}

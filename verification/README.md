# ARDemo lip overlay: a verified model

ARDemo's view controller tracks a face in the front-camera feed and draws a
translucent lip shape over the preview. Inside the camera and UI code sits a small pure core,
and this project models it in Dafny:

- **Coordinate mapping** (`Geometry`). `Convert` takes a landmark that is
  normalized inside the face bounding box. It composes the landmark into
  image-normalized space, flips the vertical axis (the detector's origin is
  bottom-left, UIKit's is top-left) and scales by the preview's width and
  height. `LandmarkImagePoint` is the controller's second helper for the same
  job, which takes integer sizes. Arithmetic is over exact `real`s. The
  preview's bounds are a `Viewport` parameter.
- **Lip contour and path** (`LipContour`). The outer-lip contour is split
  at `half = count / 2`. The top arc holds points `0...half` and the bottom
  arc holds `half..<count`, so the midpoint is in both. `CreateLipPath` is
  the nested helper: it maps the points, moves to the first, adds a line to
  each of the rest, and closes. A path is a sequence of move, line and close
  elements. `Subpaths` reads a path back as closed polygons, and `Render`
  is its inverse. Statements about the overlay's shape go through them.
- **Overlay and selection state** (`Overlay`). The state holds the selected
  menu entry and the shape of the overlay layer in the layer tree, if any.
  There are two events:
  - a tap on a menu item;
  - the completion of a landmark request, which carries its face
    observations, or `None` when there were none.
  `DrawLips`, `OnDetection` and `SelectItem` model `drawLips`, the
  completion handler in `captureOutput`, and `didSelectItemAt`.

Two behaviours of the code are easy to miss:

- The midpoint of the contour is in both arcs. A 20-point contour gives
  arcs of 11 and 10 points, not two of 10, and the two polygons hold
  `count + 1` vertices in all.
- When the gate in `drawLips` fails, the function returns without touching
  the overlay. The gate fails when the selected entry is not Lips, when the
  face has no landmarks or no outer-lip contour, or when the contour has 10
  points or fewer. A stale overlay therefore stays attached. After a switch
  from Lips to another entry, the last lip overlay stays on screen until a
  frame with no face arrives (`SwitchAwayFromLipsKeepsStaleOverlay`).

## Model

| member | source | states |
|---|---|---|
| Geometry.Convert | ARDemo/ViewController.swift:171-192 | Dividing the screen x by the viewport width gives back the landmark's image-normalized x. One minus the screen y over the viewport height gives back its image-normalized y, which is the flip. Its other properties are stated by `ConvertIsAffine`, `Unconvert`, `ConvertRoundTrip` and the order lemmas. |
| Geometry.LandmarkImagePoint | ARDemo/ViewController.swift:129-135 | The integer-sized helper gives the same point as `convert` on a viewport of that width and height. |
| Geometry.ConvertIsAffine | ARDemo/ViewController.swift:177-189 | The mapping is affine in the landmark. The x scale is box width × viewport width. The y scale is minus box height × viewport height, which is the flip. |
| Geometry.Unconvert | ARDemo/ViewController.swift:177-191 | When no factor is zero, every screen point, inside the viewport or not, is the image of some landmark. There is no clamping. |
| Geometry.ConvertRoundTrip | ARDemo/ViewController.swift:177-191 | Mapping a landmark to the screen and back recovers it when no factor is zero. |
| Geometry.ConvertInjective | ARDemo/ViewController.swift:177-191 | When no factor is zero, two landmarks land on the same screen point exactly when they are equal. |
| Geometry.ConvertPreservesHorizontalOrder | ARDemo/ViewController.swift:177-188 | With a positive box and viewport, a larger landmark x gives a larger screen x, and conversely. |
| Geometry.ConvertReversesVerticalOrder | ARDemo/ViewController.swift:178-189 | With a positive box and viewport, a larger landmark y gives a smaller screen y, and conversely. |
| Geometry.ConvertCentredBoxCorner | ARDemo/ViewController.swift:171-192 | Box (0.25, 0.25, 0.5, 0.5) on a 1000 × 1000 viewport sends (0, 0) to (250, 750). |
| Geometry.ConvertDoesNotClamp | ARDemo/ViewController.swift:177-191 | On a positive viewport, and on each axis separately, a landmark lands inside the viewport exactly when its image-normalized position is inside the unit interval. Nothing outside the image is pulled in. |
| LipContour.CreateLipPath | ARDemo/ViewController.swift:100-110 | On n ≥ 1 points the path is a move to the first mapped point, n − 1 lines to the others in order, then a close. On no points it is empty. |
| LipContour.ClosedPolylineIsOneSubpath | ARDemo/ViewController.swift:100-110 | A closed polyline through at least one point reads back as exactly one closed polygon with those points. |
| LipContour.SubpathsOfRender | ARDemo/ViewController.swift:115-118 | Appending closed polygons into one path keeps each as its own subpath: reading the path back gives the polygons in order. |
| LipContour.Subpaths | ARDemo/ViewController.swift:115-118 | Whatever a path reads back as, writing those polygons out again gives the same path, and every polygon is non-empty. |
| LipContour.SplitOuterLips | ARDemo/ViewController.swift:95-97 | The top arc has `count/2 + 1` points and the bottom arc `count − count/2`. The top ends where the bottom starts. The top followed by the bottom without its first point is the whole contour. |
| LipContour.SplitPointCount | ARDemo/ViewController.swift:91-97 | Past the gate (more than 10 points) both arcs have at least 6 points and together `count + 1`. |
| LipContour.SplitTwentyPoints | ARDemo/ViewController.swift:95-97 | A 20-point contour splits into arcs of 11 and 10 points. |
| LipContour.LipShape | ARDemo/ViewController.swift:112-118 | The combined path has `count + 3` elements. It starts with a move to the first mapped point. The top arc closes at index `count/2 + 1`, the bottom arc starts with a move to the mapped midpoint, and the path ends with a close. Its polygons are stated by `LipShapeSubpaths`. |
| LipContour.LipShapeSubpaths | ARDemo/ViewController.swift:112-118 | The combined path is exactly two closed polygons, the mapped top arc and then the mapped bottom arc. |
| LipContour.MappedHalvesJoin | ARDemo/ViewController.swift:95-113 | The two mapped arcs hold `count + 1` vertices. With the shared midpoint taken once, they are the whole contour mapped in order. |
| Overlay.DrawLips | ARDemo/ViewController.swift:85-126 | If the gate fails the state is unchanged. Otherwise an overlay is attached whose path reads back as the two mapped arcs, top first. A newly attached overlay implies the gate held. The selection never changes. |
| Overlay.DrawLipsAttachesLipOverlay | ARDemo/ViewController.swift:112-125 | Every overlay that `drawLips` attaches is two closed polygons of at least 6 points each, sharing the midpoint vertex. |
| Overlay.DetachOverlay | ARDemo/ViewController.swift:203 | After removing the layer from its superlayer no overlay is attached, and the selection is unchanged. |
| Overlay.OnDetection | ARDemo/ViewController.swift:201-209 | No observations, or an empty list of them, leaves no overlay attached. Otherwise the lips of the first face are drawn. The selection is unchanged. |
| Overlay.OnlyFirstFaceUsed | ARDemo/ViewController.swift:202-208 | Faces after the first have no effect on the outcome. |
| Overlay.SelectItem | ARDemo/ViewController.swift:228-232 | A tap selects that menu entry and leaves the overlay as it was. |
| Overlay.Step | ARDemo/ViewController.swift:201-232 | A tap sets the selection to that entry and leaves the overlay. A frame leaves the selection. Only a frame can change the overlay. |
| Overlay.Run | ARDemo/ViewController.swift:201-232 | Over any sequence of events without a tap the selection is unchanged. With at least one tap it ends on a menu entry, and when the last event is a tap, on the entry that tap chose. |
| Overlay.StepPreservesConsistent | ARDemo/ViewController.swift:201-232 | Each event keeps the selection empty or a menu entry, and keeps any attached overlay a lip overlay. |
| Overlay.RunPreservesConsistent | ARDemo/ViewController.swift:15-22 | Every state reached by any sequence of taps and frames is consistent. There is at most one overlay, and it is always a two-polygon lip shape. |
| Overlay.DrawLipsIdempotent | ARDemo/ViewController.swift:120-125 | Drawing the same face twice leaves the same single overlay as drawing it once. |
| Overlay.FacelessFramesClearOverlay | ARDemo/ViewController.swift:202-205 | After any non-empty run of frames without a face, no overlay is attached and the selection is unchanged. |
| Overlay.NoNewOverlayUnlessLips | ARDemo/ViewController.swift:86-88 | While an entry other than Lips is selected, frames never attach a new overlay. The old one stays, or none is attached. |
| Overlay.SwitchAwayFromLipsKeepsStaleOverlay | ARDemo/ViewController.swift:86-88 | Lips draws on frame N. A tap then selects another entry. Frame N+1 with the same face leaves frame N's overlay attached. |

## Left out

- Camera session setup, the preview layer, and the permission and alert flow (ViewController.swift:44-69, 137-168). These are device I/O and UI.
- The landmark detector and the sequence request handler's tracking state (ViewController.swift:201-212). These are foreign calls. A request's output enters the model only as the faces a `Detect` event carries. A `perform` that throws without calling its completion is no event at all.
- The hops between the video queue and the main queue (ViewController.swift:65, 203, 207). Events are applied one at a time, in order.
- Collection-view layout, cell sizing and menu registration (ViewController.swift:25-34, 71-83, 217-236). This is UI plumbing. Only the option list and the selection handler are modelled.
- Floating-point rounding of CGFloat. Coordinates are exact reals.
- The fill colour and alpha of the overlay layer (ViewController.swift:124). These do not change the shape.
- The preview's bounds are the `Viewport` parameter rather than read from the layer.
- The `print` of the selected entry (ViewController.swift:229).

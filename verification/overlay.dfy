/** The controller's overlay and selection state, and the events that change
    it: a tap on a menu item, and the completion of a face-landmark request
    for one camera frame.

    The controller owns one overlay layer slot; `attached` is the shape of
    the layer currently in the view's layer tree, if any. Because the slot
    holds at most one value, at most one overlay is ever attached. Thread
    hops are left out: events are applied one after another. */
module Overlay {
  import opened Wrappers
  import opened Geometry
  import opened LipContour

  /** The menu entries, in display order. */
  const Options: seq<string> := ["Lips", "Eyelashes", "Eyelid", "Chin", "Cheek"]

  /** The only entry wired to a drawing routine. */
  const Lips: string := "Lips"

  /** A contour needs more than this many points to be drawn. */
  const MinContourPoints: nat := 10

  /** The landmark regions of a face; only the outer-lip contour is used.
      Its points are normalized inside the face's bounding box. */
  datatype Landmarks = Landmarks(outerLips: Option<seq<Point>>)

  /** One detected face. */
  datatype Face = Face(boundingBox: Rect, landmarks: Option<Landmarks>)

  datatype State = State(selected: string, attached: Option<Path>)

  /** Nothing selected yet, and the fresh layer is not in the layer tree. */
  const Initial: State := State("", None)

  /** `Select(i)` is a tap on menu item `i`. `Detect(results)` is a finished
      landmark request: `None` when it produced no face observations at all,
      otherwise the faces it found. */
  datatype Event = Select(item: int) | Detect(results: Option<seq<Face>>)

  /** A tap can only hit one of the menu's items. */
  predicate ValidEvent(e: Event)
  {
    e.Select? ==> 0 <= e.item < |Options|
  }

  predicate ValidEvents(es: seq<Event>)
  {
    forall i :: 0 <= i < |es| ==> ValidEvent(es[i])
  }

  /** The outer-lip contour of a face, when the face has landmarks and the
      landmarks have that region. */
  function OuterLips(f: Face): Option<seq<Point>>
  {
    match f.landmarks
    case None => None
    case Some(l) => l.outerLips
  }

  /** Lips are selected, the contour is present, and it is long enough. */
  predicate LipsGate(selected: string, f: Face)
  {
    selected == Lips && OuterLips(f).Some? && |OuterLips(f).value| > MinContourPoints
  }

  /** The overlays the controller can attach: two closed polygons of at
      least six points each, the end of the first being the start of the
      second (the shared contour midpoint). */
  predicate LipOverlay(shape: Path)
  {
    match Subpaths(shape)
    case None => false
    case Some(polys) =>
      |polys| == 2 && |polys[0]| >= 6 && |polys[1]| >= 6
      && polys[0][|polys[0]| - 1] == polys[1][0]
  }

  /** Draws the lip overlay for `f` on viewport `v`. When the gate fails the
      state is left as it is, including a stale overlay. Otherwise the old
      layer is detached and a fresh one carrying both lip polygons, top arc
      first, is attached. */
  function DrawLips(s: State, f: Face, v: Viewport): (r: State)
    ensures r.selected == s.selected
    ensures !LipsGate(s.selected, f) ==> r == s
    ensures LipsGate(s.selected, f) ==>
              var halves := SplitOuterLips(OuterLips(f).value);
              r.attached.Some?
              && Subpaths(r.attached.value)
                 == Some([ConvertAll(halves.top, f.boundingBox, v),
                          ConvertAll(halves.bottom, f.boundingBox, v)])
    ensures r.attached.Some? && r.attached != s.attached ==> LipsGate(s.selected, f)
  {
    if !LipsGate(s.selected, f) then s
    else
      var pts := OuterLips(f).value;
      LipShapeSubpaths(pts, f.boundingBox, v);
      s.(attached := Some(LipShape(pts, f.boundingBox, v)))
  }

  /** Removes the overlay layer from the layer tree. */
  function DetachOverlay(s: State): (r: State)
    ensures r.attached.None?
    ensures r.selected == s.selected
  {
    s.(attached := None)
  }

  /** The completion of one landmark request: no face observations, or an
      empty list of them, detaches the overlay; otherwise the lips of the
      first face are drawn and the other faces are ignored. */
  function OnDetection(s: State, results: Option<seq<Face>>, v: Viewport): (r: State)
    ensures r.selected == s.selected
    ensures results.None? || |results.value| == 0 ==> r.attached.None?
    ensures results.Some? && |results.value| > 0 ==> r == DrawLips(s, results.value[0], v)
  {
    match results
    case None => DetachOverlay(s)
    case Some(faces) => if |faces| == 0 then DetachOverlay(s) else DrawLips(s, faces[0], v)
  }

  /** A tap on menu item `i` selects that entry and touches nothing else. */
  function SelectItem(s: State, i: int): (r: State)
    requires 0 <= i < |Options|
    ensures r.selected == Options[i] && r.selected in Options
    ensures r.attached == s.attached
  {
    State(Options[i], s.attached)
  }

  /** One event: a tap changes only the selection, a frame never changes it. */
  function Step(s: State, e: Event, v: Viewport): (r: State)
    requires ValidEvent(e)
    ensures e.Select? ==> r.selected == Options[e.item] && r.attached == s.attached
    ensures e.Detect? ==> r.selected == s.selected
    ensures r.attached != s.attached ==> e.Detect?
  {
    match e
    case Select(i) => SelectItem(s, i)
    case Detect(results) => OnDetection(s, results, v)
  }

  /** Applies the events in order. Without a tap the selection stays as it
      was; with one, it ends on a menu entry, and when the last event is a
      tap, on the entry that tap chose. */
  function Run(s: State, es: seq<Event>, v: Viewport): (r: State)
    requires ValidEvents(es)
    ensures AllDetections(es) ==> r.selected == s.selected
    ensures !AllDetections(es) ==> r.selected in Options
    ensures |es| > 0 && es[|es| - 1].Select? ==> r.selected == Options[es[|es| - 1].item]
    decreases |es|
  {
    if |es| == 0 then s
    else
      assert ValidEvents(es[1..]) by { TailValid(es); }
      assert AllDetections(es) ==> AllDetections(es[1..]) by { TailDetections(es); }
      assert es[0].Detect? && !AllDetections(es) ==> !AllDetections(es[1..]) by {
        if es[0].Detect? && !AllDetections(es) {
          var j :| 0 <= j < |es| && !es[j].Detect?;
          assert j > 0 && es[1..][j - 1] == es[j];
        }
      }
      assert |es| > 1 ==> es[1..][|es| - 2] == es[|es| - 1];
      Run(Step(s, es[0], v), es[1..], v)
  }

  /** Dropping the first event keeps the rest valid. */
  lemma TailValid(es: seq<Event>)
    requires |es| > 0 && ValidEvents(es)
    ensures ValidEvents(es[1..])
  {
    forall i | 0 <= i < |es| - 1
      ensures ValidEvent(es[1..][i])
    {
      assert es[1..][i] == es[i + 1];
    }
  }

  /** Dropping the first event of a frames-only run leaves a frames-only run. */
  lemma TailDetections(es: seq<Event>)
    requires |es| > 0
    ensures AllDetections(es) ==> AllDetections(es[1..])
  {
    if AllDetections(es) {
      forall i | 0 <= i < |es| - 1
        ensures es[1..][i].Detect?
      {
        assert es[1..][i] == es[i + 1];
      }
    }
  }

  /** What holds of every state the controller reaches: the selection is
      empty or a menu entry, and any attached overlay is a lip overlay. */
  predicate Consistent(s: State)
  {
    && (s.selected == "" || s.selected in Options)
    && (s.attached.Some? ==> LipOverlay(s.attached.value))
  }

  /** Every shape `DrawLips` attaches is a lip overlay. */
  lemma DrawLipsAttachesLipOverlay(s: State, f: Face, v: Viewport)
    requires LipsGate(s.selected, f)
    ensures DrawLips(s, f, v).attached.Some?
    ensures LipOverlay(DrawLips(s, f, v).attached.value)
  {
    var pts := OuterLips(f).value;
    var halves := SplitOuterLips(pts);
    SplitPointCount(pts);
    var top := ConvertAll(halves.top, f.boundingBox, v);
    var bottom := ConvertAll(halves.bottom, f.boundingBox, v);
    assert top[|top| - 1] == Convert(halves.top[|halves.top| - 1], f.boundingBox, v);
    assert bottom[0] == Convert(halves.bottom[0], f.boundingBox, v);
  }

  /** One event keeps a consistent state consistent. */
  lemma StepPreservesConsistent(s: State, e: Event, v: Viewport)
    requires Consistent(s) && ValidEvent(e)
    ensures Consistent(Step(s, e, v))
  {
    match e
    case Select(i) =>
    case Detect(results) =>
      if results.Some? && |results.value| > 0 && LipsGate(s.selected, results.value[0]) {
        DrawLipsAttachesLipOverlay(s, results.value[0], v);
      }
  }

  /** Every state reached from a consistent one is consistent; in
      particular every state reached from `Initial`. */
  lemma {:induction false} RunPreservesConsistent(s: State, es: seq<Event>, v: Viewport)
    requires Consistent(s) && ValidEvents(es)
    ensures Consistent(Run(s, es, v))
    decreases |es|
  {
    if |es| > 0 {
      StepPreservesConsistent(s, es[0], v);
      TailValid(es);
      RunPreservesConsistent(Step(s, es[0], v), es[1..], v);
    }
  }

  /** Drawing the same face twice leaves the same single overlay as drawing
      it once. */
  lemma DrawLipsIdempotent(s: State, f: Face, v: Viewport)
    ensures DrawLips(DrawLips(s, f, v), f, v) == DrawLips(s, f, v)
  {
  }

  /** Only the first face of a result matters. */
  lemma OnlyFirstFaceUsed(s: State, f: Face, others1: seq<Face>, others2: seq<Face>, v: Viewport)
    ensures OnDetection(s, Some([f] + others1), v) == OnDetection(s, Some([f] + others2), v)
  {
  }

  /** Frames whose request yields no face. */
  predicate AllFaceless(es: seq<Event>)
  {
    forall i :: 0 <= i < |es| ==> es[i].Detect? && (es[i].results.None? || |es[i].results.value| == 0)
  }

  /** A run of faceless frames leaves no overlay attached and the selection
      as it was. */
  lemma {:induction false} FacelessFramesClearOverlay(s: State, es: seq<Event>, v: Viewport)
    requires |es| > 0 && AllFaceless(es)
    ensures ValidEvents(es)
    ensures Run(s, es, v).attached.None?
    ensures Run(s, es, v).selected == s.selected
    decreases |es|
  {
    assert ValidEvent(es[0]);
    var s1 := Step(s, es[0], v);
    if |es| == 1 {
      assert es[1..] == [];
    } else {
      assert AllFaceless(es[1..]) by {
        forall i | 0 <= i < |es| - 1
          ensures es[1..][i].Detect?
          ensures es[1..][i].results.None? || |es[1..][i].results.value| == 0
        {
          assert es[1..][i] == es[i + 1];
        }
      }
      FacelessFramesClearOverlay(s1, es[1..], v);
    }
  }

  /** Frames only: no tap in between. */
  predicate AllDetections(es: seq<Event>)
  {
    forall i :: 0 <= i < |es| ==> es[i].Detect?
  }

  /** While an entry other than Lips is selected, no frame attaches a new
      overlay: the one attached before stays, or none is attached. */
  lemma {:induction false} NoNewOverlayUnlessLips(s: State, es: seq<Event>, v: Viewport)
    requires s.selected != Lips && AllDetections(es)
    ensures ValidEvents(es)
    ensures Run(s, es, v).attached == s.attached || Run(s, es, v).attached.None?
    decreases |es|
  {
    if |es| > 0 {
      assert ValidEvent(es[0]);
      var s1 := Step(s, es[0], v);
      assert s1.attached == s.attached || s1.attached.None?;
      TailDetections(es);
      NoNewOverlayUnlessLips(s1, es[1..], v);
    }
  }

  /** Switching from Lips to another entry between two frames that both see
      the same lips: the second frame draws nothing new, and the overlay of
      the first frame stays attached. */
  lemma SwitchAwayFromLipsKeepsStaleOverlay(s: State, f: Face, i: int, v: Viewport)
    requires s.selected == Lips && LipsGate(Lips, f)
    requires 0 <= i < |Options| && Options[i] != Lips
    ensures var frameN := Step(s, Detect(Some([f])), v);
            var tapped := Step(frameN, Select(i), v);
            var frameN1 := Step(tapped, Detect(Some([f])), v);
            frameN.attached.Some? && frameN1.attached == frameN.attached
  {
    var frameN := Step(s, Detect(Some([f])), v);
    DrawLipsAttachesLipOverlay(s, f, v);
    var tapped := Step(frameN, Select(i), v);
    assert tapped.selected != Lips;
  }
}

/** The square crop of an image: panning and zooming in a preview of fixed size,
    and the part of the image that is cut out.  Real arithmetic throughout. */
module ImageCrop {
  import opened Common

  datatype Size = Size(width: real, height: real)

  datatype Point = Point(x: real, y: real)

  datatype Square = Square(x: real, y: real, side: real)

  predicate Loaded(size: Size) {
    size.width > 0.0 && size.height > 0.0
  }

  function Max(a: real, b: real): real {
    if a < b then b else a
  }

  function Min(a: real, b: real): real {
    if a < b then a else b
  }

  // The scale at which the image just covers the preview.
  function BaseScale(preview: real, size: Size): real {
    if size.width == 0.0 || size.height == 0.0 then 1.0 else Max(preview / size.width, preview / size.height)
  }

  // How far the image may move along one side before a gap opens.
  function Slack(preview: real, side: real, scale: real): real {
    Max(0.0, (side * scale - preview) / 2.0)
  }

  function Clamp(bound: real, value: real): real {
    Max(-bound, Min(bound, value))
  }

  function Scale(preview: real, size: Size, zoom: real): real {
    BaseScale(preview, size) * zoom
  }

  function Bounds(preview: real, size: Size, scale: real): Point {
    Point(Slack(preview, size.width, scale), Slack(preview, size.height, scale))
  }

  function ClampTo(bounds: Point, next: Point): Point {
    Point(Clamp(bounds.x, next.x), Clamp(bounds.y, next.y))
  }

  function ClampPan(preview: real, size: Size, zoom: real, next: Point): Point {
    ClampTo(Bounds(preview, size, Scale(preview, size, zoom)), next)
  }

  predicate Within(bounds: Point, pan: Point) {
    -bounds.x <= pan.x <= bounds.x && -bounds.y <= pan.y <= bounds.y
  }

  predicate Covers(preview: real, size: Size, zoom: real, pan: Point) {
    Within(Bounds(preview, size, Scale(preview, size, zoom)), pan)
  }

  // Where the cut begins along one side of the image.
  function CutStart(preview: real, side: real, scale: real, pan: real): real
    requires scale > 0.0
  {
    (side - preview / scale) / 2.0 - pan / scale
  }

  function SquareAt(preview: real, size: Size, scale: real, pan: Point): Square
    requires scale > 0.0
  {
    Square(CutStart(preview, size.width, scale, pan.x), CutStart(preview, size.height, scale, pan.y), preview / scale)
  }

  // The part of the image that cropping cuts out.
  function CropSquare(preview: real, size: Size, zoom: real, pan: Point): Square
    requires preview > 0.0 && Loaded(size) && zoom >= 1.0
  {
    ScaleIsPositive(preview, size, zoom);
    SquareAt(preview, size, Scale(preview, size, zoom), pan)
  }

  predicate InsideSide(start: real, cut: real, side: real) {
    0.0 <= start && start + cut <= side
  }

  predicate Inside(square: Square, size: Size) {
    0.0 < square.side && InsideSide(square.x, square.side, size.width) && InsideSide(square.y, square.side, size.height)
  }

  // --- geometry ----------------------------------------------------------------------

  lemma MulMono(a: real, b: real, c: real)
    requires a <= b && c >= 0.0
    ensures a * c <= b * c
  {
  }

  lemma DivMul(a: real, b: real)
    requires b > 0.0
    ensures (a / b) * b == a
    ensures a > 0.0 ==> a / b > 0.0
  {
  }

  // No division by zero, and the scaled image is at least as large as the preview.
  lemma ScaleIsPositive(preview: real, size: Size, zoom: real)
    requires preview > 0.0 && Loaded(size) && zoom >= 1.0
    ensures
      var scale := Scale(preview, size, zoom);
      scale > 0.0 && size.width * scale >= preview && size.height * scale >= preview
  {
    var base := BaseScale(preview, size);
    DivMul(preview, size.width);
    DivMul(preview, size.height);
    MulMono(1.0, zoom, base);
    assert base * zoom >= base;
    MulMono(preview / size.width, base * zoom, size.width);
    MulMono(preview / size.height, base * zoom, size.height);
  }

  lemma SignOfProduct(a: real, scale: real)
    requires scale > 0.0
    ensures a >= 0.0 <==> a * scale >= 0.0
  {
  }

  // Along one side: the cut lies within the image exactly when the pan is within the slack.
  lemma CutWithinSide(preview: real, side: real, scale: real, pan: real)
    requires scale > 0.0 && preview > 0.0 && side * scale >= preview
    ensures InsideSide(CutStart(preview, side, scale, pan), preview / scale, side)
      <==> -Slack(preview, side, scale) <= pan <= Slack(preview, side, scale)
  {
    var cut, start := preview / scale, CutStart(preview, side, scale, pan);
    var slack, rest := (side * scale - preview) / 2.0, side - cut - start;
    DivMul(preview, scale);
    DivMul(pan, scale);
    assert start * scale == slack - pan && rest * scale == slack + pan;
    SignOfProduct(start, scale);
    SignOfProduct(rest, scale);
  }

  lemma SquareInsideIffWithin(preview: real, size: Size, scale: real, pan: Point)
    requires scale > 0.0 && preview > 0.0 && size.width * scale >= preview && size.height * scale >= preview
    ensures Inside(SquareAt(preview, size, scale, pan), size) <==> Within(Bounds(preview, size, scale), pan)
  {
    DivMul(preview, scale);
    CutWithinSide(preview, size.width, scale, pan.x);
    CutWithinSide(preview, size.height, scale, pan.y);
  }

  // The crop square lies in the image exactly when the image covers the preview.
  lemma InsideIffCovers(preview: real, size: Size, zoom: real, pan: Point)
    requires preview > 0.0 && Loaded(size) && zoom >= 1.0
    ensures Inside(CropSquare(preview, size, zoom, pan), size) <==> Covers(preview, size, zoom, pan)
  {
    ScaleIsPositive(preview, size, zoom);
    SquareInsideIffWithin(preview, size, Scale(preview, size, zoom), pan);
  }

  lemma ClampToWithin(bounds: Point, next: Point)
    requires bounds.x >= 0.0 && bounds.y >= 0.0
    ensures Within(bounds, ClampTo(bounds, next))
    ensures Within(bounds, next) ==> ClampTo(bounds, next) == next
  {
  }

  // Clamping leaves no gap, and moves only what would leave one.
  lemma ClampedCovers(preview: real, size: Size, zoom: real, next: Point)
    ensures Covers(preview, size, zoom, ClampPan(preview, size, zoom, next))
    ensures Covers(preview, size, zoom, next) ==> ClampPan(preview, size, zoom, next) == next
  {
    ClampToWithin(Bounds(preview, size, Scale(preview, size, zoom)), next);
  }

  // The center of any image covers the preview.
  lemma CenterCovers(preview: real, size: Size, zoom: real)
    ensures Covers(preview, size, zoom, Point(0.0, 0.0))
  {
    ClampToWithin(Bounds(preview, size, Scale(preview, size, zoom)), Point(0.0, 0.0));
  }

  // --- the dialog ---------------------------------------------------------------------

  // image is the natural size of the picture shown, imageSize the size known
  // from the last load event; between opening a file and its load event the
  // two may differ.
  class CropDialog {
    const preview: real
    var image: Size
    var imageSize: Size
    var pan: Point
    var zoom: real

    ghost predicate Valid()
      reads this
    {
      preview > 0.0 && Loaded(image) && zoom >= 1.0
    }

    ghost function State(): Dialog
      reads this
    {
      Dialog(image, imageSize, pan, zoom)
    }

    constructor (preview: real, image: Size)
      requires preview > 0.0 && Loaded(image)
      ensures Valid() && this.preview == preview && State() == Opened(image)
    {
      this.preview, this.image, imageSize := preview, image, Size(0.0, 0.0);
      pan, zoom := Point(0.0, 0.0), 1.0;
    }

    // A new file: the view is reset, the size known is that of the file before.
    method OpenFile(next: Size)
      requires Valid() && Loaded(next)
      modifies this
      ensures Valid() && State() == Dialog(next, old(imageSize), Point(0.0, 0.0), 1.0)
      ensures Possible(Open(next)) && State() == After(preview, old(State()), Open(next))
      ensures Covers(preview, image, zoom, pan)
    {
      CenterCovers(preview, next, 1.0);
      image, pan, zoom := next, Point(0.0, 0.0), 1.0;
    }

    // The load event; the pan is not clamped again.
    method OnLoad()
      requires Valid()
      modifies this`imageSize
      ensures Valid() && imageSize == image
      ensures Possible(Load) && State() == After(preview, old(State()), Load)
    {
      imageSize := image;
    }

    // Moves by the pointer, and back as far as a gap would open at the known size.
    method Drag(dx: real, dy: real)
      requires Valid()
      modifies this`pan
      ensures Valid() && Covers(preview, imageSize, zoom, pan)
      ensures pan == ClampPan(preview, imageSize, zoom, Point(old(pan).x + dx, old(pan).y + dy))
      ensures Possible(DragBy(dx, dy)) && State() == After(preview, old(State()), DragBy(dx, dy))
      ensures Covers(preview, imageSize, zoom, Point(old(pan).x + dx, old(pan).y + dy)) ==> pan == Point(old(pan).x + dx, old(pan).y + dy)
    {
      ClampedCovers(preview, imageSize, zoom, Point(pan.x + dx, pan.y + dy));
      pan := ClampPan(preview, imageSize, zoom, Point(pan.x + dx, pan.y + dy));
    }

    method ChangeZoom(next: real)
      requires Valid() && next >= 1.0
      modifies this`pan, this`zoom
      ensures Valid() && zoom == next && Covers(preview, imageSize, next, pan)
      ensures pan == ClampPan(preview, imageSize, next, old(pan))
      ensures Possible(ZoomTo(next)) && State() == After(preview, old(State()), ZoomTo(next))
      ensures Covers(preview, imageSize, next, old(pan)) ==> pan == old(pan)
    {
      ClampedCovers(preview, imageSize, next, pan);
      zoom := next;
      pan := ClampPan(preview, imageSize, next, pan);
    }

    // Nothing before a size is known.  The square is inside the picture shown
    // exactly when the pan is within the bounds of that picture.
    method CropImage() returns (square: Option<Square>)
      requires Valid()
      ensures square.Some? <==> imageSize.width != 0.0
      ensures square.Some? ==> square.value == CropSquare(preview, image, zoom, pan)
      ensures square.Some? ==> (Inside(square.value, image) <==> Covers(preview, image, zoom, pan))
    {
      if imageSize.width == 0.0 {
        return None;
      }
      InsideIffCovers(preview, image, zoom, pan);
      return Some(CropSquare(preview, image, zoom, pan));
    }
  }

  // --- whole sequences ---------------------------------------------------------------

  datatype Dialog = Dialog(image: Size, imageSize: Size, pan: Point, zoom: real)

  datatype Event = Open(next: Size) | Load | DragBy(dx: real, dy: real) | ZoomTo(zoom: real)

  // The dialog with its first picture.
  function Opened(image: Size): Dialog {
    Dialog(image, Size(0.0, 0.0), Point(0.0, 0.0), 1.0)
  }

  function After(preview: real, d: Dialog, e: Event): Dialog {
    match e
    case Open(next) => d.(image := next, pan := Point(0.0, 0.0), zoom := 1.0)
    case Load => d.(imageSize := d.image)
    case DragBy(dx, dy) => d.(pan := ClampPan(preview, d.imageSize, d.zoom, Point(d.pan.x + dx, d.pan.y + dy)))
    case ZoomTo(zoom) => d.(zoom := zoom, pan := ClampPan(preview, d.imageSize, zoom, d.pan))
  }

  function Play(preview: real, d: Dialog, events: seq<Event>): Dialog {
    if events == [] then d else After(preview, Play(preview, d, events[..|events| - 1]), events[|events| - 1])
  }

  predicate Possible(e: Event) {
    match e
    case Open(next) => Loaded(next)
    case ZoomTo(zoom) => zoom >= 1.0
    case _ => true
  }

  predicate AllPossible(events: seq<Event>) {
    forall i | 0 <= i < |events| :: Possible(events[i])
  }

  // Since its last picture was opened, the dialog has seen no load event, a load
  // event but no drag or zoom after it, or both.
  datatype Phase = Waiting | Shown | Handled

  function PhaseAfter(phase: Phase, e: Event): Phase {
    match e
    case Open(_) => Waiting
    case Load => if phase == Waiting then Shown else phase
    case _ => if phase == Waiting then Waiting else Handled
  }

  function PhaseOf(events: seq<Event>): Phase {
    if events == [] then Waiting else PhaseAfter(PhaseOf(events[..|events| - 1]), events[|events| - 1])
  }

  // The events up to the load event that ended the last wait.
  function ToLoad(events: seq<Event>): (front: seq<Event>)
    requires PhaseOf(events) != Waiting
    ensures front <= events && front != [] && front[|front| - 1] == Load && PhaseOf(front[..|front| - 1]) == Waiting
  {
    var front := events[..|events| - 1];
    if PhaseOf(front) == Waiting then events else ToLoad(front)
  }

  // The i-th event loaded the picture that is shown after all of them.
  ghost predicate LoadsLast(events: seq<Event>, i: nat) {
    i < |events| && events[i] == Load && forall j | i < j < |events| :: !events[j].Open?
  }

  ghost predicate HandledAfter(events: seq<Event>, i: nat) {
    exists j :: i < j < |events| && (events[j].DragBy? || events[j].ZoomTo?)
  }

  // What the phases say of the sequence.
  lemma {:induction false} PhaseMeans(events: seq<Event>)
    ensures PhaseOf(events) != Waiting <==> exists i: nat :: LoadsLast(events, i)
    ensures PhaseOf(events) == Handled <==> exists i: nat :: LoadsLast(events, i) && HandledAfter(events, i)
  {
    if events != [] {
      var front, last := events[..|events| - 1], |events| - 1;
      PhaseMeans(front);
      forall i: nat | i < last ensures LoadsLast(events, i) <==> LoadsLast(front, i) && !events[last].Open? {
      }
      forall i: nat | LoadsLast(front, i)
        ensures HandledAfter(events, i) <==> HandledAfter(front, i) || events[last].DragBy? || events[last].ZoomTo?
      {
        if j :| i < j < |front| && (front[j].DragBy? || front[j].ZoomTo?) {
          assert events[j] == front[j];
        }
      }
      if events[last] == Load {
        assert LoadsLast(events, last);
      }
    }
  }

  predicate Runs(d: Dialog) {
    Loaded(d.image) && d.zoom >= 1.0
  }

  predicate SquareInside(preview: real, d: Dialog)
    requires preview > 0.0 && Runs(d)
  {
    Inside(CropSquare(preview, d.image, d.zoom, d.pan), d.image)
  }

  // Once the load event was seen the size known is the picture's; a drag or zoom
  // after it leaves no gap, and until then the view is as the load found it.
  lemma {:induction false} PlayKeeps(preview: real, image: Size, events: seq<Event>)
    requires preview > 0.0 && Loaded(image) && AllPossible(events)
    ensures
      var d := Play(preview, Opened(image), events);
      && Runs(d)
      && (PhaseOf(events) != Waiting ==> d.imageSize == d.image)
      && (PhaseOf(events) == Handled ==> Covers(preview, d.image, d.zoom, d.pan))
      && (PhaseOf(events) == Shown ==> d == Play(preview, Opened(image), ToLoad(events)))
  {
    if events != [] {
      var front, e := events[..|events| - 1], events[|events| - 1];
      PlayKeeps(preview, image, front);
      var d := Play(preview, Opened(image), front);
      if PhaseOf(front) != Waiting && (e.DragBy? || e.ZoomTo?) {
        ClampedCovers(preview, d.imageSize, if e.ZoomTo? then e.zoom else d.zoom, if e.ZoomTo? then d.pan else Point(d.pan.x + e.dx, d.pan.y + e.dy));
      }
    }
  }

  // After the load event of the last picture, a drag or zoom since then puts the
  // square inside; without one it is inside exactly when the pan that the
  // gestures before the load left is within the bounds of the new picture.
  lemma SquareAfterLoad(preview: real, image: Size, events: seq<Event>)
    requires preview > 0.0 && Loaded(image) && AllPossible(events) && PhaseOf(events) != Waiting
    ensures
      var d := Play(preview, Opened(image), events);
      var waiting := Play(preview, Opened(image), ToLoad(events)[..|ToLoad(events)| - 1]);
      && Runs(d)
      && (PhaseOf(events) == Handled ==> SquareInside(preview, d))
      && (PhaseOf(events) == Shown ==> (SquareInside(preview, d) <==> Covers(preview, d.image, waiting.zoom, waiting.pan)))
  {
    PlayKeeps(preview, image, events);
    var d := Play(preview, Opened(image), events);
    InsideIffCovers(preview, d.image, d.zoom, d.pan);
  }

  // Nothing moved between opening a picture and its load event: the square is inside.
  lemma LoadedUntouched(preview: real, image: Size, before: seq<Event>, next: Size)
    requires preview > 0.0 && Loaded(image) && Loaded(next) && AllPossible(before)
    ensures
      var d := Play(preview, Opened(image), before + [Open(next), Load]);
      Runs(d) && d.imageSize == d.image == next && SquareInside(preview, d)
  {
    var events := before + [Open(next), Load];
    var untilLoad := events[..|events| - 1];
    assert untilLoad == before + [Open(next)] && untilLoad[..|untilLoad| - 1] == before;
    CenterCovers(preview, next, 1.0);
    InsideIffCovers(preview, next, 1.0, Point(0.0, 0.0));
  }

  // While no size is known the pan stays in the center.
  lemma UnknownSizeCenters(preview: real, zoom: real, next: Point)
    requires preview > 0.0 && zoom >= 1.0
    ensures ClampPan(preview, Size(0.0, 0.0), zoom, next) == Point(0.0, 0.0)
  {
  }

  // With one picture, after any drags and zooms, before and after its load
  // event, the square is inside.
  lemma {:induction false} GesturesStayInside(preview: real, image: Size, events: seq<Event>)
    requires preview > 0.0 && Loaded(image) && AllPossible(events)
    requires forall i | 0 <= i < |events| :: !events[i].Open?
    ensures
      var d := Play(preview, Opened(image), events);
      && Runs(d) && d.image == image && SquareInside(preview, d)
      && (d.imageSize == image || (d.imageSize == Size(0.0, 0.0) && d.pan == Point(0.0, 0.0)))
  {
    if events != [] {
      var front, e := events[..|events| - 1], events[|events| - 1];
      GesturesStayInside(preview, image, front);
      var d := Play(preview, Opened(image), front);
      InsideIffCovers(preview, image, d.zoom, d.pan);
      if e.DragBy? || e.ZoomTo? {
        var zoom, next := if e.ZoomTo? then e.zoom else d.zoom, if e.ZoomTo? then d.pan else Point(d.pan.x + e.dx, d.pan.y + e.dy);
        ClampedCovers(preview, d.imageSize, zoom, next);
        UnknownSizeCenters(preview, zoom, next);
      }
    }
    var d := Play(preview, Opened(image), events);
    CenterCovers(preview, image, d.zoom);
    InsideIffCovers(preview, image, d.zoom, d.pan);
  }

  lemma PlayOne(preview: real, d: Dialog, events: seq<Event>, e: Event)
    requires preview > 0.0
    ensures Play(preview, d, events + [e]) == After(preview, Play(preview, d, events), e)
  {
    assert (events + [e])[..|events|] == events;
  }

  // A wide picture is loaded, a square one opened, dragged before its load event
  // within the bounds of the wide one, and then loaded: the square is outside.
  lemma DragBeforeLoadLeavesImage()
    ensures
      var events := [Load, Open(Size(100.0, 100.0)), DragBy(50.0, 0.0), Load];
      var d := Play(100.0, Opened(Size(300.0, 100.0)), events);
      && d.image == d.imageSize == Size(100.0, 100.0) && d.pan == Point(50.0, 0.0) && d.zoom == 1.0
      && !SquareInside(100.0, d)
  {
    var wide, small := Size(300.0, 100.0), Size(100.0, 100.0);
    var loaded, switched, dragged := [Load], [Load, Open(small)], [Load, Open(small), DragBy(50.0, 0.0)];
    assert [] + [Load] == loaded && loaded + [Open(small)] == switched && switched + [DragBy(50.0, 0.0)] == dragged;
    PlayOne(100.0, Opened(wide), [], Load);
    PlayOne(100.0, Opened(wide), loaded, Open(small));
    PlayOne(100.0, Opened(wide), switched, DragBy(50.0, 0.0));
    PlayOne(100.0, Opened(wide), dragged, Load);
    assert dragged + [Load] == [Load, Open(small), DragBy(50.0, 0.0), Load];
    assert ClampPan(100.0, wide, 1.0, Point(50.0, 0.0)) == Point(50.0, 0.0);
    InsideIffCovers(100.0, small, 1.0, Point(50.0, 0.0));
  }
}

/** LayerSurfaceLayout of tests/wlr_layer_shell_v1.cpp: where a layer surface with given
    anchors and margins should be placed on an output, following zwlr_layer_surface_v1 of
    wlr-layer-shell-unstable-v1. The two axes are computed alike, so the model has one. */
module LayerLayout {
  import opened Rectangles

  /** Anchors and margins of one axis; near is left or top, far is right or bottom. */
  datatype Axis = Axis(near: bool, far: bool, nearMargin: int, farMargin: int) {
    predicate Expand() { near && far }
    function Mirrored(): Axis { Axis(far, near, farMargin, nearMargin) }
  }

  datatype Layout = Layout(horizontal: Axis, vertical: Axis)

  const DEFAULT_SIZE := Size(200, 300)

  /** C++ division by two. */
  function Half(n: int): int { if n >= 0 then n / 2 else -(-n / 2) }

  function Room(a: Axis, length: int): int { length - a.nearMargin - a.farMargin }

  function ConfigureLength(a: Axis, length: int): int { if a.Expand() then Room(a, length) else 0 }

  function RequestLength(a: Axis, default: int): int { if a.Expand() then 0 else default }

  function Extent(a: Axis, length: int, default: int): int {
    if ConfigureLength(a, length) != 0 then ConfigureLength(a, length) else default
  }

  function Start(a: Axis, start: int, length: int, default: int): int {
    var extent := Extent(a, length, default);
    if a.near then start + a.nearMargin
    else if a.far then start + length - extent - a.farMargin
    else start + Half(length - extent)
  }

  function ConfigureSize(l: Layout, output: Rectangle): Size {
    Size(ConfigureLength(l.horizontal, output.size.width), ConfigureLength(l.vertical, output.size.height))
  }

  function RequestSize(l: Layout): Size {
    Size(RequestLength(l.horizontal, DEFAULT_SIZE.width), RequestLength(l.vertical, DEFAULT_SIZE.height))
  }

  function PlacementRect(l: Layout, output: Rectangle): Rectangle {
    var w, h := output.size.width, output.size.height;
    Rectangle(
      Point(Start(l.horizontal, output.Left(), w, DEFAULT_SIZE.width),
            Start(l.vertical, output.Top(), h, DEFAULT_SIZE.height)),
      Size(Extent(l.horizontal, w, DEFAULT_SIZE.width), Extent(l.vertical, h, DEFAULT_SIZE.height)))
  }

  // -------------------------------------------------------------------- one axis

  /** What it takes for the placement to have a size and to stay on the output. */
  predicate Fits(a: Axis, length: int, default: int) {
    if a.Expand() then Room(a, length) > 0 || (Room(a, length) == 0 && default <= a.farMargin)
    else if a.near then a.nearMargin + default <= length
    else if a.far then a.farMargin + default <= length
    else default <= length
  }

  lemma AxisInsideIffFits(a: Axis, start: int, length: int, default: int)
    requires a.nearMargin >= 0 && a.farMargin >= 0 && default > 0
    ensures var s, e := Start(a, start, length, default), Extent(a, length, default);
            e > 0 && start <= s && s + e <= start + length <==> Fits(a, length, default)
  {
  }

  /** The surface sits at its margins: doubly anchored it spans what the margins leave, at one
      anchor it touches that margin, unanchored its gaps differ by at most one. */
  lemma AxisPlacement(a: Axis, start: int, length: int, default: int)
    ensures var s, e := Start(a, start, length, default), Extent(a, length, default);
            var nearGap, farGap := s - start, start + length - (s + e);
            && (a.Expand() && Room(a, length) != 0 ==> nearGap == a.nearMargin && farGap == a.farMargin)
            && (!a.Expand() ==> e == default)
            && (a.near && !a.far ==> nearGap == a.nearMargin)
            && (a.far && !a.near ==> farGap == a.farMargin)
            && (!a.near && !a.far ==> -1 <= nearGap - farGap <= 1)
  {
  }

  /** Mirroring the anchors and margins mirrors the placement to within one pixel, exactly
      unless the margins of a doubly anchored axis leave no room at all. It is off by one
      only for an unanchored surface with an odd gap. */
  lemma AxisMirrors(a: Axis, start: int, length: int, default: int)
    requires default > 1
    ensures var s, e := Start(a, start, length, default), Extent(a, length, default);
            var s', e' := Start(a.Mirrored(), start, length, default), Extent(a.Mirrored(), length, default);
            var off := s' - (start + (start + length - (s + e)));
            && e' == e
            && (-1 <= off <= 1 <==> !(a.Expand() && Room(a, length) == 0))
            && (off == 0 <==> if a.Expand() then Room(a, length) != 0
                              else a.near || a.far || (length - default) % 2 == 0)
  {
  }

  // -------------------------------------------------------------- the rectangles

  predicate NoNegativeMargins(l: Layout) {
    && l.horizontal.nearMargin >= 0 && l.horizontal.farMargin >= 0
    && l.vertical.nearMargin >= 0 && l.vertical.farMargin >= 0
  }

  /** For all anchors, margins that are not negative and outputs: the placement is a proper
      rectangle inside the output exactly if it fits on both axes, and then the output's
      intersection with it is the placement. */
  lemma PlacementInsideOutput(l: Layout, output: Rectangle)
    requires NoNegativeMargins(l)
    ensures var r := PlacementRect(l, output);
            && (r.Positive() && output.ContainsRectangle(r) <==>
                 && Fits(l.horizontal, output.size.width, DEFAULT_SIZE.width)
                 && Fits(l.vertical, output.size.height, DEFAULT_SIZE.height))
            && (r.Positive() && output.ContainsRectangle(r) ==> IntersectionOf(output, r) == r)
  {
  }

  /** A length of 0 asks the compositor to choose. It is asked to on the axes on which it is
      expected to configure a length, and whoever chooses, the placement has that length; this
      holds exactly unless the margins of a doubly anchored axis leave no room. */
  lemma AxisRequestAgreesIff(a: Axis, length: int, default: int)
    requires default > 0
    ensures (RequestLength(a, default) == 0 <==> ConfigureLength(a, length) != 0)
            <==> !(a.Expand() && Room(a, length) == 0)
    ensures Extent(a, length, default) == RequestLength(a, default) + ConfigureLength(a, length)
            <==> !(a.Expand() && Room(a, length) == 0)
  {
  }

  lemma RequestAndConfigureAgree(l: Layout, output: Rectangle)
    ensures var request, configure := RequestSize(l), ConfigureSize(l, output);
            PlacementRect(l, output).size == Size(request.width + configure.width, request.height + configure.height)
            <==>
            && !(l.horizontal.Expand() && Room(l.horizontal, output.size.width) == 0)
            && !(l.vertical.Expand() && Room(l.vertical, output.size.height) == 0)
  {
    AxisRequestAgreesIff(l.horizontal, output.size.width, DEFAULT_SIZE.width);
    AxisRequestAgreesIff(l.vertical, output.size.height, DEFAULT_SIZE.height);
  }

  /** Margins of 6 and 9 on an output 15 wide: the surface has its default size, sticks out of
      the output and is not where the mirrored layout mirrors it to. */
  lemma NoRoomSticksOut()
    ensures var a := Axis(true, true, 6, 9);
            && Extent(a, 15, DEFAULT_SIZE.width) == DEFAULT_SIZE.width
            && Start(a, 0, 15, DEFAULT_SIZE.width) + DEFAULT_SIZE.width > 15
            && Start(a.Mirrored(), 0, 15, DEFAULT_SIZE.width) !=
               15 - (Start(a, 0, 15, DEFAULT_SIZE.width) + DEFAULT_SIZE.width)
  {
  }
}

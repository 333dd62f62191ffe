/**
 What overdraw from the bottom up amounts to: a pixel ends with the colour of the
 highest-ranked source that gives it one.
 */
module RenderPainting {
  import opened Arith
  import opened Wrappers
  import opened Sources
  import opened Rendering
  import RenderShards
  import Sorting

  /** The place of an LED in a zone's list. */
  function OrdinalOf(leds: seq<nat>, index: nat): (o: Option<nat>)
    ensures o.Some? ==> o.value < |leds| && leds[o.value] == index
    ensures o.None? ==> index !in leds
  {
    if leds == [] then None
    else if leds[0] == index then Some(0)
    else
      var rest := OrdinalOf(leds[1..], index);
      if rest.Some? then Some(rest.value + 1) else None
  }

  /**
   The colour a source gives an LED from what it remembers of it, without any other source:
   none if it does not cover the LED, does not run or emits nothing.
   */
  function ColourAt(f: Frame, b: Bound, history: History, index: nat): Option<Rgb> {
    var ordinal := OrdinalOf(b.leds, index);
    var led := FindLed(f.scene.leds, index);
    if ordinal.None? || led.None? || Hoisted(f, b).FrameFaulted? then None
    else
      match Shaded(f, b, Hoisted(f, b).registers, ordinal.value, led.value, PrevOf(history, b.source.id, index))
      case PixelRan(output, _, _) => ColourOf(output)
      case PixelFaulted(_, _) => None
  }

  /** What a source remembers of an LED after its turn: what its pixel section hands on, if it ran there. */
  function RememberedAt(f: Frame, b: Bound, history: History, index: nat): Prev {
    var ordinal := OrdinalOf(b.leds, index);
    var led := FindLed(f.scene.leds, index);
    var before := PrevOf(history, b.source.id, index);
    if ordinal.None? || led.None? || Hoisted(f, b).FrameFaulted? then before
    else
      match Shaded(f, b, Hoisted(f, b).registers, ordinal.value, led.value, before)
      case PixelRan(_, prevOut, _) => prevOut
      case PixelFaulted(_, _) => before
  }

  /** A number as sixteen signed bits. */
  predicate IsI16(x: int, n: nat) { -0x8000 <= x < 0x8000 && (n - x) % 0x1_0000 == 0 }

  /** What a program is told of a frame and of an LED. */
  lemma ProgramIsGiven(vm: Vm, scene: Scene, r: RendererState, b: Bound, ordinal: nat, led: Led, prev: Prev)
    requires ordinal < |b.leds|
    ensures var f, p := FrameOf(vm, scene, r), InputsOf(FrameOf(vm, scene, r), b, ordinal, b.leds[ordinal], led, prev);
            && (r.lastT.None? || scene.t < r.lastT.value ==> Hoisted(f, b) == vm.frame(b.program, scene.t, 0, scene.uniforms))
            && (r.lastT.Some? && r.lastT.value <= scene.t ==>
                  Hoisted(f, b) == vm.frame(b.program, scene.t, scene.t - r.lastT.value, scene.uniforms))
            && p.world == led.world && p.local == led.local && p.prev == prev
            && IsI16(p.index, b.leds[ordinal]) && IsI16(p.count, b.count)
  {
    I16Of(b.leds[ordinal]);
    I16Of(b.count);
  }

  lemma I16Of(n: nat)
    ensures IsI16(AsI16(n), n)
  {
    assert (n - AsI16(n)) % 0x1_0000 == 0;
  }

  /** A colour laid over another at a weight: alone if that is a whole, and else mixed, channel by channel. */
  function Laid(vm: Vm, under: Rgb, over: Rgb, weight: int): Rgb {
    if weight >= ONE then over
    else Rgb(vm.lerp(under.r, over.r, weight), vm.lerp(under.g, over.g, weight), vm.lerp(under.b, over.b, weight))
  }

  /** What an LED shows once a source at some weight has had its turn. */
  function Tinted(f: Frame, b: Bound, weight: int, history: History, index: nat, under: Rgb): Rgb {
    var c := ColourAt(f, b, history, index);
    if c.Some? then Laid(f.vm, under, c.value, weight) else under
  }

  /** Nothing that another source remembers, and nothing of this LED before its turn, changes. */
  ghost predicate RemembersOthers(before: History, after: History, id: Uuid) {
    forall other, index :: other != id ==> PrevOf(before, other, index) == PrevOf(after, other, index)
  }

  lemma {:induction false} PassPaints(f: Frame, b: Bound, registers: Registers, alpha: int, n: nat, start: Pass,
                                      index: nat, m: nat)
    requires m <= |b.leds| && index < n <= |start.out| && Sorting.Distinct(b.leds) && start.fault.None?
    requires Hoisted(f, b).FrameRan? && Hoisted(f, b).registers == registers
    requires AfterPixels(f, b, registers, alpha, Whole(n), start, |b.leds|).fault.None?
    ensures var end := AfterPixels(f, b, registers, alpha, Whole(n), start, m);
            && |end.out| == |start.out|
            && RemembersOthers(start.history, end.history, b.source.id)
            && (index in b.leds[..m] ==>
                  end.out[index] == Tinted(f, b, alpha, start.history, index, start.out[index])
                  && PrevOf(end.history, b.source.id, index) == RememberedAt(f, b, start.history, index))
            && (index !in b.leds[..m] ==>
                  end.out[index] == start.out[index]
                  && PrevOf(end.history, b.source.id, index) == PrevOf(start.history, b.source.id, index))
  {
    if m > 0 {
      var last := m - 1;
      PassPaints(f, b, registers, alpha, n, start, index, last);
      RenderShards.NoFaultBefore(f, b, registers, alpha, Whole(n), start, m);
      RenderShards.NoFaultBefore(f, b, registers, alpha, Whole(n), start, last);
      assert b.leds[..m] == b.leds[..last] + [b.leds[last]];
      PixelPaints(f, b, registers, alpha, n, AfterPixels(f, b, registers, alpha, Whole(n), start, last), index, last);
      if b.leds[last] == index {
        assert index !in b.leds[..last];
        OrdinalIs(b.leds, last);
      }
    }
  }

  lemma {:induction false} OrdinalIs(leds: seq<nat>, at: nat)
    requires Sorting.Distinct(leds) && at < |leds|
    ensures OrdinalOf(leds, leds[at]) == Some(at)
  {
    if at > 0 { OrdinalIs(leds[1..], at - 1); }
  }

  /** One pixel of the loop, seen from one LED. */
  lemma PixelPaints(f: Frame, b: Bound, registers: Registers, alpha: int, n: nat, p: Pass, index: nat, ordinal: nat)
    requires ordinal < |b.leds| && index < n <= |p.out|
    requires p.fault.None? && AfterPixel(f, b, registers, alpha, Whole(n), p, ordinal).fault.None?
    ensures var end := AfterPixel(f, b, registers, alpha, Whole(n), p, ordinal);
            && |end.out| == |p.out|
            && RemembersOthers(p.history, end.history, b.source.id)
            && (b.leds[ordinal] != index ==>
                  end.out[index] == p.out[index]
                  && PrevOf(end.history, b.source.id, index) == PrevOf(p.history, b.source.id, index))
            && (b.leds[ordinal] == index ==>
                  end.out[index] == (var led := FindLed(f.scene.leds, index);
                                     if led.None? then p.out[index]
                                     else
                                       var run := Shaded(f, b, registers, ordinal, led.value, PrevOf(p.history, b.source.id, index));
                                       if run.PixelRan? && ColourOf(run.output).Some?
                                       then Laid(f.vm, p.out[index], ColourOf(run.output).value, alpha) else p.out[index])
                  && PrevOf(end.history, b.source.id, index)
                     == (var led := FindLed(f.scene.leds, index); var before := PrevOf(p.history, b.source.id, index);
                         if led.None? then before
                         else
                           var run := Shaded(f, b, registers, ordinal, led.value, before);
                           if run.PixelRan? then run.prevOut else before))
  {
  }

  /** What an LED shows after the layers of a list have had their turns over `under`. */
  function Painted(f: Frame, layers: seq<Layer>, history: History, index: nat, under: Rgb): Rgb {
    if layers == [] then under
    else
      var last := |layers| - 1;
      Tinted(f, layers[last].bound, layers[last].alpha, history, index,
                Painted(f, layers[..last], history, index, under))
  }

  ghost predicate DistinctLayers(layers: seq<Layer>) {
    forall i, j :: 0 <= i < j < |layers| ==> layers[i].bound.source.id != layers[j].bound.source.id
  }

  /** No layer's list names an LED twice. */
  ghost predicate DistinctLeds(layers: seq<Layer>) {
    forall layer :: layer in layers ==> Sorting.Distinct(layer.bound.leds)
  }

  /** Every layer shows in full. */
  ghost predicate Opaque(layers: seq<Layer>) {
    forall layer :: layer in layers ==> layer.alpha >= ONE
  }

  lemma SourcePaints(f: Frame, b: Bound, alpha: int, n: nat, c: Canvas, index: nat)
    requires index < n <= |c.out| && Sorting.Distinct(b.leds) && RenderShards.SourceClean(f, b, alpha, n, c)
    ensures var end := AfterSource(f, b, alpha, Whole(n), c).0;
            && |end.out| == |c.out|
            && RemembersOthers(c.history, end.history, b.source.id)
            && end.out[index] == Tinted(f, b, alpha, c.history, index, c.out[index])
            && PrevOf(end.history, b.source.id, index) == RememberedAt(f, b, c.history, index)
  {
    if index in b.leds {
      var o := OrdinalOf(b.leds, index).value;
      assert Whole(n).Slot(b.leds[o]).Some?;
    }
    assert b.leds[..|b.leds|] == b.leds;
    if Touches(b, Whole(n)) && Hoisted(f, b).FrameRan? {
      PassPaints(f, b, Hoisted(f, b).registers, alpha, n, StartOf(c), index, |b.leds|);
    }
  }

  lemma {:induction false} LayersPaint(f: Frame, layers: seq<Layer>, n: nat, c: Canvas, index: nat)
    requires index < n <= |c.out| && DistinctLeds(layers) && DistinctLayers(layers) && RenderShards.LayersClean(f, layers, n, c)
    ensures var end := AfterLayers(f, layers, Whole(n), c);
            && |end.out| == |c.out|
            && end.out[index] == Painted(f, layers, c.history, index, c.out[index])
            && (forall id :: (forall layer :: layer in layers ==> layer.bound.source.id != id) ==>
                  PrevOf(end.history, id, index) == PrevOf(c.history, id, index))
  {
    if layers != [] {
      var last := |layers| - 1;
      var before, b := layers[..last], layers[last].bound;
      RenderShards.CleanPrefix(f, layers, n, c);
      LayersPaint(f, before, n, c, index);
      var mid := AfterLayers(f, before, Whole(n), c);
      assert layers[last] in layers;
      SourcePaints(f, b, layers[last].alpha, n, mid, index);
      assert PrevOf(mid.history, b.source.id, index) == PrevOf(c.history, b.source.id, index);
      assert ColourAt(f, b, mid.history, index) == ColourAt(f, b, c.history, index);
      forall id | forall layer :: layer in layers ==> layer.bound.source.id != id
        ensures PrevOf(AfterLayers(f, layers, Whole(n), c).history, id, index) == PrevOf(c.history, id, index)
      {
        assert forall layer :: layer in before ==> layer in layers;
      }
    }
  }

  lemma RememberedAsBefore(f: Frame, b: Bound, a: History, h: History, index: nat)
    requires PrevOf(a, b.source.id, index) == PrevOf(h, b.source.id, index)
    ensures RememberedAt(f, b, a, index) == RememberedAt(f, b, h, index)
  {
  }

  lemma LayerRemembers(f: Frame, layer: Layer, n: nat, c: Canvas, index: nat)
    requires index < n <= |c.out| && Sorting.Distinct(layer.bound.leds)
    requires RenderShards.SourceClean(f, layer.bound, layer.alpha, n, c)
    ensures var end := AfterLayer(f, layer, Whole(n), c).history;
            |AfterLayer(f, layer, Whole(n), c).out| == |c.out|
            && RemembersOthers(c.history, end, layer.bound.source.id)
            && PrevOf(end, layer.bound.source.id, index) == RememberedAt(f, layer.bound, c.history, index)
  {
    SourcePaints(f, layer.bound, layer.alpha, n, c, index);
  }

  ghost predicate NoneOf(layers: seq<Layer>, id: Uuid) {
    forall k :: 0 <= k < |layers| ==> layers[k].bound.source.id != id
  }

  /** Layer by layer: no LED twice, no fault, no source again. */
  ghost predicate Paintable(f: Frame, layers: seq<Layer>, n: nat, c: Canvas) {
    layers == [] ||
    (var before, top := layers[..|layers| - 1], layers[|layers| - 1];
     && Paintable(f, before, n, c) && Sorting.Distinct(top.bound.leds) && NoneOf(before, top.bound.source.id)
     && RenderShards.SourceClean(f, top.bound, top.alpha, n, AfterLayers(f, before, Whole(n), c)))
  }

  lemma {:induction false} IsPaintable(f: Frame, layers: seq<Layer>, n: nat, c: Canvas)
    requires DistinctLeds(layers) && DistinctLayers(layers) && RenderShards.LayersClean(f, layers, n, c)
    ensures Paintable(f, layers, n, c)
  {
    if layers != [] {
      var last := |layers| - 1;
      assert layers[last] in layers && forall layer :: layer in layers[..last] ==> layer in layers;
      RenderShards.CleanPrefix(f, layers, n, c);
      IsPaintable(f, layers[..last], n, c);
    }
  }

  /** A source that is none of the layers is remembered as before them, and the buffer keeps its length. */
  lemma {:induction false} OthersAreKept(f: Frame, layers: seq<Layer>, n: nat, c: Canvas, index: nat, id: Uuid)
    requires index < n <= |c.out| && Paintable(f, layers, n, c)
    ensures var end := AfterLayers(f, layers, Whole(n), c);
            |end.out| == |c.out| && (NoneOf(layers, id) ==> PrevOf(end.history, id, index) == PrevOf(c.history, id, index))
  {
    if layers != [] {
      var last := |layers| - 1;
      OthersAreKept(f, layers[..last], n, c, index, id);
      LayerRemembers(f, layers[last], n, AfterLayers(f, layers[..last], Whole(n), c), index);
    }
  }

  /** One more layer remembers for itself and leaves the others' memories. */
  lemma TopRemembers(f: Frame, top: Layer, n: nat, mid: Canvas, index: nat, b: Bound, c: History)
    requires index < n <= |mid.out| && Sorting.Distinct(top.bound.leds)
    requires RenderShards.SourceClean(f, top.bound, top.alpha, n, mid)
    requires if b == top.bound then PrevOf(mid.history, b.source.id, index) == PrevOf(c, b.source.id, index)
             else b.source.id != top.bound.source.id && PrevOf(mid.history, b.source.id, index) == RememberedAt(f, b, c, index)
    ensures PrevOf(AfterLayer(f, top, Whole(n), mid).history, b.source.id, index) == RememberedAt(f, b, c, index)
  {
    LayerRemembers(f, top, n, mid, index);
    if b == top.bound { RememberedAsBefore(f, b, mid.history, c, index); }
  }

  /** What each source hands on of an LED is what it is told of it in its next frame, whoever painted besides. */
  lemma {:induction false} LayersRemember(f: Frame, layers: seq<Layer>, n: nat, c: Canvas, index: nat, k: nat)
    requires index < n <= |c.out| && Paintable(f, layers, n, c) && k < |layers|
    ensures PrevOf(AfterLayers(f, layers, Whole(n), c).history, layers[k].bound.source.id, index)
            == RememberedAt(f, layers[k].bound, c.history, index)
  {
    var last := |layers| - 1;
    var before, top := layers[..last], layers[last];
    OthersAreKept(f, before, n, c, index, top.bound.source.id);
    if k != last {
      assert before[k] == layers[k];
      LayersRemember(f, before, n, c, index, k);
    }
    TopRemembers(f, top, n, AfterLayers(f, before, Whole(n), c), index, layers[k].bound, c.history);
  }

  // --------------------------------------------------------------- the highest one wins

  /** Whether an admitted source gives the LED a colour. */
  predicate Paints(f: Frame, b: Bound, history: History, index: nat) {
    b in f.scene.bound && b.source.id in f.scene.stack.admitted && ColourAt(f, b, history, index).Some?
  }

  /** Whether it has higher priority than every other that does, or the same and was pushed later. */
  ghost predicate IsTop(f: Frame, b: Bound, history: History, index: nat) {
    && Paints(f, b, history, index)
    && forall other :: Paints(f, other, history, index) && other != b ==>
         b.source.priority > other.source.priority
         || (b.source.priority == other.source.priority && b.source.pushedAtUs > other.source.pushedAtUs)
  }

  /** Bounds of different sources, no two of them tied in rank. */
  ghost predicate Ranked(bound: seq<Bound>) {
    forall i, j :: 0 <= i < j < |bound| ==>
      && bound[i].source.id != bound[j].source.id
      && (bound[i].source.priority != bound[j].source.priority || bound[i].source.pushedAtUs != bound[j].source.pushedAtUs)
  }

  lemma {:induction false} AdmittedMembers(bound: seq<Bound>, stack: StackState)
    ensures forall b :: b in AdmittedOnly(bound, stack) <==> b in bound && b.source.id in stack.admitted
    ensures Sorting.Distinct(bound) ==> Sorting.Distinct(AdmittedOnly(bound, stack))
  {
    if bound != [] {
      AdmittedMembers(bound[1..], stack);
    }
  }

  lemma PaintingIsAPreorder()
    ensures Sorting.TotalPreorder(PaintedNoLater)
  {
  }

  /** In painting order each source outranks the ones before it. */
  lemma OrderRises(scene: Scene)
    requires Ranked(scene.bound)
    ensures var order := PaintingOrder(scene);
            && (forall b :: b in order <==> b in scene.bound && b.source.id in scene.stack.admitted)
            && (forall i, j :: 0 <= i < j < |order| ==>
                  order[j].source.Outranks(order[i].source) && order[i].source.id != order[j].source.id)
  {
    var loose, order := AdmittedOnly(scene.bound, scene.stack), PaintingOrder(scene);
    AdmittedMembers(scene.bound, scene.stack);
    PaintingIsAPreorder();
    Sorting.SortSorted(loose, PaintedNoLater);
    Sorting.SameMembers(loose, order);
    Sorting.RearrangedDistinct(loose, order);
    forall i, j | 0 <= i < j < |order| ensures order[j].source.Outranks(order[i].source) && order[i].source.id != order[j].source.id {
      assert order[i] in scene.bound && order[j] in scene.bound && order[i] != order[j];
      assert PaintedNoLater(order[i], order[j]);
    }
  }

  lemma {:induction false} FullLayers(order: seq<Bound>, nowUs: nat)
    requires forall b :: b in order ==> b.source.FadeInAlpha(nowUs) == ONE
    ensures |ShownLayers(order, nowUs)| == |order|
    ensures forall k :: 0 <= k < |order| ==> ShownLayers(order, nowUs)[k] == Layer(order[k], ONE, false)
  {
    if order != [] {
      FullLayers(order[..|order| - 1], nowUs);
    }
  }

  /** The last layer that paints an LED is what shows. */
  lemma {:induction false} LastPainterShows(f: Frame, layers: seq<Layer>, history: History, index: nat, under: Rgb)
    returns (at: Option<nat>)
    requires Opaque(layers)
    ensures at.Some? ==> at.value < |layers| && ColourAt(f, layers[at.value].bound, history, index).Some?
                         && Painted(f, layers, history, index, under) == ColourAt(f, layers[at.value].bound, history, index).value
    ensures at.None? ==> Painted(f, layers, history, index, under) == under
    ensures forall k :: (if at.Some? then at.value < k else 0 <= k) && k < |layers| ==> ColourAt(f, layers[k].bound, history, index).None?
  {
    if layers == [] {
      at := None;
    } else {
      var last := |layers| - 1;
      assert layers[last] in layers;
      if ColourAt(f, layers[last].bound, history, index).Some? {
        at := Some(last);
      } else {
        at := LastPainterShows(f, layers[..last], history, index, under);
      }
    }
  }

  /** With nothing fading the layers are the painting order, each in full. */
  lemma LayersAreTheOrder(scene: Scene)
    requires Ranked(scene.bound) && scene.stack.fading == []
    requires forall b :: b in scene.bound ==> Sorting.Distinct(b.leds) && b.source.FadeInAlpha(scene.nowUs) == ONE
    ensures var layers, order := Layers(scene), PaintingOrder(scene);
            && |layers| == |order| && (forall k :: 0 <= k < |order| ==> layers[k].bound == order[k])
            && Opaque(layers) && DistinctLeds(layers) && DistinctLayers(layers)
  {
    var layers, order := Layers(scene), PaintingOrder(scene);
    OrderRises(scene);
    FullLayers(order, scene.nowUs);
    assert layers == ShownLayers(order, scene.nowUs);
    forall layer | layer in layers ensures layer.alpha >= ONE && Sorting.Distinct(layer.bound.leds) {
      var k :| 0 <= k < |layers| && layers[k] == layer;
      assert order[k] in order;
    }
  }

  lemma TopPainterIs(f: Frame, order: seq<Bound>, layers: seq<Layer>, history: History, index: nat, at: nat)
    requires Ranked(f.scene.bound) && order == PaintingOrder(f.scene)
    requires |layers| == |order| && at < |order| && forall k :: 0 <= k < |order| ==> layers[k].bound == order[k]
    requires ColourAt(f, order[at], history, index).Some?
    requires forall k :: at < k < |order| ==> ColourAt(f, layers[k].bound, history, index).None?
    ensures IsTop(f, order[at], history, index)
    ensures forall b :: IsTop(f, b, history, index) ==> b == order[at]
  {
    OrderRises(f.scene);
    TopOfOrder(f, order, layers, history, index, at);
    forall b | IsTop(f, b, history, index) ensures b == order[at] {
      OneTop(f, b, order[at], history, index);
    }
  }

  lemma NobodyPaints(f: Frame, order: seq<Bound>, layers: seq<Layer>, history: History, index: nat)
    requires Ranked(f.scene.bound) && order == PaintingOrder(f.scene)
    requires |layers| == |order| && forall k :: 0 <= k < |order| ==> layers[k].bound == order[k]
    requires forall k :: 0 <= k < |layers| ==> ColourAt(f, layers[k].bound, history, index).None?
    ensures forall b :: !Paints(f, b, history, index)
  {
    OrderRises(f.scene);
    forall b ensures !Paints(f, b, history, index) {
      if b in order {
        var k :| 0 <= k < |order| && order[k] == b;
        assert ColourAt(f, layers[k].bound, history, index).None?;
      }
    }
  }

  /**
   When nothing fades, no pixel faults and no two sources tie, each LED ends with the colour
   of the highest-ranked admitted source that gives it one, and unchanged if none does.
   */
  lemma HighestPainterWins(vm: Vm, scene: Scene, r: RendererState, out: seq<Rgb>, index: nat)
    requires index < |out| <= U16_MAX && Ranked(scene.bound) && scene.stack.fading == []
    requires forall b :: b in scene.bound ==> Sorting.Distinct(b.leds) && b.source.FadeInAlpha(scene.nowUs) == ONE
    requires RenderShards.LayersClean(FrameOf(vm, scene, r), Layers(scene), |out|, Canvas(out, r.history, r.machines, BlankReport()))
    ensures var f, after := FrameOf(vm, scene, r), Rendered(vm, scene, Whole(|out|), r, out).out;
            && |after| == |out|
            && ((forall b :: !Paints(f, b, r.history, index)) ==> after[index] == out[index])
            && (forall b :: IsTop(f, b, r.history, index) ==> after[index] == ColourAt(f, b, r.history, index).value)
            && ((exists b :: Paints(f, b, r.history, index)) ==> exists b :: IsTop(f, b, r.history, index))
  {
    var f, layers, order := FrameOf(vm, scene, r), Layers(scene), PaintingOrder(scene);
    LayersAreTheOrder(scene);
    LayersPaint(f, layers, |out|, Canvas(out, r.history, r.machines, BlankReport()), index);
    var at := LastPainterShows(f, layers, r.history, index, out[index]);
    if at.Some? {
      TopPainterIs(f, order, layers, r.history, index, at.value);
    } else {
      NobodyPaints(f, order, layers, r.history, index);
    }
  }

  lemma TopOfOrder(f: Frame, order: seq<Bound>, layers: seq<Layer>, history: History, index: nat, at: nat)
    requires |layers| == |order| && at < |order| && forall k :: 0 <= k < |order| ==> layers[k].bound == order[k]
    requires forall b :: b in order <==> b in f.scene.bound && b.source.id in f.scene.stack.admitted
    requires forall i, j :: 0 <= i < j < |order| ==> order[j].source.Outranks(order[i].source)
    requires ColourAt(f, order[at], history, index).Some?
    requires forall k :: at < k < |order| ==> ColourAt(f, layers[k].bound, history, index).None?
    ensures IsTop(f, order[at], history, index)
  {
    assert order[at] in order;
    forall other | Paints(f, other, history, index) && other != order[at] ensures order[at].source.Outranks(other.source) {
      assert other in order;
      var k :| 0 <= k < |order| && order[k] == other;
      assert layers[k].bound == other;
    }
  }

  lemma OneTop(f: Frame, a: Bound, b: Bound, history: History, index: nat)
    requires IsTop(f, a, history, index) && IsTop(f, b, history, index)
    ensures a == b
  {
  }
}

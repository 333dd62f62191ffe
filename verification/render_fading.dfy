/**
 What fades amount to on a frame (render.rs): a leaving source covers what is under it less and
 less, from whole to nothing, and an arriving one more and more; the leaving ones lie over the
 highest-ranked source that is shown.
 */
module RenderFading {
  import opened Arith
  import opened Wrappers
  import opened Sources
  import opened Rendering
  import opened RenderPainting
  import RenderShards
  import Sorting

  // ------------------------------------------------------------------------- the weights

  /** What is left of a fade out: the least weight in sixteen bits not below the part of the span to come. */
  function LeftWeight(spanMs: nat, elapsedUs: nat): int {
    var span := 1_000 * spanMs;
    if elapsedUs >= span then 0 else ((span - elapsedUs) * ONE + span - 1) / span
  }

  lemma LeftBounds(spanMs: nat, elapsedUs: nat)
    requires elapsedUs < 1_000 * spanMs
    ensures var span, w := 1_000 * spanMs, LeftWeight(spanMs, elapsedUs);
            w * span - span < (span - elapsedUs) * ONE <= w * span
  {
    var span, w := 1_000 * spanMs, LeftWeight(spanMs, elapsedUs);
    var a := (span - elapsedUs) * ONE + span - 1;
    assert a / span * span <= a < a / span * span + span;
  }

  /** Two weights in one unit of each other at the same part of a span are one. */
  lemma SameWeight(a: int, b: int, span: nat, part: int)
    requires span > 0 && a * span - span < part <= a * span && b * span - span < part <= b * span
    ensures a == b
  {
    if a < b { MulGap(a, b, span); }
    if b < a { MulGap(b, a, span); }
  }

  lemma MulGap(a: int, b: int, span: nat)
    requires a < b
    ensures a * span + span <= b * span
  {
    assert (b - a - 1) * span >= 0;
    assert (b - a - 1) * span == b * span - a * span - span;
  }

  lemma LeftIsTheRest(spanMs: nat, elapsedUs: nat)
    ensures LeftWeight(spanMs, elapsedUs) == ONE - Fraction(spanMs, elapsedUs)
  {
    var span := 1_000 * spanMs;
    if elapsedUs < span {
      LeftBounds(spanMs, elapsedUs);
      FadeIsProportional(spanMs, elapsedUs);
      var w := Fraction(spanMs, elapsedUs);
      assert (ONE - w) * span == ONE * span - w * span;
      assert (span - elapsedUs) * ONE == span * ONE - elapsedUs * ONE;
      SameWeight(LeftWeight(spanMs, elapsedUs), ONE - w, span, (span - elapsedUs) * ONE);
    }
  }

  /** It is whole at the start, falls or stays, is more than nothing until the end and nothing from then on. */
  lemma LeftFalls(spanMs: nat, earlier: nat, later: nat)
    requires earlier <= later
    ensures LeftWeight(spanMs, later) <= LeftWeight(spanMs, earlier) <= ONE
    ensures spanMs > 0 ==> LeftWeight(spanMs, 0) == ONE
    ensures LeftWeight(spanMs, later) == 0 <==> later >= 1_000 * spanMs
  {
    FadesClimb(spanMs, earlier, later);
    LeftIsTheRest(spanMs, earlier);
    LeftIsTheRest(spanMs, later);
    LeftIsTheRest(spanMs, 0);
    FadeEnds(spanMs, earlier);
    FadeEnds(spanMs, later);
    FadeEnds(spanMs, 0);
    if spanMs > 0 { FadeIsProportional(spanMs, 0); NoFraction(Fraction(spanMs, 0), 1_000 * spanMs); }
  }

  lemma NoFraction(w: int, span: nat)
    requires w >= 0 && w * span <= 0 < span
    ensures w == 0
  {
    if w > 0 { MulGap(0, w, span); }
  }

  // ----------------------------------------------------------------- one source that fades

  ghost predicate DistinctIds(bound: seq<Bound>) {
    forall i, j :: 0 <= i < j < |bound| ==> bound[i].source.id != bound[j].source.id
  }

  lemma {:induction false} FindsBound(bound: seq<Bound>, b: Bound)
    requires b in bound && DistinctIds(bound)
    ensures FindBound(bound, b.source.id) == Some(b)
  {
    if bound[0] != b {
      var k :| 0 <= k < |bound| && bound[k] == b;
      assert bound[1..][k - 1] == b;
      FindsBound(bound[1..], b);
    }
  }

  lemma {:induction false} FoundIsBound(bound: seq<Bound>, id: Uuid)
    ensures var b := FindBound(bound, id);
            (b.Some? ==> b.value in bound && b.value.source.id == id)
            && (b.None? ==> forall x :: x in bound ==> x.source.id != id)
  {
    if bound != [] && bound[0].source.id != id { FoundIsBound(bound[1..], id); }
  }

  /** Nothing is shown but one leaving source, which has its LEDs here. */
  ghost predicate LeavesAlone(scene: Scene, fading: Fading, b: Bound) {
    && scene.stack.fading == [fading] && b in scene.bound && b.source.id == fading.source.id && DistinctIds(scene.bound)
    && forall x :: x in scene.bound ==> x.source.id !in scene.stack.admitted
  }

  lemma {:induction false} NoneAdmitted(bound: seq<Bound>, stack: StackState)
    requires forall x :: x in bound ==> x.source.id !in stack.admitted
    ensures AdmittedOnly(bound, stack) == []
  {
    if bound != [] { NoneAdmitted(bound[1..], stack); }
  }

  lemma NobodyAdmitted(scene: Scene)
    requires forall x :: x in scene.bound ==> x.source.id !in scene.stack.admitted
    ensures PaintingOrder(scene) == []
  {
    NoneAdmitted(scene.bound, scene.stack);
  }

  lemma LoneLeaver(scene: Scene, fading: Fading, b: Bound)
    requires LeavesAlone(scene, fading, b)
    ensures var w := LeftWeight(fading.source.fadeOutMs, SubSat(scene.nowUs, fading.startedAtUs));
            Layers(scene) == if w <= 0 then [] else [Layer(b, w, true)]
  {
    NobodyAdmitted(scene);
    assert ShownLayers([], scene.nowUs) == [];
    FindsBound(scene.bound, b);
    OneLeaves(fading, scene.bound, scene.nowUs);
    LeftIsTheRest(fading.source.fadeOutMs, SubSat(scene.nowUs, fading.startedAtUs));
  }

  lemma OneLeaves(fading: Fading, bound: seq<Bound>, nowUs: nat)
    ensures var b, w := FindBound(bound, fading.source.id), ONE - fading.Progress(nowUs);
            LeavingLayers([fading], bound, nowUs) == if b.None? || w <= 0 then [] else [Layer(b.value, w, true)]
  {
    assert [fading][..0] == [];
    assert LeavingLayers([fading][..0], bound, nowUs) == [];
  }

  lemma OneIsShown(b: Bound, nowUs: nat)
    ensures var w := b.source.FadeInAlpha(nowUs);
            ShownLayers([b], nowUs) == if w <= 0 then [] else [Layer(b, w, false)]
  {
    assert [b][..0] == [];
    assert ShownLayers([b][..0], nowUs) == [];
  }

  lemma OneLayer(f: Frame, layer: Layer, shard: Shard, c: Canvas)
    ensures AfterLayers(f, [layer], shard, c) == AfterLayer(f, layer, shard, c)
  {
    assert [layer][..0] == [];
  }

  ghost predicate NeverFaults(f: Frame, b: Bound, n: nat, c: Canvas) {
    forall weight :: RenderShards.SourceClean(f, b, weight, n, c)
  }

  function Blank(r: RendererState, out: seq<Rgb>): Canvas { Canvas(out, r.history, r.machines, BlankReport()) }

  /**
   A leaving source over a buffer: each LED it gives a colour ends with that colour laid over what
   was there at the weight that is left of the fade, and every other is untouched.
   */
  lemma LeavingSourceFades(vm: Vm, scene: Scene, r: RendererState, out: seq<Rgb>, index: nat, fading: Fading, b: Bound)
    requires LeavesAlone(scene, fading, b) && index < |out| <= U16_MAX && Sorting.Distinct(b.leds)
    requires NeverFaults(FrameOf(vm, scene, r), b, |out|, Blank(r, out))
    ensures var f, after := FrameOf(vm, scene, r), Rendered(vm, scene, Whole(|out|), r, out).out;
            var w := LeftWeight(fading.source.fadeOutMs, SubSat(scene.nowUs, fading.startedAtUs));
            var colour := ColourAt(f, b, r.history, index);
            && |after| == |out|
            && after[index] == if w > 0 && colour.Some? then Laid(vm, out[index], colour.value, w) else out[index]
  {
    var f := FrameOf(vm, scene, r);
    var w := LeftWeight(fading.source.fadeOutMs, SubSat(scene.nowUs, fading.startedAtUs));
    LoneLeaver(scene, fading, b);
    if w > 0 {
      OneLayer(f, Layer(b, w, true), Whole(|out|), Blank(r, out));
      SourcePaints(f, b, w, |out|, Blank(r, out), index);
    }
  }

  /** When it starts to leave, each LED it gives a colour shows just that. */
  lemma LeavingStartsWhole(vm: Vm, scene: Scene, r: RendererState, out: seq<Rgb>, index: nat, fading: Fading, b: Bound)
    requires LeavesAlone(scene, fading, b) && index < |out| <= U16_MAX && Sorting.Distinct(b.leds)
    requires NeverFaults(FrameOf(vm, scene, r), b, |out|, Blank(r, out))
    requires scene.nowUs <= fading.startedAtUs && fading.source.fadeOutMs > 0
    ensures var f, after := FrameOf(vm, scene, r), Rendered(vm, scene, Whole(|out|), r, out).out;
            var colour := ColourAt(f, b, r.history, index);
            |after| == |out| && after[index] == if colour.Some? then colour.value else out[index]
  {
    LeavingSourceFades(vm, scene, r, out, index, fading, b);
    LeftFalls(fading.source.fadeOutMs, 0, SubSat(scene.nowUs, fading.startedAtUs));
  }

  /** Once its fade is over, a frame changes nothing at all, whatever its program would do. */
  lemma LeavingEnds(vm: Vm, scene: Scene, r: RendererState, out: seq<Rgb>, shard: Shard, fading: Fading, b: Bound)
    requires LeavesAlone(scene, fading, b) && scene.nowUs >= fading.startedAtUs + 1_000 * fading.source.fadeOutMs
    ensures Rendered(vm, scene, shard, r, out) == Blank(r, out)
  {
    LeftFalls(fading.source.fadeOutMs, 0, SubSat(scene.nowUs, fading.startedAtUs));
    LoneLeaver(scene, fading, b);
  }

  /** Nothing is shown but one admitted source, and nothing leaves. */
  ghost predicate ArrivesAlone(scene: Scene, b: Bound) {
    && scene.stack.fading == [] && b in scene.bound && DistinctIds(scene.bound)
    && b.source.id in scene.stack.admitted
    && forall x :: x in scene.bound && x != b ==> x.source.id !in scene.stack.admitted
  }

  lemma {:induction false} OneAdmitted(bound: seq<Bound>, stack: StackState, b: Bound)
    requires b in bound && DistinctIds(bound) && b.source.id in stack.admitted
    requires forall x :: x in bound && x != b ==> x.source.id !in stack.admitted
    ensures AdmittedOnly(bound, stack) == [b]
  {
    if bound[0] == b {
      forall x | x in bound[1..] ensures x.source.id !in stack.admitted {
        var k :| 0 <= k < |bound[1..]| && bound[1..][k] == x;
        assert bound[k + 1] == x && bound[0].source.id != x.source.id;
      }
      NoneAdmitted(bound[1..], stack);
    } else {
      var k :| 0 <= k < |bound| && bound[k] == b;
      assert bound[1..][k - 1] == b;
      OneAdmitted(bound[1..], stack, b);
    }
  }

  lemma LoneArrival(scene: Scene, b: Bound)
    requires ArrivesAlone(scene, b)
    ensures PaintingOrder(scene) == [b]
  {
    OneAdmitted(scene.bound, scene.stack, b);
    assert [b][1..] == [];
  }

  lemma LoneArrivalLayers(scene: Scene, b: Bound)
    requires ArrivesAlone(scene, b)
    ensures var w := Fraction(b.source.fadeInMs, SubSat(scene.nowUs, b.source.pushedAtUs));
            Layers(scene) == if w <= 0 then [] else [Layer(b, w, false)]
  {
    LoneArrival(scene, b);
    OneIsShown(b, scene.nowUs);
    assert LeavingLayers([], scene.bound, scene.nowUs) == [];
  }

  /**
   An arriving source over a buffer: each LED it gives a colour ends with that colour laid over
   what was there at the part of its fade that has passed, whole once it is over; as long as that
   rounds down to nothing the frame changes nothing.
   */
  lemma ArrivingSourceFades(vm: Vm, scene: Scene, r: RendererState, out: seq<Rgb>, index: nat, b: Bound) returns (w: int)
    requires ArrivesAlone(scene, b) && index < |out| <= U16_MAX && Sorting.Distinct(b.leds)
    requires NeverFaults(FrameOf(vm, scene, r), b, |out|, Blank(r, out))
    ensures var span, elapsed := 1_000 * b.source.fadeInMs, SubSat(scene.nowUs, b.source.pushedAtUs);
            if elapsed >= span then w == ONE else w * span <= elapsed * ONE < w * span + span
    ensures var f, after := FrameOf(vm, scene, r), Rendered(vm, scene, Whole(|out|), r, out);
            var colour := ColourAt(f, b, r.history, index);
            && |after.out| == |out|
            && after.out[index] == (if w > 0 && colour.Some? then Laid(vm, out[index], colour.value, w) else out[index])
            && (w <= 0 ==> after == Blank(r, out))
  {
    w := Fraction(b.source.fadeInMs, SubSat(scene.nowUs, b.source.pushedAtUs));
    LoneArrivalLayers(scene, b);
    if SubSat(scene.nowUs, b.source.pushedAtUs) < 1_000 * b.source.fadeInMs {
      FadeIsProportional(b.source.fadeInMs, SubSat(scene.nowUs, b.source.pushedAtUs));
    }
    if w > 0 {
      OneLayer(FrameOf(vm, scene, r), Layer(b, w, false), Whole(|out|), Blank(r, out));
      SourcePaints(FrameOf(vm, scene, r), b, w, |out|, Blank(r, out), index);
    }
  }

  // ----------------------------------------------------------- fades over what is shown

  /** What an LED shows once the leaving sources of a list have had their turns, the last on top. */
  function Washed(f: Frame, fading: seq<Fading>, history: History, index: nat, under: Rgb): Rgb {
    if fading == [] then under
    else
      var last := |fading| - 1;
      var below, b := Washed(f, fading[..last], history, index, under), FindBound(f.scene.bound, fading[last].source.id);
      var w := LeftWeight(fading[last].source.fadeOutMs, SubSat(f.scene.nowUs, fading[last].startedAtUs));
      if b.None? || w <= 0 then below else Tinted(f, b.value, w, history, index, below)
  }

  /** The layer of one leaving source, if it has one. */
  function LeavingLayer(b: Option<Bound>, w: int): seq<Layer> {
    if b.None? || w <= 0 then [] else [Layer(b.value, w, true)]
  }

  lemma LayerTints(f: Frame, before: seq<Layer>, b: Option<Bound>, w: int, history: History, index: nat, under: Rgb)
    ensures var below := Painted(f, before, history, index, under);
            Painted(f, before + LeavingLayer(b, w), history, index, under)
            == if b.None? || w <= 0 then below else Tinted(f, b.value, w, history, index, below)
  {
    if b.Some? && w > 0 {
      PaintedSnoc(f, before, Layer(b.value, w, true), history, index, under);
    } else {
      assert before + [] == before;
    }
  }

  lemma LastLeaves(fading: seq<Fading>, bound: seq<Bound>, nowUs: nat)
    requires fading != []
    ensures var x := fading[|fading| - 1];
            LeavingLayers(fading, bound, nowUs)
            == LeavingLayers(fading[..|fading| - 1], bound, nowUs)
               + LeavingLayer(FindBound(bound, x.source.id), LeftWeight(x.source.fadeOutMs, SubSat(nowUs, x.startedAtUs)))
  {
    var x := fading[|fading| - 1];
    LeftIsTheRest(x.source.fadeOutMs, SubSat(nowUs, x.startedAtUs));
  }

  lemma {:induction false} LeavingWash(f: Frame, fading: seq<Fading>, history: History, index: nat, under: Rgb)
    ensures Painted(f, LeavingLayers(fading, f.scene.bound, f.scene.nowUs), history, index, under)
            == Washed(f, fading, history, index, under)
  {
    if fading != [] {
      var last := |fading| - 1;
      LeavingWash(f, fading[..last], history, index, under);
      LastLeaves(fading, f.scene.bound, f.scene.nowUs);
      LayerTints(f, LeavingLayers(fading[..last], f.scene.bound, f.scene.nowUs),
                 FindBound(f.scene.bound, fading[last].source.id),
                 LeftWeight(fading[last].source.fadeOutMs, SubSat(f.scene.nowUs, fading[last].startedAtUs)),
                 history, index, under);
    }
  }

  lemma PaintedSnoc(f: Frame, layers: seq<Layer>, layer: Layer, history: History, index: nat, under: Rgb)
    ensures Painted(f, layers + [layer], history, index, under)
            == Tinted(f, layer.bound, layer.alpha, history, index, Painted(f, layers, history, index, under))
  {
    assert (layers + [layer])[..|layers|] == layers;
  }

  lemma {:induction false} PaintedAppend(f: Frame, a: seq<Layer>, b: seq<Layer>, history: History, index: nat, under: Rgb)
    ensures Painted(f, a + b, history, index, under) == Painted(f, b, history, index, Painted(f, a, history, index, under))
    decreases |b|
  {
    if b == [] {
      assert a + b == a;
    } else {
      var last := |b| - 1;
      assert (a + b)[..|a + b| - 1] == a + b[..last];
      PaintedAppend(f, a, b[..last], history, index, under);
    }
  }

  /** The sources that leave are different ones, and none of them is shown again. */
  ghost predicate LeavingApart(stack: StackState) {
    && (forall i, j :: 0 <= i < j < |stack.fading| ==> stack.fading[i].source.id != stack.fading[j].source.id)
    && (forall x :: x in stack.fading ==> x.source.id !in stack.admitted)
  }

  ghost predicate FromFading(layers: seq<Layer>, fading: seq<Fading>, bound: seq<Bound>) {
    && DistinctLayers(layers)
    && forall layer :: layer in layers ==>
         layer.bound in bound && exists x :: x in fading && x.source.id == layer.bound.source.id
  }

  lemma {:induction false} LeavingMembers(fading: seq<Fading>, bound: seq<Bound>, nowUs: nat)
    requires forall i, j :: 0 <= i < j < |fading| ==> fading[i].source.id != fading[j].source.id
    ensures FromFading(LeavingLayers(fading, bound, nowUs), fading, bound)
  {
    if fading != [] {
      var last := |fading| - 1;
      var before, all := LeavingLayers(fading[..last], bound, nowUs), LeavingLayers(fading, bound, nowUs);
      LeavingMembers(fading[..last], bound, nowUs);
      FoundIsBound(bound, fading[last].source.id);
      assert fading[last] in fading;
      forall layer | layer in all ensures layer.bound in bound && exists x :: x in fading && x.source.id == layer.bound.source.id {
        if layer in before {
          var x :| x in fading[..last] && x.source.id == layer.bound.source.id;
          assert x in fading;
        }
      }
      forall i, j | 0 <= i < j < |all| ensures all[i].bound.source.id != all[j].bound.source.id {
        if j >= |before| {
          assert all[i] in before;
          var x :| x in fading[..last] && x.source.id == all[i].bound.source.id;
          var k :| 0 <= k < last && fading[..last][k] == x;
        }
      }
    }
  }

  /** The colour of the highest-ranked shown source that gives the LED one, or what was there. */
  ghost predicate IsBase(f: Frame, history: History, index: nat, under: Rgb, base: Rgb) {
    && ((forall b :: !Paints(f, b, history, index)) ==> base == under)
    && (forall b :: IsTop(f, b, history, index) ==> base == ColourAt(f, b, history, index).value)
    && ((exists b :: Paints(f, b, history, index)) ==> exists b :: IsTop(f, b, history, index))
  }

  /** Every source that is not leaving has fully arrived, and no zone names an LED twice. */
  ghost predicate AllArrived(scene: Scene) {
    forall b :: b in scene.bound ==>
      Sorting.Distinct(b.leds) && scene.nowUs >= b.source.pushedAtUs + 1_000 * b.source.fadeInMs
  }

  lemma ArrivedShowsWhole(b: Bound, nowUs: nat)
    requires nowUs >= b.source.pushedAtUs + 1_000 * b.source.fadeInMs
    ensures b.source.FadeInAlpha(nowUs) == ONE
  {
    FadeEnds(b.source.fadeInMs, SubSat(nowUs, b.source.pushedAtUs));
  }

  /** The shown layers are the painting order, each in full. */
  lemma ShownAreTheOrder(scene: Scene)
    requires Ranked(scene.bound) && AllArrived(scene)
    ensures var shown, order := ShownLayers(PaintingOrder(scene), scene.nowUs), PaintingOrder(scene);
            && |shown| == |order| && (forall k :: 0 <= k < |order| ==> shown[k].bound == order[k])
            && Opaque(shown) && DistinctLeds(shown) && DistinctLayers(shown)
            && forall layer :: layer in shown ==> layer.bound.source.id in scene.stack.admitted
  {
    var shown, order := ShownLayers(PaintingOrder(scene), scene.nowUs), PaintingOrder(scene);
    OrderRises(scene);
    forall b | b in order ensures b.source.FadeInAlpha(scene.nowUs) == ONE { ArrivedShowsWhole(b, scene.nowUs); }
    FullLayers(order, scene.nowUs);
    forall layer | layer in shown
      ensures layer.alpha >= ONE && Sorting.Distinct(layer.bound.leds) && layer.bound.source.id in scene.stack.admitted
    {
      var k :| 0 <= k < |shown| && shown[k] == layer;
      assert order[k] in order;
    }
  }

  /** What the shown layers alone come to. */
  lemma ShownIsBase(f: Frame, history: History, index: nat, under: Rgb)
    requires Ranked(f.scene.bound) && AllArrived(f.scene)
    ensures IsBase(f, history, index, under,
                   Painted(f, ShownLayers(PaintingOrder(f.scene), f.scene.nowUs), history, index, under))
  {
    var shown, order := ShownLayers(PaintingOrder(f.scene), f.scene.nowUs), PaintingOrder(f.scene);
    ShownAreTheOrder(f.scene);
    var at := LastPainterShows(f, shown, history, index, under);
    if at.Some? {
      TopPainterIs(f, order, shown, history, index, at.value);
    } else {
      NobodyPaints(f, order, shown, history, index);
    }
  }

  lemma LayersAreApart(scene: Scene)
    requires Ranked(scene.bound) && AllArrived(scene) && LeavingApart(scene.stack)
    ensures DistinctLeds(Layers(scene)) && DistinctLayers(Layers(scene))
  {
    var shown := ShownLayers(PaintingOrder(scene), scene.nowUs);
    var leaving := LeavingLayers(scene.stack.fading, scene.bound, scene.nowUs);
    ShownAreTheOrder(scene);
    LeavingMembers(scene.stack.fading, scene.bound, scene.nowUs);
    var all := Layers(scene);
    forall i, j | 0 <= i < j < |all| ensures all[i].bound.source.id != all[j].bound.source.id {
      if i < |shown| <= j {
        assert all[i] in shown && all[j] in leaving;
      }
    }
  }

  /**
   With fades: when no pixel faults, no two sources tie and none that leaves is shown again, each
   LED ends with the colour of the highest-ranked shown source that gives it one, or what was
   there, and over it in turn the colours of the leaving ones at what is left of their fades.
   */
  lemma HighestPainterUnderFades(vm: Vm, scene: Scene, r: RendererState, out: seq<Rgb>, index: nat) returns (base: Rgb)
    requires index < |out| <= U16_MAX && Ranked(scene.bound) && AllArrived(scene) && LeavingApart(scene.stack)
    requires RenderShards.LayersClean(FrameOf(vm, scene, r), Layers(scene), |out|, Blank(r, out))
    ensures var f, after := FrameOf(vm, scene, r), Rendered(vm, scene, Whole(|out|), r, out).out;
            && |after| == |out| && IsBase(f, r.history, index, out[index], base)
            && after[index] == Washed(f, scene.stack.fading, r.history, index, base)
  {
    var f := FrameOf(vm, scene, r);
    var shown := ShownLayers(PaintingOrder(scene), scene.nowUs);
    var leaving := LeavingLayers(scene.stack.fading, scene.bound, scene.nowUs);
    base := Painted(f, shown, r.history, index, out[index]);
    LayersAreApart(scene);
    LayersPaint(f, Layers(scene), |out|, Blank(r, out), index);
    PaintedAppend(f, shown, leaving, r.history, index, out[index]);
    LeavingWash(f, scene.stack.fading, r.history, index, base);
    ShownIsBase(f, r.history, index, out[index]);
  }
}

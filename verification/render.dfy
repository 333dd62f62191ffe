/**
 The render loop (render.rs): for each source from the bottom up, run its program on the
 LEDs of its zone that one core owns.

 The virtual machine is a parameter: what a frame section hoists is a function of the
 program, the time and the uniforms, and what a pixel section answers is a function of that
 and of the pixel's inputs. Fixed-point interpolation and projection are parameters too.
 */
module Rendering {
  import opened Arith
  import opened Wrappers
  import opened Sources
  import Sorting

  datatype Rgb = Rgb(r: int, g: int, b: int)

  datatype Output = EmitRgb(r: int, g: int, b: int) | EmitRgbw(r: int, g: int, b: int, w: int) | EmitCct | EmitNothing

  /** Programs, uniforms, hoisted registers, projections and faults are known only by their use. */
  type Program = nat
  type Uniforms = nat
  type Registers = nat
  type Projection = nat
  type Fault = nat

  type Prev = (int, int, int)

  datatype Led = Led(index: nat, world: (int, int, int), local: (int, int, int))

  datatype Projected = Projected(u: int, uv: Option<(int, int)>)

  datatype PixelInputs = PixelInputs(
    world: (int, int, int),
    local: (int, int, int),
    index: int,
    count: int,
    u: int,
    uv: (int, int),
    prev: Prev)

  datatype FrameRun = FrameRan(registers: Registers, spent: nat) | FrameFaulted(fault: Fault)

  datatype PixelRun = PixelRan(output: Output, prevOut: Prev, spent: nat) | PixelFaulted(fault: Fault, spent: nat)

  datatype Vm = Vm(
    frame: (Program, int, int, Uniforms) -> FrameRun,
    pixel: (Program, Registers, PixelInputs, Uniforms) -> PixelRun,
    project: (Projection, Led, nat) -> Projected,
    lerp: (int, int, int) -> int)
  {
    function Mix(under: Rgb, over: Rgb, t: int): Rgb {
      Rgb(lerp(under.r, over.r, t), lerp(under.g, over.g, t), lerp(under.b, over.b, t))
    }
  }

  /** A source with its program and its zone's LEDs on this device. */
  datatype Bound = Bound(source: Source, program: Program, leds: seq<nat>, count: nat, projection: Projection)

  /** What one call to `render` is given, beside the buffer. */
  datatype Scene = Scene(nowUs: nat, t: int, leds: seq<Led>, stack: StackState, bound: seq<Bound>, uniforms: Uniforms)

  /** A scene with the machine that renders it and the time since the last. */
  datatype Frame = Frame(vm: Vm, scene: Scene, dt: int)

  datatype RenderFault = ProgramFault(source: Uuid, fault: Fault)

  datatype FrameReport = FrameReport(rendered: seq<Uuid>, faults: seq<RenderFault>, spent: nat)

  type History = map<(Uuid, nat), Prev>

  datatype RendererState = RendererState(lastT: Option<int>, history: History, machines: set<Uuid>)

  /** `u32::saturating_add`. */
  function AddSat32(a: nat, b: nat): nat { Min(a + b, U32_MAX) }

  /** `n as i16`. */
  function AsI16(n: nat): int { (n + 0x8000) % 0x1_0000 - 0x8000 }

  function ColourOf(output: Output): Option<Rgb> {
    match output
    case EmitRgb(r, g, b) => Some(Rgb(r, g, b))
    case EmitRgbw(r, g, b, _) => Some(Rgb(r, g, b))
    case EmitCct => None
    case EmitNothing => None
  }

  // ------------------------------------------------------------------------- shards

  datatype Shard = Shard(first: nat, len: nat) {
    function Slot(index: nat): Option<nat> {
      if first <= index < first + len then Some(index - first) else None
    }
  }

  function Whole(len: nat): Shard { Shard(0, len) }

  /** Share `index` of `of`; the remainder goes to the earlier shares. */
  function ShardOf(index: nat, of: nat, len: nat): Option<Shard> {
    if of == 0 || index >= of then None
    else
      var base, extra := len / of, len % of;
      Some(Shard(index * base + Min(index, extra), base + if index < extra then 1 else 0))
  }

  // --------------------------------------------------------------------- one LED's place

  function SearchLed(leds: seq<Led>, index: nat): (led: Option<Led>)
    ensures led.Some? ==> led.value in leds && led.value.index == index
    ensures led.None? ==> forall l :: l in leds ==> l.index != index
  {
    if leds == [] then None
    else if leds[0].index == index then Some(leds[0])
    else SearchLed(leds[1..], index)
  }

  /** The LED at the position its index names if it is there, and otherwise the first found. */
  function FindLed(leds: seq<Led>, index: nat): Option<Led> {
    if index < |leds| && leds[index].index == index then Some(leds[index]) else SearchLed(leds, index)
  }

  /** The short cut never changes the answer on a device that lists each index once. */
  lemma {:induction false} ShortCutIsSearch(leds: seq<Led>, index: nat)
    requires forall i, j :: 0 <= i < j < |leds| ==> leds[i].index != leds[j].index
    ensures FindLed(leds, index) == SearchLed(leds, index)
  {
    if index < |leds| && leds[index].index == index {
      SearchFinds(leds, index);
    }
  }

  lemma {:induction false} SearchFinds(leds: seq<Led>, at: nat)
    requires at < |leds| && forall j :: 0 <= j < at ==> leds[j].index != leds[at].index
    ensures SearchLed(leds, leds[at].index) == Some(leds[at])
  {
    if at > 0 {
      assert leds[0].index != leds[at].index;
      SearchFinds(leds[1..], at - 1);
    }
  }

  // -------------------------------------------------------------------- one source's pixels

  /** The state of the pixel loop; a fault stops it. */
  datatype Pass = Pass(out: seq<Rgb>, history: History, contributed: bool, fault: Option<Fault>, spent: nat)

  function PrevOf(history: History, id: Uuid, index: nat): Prev {
    if (id, index) in history then history[(id, index)] else (0, 0, 0)
  }

  function InputsOf(f: Frame, b: Bound, ordinal: nat, index: nat, led: Led, prev: Prev): PixelInputs {
    var projected := f.vm.project(b.projection, led, ordinal % 0x1_0000);
    PixelInputs(led.world, led.local, AsI16(index), AsI16(b.count), projected.u,
                if projected.uv.Some? then projected.uv.value else (0, 0), prev)
  }

  /** What the pixel section answers for one LED. */
  function Shaded(f: Frame, b: Bound, registers: Registers, ordinal: nat, led: Led, prev: Prev): PixelRun
    requires ordinal < |b.leds|
  {
    f.vm.pixel(b.program, registers, InputsOf(f, b, ordinal, b.leds[ordinal], led, prev), f.scene.uniforms)
  }

  function Blend(f: Frame, under: Rgb, over: Rgb, alpha: int): Rgb {
    if alpha >= ONE then over else f.vm.Mix(under, over, alpha)
  }

  /** Where LED `index` is in the buffer, if this core owns it, it exists and it fits. */
  function Target(f: Frame, shard: Shard, index: nat, room: nat): Option<nat> {
    var slot := shard.Slot(index);
    if slot.Some? && FindLed(f.scene.leds, index).Some? && slot.value < room then slot else None
  }

  function AfterPixel(f: Frame, b: Bound, registers: Registers, alpha: int, shard: Shard, p: Pass, ordinal: nat): Pass
    requires ordinal < |b.leds|
  {
    var index := b.leds[ordinal];
    var target := Target(f, shard, index, |p.out|);
    if p.fault.Some? || target.None? then p
    else
      var led := FindLed(f.scene.leds, index).value;
      match Shaded(f, b, registers, ordinal, led, PrevOf(p.history, b.source.id, index))
      case PixelFaulted(fault, spent) => p.(fault := Some(fault), spent := AddSat32(p.spent, spent))
      case PixelRan(output, prevOut, spent) =>
        var history := p.history[(b.source.id, index) := prevOut];
        match ColourOf(output)
        case None => p.(history := history, spent := AddSat32(p.spent, spent))
        case Some(colour) =>
          Pass(p.out[target.value := Blend(f, p.out[target.value], colour, alpha)],
               history, true, None, AddSat32(p.spent, spent))
  }

  /** The pass after the first `n` LEDs of the zone. */
  function AfterPixels(f: Frame, b: Bound, registers: Registers, alpha: int, shard: Shard, p: Pass, n: nat): Pass
    requires n <= |b.leds|
  {
    if n == 0 then p
    else AfterPixel(f, b, registers, alpha, shard, AfterPixels(f, b, registers, alpha, shard, p, n - 1), n - 1)
  }

  /** Once a pixel has faulted the rest of the zone is left alone. */
  lemma {:induction false} FaultStops(f: Frame, b: Bound, registers: Registers, alpha: int, shard: Shard, p: Pass,
                                      n: nat, m: nat)
    requires n <= m <= |b.leds|
    requires AfterPixels(f, b, registers, alpha, shard, p, n).fault.Some?
    ensures AfterPixels(f, b, registers, alpha, shard, p, m) == AfterPixels(f, b, registers, alpha, shard, p, n)
  {
    if n < m { FaultStops(f, b, registers, alpha, shard, p, n, m - 1); }
  }

  // ------------------------------------------------------------------------- one source

  /** What one core has made of a frame so far. */
  datatype Canvas = Canvas(out: seq<Rgb>, history: History, machines: set<Uuid>, report: FrameReport)

  /** Whether any LED of the source is in the shard. */
  predicate Touches(b: Bound, shard: Shard) {
    exists k :: 0 <= k < |b.leds| && shard.Slot(b.leds[k]).Some?
  }

  function Hoisted(f: Frame, b: Bound): FrameRun {
    f.vm.frame(b.program, f.scene.t, f.dt, f.scene.uniforms)
  }

  function StartOf(c: Canvas): Pass { Pass(c.out, c.history, false, None, 0) }

  /** The pixel loop of a source whose frame section ran. */
  function PassOf(f: Frame, b: Bound, registers: Registers, alpha: int, shard: Shard, c: Canvas): Pass {
    AfterPixels(f, b, registers, alpha, shard, StartOf(c), |b.leds|)
  }

  function WithFault(report: FrameReport, id: Uuid, fault: Option<Fault>): FrameReport {
    if fault.None? then report else report.(faults := report.faults + [ProgramFault(id, fault.value)])
  }

  function AfterSource(f: Frame, b: Bound, alpha: int, shard: Shard, c: Canvas): (Canvas, bool) {
    if b.leds == [] || !Touches(b, shard) then (c, false)
    else
      var machines := c.machines + {b.source.id};
      match Hoisted(f, b)
      case FrameFaulted(fault) =>
        (c.(machines := machines, report := WithFault(c.report, b.source.id, Some(fault))), false)
      case FrameRan(registers, frameSpent) =>
        var p := PassOf(f, b, registers, alpha, shard, c);
        var report := WithFault(c.report, b.source.id, p.fault);
        (Canvas(p.out, p.history, machines, report.(spent := AddSat32(AddSat32(report.spent, frameSpent), p.spent))),
         p.contributed)
  }

  // -------------------------------------------------------------------------- one frame

  /** A source at the weight it has this frame. */
  datatype Layer = Layer(bound: Bound, alpha: int, fading: bool)

  /** Lower priority first, then earlier pushed: the order of painting. */
  predicate PaintedNoLater(a: Bound, b: Bound) {
    a.source.priority < b.source.priority ||
    (a.source.priority == b.source.priority && a.source.pushedAtUs <= b.source.pushedAtUs)
  }

  function AdmittedOnly(bound: seq<Bound>, stack: StackState): seq<Bound> {
    if bound == [] then []
    else (if bound[0].source.id in stack.admitted then [bound[0]] else []) + AdmittedOnly(bound[1..], stack)
  }

  function ShownLayers(order: seq<Bound>, nowUs: nat): seq<Layer> {
    if order == [] then []
    else
      var last := |order| - 1;
      var alpha := order[last].source.FadeInAlpha(nowUs);
      ShownLayers(order[..last], nowUs) + if alpha <= 0 then [] else [Layer(order[last], alpha, false)]
  }

  function FindBound(bound: seq<Bound>, id: Uuid): Option<Bound> {
    if bound == [] then None
    else if bound[0].source.id == id then Some(bound[0])
    else FindBound(bound[1..], id)
  }

  function LeavingLayers(fading: seq<Fading>, bound: seq<Bound>, nowUs: nat): seq<Layer> {
    if fading == [] then []
    else
      var last := |fading| - 1;
      var b := FindBound(bound, fading[last].source.id);
      var remaining := ONE - fading[last].Progress(nowUs);
      LeavingLayers(fading[..last], bound, nowUs)
      + if b.None? || remaining <= 0 then [] else [Layer(b.value, remaining, true)]
  }

  function PaintingOrder(scene: Scene): seq<Bound> {
    Sorting.Sort(AdmittedOnly(scene.bound, scene.stack), PaintedNoLater)
  }

  /** Everything a frame paints, from the bottom up. */
  function Layers(scene: Scene): seq<Layer> {
    ShownLayers(PaintingOrder(scene), scene.nowUs) + LeavingLayers(scene.stack.fading, scene.bound, scene.nowUs)
  }

  function AfterLayer(f: Frame, layer: Layer, shard: Shard, c: Canvas): Canvas {
    var (after, contributed) := AfterSource(f, layer.bound, layer.alpha, shard, c);
    if contributed && !layer.fading
    then after.(report := after.report.(rendered := after.report.rendered + [layer.bound.source.id]))
    else after
  }

  function AfterLayers(f: Frame, layers: seq<Layer>, shard: Shard, c: Canvas): Canvas {
    if layers == [] then c
    else
      var last := |layers| - 1;
      AfterLayer(f, layers[last], shard, AfterLayers(f, layers[..last], shard, c))
  }

  lemma LayerAdded(f: Frame, before: seq<Layer>, layer: Layer, shard: Shard, c: Canvas)
    ensures AfterLayers(f, before + [layer], shard, c) == AfterLayer(f, layer, shard, AfterLayers(f, before, shard, c))
  {
    assert (before + [layer])[..|before|] == before;
  }

  function DtOf(lastT: Option<int>, t: int): int {
    if lastT.Some? && t >= lastT.value then t - lastT.value else 0
  }

  function FrameOf(vm: Vm, scene: Scene, r: RendererState): Frame {
    Frame(vm, scene, DtOf(r.lastT, scene.t))
  }

  function BlankReport(): FrameReport { FrameReport([], [], 0) }

  /** The canvas one core ends a frame with. */
  function Rendered(vm: Vm, scene: Scene, shard: Shard, r: RendererState, out: seq<Rgb>): Canvas {
    AfterLayers(FrameOf(vm, scene, r), Layers(scene), shard, Canvas(out, r.history, r.machines, BlankReport()))
  }

  // ------------------------------------------------------------------------- reports

  /** Another core's report folded into one. */
  function Merged(report: FrameReport, other: FrameReport): FrameReport {
    FrameReport(Joined(report.rendered, other.rendered),
                report.faults + other.faults,
                AddSat32(report.spent, other.spent))
  }

  function Joined(ids: seq<Uuid>, more: seq<Uuid>): (r: seq<Uuid>)
    ensures forall id :: id in r <==> id in ids || id in more
    ensures ids <= r && (Sorting.Distinct(ids) ==> Sorting.Distinct(r))
  {
    if more == [] then ids
    else
      var before := Joined(ids, more[..|more| - 1]);
      var id := more[|more| - 1];
      assert more == more[..|more| - 1] + [id];
      if id in before then before else before + [id]
  }

  method Merge(report: FrameReport, other: FrameReport) returns (r: FrameReport)
    ensures r == Merged(report, other)
    ensures forall id :: id in r.rendered <==> id in report.rendered || id in other.rendered
    ensures report.rendered <= r.rendered && (Sorting.Distinct(report.rendered) ==> Sorting.Distinct(r.rendered))
  {
    var rendered := report.rendered;
    for k := 0 to |other.rendered|
      invariant rendered == Joined(report.rendered, other.rendered[..k])
    {
      assert other.rendered[..k + 1][..k] == other.rendered[..k];
      if other.rendered[k] !in rendered {
        rendered := rendered + [other.rendered[k]];
      }
    }
    assert other.rendered[..|other.rendered|] == other.rendered;
    r := FrameReport(rendered, report.faults + other.faults, AddSat32(report.spent, other.spent));
  }

  // ------------------------------------------------------------------------ the renderer

  class Renderer {
    var lastT: Option<int>
    var history: History
    var machines: set<Uuid>

    ghost function State(): RendererState
      reads this
    {
      RendererState(lastT, history, machines)
    }

    constructor ()
      ensures State() == RendererState(None, map[], {})
    {
      lastT, history, machines := None, map[], {};
    }

    /** A source that has left keeps nothing, and nothing else is touched. */
    method Forget(source: Uuid)
      modifies this`history, this`machines
      ensures machines == old(machines) - {source}
      ensures forall key :: key in history <==> key in old(history) && key.0 != source
      ensures forall key :: key in history ==> history[key] == old(history)[key]
    {
      machines := machines - {source};
      history := map key | key in history && key.0 != source :: history[key];
    }

    method Render(vm: Vm, scene: Scene, out: array<Rgb>) returns (report: FrameReport)
      modifies this, out
      ensures var shard := Whole(Min(out.Length, U16_MAX));
              && Canvas(out[..], history, machines, report) == Rendered(vm, scene, shard, old(State()), old(out[..]))
              && lastT == Some(scene.t)
    {
      report := RenderShard(vm, scene, out, Whole(Min(out.Length, U16_MAX)));
    }

    method RenderShard(vm: Vm, scene: Scene, out: array<Rgb>, shard: Shard) returns (report: FrameReport)
      modifies this, out
      ensures Canvas(out[..], history, machines, report) == Rendered(vm, scene, shard, old(State()), old(out[..]))
      ensures lastT == Some(scene.t)
    {
      var f := Frame(vm, scene, DtOf(lastT, scene.t));
      lastT := Some(scene.t);
      ghost var start := Canvas(out[..], history, machines, BlankReport());
      report := RenderShown(f, out, shard);
      ghost var shown := ShownLayers(PaintingOrder(scene), scene.nowUs);
      report := RenderLeaving(f, out, report, shard, shown, start);
    }

    /** Bottom to top, so that a source overwrites the ones below it. */
    method RenderShown(f: Frame, out: array<Rgb>, shard: Shard) returns (report: FrameReport)
      modifies this`history, this`machines, out
      ensures Canvas(out[..], history, machines, report)
              == AfterLayers(f, ShownLayers(PaintingOrder(f.scene), f.scene.nowUs), shard,
                             Canvas(old(out[..]), old(history), old(machines), BlankReport()))
    {
      report := BlankReport();
      var order := Sorting.Sort(AdmittedOnly(f.scene.bound, f.scene.stack), PaintedNoLater);
      ghost var start := Canvas(out[..], history, machines, report);
      for k := 0 to |order|
        invariant Canvas(out[..], history, machines, report)
                  == AfterLayers(f, ShownLayers(order[..k], f.scene.nowUs), shard, start)
      {
        assert order[..k + 1][..k] == order[..k];
        ghost var before := ShownLayers(order[..k], f.scene.nowUs);
        var alpha := order[k].source.FadeInAlpha(f.scene.nowUs);
        if alpha <= 0 {
          assert ShownLayers(order[..k + 1], f.scene.nowUs) == before;
          continue;
        }
        LayerAdded(f, before, Layer(order[k], alpha, false), shard, start);
        var contributed;
        contributed, report := RenderSource(f, order[k], out, report, alpha, shard);
        if contributed {
          report := report.(rendered := report.rendered + [order[k].source.id]);
        }
      }
      assert order[..|order|] == order;
    }

    /** Then what is still fading out, over the result. */
    method RenderLeaving(f: Frame, out: array<Rgb>, before: FrameReport, shard: Shard, ghost shown: seq<Layer>, ghost start: Canvas)
      returns (report: FrameReport)
      requires Canvas(out[..], history, machines, before) == AfterLayers(f, shown, shard, start)
      modifies this`history, this`machines, out
      ensures Canvas(out[..], history, machines, report)
              == AfterLayers(f, shown + LeavingLayers(f.scene.stack.fading, f.scene.bound, f.scene.nowUs), shard, start)
    {
      report := before;
      var fading := f.scene.stack.fading;
      assert shown + LeavingLayers(fading[..0], f.scene.bound, f.scene.nowUs) == shown;
      for k := 0 to |fading|
        invariant Canvas(out[..], history, machines, report)
                  == AfterLayers(f, shown + LeavingLayers(fading[..k], f.scene.bound, f.scene.nowUs), shard, start)
      {
        assert fading[..k + 1][..k] == fading[..k];
        ghost var painted := shown + LeavingLayers(fading[..k], f.scene.bound, f.scene.nowUs);
        var b := FindBound(f.scene.bound, fading[k].source.id);
        var remaining := ONE - fading[k].Progress(f.scene.nowUs);
        if b.None? || remaining <= 0 {
          assert shown + LeavingLayers(fading[..k + 1], f.scene.bound, f.scene.nowUs) == painted;
          continue;
        }
        ghost var layer := Layer(b.value, remaining, true);
        assert shown + LeavingLayers(fading[..k + 1], f.scene.bound, f.scene.nowUs) == painted + [layer];
        LayerAdded(f, painted, layer, shard, start);
        var contributed;
        contributed, report := RenderSource(f, b.value, out, report, remaining, shard);
      }
      assert fading[..|fading|] == fading;
    }

    method RenderSource(f: Frame, b: Bound, out: array<Rgb>, before: FrameReport, alpha: int, shard: Shard)
      returns (contributed: bool, report: FrameReport)
      modifies this`history, this`machines, out
      ensures (Canvas(out[..], history, machines, report), contributed)
              == AfterSource(f, b, alpha, shard, Canvas(old(out[..]), old(history), old(machines), before))
    {
      report := before;
      if b.leds == [] || !Touches(b, shard) {
        return false, report;
      }
      machines := machines + {b.source.id};
      var hoisted := f.vm.frame(b.program, f.scene.t, f.dt, f.scene.uniforms);
      if hoisted.FrameFaulted? {
        return false, report.(faults := report.faults + [ProgramFault(b.source.id, hoisted.fault)]);
      }
      contributed := false;
      var fault := None;
      var pixelSpent: nat := 0;
      ghost var start := Pass(out[..], history, false, None, 0);
      for ordinal := 0 to |b.leds|
        invariant fault.None?
        invariant machines == old(machines) + {b.source.id} && report == before
        invariant Pass(out[..], history, contributed, fault, pixelSpent)
                  == AfterPixels(f, b, hoisted.registers, alpha, shard, start, ordinal)
      {
        var index := b.leds[ordinal];
        var slot := shard.Slot(index);
        if slot.None? {
          continue;
        }
        var led := FindLed(f.scene.leds, index);
        if led.None? {
          continue;
        }
        if slot.value >= out.Length {
          continue;
        }
        var prev := PrevOf(history, b.source.id, index);
        var outcome := f.vm.pixel(b.program, hoisted.registers, InputsOf(f, b, ordinal, index, led.value, prev), f.scene.uniforms);
        pixelSpent := AddSat32(pixelSpent, outcome.spent);
        match outcome {
          case PixelRan(output, prevOut, _) =>
            history := history[(b.source.id, index) := prevOut];
            var colour := ColourOf(output);
            if colour.Some? {
              out[slot.value] := if alpha >= ONE then colour.value else f.vm.Mix(out[slot.value], colour.value, alpha);
              contributed := true;
            }
          case PixelFaulted(reason, _) =>
            fault := Some(reason);
            FaultStops(f, b, hoisted.registers, alpha, shard, start, ordinal + 1, |b.leds|);
            break;
        }
      }
      assert Pass(out[..], history, contributed, fault, pixelSpent)
             == AfterPixels(f, b, hoisted.registers, alpha, shard, start, |b.leds|);
      if fault.Some? {
        report := report.(faults := report.faults + [ProgramFault(b.source.id, fault.value)]);
      }
      report := report.(spent := AddSat32(AddSat32(report.spent, hoisted.spent), pixelSpent));
    }
  }
}

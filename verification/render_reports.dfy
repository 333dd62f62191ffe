/**
 What a frame reports (render.rs): the shown sources that gave some LED a colour, in painting
 order and no leaving one, and all that was spent, up to the most a counter holds.
 */
module RenderReports {
  import opened Arith
  import opened Wrappers
  import opened Sources
  import opened Rendering
  import opened RenderPainting
  import RenderShards
  import Sorting

  /** A source gives one of the first `n` LEDs a colour. */
  ghost predicate GivesColour(f: Frame, b: Bound, history: History, n: nat) {
    exists index :: 0 <= index < n && ColourAt(f, b, history, index).Some?
  }

  /** What the pixel section spends on an LED of the zone, if it runs there. */
  function SpentAt(f: Frame, b: Bound, registers: Registers, history: History, n: nat, ordinal: nat): nat
    requires ordinal < |b.leds|
  {
    var led := FindLed(f.scene.leds, b.leds[ordinal]);
    if b.leds[ordinal] >= n || led.None? then 0
    else Shaded(f, b, registers, ordinal, led.value, PrevOf(history, b.source.id, b.leds[ordinal])).spent
  }

  function SpentOnPixels(f: Frame, b: Bound, registers: Registers, history: History, n: nat, m: nat): nat
    requires m <= |b.leds|
  {
    if m == 0 then 0 else SpentOnPixels(f, b, registers, history, n, m - 1) + SpentAt(f, b, registers, history, n, m - 1)
  }

  /** What a source spends in a frame: nothing if it has no LED here, and nothing that is counted if its frame section faults. */
  function SpentOn(f: Frame, b: Bound, history: History, n: nat): nat {
    if !Touches(b, Whole(n)) then 0
    else
      match Hoisted(f, b)
      case FrameFaulted(_) => 0
      case FrameRan(registers, spent) => spent + SpentOnPixels(f, b, registers, history, n, |b.leds|)
  }

  // ------------------------------------------------------------------------ one source

  /** Some of the first `m` LEDs of the zone got a colour. */
  ghost predicate SomeColoured(f: Frame, b: Bound, history: History, n: nat, m: nat)
    requires m <= |b.leds|
  {
    exists k :: 0 <= k < m && b.leds[k] < n && ColourAt(f, b, history, b.leds[k]).Some?
  }

  /** What the pixel loop reports of its first `m` LEDs. */
  ghost predicate ReportsPixels(f: Frame, b: Bound, registers: Registers, n: nat, start: Pass, end: Pass, m: nat)
    requires m <= |b.leds|
  {
    && (end.contributed <==> start.contributed || SomeColoured(f, b, start.history, n, m))
    && end.spent == Min(start.spent + SpentOnPixels(f, b, registers, start.history, n, m), U32_MAX)
  }

  lemma OnePixelReports(f: Frame, b: Bound, registers: Registers, alpha: int, n: nat, p: Pass, history: History, k: nat)
    requires k < |b.leds| && n <= |p.out| && p.fault.None? && Sorting.Distinct(b.leds)
    requires Hoisted(f, b).FrameRan? && Hoisted(f, b).registers == registers
    requires AfterPixel(f, b, registers, alpha, Whole(n), p, k).fault.None?
    requires b.leds[k] < n ==> PrevOf(p.history, b.source.id, b.leds[k]) == PrevOf(history, b.source.id, b.leds[k])
    ensures var end := AfterPixel(f, b, registers, alpha, Whole(n), p, k);
            && (end.contributed <==> p.contributed || (b.leds[k] < n && ColourAt(f, b, history, b.leds[k]).Some?))
            && (p.spent <= U32_MAX ==> end.spent == Min(p.spent + SpentAt(f, b, registers, history, n, k), U32_MAX))
  {
    OrdinalIs(b.leds, k);
  }

  lemma OneMoreColoured(f: Frame, b: Bound, history: History, n: nat, m: nat)
    requires m < |b.leds|
    ensures SomeColoured(f, b, history, n, m + 1)
            <==> SomeColoured(f, b, history, n, m) || (b.leds[m] < n && ColourAt(f, b, history, b.leds[m]).Some?)
  {
  }

  lemma NotYetRun(f: Frame, b: Bound, registers: Registers, alpha: int, n: nat, start: Pass, m: nat)
    requires m < |b.leds| && n <= |start.out| && Sorting.Distinct(b.leds) && start.fault.None?
    requires Hoisted(f, b).FrameRan? && Hoisted(f, b).registers == registers
    requires AfterPixels(f, b, registers, alpha, Whole(n), start, |b.leds|).fault.None?
    ensures var p := AfterPixels(f, b, registers, alpha, Whole(n), start, m);
            b.leds[m] < n ==> PrevOf(p.history, b.source.id, b.leds[m]) == PrevOf(start.history, b.source.id, b.leds[m])
  {
    if b.leds[m] < n {
      assert b.leds[m] !in b.leds[..m];
      PassPaints(f, b, registers, alpha, n, start, b.leds[m], m);
    }
  }

  lemma {:induction false} PixelsReport(f: Frame, b: Bound, registers: Registers, alpha: int, n: nat, start: Pass, m: nat)
    requires m <= |b.leds| && n <= |start.out| && Sorting.Distinct(b.leds) && start.fault.None? && start.spent <= U32_MAX
    requires Hoisted(f, b).FrameRan? && Hoisted(f, b).registers == registers
    requires AfterPixels(f, b, registers, alpha, Whole(n), start, |b.leds|).fault.None?
    ensures ReportsPixels(f, b, registers, n, start, AfterPixels(f, b, registers, alpha, Whole(n), start, m), m)
  {
    if m > 0 {
      var p := AfterPixels(f, b, registers, alpha, Whole(n), start, m - 1);
      PixelsReport(f, b, registers, alpha, n, start, m - 1);
      RenderShards.NoFaultBefore(f, b, registers, alpha, Whole(n), start, m - 1);
      RenderShards.NoFaultBefore(f, b, registers, alpha, Whole(n), start, m);
      RenderShards.PixelsKeepLength(f, b, registers, alpha, Whole(n), start, m - 1);
      NotYetRun(f, b, registers, alpha, n, start, m - 1);
      OnePixelReports(f, b, registers, alpha, n, p, start.history, m - 1);
      OneMoreColoured(f, b, start.history, n, m - 1);
    }
  }

  lemma ColouredIsGiven(f: Frame, b: Bound, history: History, n: nat)
    ensures SomeColoured(f, b, history, n, |b.leds|) <==> GivesColour(f, b, history, n)
  {
    if GivesColour(f, b, history, n) {
      var index :| 0 <= index < n && ColourAt(f, b, history, index).Some?;
      var k := OrdinalOf(b.leds, index).value;
      assert b.leds[k] == index;
    }
  }

  lemma GiversTouch(f: Frame, b: Bound, history: History, n: nat)
    requires GivesColour(f, b, history, n)
    ensures Touches(b, Whole(n)) && Hoisted(f, b).FrameRan?
  {
    var index :| 0 <= index < n && ColourAt(f, b, history, index).Some?;
    var k := OrdinalOf(b.leds, index).value;
    assert Whole(n).Slot(b.leds[k]).Some?;
  }

  /** What a source adds to the report. */
  lemma SourceReports(f: Frame, b: Bound, alpha: int, n: nat, c: Canvas)
    requires n <= |c.out| && Sorting.Distinct(b.leds) && RenderShards.SourceClean(f, b, alpha, n, c)
    requires c.report.spent <= U32_MAX
    ensures var (end, contributed) := AfterSource(f, b, alpha, Whole(n), c);
            && (contributed <==> GivesColour(f, b, c.history, n)) && end.report.rendered == c.report.rendered
            && end.report.spent == Min(c.report.spent + SpentOn(f, b, c.history, n), U32_MAX)
  {
    if Touches(b, Whole(n)) && Hoisted(f, b).FrameRan? {
      PixelsReport(f, b, Hoisted(f, b).registers, alpha, n, StartOf(c), |b.leds|);
      ColouredIsGiven(f, b, c.history, n);
    } else if GivesColour(f, b, c.history, n) {
      GiversTouch(f, b, c.history, n);
    }
  }

  // ------------------------------------------------------------------------ the layers

  /** The shown sources of a list that give some LED a colour, in order. */
  ghost function Painters(f: Frame, layers: seq<Layer>, history: History, n: nat): seq<Uuid> {
    if layers == [] then []
    else
      var top := layers[|layers| - 1];
      Painters(f, layers[..|layers| - 1], history, n)
      + if !top.fading && GivesColour(f, top.bound, history, n) then [top.bound.source.id] else []
  }

  ghost function SpentOnAll(f: Frame, layers: seq<Layer>, history: History, n: nat): nat {
    if layers == [] then 0
    else SpentOnAll(f, layers[..|layers| - 1], history, n) + SpentOn(f, layers[|layers| - 1].bound, history, n)
  }

  /** What a source makes of LEDs rests only on what it remembers of them itself. */
  ghost predicate SameMemory(a: History, h: History, id: Uuid, n: nat) {
    forall index :: 0 <= index < n ==> PrevOf(a, id, index) == PrevOf(h, id, index)
  }

  lemma SameColours(f: Frame, b: Bound, a: History, h: History, n: nat)
    requires SameMemory(a, h, b.source.id, n)
    ensures GivesColour(f, b, a, n) <==> GivesColour(f, b, h, n)
  {
    forall index | 0 <= index < n ensures ColourAt(f, b, a, index) == ColourAt(f, b, h, index) {
      assert PrevOf(a, b.source.id, index) == PrevOf(h, b.source.id, index);
    }
  }

  lemma {:induction false} SameSpendings(f: Frame, b: Bound, registers: Registers, a: History, h: History, n: nat, m: nat)
    requires SameMemory(a, h, b.source.id, n) && m <= |b.leds|
    ensures SpentOnPixels(f, b, registers, a, n, m) == SpentOnPixels(f, b, registers, h, n, m)
  {
    if m > 0 {
      SameSpendings(f, b, registers, a, h, n, m - 1);
      if b.leds[m - 1] < n { assert PrevOf(a, b.source.id, b.leds[m - 1]) == PrevOf(h, b.source.id, b.leds[m - 1]); }
    }
  }

  lemma SameSpending(f: Frame, b: Bound, a: History, h: History, n: nat)
    requires SameMemory(a, h, b.source.id, n)
    ensures SpentOn(f, b, a, n) == SpentOn(f, b, h, n)
  {
    if Hoisted(f, b).FrameRan? { SameSpendings(f, b, Hoisted(f, b).registers, a, h, n, |b.leds|); }
  }

  lemma MemoryIsKept(f: Frame, layers: seq<Layer>, n: nat, c: Canvas, id: Uuid)
    requires n <= |c.out| && Paintable(f, layers, n, c) && NoneOf(layers, id)
    ensures SameMemory(AfterLayers(f, layers, Whole(n), c).history, c.history, id, n)
  {
    forall index | 0 <= index < n
      ensures PrevOf(AfterLayers(f, layers, Whole(n), c).history, id, index) == PrevOf(c.history, id, index)
    {
      OthersAreKept(f, layers, n, c, index, id);
    }
  }

  /** One more layer on top. */
  lemma LayerReports(f: Frame, top: Layer, n: nat, mid: Canvas, history: History)
    requires n <= |mid.out| && Sorting.Distinct(top.bound.leds) && mid.report.spent <= U32_MAX
    requires RenderShards.SourceClean(f, top.bound, top.alpha, n, mid) && SameMemory(mid.history, history, top.bound.source.id, n)
    ensures var report := AfterLayer(f, top, Whole(n), mid).report;
            && report.rendered == mid.report.rendered
                                  + (if !top.fading && GivesColour(f, top.bound, history, n) then [top.bound.source.id] else [])
            && report.spent == Min(mid.report.spent + SpentOn(f, top.bound, history, n), U32_MAX)
  {
    SourceReports(f, top.bound, top.alpha, n, mid);
    SameColours(f, top.bound, mid.history, history, n);
    SameSpending(f, top.bound, mid.history, history, n);
  }

  /** The reports of the layers below and of one more. */
  lemma ReportsAdd(start: FrameReport, below: FrameReport, all: FrameReport, painters: seq<Uuid>, more: seq<Uuid>,
                   spent: nat, cost: nat)
    requires below.rendered == start.rendered + painters && below.spent == Min(start.spent + spent, U32_MAX)
    requires all.rendered == below.rendered + more && all.spent == Min(below.spent + cost, U32_MAX)
    ensures all.rendered == start.rendered + (painters + more) && all.spent == Min(start.spent + (spent + cost), U32_MAX)
  {
  }

  /** What a frame should report of some layers, after what was reported before. */
  ghost predicate IsReport(f: Frame, layers: seq<Layer>, history: History, n: nat, before: FrameReport, report: FrameReport) {
    && report.rendered == before.rendered + Painters(f, layers, history, n)
    && report.spent == Min(before.spent + SpentOnAll(f, layers, history, n), U32_MAX)
  }

  lemma TopReports(f: Frame, layers: seq<Layer>, n: nat, mid: Canvas, history: History, before: FrameReport)
    requires layers != [] && n <= |mid.out| && IsReport(f, layers[..|layers| - 1], history, n, before, mid.report)
    requires var top := layers[|layers| - 1];
             && Sorting.Distinct(top.bound.leds) && RenderShards.SourceClean(f, top.bound, top.alpha, n, mid)
             && SameMemory(mid.history, history, top.bound.source.id, n)
    ensures IsReport(f, layers, history, n, before, AfterLayer(f, layers[|layers| - 1], Whole(n), mid).report)
  {
    var top := layers[|layers| - 1];
    LayerReports(f, top, n, mid, history);
    ReportsAdd(before, mid.report, AfterLayer(f, top, Whole(n), mid).report, Painters(f, layers[..|layers| - 1], history, n),
               if !top.fading && GivesColour(f, top.bound, history, n) then [top.bound.source.id] else [],
               SpentOnAll(f, layers[..|layers| - 1], history, n), SpentOn(f, top.bound, history, n));
  }

  /**
   When no pixel faults, no source is painted twice and no zone names an LED twice: a frame reports
   exactly the shown sources that gave some LED a colour, from the bottom up, and none that is
   leaving; and all that their sections and the leaving ones' spent, or the most there is.
   */
  lemma {:induction false} LayersReport(f: Frame, layers: seq<Layer>, n: nat, c: Canvas)
    requires 0 < n <= |c.out| && Paintable(f, layers, n, c) && c.report.spent <= U32_MAX
    ensures IsReport(f, layers, c.history, n, c.report, AfterLayers(f, layers, Whole(n), c).report)
  {
    if layers != [] {
      var last := |layers| - 1;
      LayersReport(f, layers[..last], n, c);
      OthersAreKept(f, layers[..last], n, c, 0, layers[last].bound.source.id);
      MemoryIsKept(f, layers[..last], n, c, layers[last].bound.source.id);
      TopReports(f, layers, n, AfterLayers(f, layers[..last], Whole(n), c), c.history, c.report);
    }
  }
}

/**
 What a pixel fault does to rendering on several cores. It ends the source's pixel loop on the
 cores that meet it, so a core that does not own the faulting LED goes on where one core alone
 has stopped. Exactly when that shows is what is proved here.
 */
module RenderFaults {
  import opened Wrappers
  import opened Sources
  import opened Rendering
  import opened RenderShards
  import Sorting

  // ---------------------------------------------------------------- one pass that faults

  /** The pass of one core alone first faults at LED number `k` of the zone. */
  predicate FaultsFirstAt(f: Frame, b: Bound, registers: Registers, alpha: int, n: nat, whole: Pass, k: nat) {
    && k < |b.leds|
    && WholePass(f, b, registers, alpha, n, whole, k).fault.None?
    && WholePass(f, b, registers, alpha, n, whole, k + 1).fault.Some?
  }

  /** No LED of the shard has another colour or another history than before. */
  ghost predicate Unmoved(before: Pass, after: Pass, shard: Shard) {
    && after.out == before.out
    && forall key: (Uuid, nat) :: shard.Slot(key.1).Some? ==> SameEntry(before.history, after.history, key)
  }

  predicate SameEntry(a: History, b: History, key: (Uuid, nat)) {
    (key in a <==> key in b) && (key in a && key in b ==> a[key] == b[key])
  }

  lemma UnmovedAgrees(whole: Pass, before: Pass, after: Pass, shard: Shard)
    requires PicturesAgree(whole, before, shard) && |after.out| == |before.out|
    ensures PicturesAgree(whole, after, shard) <==> Unmoved(before, after, shard)
  {
    if PicturesAgree(whole, after, shard) {
      forall key: (Uuid, nat) | shard.Slot(key.1).Some? ensures SameEntry(before.history, after.history, key) {}
    }
    if Unmoved(before, after, shard) {
      forall key: (Uuid, nat) | shard.Slot(key.1).Some? ensures SameEntry(before.history, after.history, key) {}
    }
  }

  /** A core alone leaves the picture as it was when it faulted. */
  lemma WholeStops(f: Frame, b: Bound, registers: Registers, alpha: int, n: nat, whole: Pass, k: nat)
    requires FaultsFirstAt(f, b, registers, alpha, n, whole, k)
    ensures var at, end := WholePass(f, b, registers, alpha, n, whole, k),
                           WholePass(f, b, registers, alpha, n, whole, |b.leds|);
            end.out == at.out && end.history == at.history
  {
    FaultStops(f, b, registers, alpha, Whole(n), whole, k + 1, |b.leds|);
  }

  /** The core that owns the faulting LED stops there too. */
  lemma OwnerStops(f: Frame, b: Bound, registers: Registers, alpha: int, n: nat, shard: Shard, whole: Pass,
                   part: Pass, k: nat)
    requires n <= |whole.out| && Within(shard, n) && PassesAgree(whole, part, shard)
    requires FaultsFirstAt(f, b, registers, alpha, n, whole, k) && shard.Slot(b.leds[k]).Some?
    ensures Unmoved(AfterPixels(f, b, registers, alpha, shard, part, k),
                    AfterPixels(f, b, registers, alpha, shard, part, |b.leds|), shard)
  {
    PassesAgreeUpTo(f, b, registers, alpha, n, shard, whole, part, k);
    PixelsKeepLength(f, b, registers, alpha, Whole(n), whole, k);
    var w, p := WholePass(f, b, registers, alpha, n, whole, k), AfterPixels(f, b, registers, alpha, shard, part, k);
    assert PrevOf(w.history, b.source.id, b.leds[k]) == PrevOf(p.history, b.source.id, b.leds[k]);
    assert AfterPixels(f, b, registers, alpha, shard, part, k + 1).fault.Some?;
    FaultStops(f, b, registers, alpha, shard, part, k + 1, |b.leds|);
  }

  /**
   When the pass of one core alone faults, a core agrees with it on slice and history exactly if
   it owns the faulting LED, or what it goes on to run leaves all its LEDs as they were.
   */
  lemma FaultedPassAgrees(f: Frame, b: Bound, registers: Registers, alpha: int, n: nat, shard: Shard, whole: Pass,
                          part: Pass, k: nat)
    requires n <= |whole.out| && Within(shard, n) && PassesAgree(whole, part, shard)
    requires FaultsFirstAt(f, b, registers, alpha, n, whole, k)
    ensures var at, end := AfterPixels(f, b, registers, alpha, shard, part, k),
                           AfterPixels(f, b, registers, alpha, shard, part, |b.leds|);
            PicturesAgree(WholePass(f, b, registers, alpha, n, whole, |b.leds|), end, shard)
            <==> shard.Slot(b.leds[k]).Some? || Unmoved(at, end, shard)
  {
    var at, end := AfterPixels(f, b, registers, alpha, shard, part, k),
                   AfterPixels(f, b, registers, alpha, shard, part, |b.leds|);
    PassesAgreeUpTo(f, b, registers, alpha, n, shard, whole, part, k);
    WholeStops(f, b, registers, alpha, n, whole, k);
    PixelsKeepLength(f, b, registers, alpha, shard, part, k);
    PixelsKeepLength(f, b, registers, alpha, shard, part, |b.leds|);
    UnmovedAgrees(WholePass(f, b, registers, alpha, n, whole, |b.leds|), at, end, shard);
    if shard.Slot(b.leds[k]).Some? {
      OwnerStops(f, b, registers, alpha, n, shard, whole, part, k);
    }
  }

  // ------------------------------------------------------------------- LED by LED

  /** LED number `o` is run, or passed over, without a trace. */
  predicate LeavesAsWas(f: Frame, b: Bound, registers: Registers, alpha: int, shard: Shard, start: Pass, o: nat)
    requires o < |b.leds|
  {
    var before, after := AfterPixels(f, b, registers, alpha, shard, start, o),
                         AfterPixels(f, b, registers, alpha, shard, start, o + 1);
    after.out == before.out && after.history == before.history
  }

  /** What a core shows and remembers of one LED. */
  ghost predicate SameAt(a: Pass, b: Pass, shard: Shard, key: (Uuid, nat)) {
    && SameEntry(a.history, b.history, key)
    && |a.out| == |b.out|
    && (shard.Slot(key.1).Some? && shard.Slot(key.1).value < |a.out| ==>
        a.out[shard.Slot(key.1).value] == b.out[shard.Slot(key.1).value])
  }

  lemma OthersLeaveNext(f: Frame, b: Bound, registers: Registers, alpha: int, shard: Shard, start: Pass,
                        before: Pass, to: nat, key: (Uuid, nat))
    requires to < |b.leds| && b.leds[to] != key.1
    requires SameAt(before, AfterPixels(f, b, registers, alpha, shard, start, to), shard, key)
    ensures SameAt(before, AfterPixels(f, b, registers, alpha, shard, start, to + 1), shard, key)
  {
    OtherLeaves(f, b, registers, alpha, shard, AfterPixels(f, b, registers, alpha, shard, start, to), to, key);
  }

  lemma {:induction false} OthersLeave(f: Frame, b: Bound, registers: Registers, alpha: int, shard: Shard, start: Pass,
                                       from: nat, to: nat, key: (Uuid, nat))
    requires from <= to <= |b.leds| && forall o :: from <= o < to ==> b.leds[o] != key.1
    ensures SameAt(AfterPixels(f, b, registers, alpha, shard, start, from),
                   AfterPixels(f, b, registers, alpha, shard, start, to), shard, key)
  {
    if from < to {
      OthersLeave(f, b, registers, alpha, shard, start, from, to - 1, key);
      OthersLeaveNext(f, b, registers, alpha, shard, start, AfterPixels(f, b, registers, alpha, shard, start, from),
                      to - 1, key);
    }
  }

  lemma OtherLeaves(f: Frame, b: Bound, registers: Registers, alpha: int, shard: Shard, p: Pass, o: nat,
                    key: (Uuid, nat))
    requires o < |b.leds| && b.leds[o] != key.1
    ensures SameAt(p, AfterPixel(f, b, registers, alpha, shard, p, o), shard, key)
  {
  }

  lemma {:induction false} LeavingAllIsUnmoved(f: Frame, b: Bound, registers: Registers, alpha: int, shard: Shard,
                                               start: Pass, k: nat, m: nat)
    requires k <= m <= |b.leds| && forall o :: k <= o < m ==> LeavesAsWas(f, b, registers, alpha, shard, start, o)
    ensures var at, end := AfterPixels(f, b, registers, alpha, shard, start, k),
                           AfterPixels(f, b, registers, alpha, shard, start, m);
            end.out == at.out && end.history == at.history
  {
    if k < m {
      assert LeavesAsWas(f, b, registers, alpha, shard, start, m - 1);
      LeavingAllIsUnmoved(f, b, registers, alpha, shard, start, k, m - 1);
    }
  }

  /** A step that leaves its own LED as it was leaves everything as it was. */
  lemma StepLeavesItsOwn(f: Frame, b: Bound, registers: Registers, alpha: int, shard: Shard, p: Pass, o: nat)
    requires o < |b.leds| && |p.out| == shard.len
    requires SameAt(p, AfterPixel(f, b, registers, alpha, shard, p, o), shard, (b.source.id, b.leds[o]))
    ensures var after := AfterPixel(f, b, registers, alpha, shard, p, o);
            after.out == p.out && after.history == p.history
  {
  }

  /**
   In a zone that lists no LED twice, a core's picture stays as it was exactly if each LED it
   runs leaves its own slot and history as they were.
   */
  lemma UnmovedMeansEachLeaves(f: Frame, b: Bound, registers: Registers, alpha: int, shard: Shard, start: Pass, k: nat)
    requires k <= |b.leds| && Sorting.Distinct(b.leds) && |start.out| == shard.len
    ensures Unmoved(AfterPixels(f, b, registers, alpha, shard, start, k),
                    AfterPixels(f, b, registers, alpha, shard, start, |b.leds|), shard)
            <==> forall o :: k <= o < |b.leds| ==> LeavesAsWas(f, b, registers, alpha, shard, start, o)
  {
    var at, end := AfterPixels(f, b, registers, alpha, shard, start, k),
                   AfterPixels(f, b, registers, alpha, shard, start, |b.leds|);
    if forall o :: k <= o < |b.leds| ==> LeavesAsWas(f, b, registers, alpha, shard, start, o) {
      LeavingAllIsUnmoved(f, b, registers, alpha, shard, start, k, |b.leds|);
    }
    if Unmoved(at, end, shard) {
      forall o | k <= o < |b.leds| ensures LeavesAsWas(f, b, registers, alpha, shard, start, o) {
        UnmovedStep(f, b, registers, alpha, shard, start, k, o);
      }
    }
  }

  lemma UnmovedStep(f: Frame, b: Bound, registers: Registers, alpha: int, shard: Shard, start: Pass, k: nat, o: nat)
    requires k <= o < |b.leds| && Sorting.Distinct(b.leds) && |start.out| == shard.len
    requires Unmoved(AfterPixels(f, b, registers, alpha, shard, start, k),
                     AfterPixels(f, b, registers, alpha, shard, start, |b.leds|), shard)
    ensures LeavesAsWas(f, b, registers, alpha, shard, start, o)
  {
    var before, after := AfterPixels(f, b, registers, alpha, shard, start, o),
                         AfterPixels(f, b, registers, alpha, shard, start, o + 1);
    var key := (b.source.id, b.leds[o]);
    PixelsKeepLength(f, b, registers, alpha, shard, start, o);
    if shard.Slot(key.1).Some? {
      OthersLeave(f, b, registers, alpha, shard, start, k, o, key);
      OthersLeave(f, b, registers, alpha, shard, start, o + 1, |b.leds|, key);
      assert SameAt(before, after, shard, key);
      StepLeavesItsOwn(f, b, registers, alpha, shard, before, o);
    }
  }

  /**
   In such a zone, a core agrees with one core alone exactly if it owns the faulting LED, or each
   LED it runs after that one leaves its slot and history as they were.
   */
  lemma FaultedPassAgreesByLed(f: Frame, b: Bound, registers: Registers, alpha: int, n: nat, shard: Shard,
                               whole: Pass, part: Pass, k: nat)
    requires n <= |whole.out| && Within(shard, n) && PassesAgree(whole, part, shard)
    requires FaultsFirstAt(f, b, registers, alpha, n, whole, k) && Sorting.Distinct(b.leds)
    ensures PicturesAgree(WholePass(f, b, registers, alpha, n, whole, |b.leds|),
                          AfterPixels(f, b, registers, alpha, shard, part, |b.leds|), shard)
            <==> shard.Slot(b.leds[k]).Some?
                 || forall o :: k < o < |b.leds| ==> LeavesAsWas(f, b, registers, alpha, shard, part, o)
  {
    FaultedPassAgrees(f, b, registers, alpha, n, shard, whole, part, k);
    if shard.Slot(b.leds[k]).None? {
      assert LeavesAsWas(f, b, registers, alpha, shard, part, k);
      UnmovedMeansEachLeaves(f, b, registers, alpha, shard, part, k);
    }
  }

  // ------------------------------------------------------------ whatever the program does

  /** How often an LED is among the first `m` of a zone. */
  function Times(leds: seq<nat>, index: nat, m: nat): nat
    requires m <= |leds|
  {
    if m == 0 then 0 else Times(leds, index, m - 1) + if leds[m - 1] == index then 1 else 0
  }

  lemma {:induction false} TimesClimb(leds: seq<nat>, index: nat, m: nat, k: nat)
    requires m < k <= |leds| && leds[m] == index
    ensures Times(leds, index, m) < Times(leds, index, k)
    decreases k
  {
    if m + 1 < k { TimesClimb(leds, index, m, k - 1); }
  }

  /**
   A machine that counts in its history how often it has run an LED, shows the count, and
   faults on one LED at one count.
   */
  function CountingVm(faulty: nat, at: int, shift: int): Vm {
    Vm((program, t, dt, uniforms) => FrameRan(0, 0),
       (program, registers, inputs: PixelInputs, uniforms) =>
         if inputs.u == faulty && inputs.prev.0 == at then PixelFaulted(0, 0)
         else PixelRan(EmitRgb(inputs.prev.0 + shift, 0, 0), (inputs.prev.0 + 1, 0, 0), 0),
       (projection, led: Led, ordinal) => Projected(led.index, None),
       (a, b, t) => b)
  }

  lemma CountingStep(f: Frame, b: Bound, registers: Registers, alpha: int, shard: Shard, p: Pass, o: nat,
                     faulty: nat, at: int, shift: int)
    requires f.vm == CountingVm(faulty, at, shift) && o < |b.leds| && p.fault.None? && shard.len <= |p.out|
    requires Runs(f.scene, shard, b.leds[o])
    ensures var prev := PrevOf(p.history, b.source.id, b.leds[o]);
            var after := AfterPixel(f, b, registers, alpha, shard, p, o);
            if b.leds[o] == faulty && prev.0 == at then after.fault.Some?
            else
              && after.fault.None?
              && after.history == p.history[(b.source.id, b.leds[o]) := (prev.0 + 1, 0, 0)]
              && after.out == p.out[shard.Slot(b.leds[o]).value := Rgb(prev.0 + shift, 0, 0)]
  {
  }

  /** Alone, a core that runs this machine faults first where it is told to. */
  lemma {:induction false} CountsToFault(f: Frame, b: Bound, registers: Registers, alpha: int, n: nat, whole: Pass,
                                         k: nat, m: nat, shift: int)
    requires m <= k < |b.leds| && n <= |whole.out| && whole.fault.None? && Runs(f.scene, Whole(n), b.leds[k])
    requires f.vm == CountingVm(b.leds[k], PrevOf(whole.history, b.source.id, b.leds[k]).0 + Times(b.leds, b.leds[k], k), shift)
    ensures var p := WholePass(f, b, registers, alpha, n, whole, m);
            && p.fault.None? && |p.out| == |whole.out|
            && PrevOf(p.history, b.source.id, b.leds[k]).0
               == PrevOf(whole.history, b.source.id, b.leds[k]).0 + Times(b.leds, b.leds[k], m)
  {
    if m > 0 {
      CountsToFault(f, b, registers, alpha, n, whole, k, m - 1, shift);
      var p := WholePass(f, b, registers, alpha, n, whole, m - 1);
      if b.leds[m - 1] == b.leds[k] { TimesClimb(b.leds, b.leds[k], m - 1, k); }
      if Runs(f.scene, Whole(n), b.leds[m - 1]) {
        CountingStep(f, b, registers, alpha, Whole(n), p, m - 1, b.leds[k],
                     PrevOf(whole.history, b.source.id, b.leds[k]).0 + Times(b.leds, b.leds[k], k), shift);
      }
    }
  }

  /** The red of an owned LED stays below the next count to be shown. */
  predicate Rising(p: Pass, shard: Shard, id: Uuid, index: nat, shift: int) {
    && p.fault.None? && |p.out| == shard.len && shard.Slot(index).Some?
    && p.out[shard.Slot(index).value].r < PrevOf(p.history, id, index).0 + shift
  }

  /** A core that does not own the faulting LED never faults, and shows ever higher counts. */
  lemma {:induction false} CountsRise(f: Frame, b: Bound, registers: Registers, alpha: int, shard: Shard, start: Pass,
                                      from: nat, to: nat, index: nat, faulty: nat, at: int, shift: int)
    requires f.vm == CountingVm(faulty, at, shift) && shard.Slot(faulty).None? && from <= to <= |b.leds|
    requires Rising(AfterPixels(f, b, registers, alpha, shard, start, from), shard, b.source.id, index, shift)
    requires FindLed(f.scene.leds, index).Some?
    ensures var p, q := AfterPixels(f, b, registers, alpha, shard, start, from),
                        AfterPixels(f, b, registers, alpha, shard, start, to);
            && Rising(q, shard, b.source.id, index, shift)
            && q.out[shard.Slot(index).value].r >= p.out[shard.Slot(index).value].r
            && ((exists o :: from <= o < to && b.leds[o] == index) ==>
                  q.out[shard.Slot(index).value].r > p.out[shard.Slot(index).value].r)
  {
    if from < to {
      CountsRise(f, b, registers, alpha, shard, start, from, to - 1, index, faulty, at, shift);
      var p := AfterPixels(f, b, registers, alpha, shard, start, to - 1);
      if Runs(f.scene, shard, b.leds[to - 1]) {
        CountingStep(f, b, registers, alpha, shard, p, to - 1, faulty, at, shift);
      }
    }
  }

  /** A machine that tells apart a core that runs something after an LED it does not own. */
  lemma SomeProgramTells(scene: Scene, dt: int, b: Bound, registers: Registers, alpha: int, n: nat, shard: Shard,
                         whole: Pass, part: Pass, k: nat, o: nat) returns (vm: Vm)
    requires n <= |whole.out| && Within(shard, n) && PassesAgree(whole, part, shard)
    requires k < o < |b.leds| && Runs(scene, Whole(n), b.leds[k])
    requires shard.Slot(b.leds[k]).None? && Runs(scene, shard, b.leds[o])
    ensures var f := Frame(vm, scene, dt);
            && FaultsFirstAt(f, b, registers, alpha, n, whole, k)
            && !SameOut(WholePass(f, b, registers, alpha, n, whole, |b.leds|).out,
                        AfterPixels(f, b, registers, alpha, shard, part, |b.leds|).out, shard)
  {
    var id, index := b.source.id, b.leds[o];
    var slot := shard.Slot(index).value;
    var shift := part.out[slot].r - PrevOf(part.history, id, index).0 + 1;
    var at := PrevOf(whole.history, id, b.leds[k]).0 + Times(b.leds, b.leds[k], k);
    vm := CountingVm(b.leds[k], at, shift);
    var f := Frame(vm, scene, dt);
    CountsToFault(f, b, registers, alpha, n, whole, k, k, shift);
    CountingStep(f, b, registers, alpha, Whole(n), WholePass(f, b, registers, alpha, n, whole, k), k, b.leds[k], at, shift);
    WholeStops(f, b, registers, alpha, n, whole, k);
    PassesAgreeUpTo(f, b, registers, alpha, n, shard, whole, part, k);
    CountsRise(f, b, registers, alpha, shard, part, 0, k, index, b.leds[k], at, shift);
    CountsRise(f, b, registers, alpha, shard, part, k, |b.leds|, index, b.leds[k], at, shift);
  }

  lemma {:induction false} NothingRunsAfter(f: Frame, b: Bound, registers: Registers, alpha: int, shard: Shard,
                                            start: Pass, k: nat, m: nat)
    requires k <= m <= |b.leds| && forall o :: k <= o < m ==> !Runs(f.scene, shard, b.leds[o])
    ensures AfterPixels(f, b, registers, alpha, shard, start, m) == AfterPixels(f, b, registers, alpha, shard, start, k)
  {
    if k < m { NothingRunsAfter(f, b, registers, alpha, shard, start, k, m - 1); }
  }

  /**
   A core shows what one core alone does under every program whose first fault is at LED number
   `k`, exactly if it owns that LED or runs none after it. It then remembers the same, too.
   */
  lemma FaultsShowExactly(scene: Scene, dt: int, b: Bound, registers: Registers, alpha: int, n: nat, shard: Shard,
                          whole: Pass, part: Pass, k: nat)
    requires n <= |whole.out| && Within(shard, n) && PassesAgree(whole, part, shard)
    requires k < |b.leds| && Runs(scene, Whole(n), b.leds[k])
    ensures (forall vm :: FaultsFirstAt(Frame(vm, scene, dt), b, registers, alpha, n, whole, k) ==>
               SameOut(WholePass(Frame(vm, scene, dt), b, registers, alpha, n, whole, |b.leds|).out,
                       AfterPixels(Frame(vm, scene, dt), b, registers, alpha, shard, part, |b.leds|).out, shard))
            <==> shard.Slot(b.leds[k]).Some? || forall o :: k < o < |b.leds| ==> !Runs(scene, shard, b.leds[o])
    ensures shard.Slot(b.leds[k]).Some? || (forall o :: k < o < |b.leds| ==> !Runs(scene, shard, b.leds[o])) ==>
            forall vm :: FaultsFirstAt(Frame(vm, scene, dt), b, registers, alpha, n, whole, k) ==>
              PicturesAgree(WholePass(Frame(vm, scene, dt), b, registers, alpha, n, whole, |b.leds|),
                            AfterPixels(Frame(vm, scene, dt), b, registers, alpha, shard, part, |b.leds|), shard)
  {
    if shard.Slot(b.leds[k]).Some? || forall o :: k < o < |b.leds| ==> !Runs(scene, shard, b.leds[o]) {
      forall vm | FaultsFirstAt(Frame(vm, scene, dt), b, registers, alpha, n, whole, k)
        ensures PicturesAgree(WholePass(Frame(vm, scene, dt), b, registers, alpha, n, whole, |b.leds|),
                              AfterPixels(Frame(vm, scene, dt), b, registers, alpha, shard, part, |b.leds|), shard)
      {
        var f := Frame(vm, scene, dt);
        FaultedPassAgrees(f, b, registers, alpha, n, shard, whole, part, k);
        if shard.Slot(b.leds[k]).None? {
          NothingRunsAfter(f, b, registers, alpha, shard, part, k, |b.leds|);
        }
      }
    } else {
      var o :| k < o < |b.leds| && Runs(scene, shard, b.leds[o]);
      var vm := SomeProgramTells(scene, dt, b, registers, alpha, n, shard, whole, part, k, o);
    }
  }

  // ------------------------------------------------------------------- a whole frame

  /** A machine that emits nothing, counts in its history, and faults on one LED. */
  function StoppingVm(faulty: nat): Vm {
    Vm((program, t, dt, uniforms) => FrameRan(0, 0),
       (program, registers, inputs: PixelInputs, uniforms) =>
         if inputs.u == faulty then PixelFaulted(0, 0) else PixelRan(EmitNothing, (inputs.prev.0 + 1, 0, 0), 0),
       (projection, led: Led, ordinal) => Projected(led.index, None),
       (a, b, t) => b)
  }

  /** How often the source with this id has been run on an LED, to go by the history. */
  function CountOf(history: History, key: (Uuid, nat)): int { PrevOf(history, key.0, key.1).0 }

  lemma StoppingStep(f: Frame, b: Bound, alpha: int, shard: Shard, p: Pass, o: nat, faulty: nat, key: (Uuid, nat))
    requires f.vm == StoppingVm(faulty) && o < |b.leds| && shard.len <= |p.out|
    ensures var after := AfterPixel(f, b, 0, alpha, shard, p, o);
            && after.out == p.out
            && after.fault.Some? == (p.fault.Some? || (Runs(f.scene, shard, b.leds[o]) && b.leds[o] == faulty))
            && CountOf(after.history, key) == CountOf(p.history, key)
               + if after.fault.None? && Runs(f.scene, shard, b.leds[o]) && key == (b.source.id, b.leds[o]) then 1 else 0
  {
  }

  /** A core that does not own the faulting LED runs every LED it owns each time it is listed. */
  lemma {:induction false} StoppingCounts(f: Frame, b: Bound, alpha: int, shard: Shard, start: Pass, m: nat,
                                          faulty: nat, key: (Uuid, nat))
    requires f.vm == StoppingVm(faulty) && m <= |b.leds| && shard.len <= |start.out| && start.fault.None?
    requires shard.Slot(faulty).None? && Runs(f.scene, shard, key.1)
    ensures var p := AfterPixels(f, b, 0, alpha, shard, start, m);
            && p.fault.None? && |p.out| == |start.out|
            && CountOf(p.history, key) == CountOf(start.history, key)
               + if key.0 == b.source.id then Times(b.leds, key.1, m) else 0
  {
    if m > 0 {
      StoppingCounts(f, b, alpha, shard, start, m - 1, faulty, key);
      StoppingStep(f, b, alpha, shard, AfterPixels(f, b, 0, alpha, shard, start, m - 1), m - 1, faulty, key);
    }
  }

  /** Any core runs an LED at most as often as it is listed. */
  lemma {:induction false} StoppingCountsAtMost(f: Frame, b: Bound, alpha: int, shard: Shard, start: Pass, m: nat,
                                                faulty: nat, key: (Uuid, nat))
    requires f.vm == StoppingVm(faulty) && m <= |b.leds| && shard.len <= |start.out|
    ensures var p := AfterPixels(f, b, 0, alpha, shard, start, m);
            && |p.out| == |start.out|
            && CountOf(p.history, key) <= CountOf(start.history, key)
               + if key.0 == b.source.id then Times(b.leds, key.1, m) else 0
  {
    if m > 0 {
      StoppingCountsAtMost(f, b, alpha, shard, start, m - 1, faulty, key);
      StoppingStep(f, b, alpha, shard, AfterPixels(f, b, 0, alpha, shard, start, m - 1), m - 1, faulty, key);
    }
  }

  /** One core alone that meets the faulting LED first runs nothing. */
  lemma {:induction false} StoppedAtOnce(f: Frame, b: Bound, alpha: int, n: nat, start: Pass, k: nat, m: nat, key: (Uuid, nat))
    requires m <= |b.leds| && k < |b.leds| && n <= |start.out| && start.fault.None?
    requires f.vm == StoppingVm(b.leds[k]) && Runs(f.scene, Whole(n), b.leds[k])
    requires forall o :: 0 <= o < k ==> !Runs(f.scene, Whole(n), b.leds[o])
    ensures var p := AfterPixels(f, b, 0, alpha, Whole(n), start, m);
            |p.out| == |start.out| && CountOf(p.history, key) == CountOf(start.history, key) && (p.fault.Some? <==> m > k)
  {
    if m > 0 {
      StoppedAtOnce(f, b, alpha, n, start, k, m - 1, key);
      StoppingStep(f, b, alpha, Whole(n), AfterPixels(f, b, 0, alpha, Whole(n), start, m - 1), m - 1, b.leds[k], key);
    }
  }

  /** A source that no core owns all of: the first LED that runs, and another core's after it. */
  predicate Straddles(scene: Scene, b: Bound, n: nat, shard: Shard, k: nat, o: nat) {
    && k < o < |b.leds| && Runs(scene, Whole(n), b.leds[k])
    && (forall i :: 0 <= i < k ==> !Runs(scene, Whole(n), b.leds[i]))
    && shard.Slot(b.leds[k]).None? && Runs(scene, shard, b.leds[o])
  }

  lemma {:induction false} ListedIsCounted(leds: seq<nat>, o: nat, m: nat)
    requires o < m <= |leds|
    ensures Times(leds, leds[o], m) > 0
  {
    if o + 1 < m { ListedIsCounted(leds, o, m - 1); }
  }

  /** A layer never lets one core alone count more than a core that does not meet the fault. */
  lemma LayerCounts(f: Frame, layer: Layer, n: nat, shard: Shard, whole: Canvas, part: Canvas, faulty: nat, key: (Uuid, nat))
    requires f.vm == StoppingVm(faulty) && n == |whole.out| && shard.len == |part.out| && Within(shard, n)
    requires shard.Slot(faulty).None? && Runs(f.scene, shard, key.1)
    ensures var w, p := AfterLayer(f, layer, Whole(n), whole), AfterLayer(f, layer, shard, part);
            && |w.out| == n && |p.out| == shard.len
            && CountOf(p.history, key) - CountOf(part.history, key) >= CountOf(w.history, key) - CountOf(whole.history, key)
  {
    var b := layer.bound;
    SourceIsPass(f, b, layer.alpha, Whole(n), whole);
    SourceIsPass(f, b, layer.alpha, shard, part);
    StoppingCounts(f, b, layer.alpha, shard, StartOf(part), |b.leds|, faulty, key);
    StoppingCountsAtMost(f, b, layer.alpha, Whole(n), StartOf(whole), |b.leds|, faulty, key);
  }

  /** And strictly less where it stops at once and the other goes on. */
  lemma StraddlingLayerCounts(f: Frame, layer: Layer, n: nat, shard: Shard, whole: Canvas, part: Canvas, k: nat, o: nat)
    requires n == |whole.out| && shard.len == |part.out| && Within(shard, n)
    requires Straddles(f.scene, layer.bound, n, shard, k, o) && f.vm == StoppingVm(layer.bound.leds[k])
    ensures var w, p := AfterLayer(f, layer, Whole(n), whole), AfterLayer(f, layer, shard, part);
            var key := (layer.bound.source.id, layer.bound.leds[o]);
            CountOf(p.history, key) - CountOf(part.history, key) > CountOf(w.history, key) - CountOf(whole.history, key)
  {
    var b := layer.bound;
    var key := (b.source.id, b.leds[o]);
    SourceIsPass(f, b, layer.alpha, Whole(n), whole);
    SourceIsPass(f, b, layer.alpha, shard, part);
    StoppingCounts(f, b, layer.alpha, shard, StartOf(part), |b.leds|, b.leds[k], key);
    StoppedAtOnce(f, b, layer.alpha, n, StartOf(whole), k, |b.leds|, key);
    ListedIsCounted(b.leds, o, |b.leds|);
  }

  lemma {:induction false} LayersCount(f: Frame, layers: seq<Layer>, n: nat, shard: Shard, whole: Canvas, part: Canvas,
                                       at: nat, k: nat, o: nat)
    requires n == |whole.out| && shard.len == |part.out| && Within(shard, n) && at < |layers|
    requires Straddles(f.scene, layers[at].bound, n, shard, k, o) && f.vm == StoppingVm(layers[at].bound.leds[k])
    ensures var w, p := AfterLayers(f, layers, Whole(n), whole), AfterLayers(f, layers, shard, part);
            var key := (layers[at].bound.source.id, layers[at].bound.leds[o]);
            && |w.out| == n && |p.out| == shard.len
            && CountOf(p.history, key) - CountOf(part.history, key) > CountOf(w.history, key) - CountOf(whole.history, key)
  {
    var last := |layers| - 1;
    var b := layers[at].bound;
    var key := (b.source.id, b.leds[o]);
    if at < last {
      LayersCount(f, layers[..last], n, shard, whole, part, at, k, o);
    } else {
      LayersCountAtMost(f, layers[..last], n, shard, whole, part, b.leds[k], key);
    }
    var w, p := AfterLayers(f, layers[..last], Whole(n), whole), AfterLayers(f, layers[..last], shard, part);
    LayerCounts(f, layers[last], n, shard, w, p, b.leds[k], key);
    if at == last { StraddlingLayerCounts(f, layers[last], n, shard, w, p, k, o); }
  }

  lemma {:induction false} LayersCountAtMost(f: Frame, layers: seq<Layer>, n: nat, shard: Shard, whole: Canvas, part: Canvas,
                                             faulty: nat, key: (Uuid, nat))
    requires f.vm == StoppingVm(faulty) && n == |whole.out| && shard.len == |part.out| && Within(shard, n)
    requires shard.Slot(faulty).None? && Runs(f.scene, shard, key.1)
    ensures var w, p := AfterLayers(f, layers, Whole(n), whole), AfterLayers(f, layers, shard, part);
            && |w.out| == n && |p.out| == shard.len
            && CountOf(p.history, key) - CountOf(part.history, key) >= CountOf(w.history, key) - CountOf(whole.history, key)
  {
    if layers != [] {
      var last := |layers| - 1;
      LayersCountAtMost(f, layers[..last], n, shard, whole, part, faulty, key);
      LayerCounts(f, layers[last], n, shard, AfterLayers(f, layers[..last], Whole(n), whole),
                  AfterLayers(f, layers[..last], shard, part), faulty, key);
    }
  }

  lemma {:induction false} FirstThatRuns(scene: Scene, leds: seq<nat>, n: nat, upTo: nat) returns (k: nat)
    requires upTo < |leds| && Runs(scene, Whole(n), leds[upTo])
    ensures k <= upTo && Runs(scene, Whole(n), leds[k]) && forall o :: 0 <= o < k ==> !Runs(scene, Whole(n), leds[o])
  {
    if o :| 0 <= o < upTo && Runs(scene, Whole(n), leds[o]) {
      k := FirstThatRuns(scene, leds, n, o);
    } else {
      k := upTo;
    }
  }

  /** A source on no one core has a core that runs something after the first LED there is to run. */
  lemma SomeCoreStraddles(scene: Scene, b: Bound, n: nat, of: nat) returns (core: nat, k: nat, o: nat)
    requires of > 0 && !OnOneCore(scene, b, n, of)
    ensures core < of && Straddles(scene, b, n, Share(core, of, n), k, o)
  {
    assert !OnCore(scene, b, n, of, 0);
    var any :| 0 <= any < |b.leds| && Runs(scene, Whole(n), b.leds[any]) && Share(0, of, n).Slot(b.leds[any]).None?;
    k := FirstThatRuns(scene, b.leds, n, any);
    OuterEdges(of, n);
    var owner := OwnerExists(b.leds[k], of, n, of - 1);
    assert !OnCore(scene, b, n, of, owner);
    o :| 0 <= o < |b.leds| && Runs(scene, Whole(n), b.leds[o]) && Share(owner, of, n).Slot(b.leds[o]).None?;
    core := OwnerExists(b.leds[o], of, n, of - 1);
    if Share(core, of, n).Slot(b.leds[k]).Some? {
      OneOwnerOnly(b.leds[k], owner, core, of, n);
    }
  }

  lemma OneOwnerOnly(index: nat, j: nat, k: nat, of: nat, len: nat)
    requires Owns(j, of, len, index) && Owns(k, of, len, index)
    ensures j == k
  {
    if j != k { OneOwner(index, j, k, of, len); }
  }

  /** A machine under which a frame with such a source tells the cores apart. */
  lemma StraddlingFrameDiffers(turn: Turn, n: nat, whole: RendererState, cores: seq<RendererState>, at: nat) returns (vm: Vm)
    requires |turn.out| == n && Split(whole, cores, n)
    requires at < |Layers(turn.scene)| && !OnOneCore(turn.scene, Layers(turn.scene)[at].bound, n, |cores|)
    ensures !FrameAgrees(Paint(vm, turn, Whole(n), whole), PaintAll(vm, turn, n, cores), n)
  {
    var layers := Layers(turn.scene);
    var b := layers[at].bound;
    var core, k, o := SomeCoreStraddles(turn.scene, b, n, |cores|);
    vm := StoppingVm(b.leds[k]);
    var shard := Share(core, |cores|, n);
    var start, starts := Beginning(turn, Whole(n), whole), Deal(turn, n, cores);
    var key := (b.source.id, b.leds[o]);
    ShareInStrip(core, |cores|, n);
    DealtFairly(turn, n, whole, cores);
    PartIsPainted(vm, turn, n, whole, cores, core);
    LayersCount(FrameOf(vm, turn.scene, whole), layers, n, shard, start, starts[core], at, k, o);
    assert Agrees(start, starts[core], shard);
    SameCounts(start.history, starts[core].history, shard, key);
    var ended, parts := Paint(vm, turn, Whole(n), whole), PaintAll(vm, turn, n, cores);
    if FrameAgrees(ended, parts, n) {
      assert Agrees(ended, parts[core], shard);
      SameCounts(ended.history, parts[core].history, shard, key);
    }
  }

  lemma SameCounts(whole: History, part: History, shard: Shard, key: (Uuid, nat))
    requires SameHistory(whole, part, shard) && shard.Slot(key.1).Some?
    ensures CountOf(whole, key) == CountOf(part, key)
  {
  }

  /**
   The cores of a frame agree with one core that renders it alone, whatever the machine, exactly if
   all that each layer has to run lies on one of them.
   */
  lemma FramesAgreeExactly(turn: Turn, n: nat, whole: RendererState, cores: seq<RendererState>)
    requires |turn.out| == n && Split(whole, cores, n)
    ensures (forall vm :: FrameAgrees(Paint(vm, turn, Whole(n), whole), PaintAll(vm, turn, n, cores), n))
            <==> forall m :: 0 <= m < |Layers(turn.scene)| ==> OnOneCore(turn.scene, Layers(turn.scene)[m].bound, n, |cores|)
  {
    var layers := Layers(turn.scene);
    if forall m :: 0 <= m < |layers| ==> OnOneCore(turn.scene, layers[m].bound, n, |cores|) {
      forall vm ensures FrameAgrees(Paint(vm, turn, Whole(n), whole), PaintAll(vm, turn, n, cores), n) {
        CleanIsTame(FrameOf(vm, turn.scene, whole), layers, n, |cores|, Beginning(turn, Whole(n), whole));
        FramesAgree(vm, turn, n, whole, cores);
      }
    } else {
      var at :| 0 <= at < |layers| && !OnOneCore(turn.scene, layers[at].bound, n, |cores|);
      var vm := StraddlingFrameDiffers(turn, n, whole, cores, at);
    }
  }

  // ---------------------------------------------------------------------- an example

  /** A machine whose program faults on the first LED and lights the rest. */
  function FaultingVm(): Vm {
    Vm((program, t, dt, uniforms) => FrameRan(0, 0),
       (program, registers, inputs: PixelInputs, uniforms) =>
         if inputs.index == 0 then PixelFaulted(0, 0) else PixelRan(EmitRgb(1, 1, 1), (0, 0, 0), 0),
       (projection, led, ordinal) => Projected(0, None),
       (a, b, t) => a)
  }

  function FaultingTurn(): Turn {
    var source := Source(1, 0, 0, 0, None, 0, 0, 0, 0);
    var zero := (0, 0, 0);
    Turn(Scene(0, 0, [Led(0, zero, zero), Led(1, zero, zero)],
               StackState([source], [], 0, 2, [1], []), [Bound(source, 0, [0, 1], 2, 0)], 0),
         [Rgb(0, 0, 0), Rgb(0, 0, 0)])
  }

  lemma PixelUnfolds(f: Frame, b: Bound, registers: Registers, alpha: int, shard: Shard, p: Pass, n: nat)
    requires 0 < n <= |b.leds|
    ensures AfterPixels(f, b, registers, alpha, shard, p, n)
            == AfterPixel(f, b, registers, alpha, shard, AfterPixels(f, b, registers, alpha, shard, p, n - 1), n - 1)
  {
  }

  /** Two LEDs at full weight: the second core lights the one it owns. */
  lemma FaultHidesTheRest(f: Frame, b: Bound, registers: Registers, alpha: int, n: nat, shard: Shard, whole: Pass,
                          part: Pass, colour: Rgb)
    requires |b.leds| == 2 && alpha >= ONE && n <= |whole.out| && Within(shard, n)
    requires whole.fault.None? && part.fault.None? && |part.out| == shard.len
    requires shard.Slot(b.leds[0]).None? && shard.Slot(b.leds[1]).Some? && b.leds[0] < n
    requires forall o :: 0 <= o < 2 ==> FindLed(f.scene.leds, b.leds[o]).Some?
    requires Shaded(f, b, registers, 0, FindLed(f.scene.leds, b.leds[0]).value, PrevOf(whole.history, b.source.id, b.leds[0])).PixelFaulted?
    requires var run := Shaded(f, b, registers, 1, FindLed(f.scene.leds, b.leds[1]).value, PrevOf(part.history, b.source.id, b.leds[1]));
             run.PixelRan? && ColourOf(run.output) == Some(colour)
    ensures AfterPixels(f, b, registers, alpha, Whole(n), whole, 2).out == whole.out
    ensures AfterPixels(f, b, registers, alpha, Whole(n), whole, 2).fault.Some?
    ensures AfterPixels(f, b, registers, alpha, shard, part, 2).out == part.out[shard.Slot(b.leds[1]).value := colour]
  {
    var one := 1;
    PixelUnfolds(f, b, registers, alpha, Whole(n), whole, one);
    PixelUnfolds(f, b, registers, alpha, shard, part, one);
    PixelUnfolds(f, b, registers, alpha, Whole(n), whole, one + 1);
    PixelUnfolds(f, b, registers, alpha, shard, part, one + 1);
  }

  /** The frame of `FaultingTurn` on one core and on the second of two. */
  lemma FaultsTellCoresApart()
    ensures var f := Frame(FaultingVm(), FaultingTurn().scene, 0);
            var b := f.scene.bound[0];
            var black := Rgb(0, 0, 0);
            && Layers(f.scene) == [Layer(b, ONE, false)]
            && Share(1, 2, 2) == Shard(1, 1)
            && PassOf(f, b, 0, ONE, Whole(2), Canvas([black, black], map[], {}, BlankReport())).out == [black, black]
            && PassOf(f, b, 0, ONE, Shard(1, 1), Canvas([black], map[], {}, BlankReport())).out == [Rgb(1, 1, 1)]
  {
    var f := Frame(FaultingVm(), FaultingTurn().scene, 0);
    var b := f.scene.bound[0];
    var black, white := Rgb(0, 0, 0), Rgb(1, 1, 1);
    OneLayer(f.scene, b);
    FaultingLeds(f);
    FaultHidesTheRest(f, b, 0, ONE, 2, Shard(1, 1), Pass([black, black], map[], false, None, 0),
                      Pass([black], map[], false, None, 0), white);
    assert [black][0 := white] == [white];
  }

  lemma FaultingLeds(f: Frame)
    requires f.vm == FaultingVm() && f.scene == FaultingTurn().scene
    ensures var leds, b, zero := f.scene.leds, f.scene.bound[0], (0, 0, 0);
            && FindLed(leds, 0) == Some(leds[0]) && FindLed(leds, 1) == Some(leds[1])
            && Shaded(f, b, 0, 0, leds[0], zero) == PixelFaulted(0, 0)
            && Shaded(f, b, 0, 1, leds[1], zero) == PixelRan(EmitRgb(1, 1, 1), zero, 0)
  {
    assert AsI16(0) == 0 && AsI16(1) == 1;
  }

  lemma OneLayer(scene: Scene, b: Bound)
    requires scene.bound == [b] && scene.stack.admitted == [b.source.id] && scene.stack.fading == []
    requires b.source.fadeInMs == 0
    ensures Layers(scene) == [Layer(b, ONE, false)]
  {
    assert AdmittedOnly(scene.bound[1..], scene.stack) == [];
    assert AdmittedOnly(scene.bound, scene.stack) == [b];
    assert PaintingOrder(scene) == [b] by {
      assert [b][1..] == [];
    }
    assert [b][..0] == [];
    assert ShownLayers([b], scene.nowUs) == [Layer(b, ONE, false)];
  }
}

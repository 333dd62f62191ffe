/**
 Rendering on several cores: the shares of a strip tile it, and as long as no pixel faults
 they render, frame after frame, exactly what one core renders alone; and even with faults where
 a source lies on one core. That nothing less will do is in `RenderFaults`.
 */
module RenderShards {
  import opened Arith
  import opened Wrappers
  import opened Sources
  import opened Rendering

  // ------------------------------------------------------------------------- the tiling

  function Share(k: nat, of: nat, len: nat): Shard
    requires k < of
  {
    ShardOf(k, of, len).value
  }

  /** Where share `k` starts, or for `k == of` where the last one ends. */
  function Edge(k: nat, of: nat, len: nat): nat
    requires k <= of && of > 0
  {
    k * (len / of) + Min(k, len % of)
  }

  lemma ShareIsBetweenEdges(k: nat, of: nat, len: nat)
    requires k < of
    ensures Share(k, of, len).first == Edge(k, of, len)
    ensures Share(k, of, len).first + Share(k, of, len).len == Edge(k + 1, of, len)
  {
    var base := len / of;
    assert (k + 1) * base == k * base + base;
  }

  lemma OuterEdges(of: nat, len: nat)
    requires of > 0
    ensures Edge(0, of, len) == 0 && Edge(of, of, len) == len
  {
    assert of * (len / of) + len % of == len;
  }

  lemma {:induction false} EdgesClimb(j: nat, k: nat, of: nat, len: nat)
    requires j <= k <= of && of > 0
    ensures Edge(j, of, len) <= Edge(k, of, len) <= len
    decreases of - j
  {
    if j < of {
      ShareIsBetweenEdges(j, of, len);
      EdgesClimb(j + 1, if k == j then k + 1 else k, of, len);
      if j < k { assert Edge(j, of, len) <= Edge(j + 1, of, len) <= Edge(k, of, len); }
    } else {
      OuterEdges(of, len);
    }
  }

  /** Whether share `k` owns LED `index`. */
  predicate Owns(k: nat, of: nat, len: nat, index: nat) {
    k < of && Share(k, of, len).Slot(index).Some?
  }

  lemma {:induction false} OwnerExists(index: nat, of: nat, len: nat, k: nat) returns (owner: nat)
    requires of > 0 && k < of && index < Edge(k + 1, of, len)
    ensures Owns(owner, of, len, index)
  {
    ShareIsBetweenEdges(k, of, len);
    if index >= Edge(k, of, len) {
      owner := k;
    } else {
      if k == 0 { OuterEdges(of, len); }
      owner := OwnerExists(index, of, len, k - 1);
    }
  }

  /** A share and the product that places it stay within the strip, and the next share abuts. */
  predicate InStrip(k: nat, of: nat, len: nat)
    requires k < of
  {
    var share := Share(k, of, len);
    && k * (len / of) <= share.first <= share.first + share.len <= len
    && (k + 1 < of ==> Share(k + 1, of, len).first == share.first + share.len)
  }

  lemma ShareInStrip(k: nat, of: nat, len: nat)
    requires k < of
    ensures InStrip(k, of, len) && Within(Share(k, of, len), len)
  {
    ShareIsBetweenEdges(k, of, len);
    EdgesClimb(k, k + 1, of, len);
    if k + 1 < of { ShareIsBetweenEdges(k + 1, of, len); }
  }

  lemma SharesAreApart(index: nat, j: nat, k: nat, of: nat, len: nat)
    requires Owns(j, of, len, index) && Owns(k, of, len, index)
    ensures j >= k
  {
    ShareIsBetweenEdges(j, of, len);
    ShareIsBetweenEdges(k, of, len);
    if j < k { EdgesClimb(j + 1, k, of, len); }
  }

  /** Whether exactly one share owns the LED. */
  ghost predicate OwnedOnce(of: nat, len: nat, index: nat) {
    && (exists k :: Owns(k, of, len, index))
    && (forall j, k :: Owns(j, of, len, index) && Owns(k, of, len, index) ==> j == k)
  }

  /**
   Every LED is in exactly one share, no share reaches past the strip, and neither does any
   number computed on the way, so 16-bit arithmetic never wraps. One share is the whole.
   */
  lemma SharesTile(of: nat, len: nat)
    requires of > 0
    ensures forall k :: 0 <= k < of ==> InStrip(k, of, len)
    ensures forall index :: 0 <= index < len ==> OwnedOnce(of, len, index)
    ensures ShardOf(0, 1, len) == Some(Whole(len))
  {
    forall k | 0 <= k < of ensures InStrip(k, of, len) {
      ShareInStrip(k, of, len);
    }
    forall index | 0 <= index < len ensures OwnedOnce(of, len, index) {
      OuterEdges(of, len);
      var owner := OwnerExists(index, of, len, of - 1);
      forall j, k | Owns(j, of, len, index) && Owns(k, of, len, index) ensures j == k {
        SharesAreApart(index, j, k, of, len);
        SharesAreApart(index, k, j, of, len);
      }
    }
  }

  // -------------------------------------------------------------------- one core's part

  /** A part of a strip of `n` LEDs. */
  predicate Within(shard: Shard, n: nat) {
    shard.first + shard.len <= n
  }

  /** `part` is the shard's slice of `whole`. */
  ghost predicate SameOut(whole: seq<Rgb>, part: seq<Rgb>, shard: Shard) {
    && |part| == shard.len && Within(shard, |whole|)
    && forall j :: 0 <= j < |part| ==> part[j] == whole[shard.first + j]
  }

  /** The two remember the same of every LED in the shard. */
  ghost predicate SameHistory(whole: History, part: History, shard: Shard) {
    && (forall key :: key in part && shard.Slot(key.1).Some? ==> key in whole && whole[key] == part[key])
    && (forall key :: key in whole && shard.Slot(key.1).Some? ==> key in part)
  }

  ghost predicate Agrees(whole: Canvas, part: Canvas, shard: Shard) {
    SameOut(whole.out, part.out, shard) && SameHistory(whole.history, part.history, shard)
  }

  ghost predicate PassesAgree(whole: Pass, part: Pass, shard: Shard) {
    && SameOut(whole.out, part.out, shard) && SameHistory(whole.history, part.history, shard)
    && whole.fault.None? && part.fault.None?
  }

  /** Whether LED number `ordinal` of the zone gets a colour in the pass of one core that owns all. */
  predicate Lit(f: Frame, b: Bound, registers: Registers, p: Pass, shard: Shard, ordinal: nat)
    requires ordinal < |b.leds|
  {
    && Target(f, shard, b.leds[ordinal], |p.out|).Some?
    && (var run := Shaded(f, b, registers, ordinal, FindLed(f.scene.leds, b.leds[ordinal]).value,
                          PrevOf(p.history, b.source.id, b.leds[ordinal]));
        run.PixelRan? && ColourOf(run.output).Some?)
  }

  lemma HistoryKept(whole: History, part: History, shard: Shard, key: (Uuid, nat), prev: Prev)
    requires SameHistory(whole, part, shard)
    ensures SameHistory(whole[key := prev], part[key := prev], shard)
    ensures shard.Slot(key.1).None? ==> SameHistory(whole[key := prev], part, shard)
  {
  }

  lemma OutKept(whole: seq<Rgb>, part: seq<Rgb>, shard: Shard, index: nat, colour: Rgb)
    requires SameOut(whole, part, shard) && index < |whole|
    ensures var slot := shard.Slot(index);
            SameOut(whole[index := colour], if slot.Some? then part[slot.value := colour] else part, shard)
  {
  }

  /** The core owns the LED and the device has it. */
  predicate Runs(scene: Scene, shard: Shard, index: nat) {
    shard.Slot(index).Some? && FindLed(scene.leds, index).Some?
  }

  /** A core's slice and history are those of the whole. */
  ghost predicate PicturesAgree(whole: Pass, part: Pass, shard: Shard) {
    SameOut(whole.out, part.out, shard) && SameHistory(whole.history, part.history, shard)
  }

  /** A core that owns the LED does all that one core alone does to it, faults included. */
  lemma OwnerStep(f: Frame, b: Bound, registers: Registers, alpha: int, n: nat, shard: Shard, whole: Pass, part: Pass, o: nat)
    requires o < |b.leds| && n <= |whole.out| && Within(shard, n)
    requires PicturesAgree(whole, part, shard) && whole.fault == part.fault
    requires Runs(f.scene, Whole(n), b.leds[o]) ==> shard.Slot(b.leds[o]).Some?
    ensures var (w, p) := (AfterPixel(f, b, registers, alpha, Whole(n), whole, o),
                           AfterPixel(f, b, registers, alpha, shard, part, o));
            && PicturesAgree(w, p, shard) && w.fault == p.fault
            && (whole.contributed == part.contributed ==> w.contributed == p.contributed)
  {
    var index := b.leds[o];
    var key := (b.source.id, index);
    if whole.fault.None? && Runs(f.scene, Whole(n), index) {
      assert PrevOf(whole.history, key.0, index) == PrevOf(part.history, key.0, index);
      assert part.out[shard.Slot(index).value] == whole.out[index];
      var run := Shaded(f, b, registers, o, FindLed(f.scene.leds, index).value, PrevOf(whole.history, key.0, index));
      if run.PixelRan? {
        HistoryKept(whole.history, part.history, shard, key, run.prevOut);
        var colour := ColourOf(run.output);
        if colour.Some? {
          OutKept(whole.out, part.out, shard, index, Blend(f, whole.out[index], colour.value, alpha));
        }
      }
    }
  }

  /** A core that owns nothing there is to run stays as it is, and the whole leaves its part alone. */
  lemma StrangerStep(f: Frame, b: Bound, registers: Registers, alpha: int, n: nat, shard: Shard, whole: Pass, part: Pass, o: nat)
    requires o < |b.leds| && n <= |whole.out| && Within(shard, n) && PicturesAgree(whole, part, shard)
    requires Runs(f.scene, Whole(n), b.leds[o]) ==> shard.Slot(b.leds[o]).None?
    ensures PicturesAgree(AfterPixel(f, b, registers, alpha, Whole(n), whole, o), part, shard)
    ensures AfterPixel(f, b, registers, alpha, shard, part, o) == part
  {
    var index := b.leds[o];
    var key := (b.source.id, index);
    if whole.fault.None? && Runs(f.scene, Whole(n), index) {
      var run := Shaded(f, b, registers, o, FindLed(f.scene.leds, index).value, PrevOf(whole.history, key.0, index));
      if run.PixelRan? {
        HistoryKept(whole.history, part.history, shard, key, run.prevOut);
        var colour := ColourOf(run.output);
        if colour.Some? {
          OutKept(whole.out, part.out, shard, index, Blend(f, whole.out[index], colour.value, alpha));
        }
      }
    }
  }

  lemma PixelsAgree(f: Frame, b: Bound, registers: Registers, alpha: int, n: nat, shard: Shard, whole: Pass,
                    part: Pass, ordinal: nat)
    requires ordinal < |b.leds| && n <= |whole.out| && Within(shard, n)
    requires PassesAgree(whole, part, shard)
    requires AfterPixel(f, b, registers, alpha, Whole(n), whole, ordinal).fault.None?
    ensures PassesAgree(AfterPixel(f, b, registers, alpha, Whole(n), whole, ordinal),
                        AfterPixel(f, b, registers, alpha, shard, part, ordinal), shard)
  {
    if Runs(f.scene, Whole(n), b.leds[ordinal]) && shard.Slot(b.leds[ordinal]).None? {
      StrangerStep(f, b, registers, alpha, n, shard, whole, part, ordinal);
    } else {
      OwnerStep(f, b, registers, alpha, n, shard, whole, part, ordinal);
    }
  }

  /** A pixel counts as painted where it is owned and gets a colour. */
  lemma PixelsContribute(f: Frame, b: Bound, registers: Registers, alpha: int, n: nat, shard: Shard, whole: Pass,
                         part: Pass, ordinal: nat)
    requires ordinal < |b.leds| && n <= |whole.out| && Within(shard, n)
    requires PassesAgree(whole, part, shard)
    requires AfterPixel(f, b, registers, alpha, Whole(n), whole, ordinal).fault.None?
    ensures AfterPixel(f, b, registers, alpha, shard, part, ordinal).contributed
            <==> part.contributed || (shard.Slot(b.leds[ordinal]).Some? && Lit(f, b, registers, whole, Whole(n), ordinal))
    ensures AfterPixel(f, b, registers, alpha, Whole(n), whole, ordinal).contributed
            <==> whole.contributed || Lit(f, b, registers, whole, Whole(n), ordinal)
  {
    var index := b.leds[ordinal];
    if shard.Slot(index).Some? {
      assert PrevOf(whole.history, b.source.id, index) == PrevOf(part.history, b.source.id, index);
    }
  }

  /** The pass of one core that owns all, before LED number `ordinal`. */
  function WholePass(f: Frame, b: Bound, registers: Registers, alpha: int, n: nat, start: Pass, ordinal: nat): Pass
    requires ordinal <= |b.leds|
  {
    AfterPixels(f, b, registers, alpha, Whole(n), start, ordinal)
  }

  lemma {:induction false} PixelsKeepLength(f: Frame, b: Bound, registers: Registers, alpha: int, shard: Shard,
                                            start: Pass, m: nat)
    requires m <= |b.leds|
    ensures |AfterPixels(f, b, registers, alpha, shard, start, m).out| == |start.out|
  {
    if m > 0 { PixelsKeepLength(f, b, registers, alpha, shard, start, m - 1); }
  }

  lemma NoFaultBefore(f: Frame, b: Bound, registers: Registers, alpha: int, shard: Shard, start: Pass, m: nat)
    requires m <= |b.leds| && AfterPixels(f, b, registers, alpha, shard, start, |b.leds|).fault.None?
    ensures AfterPixels(f, b, registers, alpha, shard, start, m).fault.None?
  {
    if AfterPixels(f, b, registers, alpha, shard, start, m).fault.Some? {
      FaultStops(f, b, registers, alpha, shard, start, m, |b.leds|);
    }
  }

  lemma PassesAgreeNext(f: Frame, b: Bound, registers: Registers, alpha: int, n: nat,
                        shard: Shard, whole: Pass, part: Pass, m: nat)
    requires m < |b.leds| && Within(shard, n) && n <= |WholePass(f, b, registers, alpha, n, whole, m).out|
    requires PassesAgree(WholePass(f, b, registers, alpha, n, whole, m),
                         AfterPixels(f, b, registers, alpha, shard, part, m), shard)
    requires WholePass(f, b, registers, alpha, n, whole, m + 1).fault.None?
    ensures PassesAgree(WholePass(f, b, registers, alpha, n, whole, m + 1),
                        AfterPixels(f, b, registers, alpha, shard, part, m + 1), shard)
  {
    PixelsAgree(f, b, registers, alpha, n, shard, WholePass(f, b, registers, alpha, n, whole, m),
                AfterPixels(f, b, registers, alpha, shard, part, m), m);
  }

  /** As long as no pixel of the whole faults, a core's part agrees with it. */
  lemma {:induction false} PassesAgreeUpTo(f: Frame, b: Bound, registers: Registers, alpha: int, n: nat,
                                           shard: Shard, whole: Pass, part: Pass, m: nat)
    requires m <= |b.leds| && n <= |whole.out| && Within(shard, n) && PassesAgree(whole, part, shard)
    requires WholePass(f, b, registers, alpha, n, whole, m).fault.None?
    ensures PassesAgree(WholePass(f, b, registers, alpha, n, whole, m),
                        AfterPixels(f, b, registers, alpha, shard, part, m), shard)
  {
    if m > 0 {
      PassesAgreeUpTo(f, b, registers, alpha, n, shard, whole, part, m - 1);
      PixelsKeepLength(f, b, registers, alpha, Whole(n), whole, m - 1);
      PassesAgreeNext(f, b, registers, alpha, n, shard, whole, part, m - 1);
    }
  }

  /** A pass counts as having painted exactly when an owned LED got a colour. */
  lemma {:induction false} PassesContribute(f: Frame, b: Bound, registers: Registers, alpha: int, n: nat,
                                            shard: Shard, whole: Pass, part: Pass, m: nat)
    requires m <= |b.leds| && n <= |whole.out| && Within(shard, n)
    requires PassesAgree(whole, part, shard) && !whole.contributed && !part.contributed
    requires WholePass(f, b, registers, alpha, n, whole, m).fault.None?
    ensures AfterPixels(f, b, registers, alpha, shard, part, m).contributed
            <==> SomeLit(f, b, registers, alpha, n, whole, shard, m)
    ensures WholePass(f, b, registers, alpha, n, whole, m).contributed
            <==> SomeLit(f, b, registers, alpha, n, whole, Whole(n), m)
  {
    if m > 0 {
      var w, p := WholePass(f, b, registers, alpha, n, whole, m - 1),
                  AfterPixels(f, b, registers, alpha, shard, part, m - 1);
      PassesContribute(f, b, registers, alpha, n, shard, whole, part, m - 1);
      PassesAgreeUpTo(f, b, registers, alpha, n, shard, whole, part, m - 1);
      PixelsKeepLength(f, b, registers, alpha, Whole(n), whole, m - 1);
      PixelsContribute(f, b, registers, alpha, n, shard, w, p, m - 1);
      SomeLitGrows(f, b, registers, alpha, n, whole, shard, m);
      SomeLitGrows(f, b, registers, alpha, n, whole, Whole(n), m);
    }
  }

  lemma SomeLitGrows(f: Frame, b: Bound, registers: Registers, alpha: int, n: nat, start: Pass, shard: Shard, m: nat)
    requires 0 < m <= |b.leds|
    ensures SomeLit(f, b, registers, alpha, n, start, shard, m)
            <==> SomeLit(f, b, registers, alpha, n, start, shard, m - 1)
                 || (shard.Slot(b.leds[m - 1]).Some? && LitAt(f, b, registers, alpha, n, start, m - 1))
  {
  }

  predicate LitAt(f: Frame, b: Bound, registers: Registers, alpha: int, n: nat, start: Pass, ordinal: nat)
    requires ordinal < |b.leds|
  {
    Lit(f, b, registers, WholePass(f, b, registers, alpha, n, start, ordinal), Whole(n), ordinal)
  }

  /** Whether one of the first `m` LEDs of the zone is in the shard and gets a colour. */
  predicate SomeLit(f: Frame, b: Bound, registers: Registers, alpha: int, n: nat, start: Pass, shard: Shard, m: nat)
    requires m <= |b.leds|
  {
    exists o :: 0 <= o < m && shard.Slot(b.leds[o]).Some? && LitAt(f, b, registers, alpha, n, start, o)
  }

  // ------------------------------------------------------------------------ one source

  /** No pixel of the source faults. Its frame section may. */
  predicate SourceClean(f: Frame, b: Bound, alpha: int, n: nat, c: Canvas) {
    b.leds != [] && Touches(b, Whole(n)) && Hoisted(f, b).FrameRan?
    ==> PassOf(f, b, Hoisted(f, b).registers, alpha, Whole(n), c).fault.None?
  }

  /** Whether the source gives a colour to an LED of the shard. */
  predicate Colours(f: Frame, b: Bound, alpha: int, n: nat, c: Canvas, shard: Shard) {
    Hoisted(f, b).FrameRan? && SomeLit(f, b, Hoisted(f, b).registers, alpha, n, StartOf(c), shard, |b.leds|)
  }

  lemma SourcesAgree(f: Frame, b: Bound, alpha: int, n: nat, shard: Shard, whole: Canvas, part: Canvas)
    requires n <= |whole.out| && Within(shard, n) && Agrees(whole, part, shard) && SourceClean(f, b, alpha, n, whole)
    ensures |AfterSource(f, b, alpha, Whole(n), whole).0.out| == |whole.out|
    ensures Agrees(AfterSource(f, b, alpha, Whole(n), whole).0, AfterSource(f, b, alpha, shard, part).0, shard)
    ensures AfterSource(f, b, alpha, shard, part).1 <==> Colours(f, b, alpha, n, whole, shard)
    ensures AfterSource(f, b, alpha, Whole(n), whole).1 <==> Colours(f, b, alpha, n, whole, Whole(n))
  {
    if Touches(b, Whole(n)) && Hoisted(f, b).FrameRan? {
      var registers := Hoisted(f, b).registers;
      PassesAgreeUpTo(f, b, registers, alpha, n, shard, StartOf(whole), StartOf(part), |b.leds|);
      PassesContribute(f, b, registers, alpha, n, shard, StartOf(whole), StartOf(part), |b.leds|);
      PixelsKeepLength(f, b, registers, alpha, Whole(n), StartOf(whole), |b.leds|);
      UntouchedStays(f, b, registers, alpha, shard, StartOf(part), |b.leds|);
    } else {
      TouchedInPart(b, n, shard);
    }
  }

  lemma TouchedInPart(b: Bound, n: nat, shard: Shard)
    requires Within(shard, n)
    ensures Touches(b, shard) ==> Touches(b, Whole(n))
  {
    if Touches(b, shard) {
      var k :| 0 <= k < |b.leds| && shard.Slot(b.leds[k]).Some?;
      assert Whole(n).Slot(b.leds[k]).Some?;
    }
  }

  lemma {:induction false} UntouchedStays(f: Frame, b: Bound, registers: Registers, alpha: int, shard: Shard,
                                          start: Pass, m: nat)
    requires m <= |b.leds|
    ensures !Touches(b, shard) ==> AfterPixels(f, b, registers, alpha, shard, start, m) == start
  {
    if m > 0 { UntouchedStays(f, b, registers, alpha, shard, start, m - 1); }
  }

  // ----------------------------------------------------------------- a source on one core

  /** The shard owns every LED of the source that there is to run, or none. */
  predicate OwnsAll(scene: Scene, b: Bound, n: nat, shard: Shard) {
    forall o :: 0 <= o < |b.leds| && Runs(scene, Whole(n), b.leds[o]) ==> shard.Slot(b.leds[o]).Some?
  }

  predicate OwnsNone(scene: Scene, b: Bound, n: nat, shard: Shard) {
    forall o :: 0 <= o < |b.leds| && Runs(scene, Whole(n), b.leds[o]) ==> shard.Slot(b.leds[o]).None?
  }

  predicate OnCore(scene: Scene, b: Bound, n: nat, of: nat, k: nat)
    requires k < of
  {
    OwnsAll(scene, b, n, Share(k, of, n))
  }

  predicate OnOneCore(scene: Scene, b: Bound, n: nat, of: nat) {
    exists k :: 0 <= k < of && OnCore(scene, b, n, of, k)
  }

  /** A pass is all that a source whose frame section ran comes to. */
  lemma SourceIsPass(f: Frame, b: Bound, alpha: int, shard: Shard, c: Canvas)
    ensures var (after, painted) := AfterSource(f, b, alpha, shard, c);
            if Hoisted(f, b).FrameFaulted? then after.out == c.out && after.history == c.history && !painted
            else
              var p := PassOf(f, b, Hoisted(f, b).registers, alpha, shard, c);
              after.out == p.out && after.history == p.history && painted == p.contributed
  {
    if Hoisted(f, b).FrameRan? {
      UntouchedStays(f, b, Hoisted(f, b).registers, alpha, shard, StartOf(c), |b.leds|);
    }
  }

  /** They have met the same fault, if any, and painted both or neither. */
  ghost predicate PassesMatch(whole: Pass, part: Pass, shard: Shard) {
    PicturesAgree(whole, part, shard) && whole.fault == part.fault && whole.contributed == part.contributed
  }

  lemma OwnerNext(f: Frame, b: Bound, registers: Registers, alpha: int, n: nat, shard: Shard, whole: Pass, part: Pass, m: nat)
    requires m < |b.leds| && Within(shard, n) && OwnsAll(f.scene, b, n, shard)
    requires |WholePass(f, b, registers, alpha, n, whole, m).out| == n
    requires PassesMatch(WholePass(f, b, registers, alpha, n, whole, m),
                         AfterPixels(f, b, registers, alpha, shard, part, m), shard)
    ensures PassesMatch(WholePass(f, b, registers, alpha, n, whole, m + 1),
                        AfterPixels(f, b, registers, alpha, shard, part, m + 1), shard)
  {
    OwnerStep(f, b, registers, alpha, n, shard, WholePass(f, b, registers, alpha, n, whole, m),
              AfterPixels(f, b, registers, alpha, shard, part, m), m);
  }

  lemma {:induction false} OwnerPass(f: Frame, b: Bound, registers: Registers, alpha: int, n: nat,
                                     shard: Shard, whole: Pass, part: Pass, m: nat)
    requires m <= |b.leds| && n == |whole.out| && Within(shard, n) && PassesMatch(whole, part, shard)
    requires OwnsAll(f.scene, b, n, shard)
    ensures PassesMatch(WholePass(f, b, registers, alpha, n, whole, m),
                        AfterPixels(f, b, registers, alpha, shard, part, m), shard)
  {
    if m > 0 {
      OwnerPass(f, b, registers, alpha, n, shard, whole, part, m - 1);
      PixelsKeepLength(f, b, registers, alpha, Whole(n), whole, m - 1);
      OwnerNext(f, b, registers, alpha, n, shard, whole, part, m - 1);
    }
  }

  lemma StrangerNext(f: Frame, b: Bound, registers: Registers, alpha: int, n: nat, shard: Shard, whole: Pass, part: Pass, m: nat)
    requires m < |b.leds| && Within(shard, n) && OwnsNone(f.scene, b, n, shard)
    requires |WholePass(f, b, registers, alpha, n, whole, m).out| == n
    requires PicturesAgree(WholePass(f, b, registers, alpha, n, whole, m), part, shard)
    requires AfterPixels(f, b, registers, alpha, shard, part, m) == part
    ensures PicturesAgree(WholePass(f, b, registers, alpha, n, whole, m + 1), part, shard)
    ensures AfterPixels(f, b, registers, alpha, shard, part, m + 1) == part
  {
    StrangerStep(f, b, registers, alpha, n, shard, WholePass(f, b, registers, alpha, n, whole, m), part, m);
  }

  lemma {:induction false} StrangerPass(f: Frame, b: Bound, registers: Registers, alpha: int, n: nat,
                                        shard: Shard, whole: Pass, part: Pass, m: nat)
    requires m <= |b.leds| && n == |whole.out| && Within(shard, n) && PicturesAgree(whole, part, shard)
    requires OwnsNone(f.scene, b, n, shard)
    ensures PicturesAgree(WholePass(f, b, registers, alpha, n, whole, m), part, shard)
    ensures AfterPixels(f, b, registers, alpha, shard, part, m) == part
  {
    if m > 0 {
      StrangerPass(f, b, registers, alpha, n, shard, whole, part, m - 1);
      PixelsKeepLength(f, b, registers, alpha, Whole(n), whole, m - 1);
      StrangerNext(f, b, registers, alpha, n, shard, whole, part, m - 1);
    }
  }

  /** What a source on one core does to the whole it does to that core, and to no other. */
  lemma OneCoreAgrees(f: Frame, b: Bound, alpha: int, n: nat, of: nat, owner: nat, k: nat, whole: Canvas, part: Canvas)
    requires n == |whole.out| && k < of && owner < of && OnCore(f.scene, b, n, of, owner)
    requires Agrees(whole, part, Share(k, of, n))
    ensures Agrees(AfterSource(f, b, alpha, Whole(n), whole).0, AfterSource(f, b, alpha, Share(k, of, n), part).0, Share(k, of, n))
    ensures AfterSource(f, b, alpha, Share(k, of, n), part).1 <==> k == owner && AfterSource(f, b, alpha, Whole(n), whole).1
  {
    var shard := Share(k, of, n);
    ShareInStrip(k, of, n);
    SourceIsPass(f, b, alpha, Whole(n), whole);
    SourceIsPass(f, b, alpha, shard, part);
    if Hoisted(f, b).FrameRan? {
      var registers := Hoisted(f, b).registers;
      if k == owner {
        OwnerPass(f, b, registers, alpha, n, shard, StartOf(whole), StartOf(part), |b.leds|);
      } else {
        assert OwnsNone(f.scene, b, n, shard) by {
          forall o | 0 <= o < |b.leds| && Runs(f.scene, Whole(n), b.leds[o]) ensures shard.Slot(b.leds[o]).None? {
            OneOwner(b.leds[o], owner, k, of, n);
          }
        }
        StrangerPass(f, b, registers, alpha, n, shard, StartOf(whole), StartOf(part), |b.leds|);
      }
    }
  }

  lemma OneOwner(index: nat, j: nat, k: nat, of: nat, len: nat)
    requires j < of && k < of && j != k && Share(j, of, len).Slot(index).Some?
    ensures Share(k, of, len).Slot(index).None?
  {
    if Share(k, of, len).Slot(index).Some? {
      assert Owns(j, of, len, index) && Owns(k, of, len, index);
      SharesAreApart(index, j, k, of, len);
      SharesAreApart(index, k, j, of, len);
    }
  }

  lemma SourceKeepsLength(f: Frame, b: Bound, alpha: int, shard: Shard, c: Canvas)
    ensures |AfterSource(f, b, alpha, shard, c).0.out| == |c.out|
  {
    SourceIsPass(f, b, alpha, shard, c);
    if Hoisted(f, b).FrameRan? {
      PixelsKeepLength(f, b, Hoisted(f, b).registers, alpha, shard, StartOf(c), |b.leds|);
    }
  }

  /** A source that shares of a strip render as one core does: no pixel of it faults, or it is on one. */
  predicate SourceTame(f: Frame, b: Bound, alpha: int, n: nat, of: nat, c: Canvas) {
    SourceClean(f, b, alpha, n, c) || OnOneCore(f.scene, b, n, of)
  }

  lemma TameAgrees(f: Frame, b: Bound, alpha: int, n: nat, of: nat, k: nat, whole: Canvas, part: Canvas)
    requires n == |whole.out| && k < of && Agrees(whole, part, Share(k, of, n)) && SourceTame(f, b, alpha, n, of, whole)
    ensures |AfterSource(f, b, alpha, Whole(n), whole).0.out| == n
    ensures Agrees(AfterSource(f, b, alpha, Whole(n), whole).0, AfterSource(f, b, alpha, Share(k, of, n), part).0, Share(k, of, n))
  {
    ShareInStrip(k, of, n);
    SourceKeepsLength(f, b, alpha, Whole(n), whole);
    if SourceClean(f, b, alpha, n, whole) {
      SourcesAgree(f, b, alpha, n, Share(k, of, n), whole, part);
    } else {
      var owner :| 0 <= owner < of && OnCore(f.scene, b, n, of, owner);
      OneCoreAgrees(f, b, alpha, n, of, owner, k, whole, part);
    }
  }

  // -------------------------------------------------------------------------- one frame

  /** Every layer of a frame is tame. */
  predicate LayersTame(f: Frame, layers: seq<Layer>, n: nat, of: nat, c: Canvas) {
    forall m :: 0 <= m < |layers| ==>
      SourceTame(f, layers[m].bound, layers[m].alpha, n, of, AfterLayers(f, layers[..m], Whole(n), c))
  }

  /** No pixel of any of the layers faults. */
  predicate LayersClean(f: Frame, layers: seq<Layer>, n: nat, c: Canvas) {
    forall m :: 0 <= m < |layers| ==>
      SourceClean(f, layers[m].bound, layers[m].alpha, n, AfterLayers(f, layers[..m], Whole(n), c))
  }

  lemma CleanPrefix(f: Frame, layers: seq<Layer>, n: nat, c: Canvas)
    requires LayersClean(f, layers, n, c) && layers != []
    ensures var last := |layers| - 1;
            && LayersClean(f, layers[..last], n, c)
            && SourceClean(f, layers[last].bound, layers[last].alpha, n, AfterLayers(f, layers[..last], Whole(n), c))
  {
    var last := |layers| - 1;
    forall m | 0 <= m < last
      ensures SourceClean(f, layers[..last][m].bound, layers[..last][m].alpha, n, AfterLayers(f, layers[..last][..m], Whole(n), c))
    {
      assert layers[..last][..m] == layers[..m];
    }
  }

  lemma CleanIsTame(f: Frame, layers: seq<Layer>, n: nat, of: nat, c: Canvas)
    ensures LayersClean(f, layers, n, c) ==> LayersTame(f, layers, n, of, c)
    ensures (forall m :: 0 <= m < |layers| ==> OnOneCore(f.scene, layers[m].bound, n, of)) ==> LayersTame(f, layers, n, of, c)
  {
  }

  lemma TamePrefix(f: Frame, layers: seq<Layer>, n: nat, of: nat, c: Canvas)
    requires LayersTame(f, layers, n, of, c) && layers != []
    ensures var last := |layers| - 1;
            && LayersTame(f, layers[..last], n, of, c)
            && SourceTame(f, layers[last].bound, layers[last].alpha, n, of, AfterLayers(f, layers[..last], Whole(n), c))
  {
    var last := |layers| - 1;
    forall m | 0 <= m < last
      ensures SourceTame(f, layers[..last][m].bound, layers[..last][m].alpha, n, of,
                         AfterLayers(f, layers[..last][..m], Whole(n), c))
    {
      assert layers[..last][..m] == layers[..m];
    }
  }

  lemma {:induction false} LayersAgree(f: Frame, layers: seq<Layer>, n: nat, of: nat, k: nat, whole: Canvas, part: Canvas)
    requires n == |whole.out| && k < of && Agrees(whole, part, Share(k, of, n)) && LayersTame(f, layers, n, of, whole)
    ensures Agrees(AfterLayers(f, layers, Whole(n), whole), AfterLayers(f, layers, Share(k, of, n), part), Share(k, of, n))
    ensures |AfterLayers(f, layers, Whole(n), whole).out| == n
  {
    if layers != [] {
      var last := |layers| - 1;
      TamePrefix(f, layers, n, of, whole);
      LayersAgree(f, layers[..last], n, of, k, whole, part);
      TameAgrees(f, layers[last].bound, layers[last].alpha, n, of, k,
                 AfterLayers(f, layers[..last], Whole(n), whole), AfterLayers(f, layers[..last], Share(k, of, n), part));
    }
  }

  /** The cores start a frame from their own parts of one canvas. */
  ghost predicate Dealt(whole: Canvas, parts: seq<Canvas>, n: nat) {
    parts != [] && forall k :: 0 <= k < |parts| ==> Agrees(whole, parts[k], Share(k, |parts|, n))
  }

  /** Core `k` at the end of the layers. */
  function PartAfter(f: Frame, layers: seq<Layer>, n: nat, parts: seq<Canvas>, k: nat): Canvas
    requires k < |parts|
  {
    AfterLayers(f, layers, Share(k, |parts|, n), parts[k])
  }

  /** A source paints in the whole frame exactly when it paints on one of the cores. */
  lemma SomeCorePaints(f: Frame, layer: Layer, n: nat, whole: Canvas, parts: seq<Canvas>)
    requires n == |whole.out| && Dealt(whole, parts, n) && SourceTame(f, layer.bound, layer.alpha, n, |parts|, whole)
    ensures AfterSource(f, layer.bound, layer.alpha, Whole(n), whole).1
            <==> exists k :: 0 <= k < |parts| && AfterSource(f, layer.bound, layer.alpha, Share(k, |parts|, n), parts[k]).1
  {
    if SourceClean(f, layer.bound, layer.alpha, n, whole) {
      SomeCorePaintsClean(f, layer, n, whole, parts);
    } else {
      var owner :| 0 <= owner < |parts| && OnCore(f.scene, layer.bound, n, |parts|, owner);
      forall k | 0 <= k < |parts|
        ensures AfterSource(f, layer.bound, layer.alpha, Share(k, |parts|, n), parts[k]).1
                <==> k == owner && AfterSource(f, layer.bound, layer.alpha, Whole(n), whole).1
      {
        OneCoreAgrees(f, layer.bound, layer.alpha, n, |parts|, owner, k, whole, parts[k]);
      }
      assert AfterSource(f, layer.bound, layer.alpha, Share(owner, |parts|, n), parts[owner]).1
             <==> AfterSource(f, layer.bound, layer.alpha, Whole(n), whole).1;
    }
  }

  lemma SomeCorePaintsClean(f: Frame, layer: Layer, n: nat, whole: Canvas, parts: seq<Canvas>)
    requires n == |whole.out| && Dealt(whole, parts, n) && SourceClean(f, layer.bound, layer.alpha, n, whole)
    ensures AfterSource(f, layer.bound, layer.alpha, Whole(n), whole).1
            <==> exists k :: 0 <= k < |parts| && AfterSource(f, layer.bound, layer.alpha, Share(k, |parts|, n), parts[k]).1
  {
    var b, alpha := layer.bound, layer.alpha;
    forall k | 0 <= k < |parts|
      ensures AfterSource(f, b, alpha, Share(k, |parts|, n), parts[k]).1
              <==> Colours(f, b, alpha, n, whole, Share(k, |parts|, n))
    {
      ShareInStrip(k, |parts|, n);
      SourcesAgree(f, b, alpha, n, Share(k, |parts|, n), whole, parts[k]);
    }
    ShareInStrip(0, |parts|, n);
    SourcesAgree(f, b, alpha, n, Share(0, |parts|, n), whole, parts[0]);
    if Colours(f, b, alpha, n, whole, Whole(n)) {
      var k := ColoursInAShare(f, b, alpha, n, whole, |parts|);
      assert AfterSource(f, b, alpha, Share(k, |parts|, n), parts[k]).1;
    }
    if k :| 0 <= k < |parts| && Colours(f, b, alpha, n, whole, Share(k, |parts|, n)) {
      ShareInStrip(k, |parts|, n);
      ColoursInWhole(f, b, alpha, n, whole, Share(k, |parts|, n));
    }
  }

  lemma ColoursInAShare(f: Frame, b: Bound, alpha: int, n: nat, c: Canvas, of: nat) returns (k: nat)
    requires of > 0 && Colours(f, b, alpha, n, c, Whole(n))
    ensures k < of && Colours(f, b, alpha, n, c, Share(k, of, n))
  {
    var registers := Hoisted(f, b).registers;
    var o :| 0 <= o < |b.leds| && Whole(n).Slot(b.leds[o]).Some? && LitAt(f, b, registers, alpha, n, StartOf(c), o);
    OuterEdges(of, n);
    k := OwnerExists(b.leds[o], of, n, of - 1);
  }

  lemma ColoursInWhole(f: Frame, b: Bound, alpha: int, n: nat, c: Canvas, shard: Shard)
    requires Within(shard, n) && Colours(f, b, alpha, n, c, shard)
    ensures Colours(f, b, alpha, n, c, Whole(n))
  {
    var registers := Hoisted(f, b).registers;
    var o :| 0 <= o < |b.leds| && shard.Slot(b.leds[o]).Some? && LitAt(f, b, registers, alpha, n, StartOf(c), o);
    assert Whole(n).Slot(b.leds[o]).Some?;
  }

  /** The sources the merged reports call rendered are those of the whole frame. */
  lemma {:induction false} SharesReportTheSame(f: Frame, layers: seq<Layer>, n: nat, whole: Canvas,
                                               parts: seq<Canvas>, id: Uuid)
    requires n == |whole.out| && Dealt(whole, parts, n) && LayersTame(f, layers, n, |parts|, whole)
    requires whole.report.rendered == [] && forall k :: 0 <= k < |parts| ==> parts[k].report.rendered == []
    ensures id in AfterLayers(f, layers, Whole(n), whole).report.rendered
            <==> exists k :: 0 <= k < |parts| && id in PartAfter(f, layers, n, parts, k).report.rendered
  {
    if layers != [] {
      var last := |layers| - 1;
      var before := layers[..last];
      TamePrefix(f, layers, n, |parts|, whole);
      SharesReportTheSame(f, before, n, whole, parts, id);
      var nowParts := seq(|parts|, k requires 0 <= k < |parts| => PartAfter(f, before, n, parts, k));
      forall k | 0 <= k < |parts|
        ensures Agrees(AfterLayers(f, before, Whole(n), whole), nowParts[k], Share(k, |parts|, n))
        ensures |AfterLayers(f, before, Whole(n), whole).out| == |whole.out|
      {
        LayersAgree(f, before, n, |parts|, k, whole, parts[k]);
      }
      assert |AfterLayers(f, before, Whole(n), whole).out| == |whole.out| by {
        LayersAgree(f, before, n, |parts|, 0, whole, parts[0]);
      }
      SomeCorePaints(f, layers[last], n, AfterLayers(f, before, Whole(n), whole), nowParts);
      forall k | 0 <= k < |parts|
        ensures id in PartAfter(f, layers, n, parts, k).report.rendered
                <==> id in PartAfter(f, before, n, parts, k).report.rendered
                     || (!layers[last].fading && layers[last].bound.source.id == id
                         && AfterSource(f, layers[last].bound, layers[last].alpha, Share(k, |parts|, n), nowParts[k]).1)
      {
        RenderedGrows(f, layers[last], Share(k, |parts|, n), nowParts[k], id);
      }
      RenderedGrows(f, layers[last], Whole(n), AfterLayers(f, before, Whole(n), whole), id);
    }
  }

  lemma RenderedGrows(f: Frame, layer: Layer, shard: Shard, c: Canvas, id: Uuid)
    ensures id in AfterLayer(f, layer, shard, c).report.rendered
            <==> id in c.report.rendered
                 || (!layer.fading && layer.bound.source.id == id && AfterSource(f, layer.bound, layer.alpha, shard, c).1)
  {
  }

  // ------------------------------------------------------------------------- every frame

  /** One frame's scene, and the buffer it is painted over. */
  datatype Turn = Turn(scene: Scene, out: seq<Rgb>)

  function SliceOf(out: seq<Rgb>, shard: Shard): seq<Rgb>
    requires Within(shard, |out|)
  {
    out[shard.first..shard.first + shard.len]
  }

  function Paint(vm: Vm, turn: Turn, shard: Shard, r: RendererState): Canvas
    requires Within(shard, |turn.out|)
  {
    Rendered(vm, turn.scene, shard, r, SliceOf(turn.out, shard))
  }

  /** What one core ends each of the frames with. */
  function Run(vm: Vm, turns: seq<Turn>, shard: Shard, r: RendererState): seq<Canvas>
    requires forall turn :: turn in turns ==> Within(shard, |turn.out|)
    decreases |turns|
  {
    if turns == [] then []
    else
      var c := Paint(vm, turns[0], shard, r);
      [c] + Run(vm, turns[1..], shard, RendererState(Some(turns[0].scene.t), c.history, c.machines))
  }

  function Beginning(turn: Turn, shard: Shard, r: RendererState): Canvas
    requires Within(shard, |turn.out|)
  {
    Canvas(SliceOf(turn.out, shard), r.history, r.machines, BlankReport())
  }

  /** In a frame that one core renders alone, no pixel faults but of sources that lie on one of the cores. */
  predicate FrameTame(vm: Vm, turn: Turn, n: nat, of: nat, r: RendererState)
    requires |turn.out| == n
  {
    LayersTame(FrameOf(vm, turn.scene, r), Layers(turn.scene), n, of, Beginning(turn, Whole(n), r))
  }

  predicate RunTame(vm: Vm, turns: seq<Turn>, n: nat, of: nat, r: RendererState)
    requires forall turn :: turn in turns ==> |turn.out| == n
    decreases |turns|
  {
    turns == [] ||
    (&& FrameTame(vm, turns[0], n, of, r)
     && (var c := Paint(vm, turns[0], Whole(n), r);
         RunTame(vm, turns[1..], n, of, RendererState(Some(turns[0].scene.t), c.history, c.machines))))
  }

  /** One renderer per core, together holding what a single renderer holds. */
  ghost predicate Split(whole: RendererState, cores: seq<RendererState>, n: nat) {
    && cores != []
    && (forall k :: 0 <= k < |cores| ==> cores[k].lastT == whole.lastT)
    && (forall k :: 0 <= k < |cores| ==> SameHistory(whole.history, cores[k].history, Share(k, |cores|, n)))
  }

  /** The cores of one frame agree with a core that renders it alone, pixels, history and report. */
  ghost predicate FrameAgrees(whole: Canvas, parts: seq<Canvas>, n: nat) {
    && Dealt(whole, parts, n)
    && (forall id :: id in whole.report.rendered <==> exists k :: 0 <= k < |parts| && id in parts[k].report.rendered)
  }

  function PaintAll(vm: Vm, turn: Turn, n: nat, cores: seq<RendererState>): (parts: seq<Canvas>)
    requires |turn.out| == n
    ensures |parts| == |cores|
    ensures forall k :: 0 <= k < |cores| ==>
      Within(Share(k, |cores|, n), n) && parts[k] == Paint(vm, turn, Share(k, |cores|, n), cores[k])
  {
    assert forall k :: 0 <= k < |cores| ==> Within(Share(k, |cores|, n), n) by {
      forall k | 0 <= k < |cores| ensures Within(Share(k, |cores|, n), n) { ShareInStrip(k, |cores|, n); }
    }
    seq(|cores|, k requires 0 <= k < |cores| => Paint(vm, turn, Share(k, |cores|, n), cores[k]))
  }

  /** The canvases the cores of a frame start from. */
  function Deal(turn: Turn, n: nat, cores: seq<RendererState>): (starts: seq<Canvas>)
    requires |turn.out| == n
    ensures |starts| == |cores|
    ensures forall k :: 0 <= k < |cores| ==>
      Within(Share(k, |cores|, n), n) && starts[k] == Beginning(turn, Share(k, |cores|, n), cores[k])
  {
    assert forall k :: 0 <= k < |cores| ==> Within(Share(k, |cores|, n), n) by {
      forall k | 0 <= k < |cores| ensures Within(Share(k, |cores|, n), n) { ShareInStrip(k, |cores|, n); }
    }
    seq(|cores|, k requires 0 <= k < |cores| => Beginning(turn, Share(k, |cores|, n), cores[k]))
  }

  lemma DealtFairly(turn: Turn, n: nat, whole: RendererState, cores: seq<RendererState>)
    requires |turn.out| == n && Split(whole, cores, n)
    ensures Dealt(Beginning(turn, Whole(n), whole), Deal(turn, n, cores), n)
  {
    var start, starts := Beginning(turn, Whole(n), whole), Deal(turn, n, cores);
    assert start.out == turn.out;
    forall k | 0 <= k < |cores| ensures Agrees(start, starts[k], Share(k, |cores|, n)) {}
  }

  lemma PartIsPainted(vm: Vm, turn: Turn, n: nat, whole: RendererState, cores: seq<RendererState>, k: nat)
    requires |turn.out| == n && Split(whole, cores, n) && k < |cores|
    ensures PaintAll(vm, turn, n, cores)[k]
            == PartAfter(FrameOf(vm, turn.scene, whole), Layers(turn.scene), n, Deal(turn, n, cores), k)
  {
    assert FrameOf(vm, turn.scene, cores[k]) == FrameOf(vm, turn.scene, whole);
  }

  lemma FramesAgree(vm: Vm, turn: Turn, n: nat, whole: RendererState, cores: seq<RendererState>)
    requires |turn.out| == n && Split(whole, cores, n) && FrameTame(vm, turn, n, |cores|, whole)
    ensures FrameAgrees(Paint(vm, turn, Whole(n), whole), PaintAll(vm, turn, n, cores), n)
  {
    var f, layers := FrameOf(vm, turn.scene, whole), Layers(turn.scene);
    var start, starts := Beginning(turn, Whole(n), whole), Deal(turn, n, cores);
    DealtFairly(turn, n, whole, cores);
    var ended, parts := Paint(vm, turn, Whole(n), whole), PaintAll(vm, turn, n, cores);
    forall k | 0 <= k < |cores|
      ensures parts[k] == PartAfter(f, layers, n, starts, k)
      ensures Agrees(ended, parts[k], Share(k, |cores|, n))
    {
      PartIsPainted(vm, turn, n, whole, cores, k);
      LayersAgree(f, layers, n, |cores|, k, start, starts[k]);
    }
    forall id ensures id in ended.report.rendered <==> exists k :: 0 <= k < |parts| && id in parts[k].report.rendered {
      SharesReportTheSame(f, layers, n, start, starts, id);
    }
  }

  /** The renderers after a frame. */
  function Onward(turn: Turn, parts: seq<Canvas>): (cores: seq<RendererState>)
    ensures |cores| == |parts|
  {
    seq(|parts|, k requires 0 <= k < |parts| => RendererState(Some(turn.scene.t), parts[k].history, parts[k].machines))
  }

  /** Every frame of a run agrees. */
  ghost predicate RunsAgree(vm: Vm, turns: seq<Turn>, n: nat, whole: RendererState, cores: seq<RendererState>)
    requires forall turn :: turn in turns ==> |turn.out| == n
    decreases |turns|
  {
    turns == [] ||
    (var c, parts := Paint(vm, turns[0], Whole(n), whole), PaintAll(vm, turns[0], n, cores);
     && FrameAgrees(c, parts, n)
     && RunsAgree(vm, turns[1..], n, RendererState(Some(turns[0].scene.t), c.history, c.machines), Onward(turns[0], parts)))
  }

  /**
   Over any number of frames in which no pixel faults, but perhaps of sources that lie on one
   core, any number of cores with a share and a renderer each end every frame with the pixels,
   the history and the rendered sources of one core that renders alone.
   */
  lemma {:induction false} CoresRenderWhatOneDoes(vm: Vm, turns: seq<Turn>, n: nat, whole: RendererState,
                                                  cores: seq<RendererState>)
    requires forall turn :: turn in turns ==> |turn.out| == n
    requires Split(whole, cores, n) && RunTame(vm, turns, n, |cores|, whole)
    ensures RunsAgree(vm, turns, n, whole, cores)
    decreases |turns|
  {
    if turns != [] {
      FramesAgree(vm, turns[0], n, whole, cores);
      var c, parts := Paint(vm, turns[0], Whole(n), whole), PaintAll(vm, turns[0], n, cores);
      var next := RendererState(Some(turns[0].scene.t), c.history, c.machines);
      assert Split(next, Onward(turns[0], parts), n);
      CoresRenderWhatOneDoes(vm, turns[1..], n, next, Onward(turns[0], parts));
    }
  }

  /** The buffer the cores' slices make up, side by side. */
  function Gathered(parts: seq<Canvas>): seq<Rgb> {
    if parts == [] then [] else Gathered(parts[..|parts| - 1]) + parts[|parts| - 1].out
  }

  lemma {:induction false} GatheredUpTo(whole: Canvas, parts: seq<Canvas>, n: nat, k: nat)
    requires Dealt(whole, parts, n) && |whole.out| == n && k <= |parts|
    ensures Edge(k, |parts|, n) <= n && Gathered(parts[..k]) == whole.out[..Edge(k, |parts|, n)]
  {
    OuterEdges(|parts|, n);
    EdgesClimb(k, |parts|, |parts|, n);
    if k > 0 {
      GatheredUpTo(whole, parts, n, k - 1);
      ShareIsBetweenEdges(k - 1, |parts|, n);
      assert parts[..k][..k - 1] == parts[..k - 1];
      assert Agrees(whole, parts[k - 1], Share(k - 1, |parts|, n));
      SliceIs(whole.out, parts[k - 1].out, Share(k - 1, |parts|, n));
      SlicesJoin(whole.out, Edge(k - 1, |parts|, n), Edge(k, |parts|, n));
    }
  }

  lemma SliceIs(whole: seq<Rgb>, part: seq<Rgb>, shard: Shard)
    requires SameOut(whole, part, shard)
    ensures part == whole[shard.first..shard.first + shard.len]
  {
  }

  lemma SlicesJoin(s: seq<Rgb>, a: nat, b: nat)
    requires a <= b <= |s|
    ensures s[..a] + s[a..b] == s[..b]
  {
  }

  /** Side by side, the slices of cores that agree with one are its buffer. */
  lemma SlicesMakeTheBuffer(whole: Canvas, parts: seq<Canvas>, n: nat)
    requires Dealt(whole, parts, n) && |whole.out| == n
    ensures Gathered(parts) == whole.out
  {
    GatheredUpTo(whole, parts, n, |parts|);
    OuterEdges(|parts|, n);
    assert parts[..|parts|] == parts;
  }
}

/** The wallpaper engine (`CubeEngine`): an immutable record of its fields
    and one pure function per callback, returning the new record and the
    side effects the callback performs, in order, as actions. Canvas
    drawing, the message handler and the two sampler threads are only seen
    through these actions. */
module Engine {
  import opened Wrappers
  import opened JavaArith
  import opened ProcList
  import Decimal

  /** The two background samplers the engine owns. */
  datatype Sampler = Memory | Stats

  datatype Action =
    | DrawBackground(portrait: bool, x: int)
    | DrawText(uptime: Int64, usage: Int32)
    | DrawButton(speed: Int32)
    | DrawProc(services: seq<ProcEntry>, apps: seq<ProcEntry>)
    | DrawDeuterium(angle: int, status: Option<string>, level: Option<string>, pressure: Option<string>)
    | UnlockCanvasAndPost
    | RemoveCallbacks
    | Post
    | PostDelayed(delay: nat)
    | StartSampler(sampler: Sampler)
    | PauseSampler(sampler: Sampler)
    | ResumeSampler(sampler: Sampler)
    | StopSampler(sampler: Sampler)
    | JoinSampler(sampler: Sampler)
    | JoinInterrupted(sampler: Sampler)
  {
    /** Drawing on the locked canvas. */
    predicate IsDraw() {
      DrawBackground? || DrawText? || DrawButton? || DrawProc? || DrawDeuterium?
    }

    /** Anything done with the canvas, including handing it back. */
    predicate IsCanvasOp() {
      IsDraw() || UnlockCanvasAndPost?
    }

    /** Anything done with the message handler's pending redraws. */
    predicate IsSchedule() {
      RemoveCallbacks? || Post? || PostDelayed?
    }

    /** Anything done to a sampler thread. */
    predicate IsSamplerCall() {
      StartSampler? || PauseSampler? || ResumeSampler? || StopSampler? || JoinSampler? || JoinInterrupted?
    }
  }

  datatype TouchPoint = TouchPoint(x: real, y: real)

  /** The touch point after any event other than a press. */
  const Untouched: TouchPoint := TouchPoint(-1.0, -1.0)

  /** Modes 0 (process list) and 1 (deuterium display). */
  const MaxMode: int := 1

  /** Milliseconds between two frames while visible. */
  const FrameDelay: nat := 1000

  /** The largest orbit angle; the tick wraps to 0 after it. */
  const MaxAngle: int := 360

  datatype Engine = Engine(
    visible: bool,
    mode: Int32,
    isPortrait: bool,
    pixels: Int32,
    touch: TouchPoint,
    angle: Int32,
    level: Option<string>,
    status: Option<string>,
    pressure: Option<string>)

  /** Field values right after construction: mode 0 and angle 0 are set
      explicitly, the rest are Java defaults (false, 0, null). */
  function Create(): (r: Engine)
    ensures !r.visible && !r.isPortrait && r.mode == 0 && r.angle == 0 && r.pixels == 0
    ensures r.level.None? && r.status.None? && r.pressure.None?
  {
    Engine(false, 0, false, 0, TouchPoint(0.0, 0.0), 0, None, None, None)
  }

  /** What the samplers last published, read once per frame. */
  datatype Samples = Samples(uptime: Int64, usage: Int32, speed: Int32,
                             services: seq<ProcEntry>, apps: seq<ProcEntry>)

  /** What a frame depends on besides the engine: whether `lockCanvas`
      returned a canvas, and the sampler snapshots. */
  datatype FrameInput = FrameInput(canvas: bool, samples: Samples)

  /** `drawText` on the published uptime and usage; the texts it draws are
      `Readouts.UsageText` and `Readouts.UptimeTexts` of these values. */
  function TextAction(s: Samples): Action {
    DrawText(s.uptime, s.usage)
  }

  /** `drawButtonText` on the published speed; the text it draws is
      `Readouts.PadSpeed(s.speed)`. */
  function ButtonAction(s: Samples): Action {
    DrawButton(s.speed)
  }

  /** `drawProcText` on the published lists; the rows it draws are
      `MergedRows(s.services, s.apps)`, as `DrawProcRows` computes them. */
  function ProcAction(s: Samples): Action {
    DrawProc(s.services, s.apps)
  }

  function DeuteriumAction(e: Engine): Action {
    DrawDeuterium(e.angle, e.status, e.level, e.pressure)
  }

  /** The drawing calls made on a locked canvas, in order: the background
      if the position changed, then in portrait the text, the button and the
      display of the current mode. */
  function CanvasDraws(e: Engine, positionChanged: bool, s: Samples): (r: seq<Action>)
    ensures |r| <= 4
    ensures forall i :: 0 <= i < |r| ==> r[i].IsDraw()
  {
    var background := if positionChanged then [DrawBackground(e.isPortrait, e.pixels)] else [];
    var display := if e.mode == 0 then [ProcAction(s)]
                   else if e.mode == 1 then [DeuteriumAction(e)]
                   else [];
    var portrait := if e.isPortrait then [TextAction(s), ButtonAction(s)] + display else [];
    background + portrait
  }

  /** Which displays are drawn on a locked canvas, and that nothing else is:
      the background exactly when the position changed, text and button
      exactly in portrait, the process list exactly in portrait mode 0 and
      the deuterium display exactly in portrait mode 1. */
  lemma CanvasDrawsDispatch(e: Engine, positionChanged: bool, s: Samples)
    ensures var r := CanvasDraws(e, positionChanged, s);
      && (DrawBackground(e.isPortrait, e.pixels) in r <==> positionChanged)
      && (TextAction(s) in r <==> e.isPortrait)
      && (ButtonAction(s) in r <==> e.isPortrait)
      && (ProcAction(s) in r <==> e.isPortrait && e.mode == 0)
      && (DeuteriumAction(e) in r <==> e.isPortrait && e.mode == 1)
      && (forall i :: 0 <= i < |r| ==>
           || r[i] == DrawBackground(e.isPortrait, e.pixels) || r[i] == TextAction(s)
           || r[i] == ButtonAction(s) || r[i] == ProcAction(s) || r[i] == DeuteriumAction(e))
  {
  }

  /** The order of the drawing calls on a locked canvas, which decides what
      ends up on top: the background first, then the text, then the button,
      then the display of the mode last; no call is made twice. */
  lemma CanvasDrawsOrder(e: Engine, positionChanged: bool, s: Samples)
    ensures var r := CanvasDraws(e, positionChanged, s);
      var b := if positionChanged then 1 else 0;
      && |r| >= b
      && (positionChanged ==> r[0] == DrawBackground(e.isPortrait, e.pixels))
      && (!e.isPortrait ==> |r| == b)
      && (e.isPortrait ==> |r| >= b + 2 && r[b] == TextAction(s) && r[b + 1] == ButtonAction(s))
      && (e.isPortrait && e.mode == 0 ==> |r| == b + 3 && r[b + 2] == ProcAction(s))
      && (e.isPortrait && e.mode == 1 ==> |r| == b + 3 && r[b + 2] == DeuteriumAction(e))
      && (e.isPortrait && e.mode != 0 && e.mode != 1 ==> |r| == b + 2)
      && (forall i, j :: 0 <= i < j < |r| ==> r[i] != r[j])
  {
  }

  /** The end of every frame: drop pending redraws, and while visible post
      the next one. */
  function Reschedule(visible: bool): (r: seq<Action>)
    ensures forall i :: 0 <= i < |r| ==> r[i].IsSchedule()
  {
    [RemoveCallbacks] + (if visible then [PostDelayed(FrameDelay)] else [])
  }

  /** `drawFrame(positionChanged)`: draw on the canvas if one was obtained
      and hand it back, then drop every pending redraw and, while visible,
      post the next one `FrameDelay` ms ahead. */
  function DrawFrame(e: Engine, positionChanged: bool, input: FrameInput): (r: seq<Action>)
    ensures var t := if e.visible then 2 else 1;
      && |r| >= t
      && r[|r| - t] == RemoveCallbacks
      && (e.visible ==> r[|r| - 1] == PostDelayed(FrameDelay))
      && (input.canvas ==> |r| > t && r[|r| - t - 1] == UnlockCanvasAndPost)
      && (!input.canvas ==> |r| == t)
  {
    var canvasPart := if input.canvas then CanvasDraws(e, positionChanged, input.samples) + [UnlockCanvasAndPost] else [];
    canvasPart + Reschedule(e.visible)
  }

  /** The calls on the handler that end every frame. */
  lemma RescheduleContents(visible: bool)
    ensures var r := Reschedule(visible);
      && RemoveCallbacks in r && Post !in r
      && (PostDelayed(FrameDelay) in r <==> visible)
  {
  }

  /** Where each action of `draws + [UnlockCanvasAndPost] + tail` comes from. */
  lemma FrameIndices(draws: seq<Action>, tail: seq<Action>)
    ensures var r := draws + [UnlockCanvasAndPost] + tail;
      && |r| == |draws| + 1 + |tail|
      && (forall k :: 0 <= k < |draws| ==> r[k] == draws[k])
      && r[|draws|] == UnlockCanvasAndPost
      && (forall k :: |draws| < k < |r| ==> r[k] == tail[k - |draws| - 1])
  {
  }

  /** A frame with a canvas, built from draws and handler calls: the draws
      come first, the canvas is handed back, and the handler calls in it
      are those of `tail`. */
  lemma CanvasFrame(draws: seq<Action>, tail: seq<Action>)
    requires forall k :: 0 <= k < |draws| ==> draws[k].IsDraw()
    requires forall k :: 0 <= k < |tail| ==> tail[k].IsSchedule()
    ensures var r := draws + [UnlockCanvasAndPost] + tail;
      && UnlockCanvasAndPost in r
      && |draws| < |r| && r[..|draws|] == draws
      && (forall i :: |draws| <= i < |r| ==> !r[i].IsDraw())
      && (forall i :: 0 <= i < |r| ==> !r[i].IsSamplerCall())
      && (RemoveCallbacks in r <==> RemoveCallbacks in tail)
      && (Post in r <==> Post in tail)
      && (PostDelayed(FrameDelay) in r <==> PostDelayed(FrameDelay) in tail)
  {
    var r := draws + [UnlockCanvasAndPost] + tail;
    FrameIndices(draws, tail);
    assert r[..|draws|] == draws;
  }

  /** A draw occurs in a frame with a canvas exactly when it is one of the
      frame's draws. */
  lemma DrawMember(draws: seq<Action>, tail: seq<Action>, x: Action)
    requires forall k :: 0 <= k < |tail| ==> tail[k].IsSchedule()
    requires x.IsDraw()
    ensures x in draws + [UnlockCanvasAndPost] + tail <==> x in draws
  {
  }

  /** A frame without a canvas: only handler calls. */
  lemma HandlerOnly(tail: seq<Action>)
    requires forall k :: 0 <= k < |tail| ==> tail[k].IsSchedule()
    ensures forall x :: x in tail ==> x.IsSchedule()
    ensures forall i :: 0 <= i < |tail| ==> !tail[i].IsDraw() && !tail[i].IsSamplerCall()
  {
  }

  /** A frame touches the canvas only if one was obtained, and then hands it
      back after exactly the calls of `CanvasDraws`; it always drops the
      pending redraws, posts the next one (delayed) exactly when visible,
      and never calls a sampler. */
  lemma DrawFrameContents(e: Engine, positionChanged: bool, input: FrameInput)
    ensures var r := DrawFrame(e, positionChanged, input);
      var draws := CanvasDraws(e, positionChanged, input.samples);
      && (UnlockCanvasAndPost in r <==> input.canvas)
      && (input.canvas ==> |draws| < |r| && r[..|draws|] == draws)
      && (forall i :: (if input.canvas then |draws| else 0) <= i < |r| ==> !r[i].IsDraw())
      && (forall i :: 0 <= i < |r| ==> !r[i].IsSamplerCall())
      && RemoveCallbacks in r && Post !in r
      && (PostDelayed(FrameDelay) in r <==> e.visible)
  {
    var draws := CanvasDraws(e, positionChanged, input.samples);
    var tail := Reschedule(e.visible);
    RescheduleContents(e.visible);
    if input.canvas {
      CanvasFrame(draws, tail);
      assert DrawFrame(e, positionChanged, input) == draws + [UnlockCanvasAndPost] + tail;
    } else {
      HandlerOnly(tail);
      assert DrawFrame(e, positionChanged, input) == tail;
    }
  }

  /** Which displays a frame draws: the background only when the position
      changed, text and button only in portrait, the process list only in
      mode 0 and the deuterium display only in mode 1, and nothing without a
      canvas. */
  lemma DrawFrameDispatch(e: Engine, positionChanged: bool, input: FrameInput)
    ensures var r := DrawFrame(e, positionChanged, input);
      && (DrawBackground(e.isPortrait, e.pixels) in r <==> input.canvas && positionChanged)
      && (TextAction(input.samples) in r <==> input.canvas && e.isPortrait)
      && (ButtonAction(input.samples) in r <==> input.canvas && e.isPortrait)
      && (ProcAction(input.samples) in r <==> input.canvas && e.isPortrait && e.mode == 0)
      && (DeuteriumAction(e) in r <==> input.canvas && e.isPortrait && e.mode == 1)
  {
    var draws := CanvasDraws(e, positionChanged, input.samples);
    var tail := Reschedule(e.visible);
    if input.canvas {
      CanvasDrawsDispatch(e, positionChanged, input.samples);
      DrawMember(draws, tail, DrawBackground(e.isPortrait, e.pixels));
      DrawMember(draws, tail, TextAction(input.samples));
      DrawMember(draws, tail, ButtonAction(input.samples));
      DrawMember(draws, tail, ProcAction(input.samples));
      DrawMember(draws, tail, DeuteriumAction(e));
      assert DrawFrame(e, positionChanged, input) == draws + [UnlockCanvasAndPost] + tail;
    } else {
      HandlerOnly(tail);
      assert DrawFrame(e, positionChanged, input) == tail;
    }
  }

  /** Order within a frame: every canvas operation comes before the
      rescheduling, and nothing is drawn after the canvas is handed back. */
  lemma DrawFrameOrder(e: Engine, positionChanged: bool, input: FrameInput)
    ensures var r := DrawFrame(e, positionChanged, input);
      && (forall i, j :: 0 <= i < j < |r| && r[j].IsCanvasOp() ==> r[i].IsCanvasOp())
      && (forall i, j :: 0 <= i < j < |r| && r[i].UnlockCanvasAndPost? ==> !r[j].IsDraw())
  {
    var draws := CanvasDraws(e, positionChanged, input.samples);
    var tail := Reschedule(e.visible);
    if input.canvas {
      DrawsThenUnlock(draws, tail);
      assert DrawFrame(e, positionChanged, input) == draws + [UnlockCanvasAndPost] + tail;
    } else {
      NoCanvasOps(tail);
      assert DrawFrame(e, positionChanged, input) == tail;
    }
  }

  lemma NoCanvasOps(tail: seq<Action>)
    requires forall k :: 0 <= k < |tail| ==> tail[k].IsSchedule()
    ensures forall i, j :: 0 <= i < j < |tail| && tail[j].IsCanvasOp() ==> tail[i].IsCanvasOp()
    ensures forall i, j :: 0 <= i < j < |tail| && tail[i].UnlockCanvasAndPost? ==> !tail[j].IsDraw()
  {
  }

  lemma DrawsThenUnlock(draws: seq<Action>, tail: seq<Action>)
    requires forall k :: 0 <= k < |draws| ==> draws[k].IsDraw()
    requires forall k :: 0 <= k < |tail| ==> tail[k].IsSchedule()
    ensures var r := draws + [UnlockCanvasAndPost] + tail;
      && (forall i, j :: 0 <= i < j < |r| && r[j].IsCanvasOp() ==> r[i].IsCanvasOp())
      && (forall i, j :: 0 <= i < j < |r| && r[i].UnlockCanvasAndPost? ==> !r[j].IsDraw())
  {
    FrameIndices(draws, tail);
  }

  /** `onDestroy`: drop pending redraws and stop both samplers; no field
      changes and nothing is joined. */
  function OnDestroy(e: Engine): (r: seq<Action>)
    ensures RemoveCallbacks in r && StopSampler(Memory) in r && StopSampler(Stats) in r
    ensures |r| == 3 && r[0] == RemoveCallbacks && r[1] == StopSampler(Memory) && r[2] == StopSampler(Stats)
    ensures forall i :: 0 <= i < |r| ==> !r[i].IsCanvasOp() && !r[i].JoinSampler?
  {
    [RemoveCallbacks, StopSampler(Memory), StopSampler(Stats)]
  }

  datatype Reaction = Reaction(engine: Engine, actions: seq<Action>)

  /** `onVisibilityChanged`: record visibility; on show resume both samplers
      and draw a frame at once, on hide drop pending redraws and pause both
      samplers. */
  function OnVisibilityChanged(e: Engine, visible: bool, input: FrameInput): (r: Reaction)
    ensures r.engine == e.(visible := visible)
    ensures visible ==> r.actions == [ResumeSampler(Memory), ResumeSampler(Stats)] + DrawFrame(r.engine, true, input)

    ensures !visible ==> PauseSampler(Memory) in r.actions && PauseSampler(Stats) in r.actions
    ensures !visible ==>
      |r.actions| == 3 && r.actions[0] == RemoveCallbacks
      && r.actions[1] == PauseSampler(Memory) && r.actions[2] == PauseSampler(Stats)
    ensures !visible ==> forall i :: 0 <= i < |r.actions| ==>
      !r.actions[i].IsCanvasOp() && !r.actions[i].ResumeSampler? && !r.actions[i].Post? && !r.actions[i].PostDelayed?
  {
    var e' := e.(visible := visible);
    if visible then
      Reaction(e', [ResumeSampler(Memory), ResumeSampler(Stats)] + DrawFrame(e', true, input))
    else
      Reaction(e', [RemoveCallbacks, PauseSampler(Memory), PauseSampler(Stats)])
  }

  /** `onSurfaceChanged`: portrait unless wider than tall, then a frame. */
  function OnSurfaceChanged(e: Engine, width: Int32, height: Int32, input: FrameInput): (r: Reaction)
    ensures r.engine.isPortrait <==> width <= height
    ensures r.engine == e.(isPortrait := r.engine.isPortrait)
    ensures r.actions == DrawFrame(r.engine, true, input)
  {
    var e' := e.(isPortrait := !(width > height));
    Reaction(e', DrawFrame(e', true, input))
  }

  /** `onSurfaceCreated`: start both samplers; nothing is drawn. */
  function OnSurfaceCreated(e: Engine): (r: seq<Action>)
    ensures StartSampler(Memory) in r && StartSampler(Stats) in r
    ensures |r| == 2 && r[0] == StartSampler(Memory) && r[1] == StartSampler(Stats)
    ensures forall i :: 0 <= i < |r| ==> r[i].StartSampler?
  {
    [StartSampler(Memory), StartSampler(Stats)]
  }

  /** One `while (retry) { try { join(); retry = false; } catch ... }` loop,
      given how many joins are interrupted before one succeeds. The loop is
      entered only if `retry` holds, and always leaves it false. */
  function JoinLoop(retry: bool, s: Sampler, interrupts: nat): (r: (seq<Action>, bool))
    ensures !r.1
    ensures !retry ==> r.0 == []
    ensures retry ==> |r.0| == interrupts + 1 && r.0[interrupts] == JoinSampler(s)
    ensures retry ==> forall i :: 0 <= i < interrupts ==> r.0[i] == JoinInterrupted(s)
  {
    if !retry then ([], false)
    else if interrupts == 0 then ([JoinSampler(s)], false)
    else
      var rest := JoinLoop(retry, s, interrupts - 1);
      ([JoinInterrupted(s)] + rest.0, rest.1)
  }

  /** `onSurfaceDestroyed`: hide, drop pending redraws, stop both samplers,
      then the two join loops sharing one `retry` flag. The first loop
      retries the memory sampler's join until one is not interrupted. */
  function OnSurfaceDestroyed(e: Engine, memInterrupts: nat, statsInterrupts: nat): (r: Reaction)
    ensures r.engine == e.(visible := false)
    ensures |r.actions| == memInterrupts + 4
    ensures r.actions[0] == RemoveCallbacks
    ensures r.actions[1] == StopSampler(Memory) && r.actions[2] == StopSampler(Stats)
    ensures forall i :: 3 <= i < |r.actions| - 1 ==> r.actions[i] == JoinInterrupted(Memory)
    ensures r.actions[|r.actions| - 1] == JoinSampler(Memory)
  {
    var first := JoinLoop(true, Memory, memInterrupts);
    var second := JoinLoop(first.1, Stats, statsInterrupts);
    Reaction(e.(visible := false), [RemoveCallbacks, StopSampler(Memory), StopSampler(Stats)] + first.0 + second.0)
  }

  /** The shared `retry` flag is already false when the second loop is
      reached: the stats sampler is never joined, and nothing is drawn or
      posted. */
  lemma SurfaceDestroyedSkipsStats(e: Engine, memInterrupts: nat, statsInterrupts: nat)
    ensures var acts := OnSurfaceDestroyed(e, memInterrupts, statsInterrupts).actions;
      && JoinSampler(Memory) in acts
      && JoinSampler(Stats) !in acts && JoinInterrupted(Stats) !in acts
      && (forall i :: 0 <= i < |acts| ==> !acts[i].IsCanvasOp() && !acts[i].Post? && !acts[i].PostDelayed?)
  {
    var acts := OnSurfaceDestroyed(e, memInterrupts, statsInterrupts).actions;
    assert acts[|acts| - 1] == JoinSampler(Memory);
    assert forall i :: 0 <= i < |acts| ==> i == 0 || i == 2 || acts[i].sampler == Memory;
  }

  /** `onOffsetsChanged`: remember the horizontal pixel offset and draw. */
  function OnOffsetsChanged(e: Engine, xPixels: Int32, input: FrameInput): (r: Reaction)
    ensures r.engine == e.(pixels := xPixels)
    ensures r.actions == DrawFrame(r.engine, true, input)
  {
    var e' := e.(pixels := xPixels);
    Reaction(e', DrawFrame(e', true, input))
  }

  /** `mode++`, wrapped as a Java `int`, then back to 0 above `MaxMode`. */
  function NextMode(m: Int32): (r: Int32)
    ensures 0 <= m <= MaxMode ==> r == 1 - m
    ensures -1 <= m < Two31 - 1 ==> 0 <= r <= MaxMode
    ensures (m == -1 || MaxMode <= m < Two31 - 1) ==> r == 0
    ensures m < -1 ==> r == m + 1
    ensures m == Two31 - 1 ==> r == -Two31
  {
    var n := Inc(m);
    if n > MaxMode then 0 else n
  }

  /** `onTouchEvent`: a press records the point, and inside the hot-zone
      advances the mode, drops pending redraws and, while visible, posts one
      at once; any other event resets the point to (-1, -1). */
  function OnTouch(e: Engine, down: bool, inHotZone: bool, x: real, y: real): (r: Reaction)
    ensures down ==> r.engine.touch == TouchPoint(x, y)
    ensures !down ==> r.engine.touch == Untouched
    ensures down && inHotZone ==> r.engine.mode == NextMode(e.mode)
    ensures !(down && inHotZone) ==> r.engine.mode == e.mode && r.actions == []
    ensures r.engine == e.(touch := r.engine.touch, mode := r.engine.mode)
    ensures down && inHotZone ==> r.actions == [RemoveCallbacks] + (if e.visible then [Post] else [])
  {
    if down then
      var e' := e.(touch := TouchPoint(x, y));
      if inHotZone then
        Reaction(e'.(mode := NextMode(e.mode)),
                 [RemoveCallbacks] + (if e.visible then [Post] else []))
      else Reaction(e', [])
    else Reaction(e.(touch := Untouched), [])
  }

  /** The engine after `n` presses inside the hot-zone. */
  function HotZonePresses(e: Engine, n: nat, x: real, y: real): Engine {
    if n == 0 then e else OnTouch(HotZonePresses(e, n - 1, x, y), true, true, x, y).engine
  }

  /** The mode cycles through 0 and 1: starting from mode 0, `n` presses
      leave mode `n % 2`, and nothing but the mode and touch point changes. */
  lemma {:induction false} HotZonePressesCycle(e: Engine, n: nat, x: real, y: real)
    requires 0 <= e.mode <= MaxMode
    ensures HotZonePresses(e, n, x, y).mode == (e.mode + n) % 2
    ensures n > 0 ==> HotZonePresses(e, n, x, y) == e.(mode := (e.mode + n) % 2, touch := TouchPoint(x, y))
  {
    if n > 0 {
      HotZonePressesCycle(e, n - 1, x, y);
    }
  }

  /** `angle++` (as a Java `int`), then back to 0 above `MaxAngle`: the
      orbit has 361 positions, 0 to 360. */
  function NextAngle(a: Int32): (r: Int32)
    ensures 0 <= a <= MaxAngle ==> r == (a + 1) % (MaxAngle + 1)
    ensures -1 <= a < Two31 - 1 ==> 0 <= r <= MaxAngle
    ensures -1 <= a < MaxAngle ==> r == a + 1
    ensures MaxAngle <= a < Two31 - 1 ==> r == 0
    ensures a < -1 ==> r == a + 1
    ensures a == Two31 - 1 ==> r == -Two31
  {
    var b := Inc(a);
    if b > MaxAngle then 0 else b
  }

  /** The `mDrawCube` runnable: advance the orbit angle even when it is not
      drawn, then draw a frame. */
  function OnTick(e: Engine, input: FrameInput): (r: Reaction)
    ensures r.engine == e.(angle := NextAngle(e.angle))
    ensures r.actions == DrawFrame(r.engine, true, input)
  {
    var e' := e.(angle := NextAngle(e.angle));
    Reaction(e', DrawFrame(e', true, input))
  }

  /** The orbit angle after `n` runs of the `mDrawCube` runnable. */
  function AngleAfterTicks(a: Int32, n: nat): Int32 {
    if n == 0 then a else NextAngle(AngleAfterTicks(a, n - 1))
  }

  /** From any angle in 0..360, `n` ticks advance it by `n` modulo 361. */
  lemma {:induction false} AngleAfterTicksWraps(a: Int32, n: nat)
    requires 0 <= a <= MaxAngle
    ensures AngleAfterTicks(a, n) == (a + n) % (MaxAngle + 1)
  {
    if n > 0 {
      AngleAfterTicksWraps(a, n - 1);
      var p := AngleAfterTicks(a, n - 1);
      assert AngleAfterTicks(a, n) == NextAngle(p) == (p + 1) % (MaxAngle + 1);
      ModSucc(a + n - 1);
    }
  }

  lemma ModSucc(x: nat)
    ensures ((x % (MaxAngle + 1)) + 1) % (MaxAngle + 1) == (x + 1) % (MaxAngle + 1)
  {
    var q := x / (MaxAngle + 1);
    assert x == q * (MaxAngle + 1) + x % (MaxAngle + 1);
  }

  /** Battery status codes as defined by the platform. */
  const StatusUnknown: int := 1
  const StatusCharging: int := 2
  const StatusDischarging: int := 3
  const StatusNotCharging: int := 4
  const StatusFull: int := 5

  /** The status line for a battery status code; codes without a case in
      the switch leave the previous line in place. */
  function StatusText(code: Int32, previous: Option<string>): (r: Option<string>)
    ensures !(StatusUnknown <= code <= StatusFull) ==> r == previous
    ensures StatusUnknown <= code <= StatusFull ==> r.Some?
  {
    if code == StatusCharging then Some("Refilling deuterium")
    else if code == StatusDischarging then Some("Deuterium flow normal")
    else if code == StatusFull then Some("Deuterium tanks full")
    else if code == StatusNotCharging then Some("Deuterium refill stopped")
    else if code == StatusUnknown then Some("Deuterium status unknown")
    else previous
  }

  /** The five known codes get five different status lines. */
  lemma StatusTextDistinct(c: Int32, d: Int32, previous: Option<string>)
    requires StatusUnknown <= c <= StatusFull && StatusUnknown <= d <= StatusFull
    requires StatusText(c, previous) == StatusText(d, previous)
    ensures c == d
  {
  }

  /** The battery receiver's `onReceive`: level as text with a percent sign,
      the mapped status line, and the voltage as text. Missing extras read as
      0, which maps to no status. */
  function OnBattery(e: Engine, level: Int32, statusCode: Int32, voltage: Int32): (r: Engine)
    ensures r == e.(level := r.level, status := r.status, pressure := r.pressure)
    ensures r.level.Some? && |r.level.value| >= 2
    ensures Decimal.ValueOf(r.level.value[..|r.level.value| - 1]) == Some(level)
    ensures r.level.value[|r.level.value| - 1] == '%'
    ensures r.pressure.Some? && Decimal.ValueOf(r.pressure.value) == Some(voltage)
    ensures r.status == StatusText(statusCode, e.status)
  {
    var levelText := Decimal.IntToString(level) + "%";
    assert levelText[..|levelText| - 1] == Decimal.IntToString(level);
    Decimal.IntToStringRoundTrip(level);
    Decimal.IntToStringRoundTrip(voltage);
    e.(level := Some(levelText),
       status := StatusText(statusCode, e.status),
       pressure := Some(Decimal.IntToString(voltage)))
  }
}

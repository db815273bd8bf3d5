/** The engine driven by events, together with the message handler's queue
    of pending `mDrawCube` redraws: every callback runs to completion, and a
    queued redraw can run (as a `Tick`) only while one is pending. */
module RenderLoop {
  import opened Wrappers
  import opened JavaArith
  import opened Engine

  /** The delays of the pending redraws after `actions`: removing callbacks
      empties the queue, posting appends a redraw, anything else leaves it. */
  function Schedule(q: seq<nat>, actions: seq<Action>): (r: seq<nat>)
    ensures |r| <= |q| + |actions|
    ensures forall i :: 0 <= i < |r| ==> r[i] in q || (r[i] == 0 && Post in actions) || PostDelayed(r[i]) in actions
  {
    if |actions| == 0 then q
    else
      var before := Schedule(q, actions[..|actions| - 1]);
      match actions[|actions| - 1]
      case RemoveCallbacks => []
      case Post => before + [0]
      case PostDelayed(d) => before + [d]
      case _ => before
  }

  lemma {:induction false} ScheduleAppend(q: seq<nat>, a: seq<Action>, b: seq<Action>)
    ensures Schedule(q, a + b) == Schedule(Schedule(q, a), b)
  {
    if |b| > 0 {
      var b' := b[..|b| - 1];
      assert (a + b)[..|a + b| - 1] == a + b';
      ScheduleAppend(q, a, b');
    } else {
      assert a + b == a;
    }
  }

  /** Actions that do not touch the handler leave the queue as it was. */
  lemma {:induction false} ScheduleIgnores(q: seq<nat>, a: seq<Action>)
    requires forall i :: 0 <= i < |a| ==> !a[i].IsSchedule()
    ensures Schedule(q, a) == q
  {
    if |a| > 0 {
      ScheduleIgnores(q, a[..|a| - 1]);
    }
  }

  /** Without posts nothing becomes pending. */
  lemma {:induction false} ScheduleNoPosts(a: seq<Action>)
    requires forall i :: 0 <= i < |a| ==> !a[i].Post? && !a[i].PostDelayed?
    ensures Schedule([], a) == []
  {
    if |a| > 0 {
      ScheduleNoPosts(a[..|a| - 1]);
    }
  }

  /** Removing callbacks forgets everything pending before. */
  lemma ScheduleAfterRemove(q: seq<nat>, b: seq<Action>)
    ensures Schedule(q, [RemoveCallbacks] + b) == Schedule([], b)
  {
    ScheduleAppend(q, [RemoveCallbacks], b);
    assert [RemoveCallbacks][..0] == [];
  }

  lemma ScheduleReschedule(q: seq<nat>, visible: bool)
    ensures Schedule(q, Reschedule(visible)) == if visible then [FrameDelay] else []
  {
    var post := if visible then [PostDelayed(FrameDelay)] else [];
    assert Reschedule(visible) == [RemoveCallbacks] + post;
    ScheduleAfterRemove(q, post);
    if visible {
      assert post[..0] == [];
    }
  }

  /** Whatever was pending before, a frame leaves exactly one redraw pending,
      `FrameDelay` ms ahead, while visible, and none while hidden. */
  lemma DrawFrameReschedules(e: Engine, positionChanged: bool, input: FrameInput, q: seq<nat>)
    ensures Schedule(q, DrawFrame(e, positionChanged, input)) == if e.visible then [FrameDelay] else []
  {
    var draws := if input.canvas then CanvasDraws(e, positionChanged, input.samples) + [UnlockCanvasAndPost] else [];
    var tail := Reschedule(e.visible);
    assert DrawFrame(e, positionChanged, input) == draws + tail;
    ScheduleAppend(q, draws, tail);
    ScheduleReschedule(Schedule(q, draws), e.visible);
  }

  datatype Event =
    | VisibilityChanged(visible: bool)
    | SurfaceChanged(width: Int32, height: Int32)
    | SurfaceCreated
    | SurfaceDestroyed(memInterrupts: nat, statsInterrupts: nat)
    | OffsetsChanged(xPixels: Int32)
    | TouchEvent(down: bool, inHotZone: bool, x: real, y: real)
    | Tick
    | BatteryChanged(level: Int32, status: Int32, voltage: Int32)
    | Destroy

  /** The callback each event invokes. */
  function React(e: Engine, ev: Event, input: FrameInput): Reaction {
    match ev
    case VisibilityChanged(v) => OnVisibilityChanged(e, v, input)
    case SurfaceChanged(w, h) => OnSurfaceChanged(e, w, h, input)
    case SurfaceCreated => Reaction(e, OnSurfaceCreated(e))
    case SurfaceDestroyed(m, st) => OnSurfaceDestroyed(e, m, st)
    case OffsetsChanged(x) => OnOffsetsChanged(e, x, input)
    case TouchEvent(down, hot, x, y) => OnTouch(e, down, hot, x, y)
    case Tick => OnTick(e, input)
    case BatteryChanged(l, st, v) => Reaction(OnBattery(e, l, st, v), [])
    case Destroy => Reaction(e, OnDestroy(e))
  }

  datatype Sys = Sys(engine: Engine, queue: seq<nat>)

  function Start(): Sys {
    Sys(Create(), [])
  }

  /** One event: a `Tick` takes the first pending redraw off the queue and
      is not enabled when none is pending; every event then applies its
      callback's actions to the queue. */
  function Step(s: Sys, ev: Event, input: FrameInput): (r: Option<Sys>)
    ensures r.None? <==> ev.Tick? && s.queue == []
  {
    if ev.Tick? && s.queue == [] then None
    else
      var q := if ev.Tick? then s.queue[1..] else s.queue;
      var re := React(s.engine, ev, input);
      Some(Sys(re.engine, Schedule(q, re.actions)))
  }

  /** Mode is 0 or 1, the angle is in 0..360, at most one redraw is pending,
      and none while hidden. */
  ghost predicate Inv(s: Sys) {
    && 0 <= s.engine.mode <= MaxMode
    && 0 <= s.engine.angle <= MaxAngle
    && |s.queue| <= 1
    && (!s.engine.visible ==> s.queue == [])
  }

  lemma StartInv()
    ensures Inv(Start())
  {
  }

  /** What each callback does to the pending redraws, independently of the
      actions it is made of: a frame leaves one redraw `FrameDelay` ms ahead
      while visible and none while hidden, hiding and both destroy callbacks
      clear the queue, a hot-zone press replaces it by an immediate redraw
      while visible, and the rest leave it alone. */
  function PendingAfter(e: Engine, ev: Event, q: seq<nat>): seq<nat> {
    match ev
    case VisibilityChanged(v) => if v then [FrameDelay] else []
    case SurfaceChanged(_, _) => if e.visible then [FrameDelay] else []
    case OffsetsChanged(_) => if e.visible then [FrameDelay] else []
    case Tick => if e.visible then [FrameDelay] else []
    case SurfaceDestroyed(_, _) => []
    case Destroy => []
    case TouchEvent(down, hot, _, _) =>
      if down && hot then (if e.visible then [0] else []) else q
    case SurfaceCreated => q
    case BatteryChanged(_, _, _) => q
  }

  /** Each callback's actions have exactly the effect `PendingAfter` states. */
  lemma ReactSchedule(e: Engine, ev: Event, input: FrameInput, q: seq<nat>)
    ensures Schedule(q, React(e, ev, input).actions) == PendingAfter(e, ev, q)
  {
    match ev
    case VisibilityChanged(v) => VisibilityReactSchedule(e, v, input, q);
    case SurfaceChanged(w, h) => FrameReactSchedule(e, ev, input, q);
    case OffsetsChanged(x) => FrameReactSchedule(e, ev, input, q);
    case Tick => FrameReactSchedule(e, ev, input, q);
    case SurfaceDestroyed(m, st) => DestroyedReactSchedule(e, m, st, input, q);
    case TouchEvent(down, hot, x, y) => TouchReactSchedule(e, down, hot, x, y, input, q);
    case SurfaceCreated => QuietReactSchedule(e, ev, input, q);
    case BatteryChanged(l, st, v) => QuietReactSchedule(e, ev, input, q);
    case Destroy => QuietReactSchedule(e, ev, input, q);
  }

  /** The callbacks that end in a frame. */
  lemma FrameReactSchedule(e: Engine, ev: Event, input: FrameInput, q: seq<nat>)
    requires ev.SurfaceChanged? || ev.OffsetsChanged? || ev.Tick?
    ensures Schedule(q, React(e, ev, input).actions) == PendingAfter(e, ev, q)
  {
    var re := React(e, ev, input);
    assert re.actions == DrawFrame(re.engine, true, input) && re.engine.visible == e.visible;
    DrawFrameReschedules(re.engine, true, input, q);
  }

  lemma VisibilityReactSchedule(e: Engine, v: bool, input: FrameInput, q: seq<nat>)
    ensures Schedule(q, React(e, VisibilityChanged(v), input).actions) == PendingAfter(e, VisibilityChanged(v), q)
  {
    assert React(e, VisibilityChanged(v), input) == OnVisibilityChanged(e, v, input);
    VisibilitySchedule(e, v, input, q);
  }

  lemma DestroyedReactSchedule(e: Engine, m: nat, st: nat, input: FrameInput, q: seq<nat>)
    ensures Schedule(q, React(e, SurfaceDestroyed(m, st), input).actions) == PendingAfter(e, SurfaceDestroyed(m, st), q)
  {
    assert React(e, SurfaceDestroyed(m, st), input) == OnSurfaceDestroyed(e, m, st);
    DestroyedSchedule(e, m, st, q);
  }

  lemma TouchReactSchedule(e: Engine, down: bool, hot: bool, x: real, y: real, input: FrameInput, q: seq<nat>)
    ensures var ev := TouchEvent(down, hot, x, y);
      Schedule(q, React(e, ev, input).actions) == PendingAfter(e, ev, q)
  {
    var re := OnTouch(e, down, hot, x, y);
    assert React(e, TouchEvent(down, hot, x, y), input) == re;
    if down && hot {
      HotZoneReschedules(e, q);
    } else {
      assert re.actions == [];
    }
  }

  /** Creating the surface, a battery update and destroying the engine. */
  lemma QuietReactSchedule(e: Engine, ev: Event, input: FrameInput, q: seq<nat>)
    requires ev.SurfaceCreated? || ev.BatteryChanged? || ev.Destroy?
    ensures Schedule(q, React(e, ev, input).actions) == PendingAfter(e, ev, q)
  {
    var re := React(e, ev, input);
    if ev.SurfaceCreated? {
      ScheduleIgnores(q, re.actions);
    } else if ev.Destroy? {
      assert re.actions == [RemoveCallbacks] + [StopSampler(Memory), StopSampler(Stats)];
      ScheduleAfterRemove(q, [StopSampler(Memory), StopSampler(Stats)]);
      ScheduleIgnores([], [StopSampler(Memory), StopSampler(Stats)]);
    } else {
      assert re.actions == [];
    }
  }

  lemma VisibilitySchedule(e: Engine, v: bool, input: FrameInput, q: seq<nat>)
    ensures Schedule(q, OnVisibilityChanged(e, v, input).actions) == if v then [FrameDelay] else []
  {
    var re := OnVisibilityChanged(e, v, input);
    if v {
      var resumes := [ResumeSampler(Memory), ResumeSampler(Stats)];
      ScheduleAppend(q, resumes, DrawFrame(re.engine, true, input));
      DrawFrameReschedules(re.engine, true, input, Schedule(q, resumes));
    } else {
      var pauses := [PauseSampler(Memory), PauseSampler(Stats)];
      assert re.actions == [RemoveCallbacks] + pauses;
      ScheduleAfterRemove(q, pauses);
      ScheduleIgnores([], pauses);
    }
  }

  lemma DestroyedSchedule(e: Engine, m: nat, st: nat, q: seq<nat>)
    ensures Schedule(q, OnSurfaceDestroyed(e, m, st).actions) == []
  {
    var acts := OnSurfaceDestroyed(e, m, st).actions;
    var rest := acts[1..];
    assert acts == [RemoveCallbacks] + rest;
    ScheduleAfterRemove(q, rest);
    SurfaceDestroyedSkipsStats(e, m, st);
    assert forall i :: 0 <= i < |rest| ==> rest[i] == acts[i + 1];
    ScheduleNoPosts(rest);
  }

  /** The calls on the sampler threads among `actions`, in order. */
  function SamplerCalls(actions: seq<Action>): (r: seq<Action>)
    ensures |r| <= |actions|
    ensures forall i :: 0 <= i < |r| ==> r[i].IsSamplerCall()
  {
    if |actions| == 0 then []
    else
      var before := SamplerCalls(actions[..|actions| - 1]);
      var last := actions[|actions| - 1];
      if last.IsSamplerCall() then before + [last] else before
  }

  lemma {:induction false} SamplerCallsAppend(a: seq<Action>, b: seq<Action>)
    ensures SamplerCalls(a + b) == SamplerCalls(a) + SamplerCalls(b)
  {
    if |b| > 0 {
      var b' := b[..|b| - 1];
      assert (a + b)[..|a + b| - 1] == a + b';
      SamplerCallsAppend(a, b');
    } else {
      assert a + b == a;
    }
  }

  lemma {:induction false} SamplerCallsNone(a: seq<Action>)
    requires forall i :: 0 <= i < |a| ==> !a[i].IsSamplerCall()
    ensures SamplerCalls(a) == []
  {
    if |a| > 0 {
      SamplerCallsNone(a[..|a| - 1]);
    }
  }

  lemma {:induction false} SamplerCallsAll(a: seq<Action>)
    requires forall i :: 0 <= i < |a| ==> a[i].IsSamplerCall()
    ensures SamplerCalls(a) == a
  {
    if |a| > 0 {
      SamplerCallsAll(a[..|a| - 1]);
      assert a[..|a| - 1] + [a[|a| - 1]] == a;
    }
  }

  /** `n` copies of `x`. */
  function Repeat(x: Action, n: nat): (r: seq<Action>)
    ensures |r| == n && forall i :: 0 <= i < n ==> r[i] == x
  {
    if n == 0 then [] else Repeat(x, n - 1) + [x]
  }

  /** What each callback does to the sampler threads, in order, independently
      of the actions it is made of: showing resumes both, hiding pauses both,
      creating the surface starts both, destroying the engine stops both,
      destroying the surface stops both and then joins the memory sampler
      after as many interrupted joins as occur; the other callbacks leave the
      samplers alone. Each sampler is started, paused, resumed or stopped at
      most once per callback, the memory sampler first. */
  function SamplersAfter(ev: Event): seq<Action> {
    match ev
    case VisibilityChanged(v) =>
      if v then [ResumeSampler(Memory), ResumeSampler(Stats)] else [PauseSampler(Memory), PauseSampler(Stats)]
    case SurfaceCreated => [StartSampler(Memory), StartSampler(Stats)]
    case SurfaceDestroyed(m, _) =>
      [StopSampler(Memory), StopSampler(Stats)] + Repeat(JoinInterrupted(Memory), m) + [JoinSampler(Memory)]
    case Destroy => [StopSampler(Memory), StopSampler(Stats)]
    case _ => []
  }

  /** Each callback makes exactly the sampler calls `SamplersAfter` lists. */
  lemma ReactSamplers(e: Engine, ev: Event, input: FrameInput)
    ensures SamplerCalls(React(e, ev, input).actions) == SamplersAfter(ev)
  {
    match ev
    case VisibilityChanged(v) => VisibilityReactSamplers(e, v, input);
    case SurfaceChanged(w, h) => FrameReactSamplers(e, ev, input);
    case OffsetsChanged(x) => FrameReactSamplers(e, ev, input);
    case Tick => FrameReactSamplers(e, ev, input);
    case SurfaceDestroyed(m, st) => DestroyedReactSamplers(e, m, st, input);
    case TouchEvent(down, hot, x, y) => TouchReactSamplers(e, down, hot, x, y, input);
    case SurfaceCreated => CreatedReactSamplers(e, input);
    case BatteryChanged(l, st, v) => assert React(e, ev, input).actions == [];
    case Destroy => DestroyReactSamplers(e, input);
  }

  /** Sampler calls followed by actions that are none. */
  lemma SamplersThenOthers(pre: seq<Action>, post: seq<Action>)
    requires forall i :: 0 <= i < |pre| ==> pre[i].IsSamplerCall()
    requires forall i :: 0 <= i < |post| ==> !post[i].IsSamplerCall()
    ensures SamplerCalls(pre + post) == pre
  {
    SamplerCallsAppend(pre, post);
    SamplerCallsAll(pre);
    SamplerCallsNone(post);
  }

  /** Actions that are no sampler calls, followed by sampler calls only. */
  lemma OthersThenSamplers(pre: seq<Action>, post: seq<Action>)
    requires forall i :: 0 <= i < |pre| ==> !pre[i].IsSamplerCall()
    requires forall i :: 0 <= i < |post| ==> post[i].IsSamplerCall()
    ensures SamplerCalls(pre + post) == post
  {
    SamplerCallsAppend(pre, post);
    SamplerCallsNone(pre);
    SamplerCallsAll(post);
  }

  /** Removing callbacks, then sampler calls only. */
  lemma RemovalThenSamplers(rest: seq<Action>)
    requires forall i :: 0 <= i < |rest| ==> rest[i].IsSamplerCall()
    ensures SamplerCalls([RemoveCallbacks] + rest) == rest
  {
    var removal := [RemoveCallbacks];
    assert forall i :: 0 <= i < |removal| ==> !removal[i].IsSamplerCall();
    OthersThenSamplers(removal, rest);
  }

  /** A frame makes no sampler call. */
  lemma DrawFrameNoSamplers(e: Engine, positionChanged: bool, input: FrameInput)
    ensures forall i :: 0 <= i < |DrawFrame(e, positionChanged, input)| ==> !DrawFrame(e, positionChanged, input)[i].IsSamplerCall()
  {
    DrawFrameContents(e, positionChanged, input);
  }

  lemma FrameReactSamplers(e: Engine, ev: Event, input: FrameInput)
    requires ev.SurfaceChanged? || ev.OffsetsChanged? || ev.Tick?
    ensures SamplerCalls(React(e, ev, input).actions) == []
  {
    var re := React(e, ev, input);
    assert re.actions == DrawFrame(re.engine, true, input);
    DrawFrameNoSamplers(re.engine, true, input);
    SamplerCallsNone(re.actions);
  }

  lemma VisibilityReactSamplers(e: Engine, v: bool, input: FrameInput)
    ensures SamplerCalls(React(e, VisibilityChanged(v), input).actions) == SamplersAfter(VisibilityChanged(v))
  {
    var re := OnVisibilityChanged(e, v, input);
    assert React(e, VisibilityChanged(v), input) == re;
    if v {
      DrawFrameNoSamplers(re.engine, true, input);
      SamplersThenOthers([ResumeSampler(Memory), ResumeSampler(Stats)], DrawFrame(re.engine, true, input));
    } else {
      var pauses := [PauseSampler(Memory), PauseSampler(Stats)];
      assert re.actions == [RemoveCallbacks] + pauses;
      RemovalThenSamplers(pauses);
    }
  }

  lemma TouchReactSamplers(e: Engine, down: bool, hot: bool, x: real, y: real, input: FrameInput)
    ensures SamplerCalls(React(e, TouchEvent(down, hot, x, y), input).actions) == []
  {
    var acts := OnTouch(e, down, hot, x, y).actions;
    assert React(e, TouchEvent(down, hot, x, y), input).actions == acts;
    assert forall i :: 0 <= i < |acts| ==> acts[i] == RemoveCallbacks || acts[i] == Post;
    SamplerCallsNone(acts);
  }

  lemma CreatedReactSamplers(e: Engine, input: FrameInput)
    ensures SamplerCalls(React(e, SurfaceCreated, input).actions) == SamplersAfter(SurfaceCreated)
  {
    SamplerCallsAll(OnSurfaceCreated(e));
  }

  lemma DestroyReactSamplers(e: Engine, input: FrameInput)
    ensures SamplerCalls(React(e, Destroy, input).actions) == SamplersAfter(Destroy)
  {
    var stops := [StopSampler(Memory), StopSampler(Stats)];
    assert OnDestroy(e) == [RemoveCallbacks] + stops;
    RemovalThenSamplers(stops);
  }

  lemma DestroyedReactSamplers(e: Engine, m: nat, st: nat, input: FrameInput)
    ensures SamplerCalls(React(e, SurfaceDestroyed(m, st), input).actions) == SamplersAfter(SurfaceDestroyed(m, st))
  {
    var acts := OnSurfaceDestroyed(e, m, st).actions;
    assert React(e, SurfaceDestroyed(m, st), input).actions == acts;
    DestroyedShape(acts, m);
  }

  /** From the shape `onSurfaceDestroyed` gives its actions to its sampler
      calls. */
  lemma DestroyedShape(acts: seq<Action>, m: nat)
    requires |acts| == m + 4 && acts[0] == RemoveCallbacks
    requires acts[1] == StopSampler(Memory) && acts[2] == StopSampler(Stats)
    requires forall i :: 3 <= i < |acts| - 1 ==> acts[i] == JoinInterrupted(Memory)
    requires acts[|acts| - 1] == JoinSampler(Memory)
    ensures SamplerCalls(acts) == SamplersAfter(SurfaceDestroyed(m, 0))
  {
    var rest := acts[1..];
    assert acts == [RemoveCallbacks] + rest;
    StopsThenJoins(rest, m);
    RemovalThenSamplers(rest);
  }

  /** The actions of `onSurfaceDestroyed` after the removal are the two
      stops and the memory sampler's join loop. */
  lemma StopsThenJoins(rest: seq<Action>, m: nat)
    requires |rest| == m + 3
    requires rest[0] == StopSampler(Memory) && rest[1] == StopSampler(Stats)
    requires forall i :: 2 <= i < m + 2 ==> rest[i] == JoinInterrupted(Memory)
    requires rest[m + 2] == JoinSampler(Memory)
    ensures rest == [StopSampler(Memory), StopSampler(Stats)] + Repeat(JoinInterrupted(Memory), m) + [JoinSampler(Memory)]
    ensures forall i :: 0 <= i < |rest| ==> rest[i].IsSamplerCall()
  {
    var joins := Repeat(JoinInterrupted(Memory), m);
    var t := [StopSampler(Memory), StopSampler(Stats)] + joins + [JoinSampler(Memory)];
    forall i | 0 <= i < |t|
      ensures t[i] == rest[i]
    {
      if 2 <= i < m + 2 {
        assert t[i] == joins[i - 2];
      }
    }
  }

  /** Every event keeps the invariant: redraws never pile up, and a hidden
      engine has none pending. */
  lemma StepPreservesInv(s: Sys, ev: Event, input: FrameInput)
    requires Inv(s) && Step(s, ev, input).Some?
    ensures Inv(Step(s, ev, input).value)
  {
    var q := if ev.Tick? then s.queue[1..] else s.queue;
    ReactSchedule(s.engine, ev, input, q);
  }

  /** A press inside the hot-zone replaces whatever was pending by one
      immediate redraw while visible, and by nothing while hidden. */
  lemma HotZoneReschedules(e: Engine, q: seq<nat>)
    ensures Schedule(q, [RemoveCallbacks] + (if e.visible then [Post] else [])) == if e.visible then [0] else []
  {
    ScheduleAfterRemove(q, if e.visible then [Post] else []);
    if e.visible {
      assert [Post][..0] == [];
    }
  }

  /** Render cadence: while visible, running the pending redraw draws a
      frame and leaves exactly one redraw pending, `FrameDelay` ms ahead. */
  lemma VisibleTickCadence(s: Sys, input: FrameInput)
    requires Inv(s) && s.engine.visible && s.queue != []
    ensures Step(s, Tick, input).Some?
    ensures Step(s, Tick, input).value.queue == [FrameDelay]
  {
    DrawFrameReschedules(OnTick(s.engine, input).engine, true, input, s.queue[1..]);
  }

  /** Hiding then showing again leaves exactly one redraw pending, however
      many were pending before: no backlog of frames. */
  lemma HideShowNoBacklog(s: Sys, input: FrameInput)
    ensures var hidden := Step(s, VisibilityChanged(false), input).value;
      && hidden.queue == []
      && Step(hidden, VisibilityChanged(true), input).value.queue == [FrameDelay]
  {
    var hidden := Step(s, VisibilityChanged(false), input).value;
    var acts := [RemoveCallbacks, PauseSampler(Memory), PauseSampler(Stats)];
    assert acts == [RemoveCallbacks] + [PauseSampler(Memory), PauseSampler(Stats)];
    ScheduleAfterRemove(s.queue, [PauseSampler(Memory), PauseSampler(Stats)]);
    ScheduleIgnores([], [PauseSampler(Memory), PauseSampler(Stats)]);
    var shown := hidden.engine.(visible := true);
    ScheduleAppend([], [ResumeSampler(Memory), ResumeSampler(Stats)], DrawFrame(shown, true, input));
    ScheduleIgnores([], [ResumeSampler(Memory), ResumeSampler(Stats)]);
    DrawFrameReschedules(shown, true, input, []);
  }
}

// The per-tween state machine of libtween (Tween_CreateTween,
// Tween_StartTween and Tween_UpdateTween) as functions on a snapshot of a
// tween's fields. What a completed tween does to its chained successors and
// to the engine's list belongs to the Scheduler module.
module Lifecycle {
  import opened Props

  /** 2^32: the range of the uint32_t timestamps, durations and delays. */
  const TIME_LIMIT: int := 0x1_0000_0000

  type u32 = x: int | 0 <= x < 0x1_0000_0000

  /** The C `int` of the repeat counter. */
  type i32 = x: int | -0x8000_0000 <= x < 0x8000_0000

  /** uint32_t addition, which wraps around modulo 2^32. */
  function AddU32(a: u32, b: u32): (r: u32)
    ensures a + b < TIME_LIMIT ==> r == a + b
    ensures a + b >= TIME_LIMIT ==> r == a + b - TIME_LIMIT
  {
    (a + b) % TIME_LIMIT
  }

  /** The three caller-supplied hooks. */
  datatype Callback = OnStart | OnUpdate | OnComplete

  /** The fields of a Tween record that no operation changes after creation. A callback
      is recorded only by whether it is set (a non-null function pointer). */
  datatype Config = Config(
    duration: u32,
    delay: u32,
    yoyo: bool,
    easing: EasingId,
    hasStartCallback: bool,
    hasUpdateCallback: bool,
    hasCompleteCallback: bool)

  /** The fields of a Tween record other than its engine and its chain. */
  datatype TweenState = TweenState(
    startTime: u32,
    repeat: i32,
    reversed: bool,
    startCallbackFired: bool,
    props: Props,
    startProps: Props,
    toProps: Props,
    repeatProps: Props,
    cfg: Config)
  {
    /** What callers must provide: a positive duration and vectors of one length. */
    predicate WellFormed()
    {
      cfg.duration > 0 &&
      |startProps| == |props| && |toProps| == |props| && |repeatProps| == |props|
    }
  }

  /** Tween_CreateTween: the zeroed record with all three start-side vectors copied
      from `props`. */
  function Created(props: Props, toProps: Props, duration: u32, easing: EasingId,
                   hasUpdateCallback: bool): (r: TweenState)
    ensures r.props == props && r.startProps == props && r.repeatProps == props
    ensures r.toProps == toProps
    ensures r.startTime == 0 && r.repeat == 0 && !r.reversed && !r.startCallbackFired
    ensures r.cfg == Config(duration, 0, false, easing, false, hasUpdateCallback, false)
    ensures r.WellFormed() <==> duration > 0 && |props| == |toProps|
  {
    TweenState(0, 0, false, false, props, props, toProps, props,
               Config(duration, 0, false, easing, false, hasUpdateCallback, false))
  }

  /** Tween_CreateTweenEx: Tween_CreateTween, then the delay, repeat, yoyo and the
      start and complete callbacks set. */
  function CreatedEx(props: Props, toProps: Props, duration: u32, delay: u32, repeat: i32,
                     yoyo: bool, easing: EasingId, hasStartCallback: bool,
                     hasUpdateCallback: bool, hasCompleteCallback: bool): (r: TweenState)
    ensures r.repeat == repeat && r.cfg.delay == delay && r.cfg.yoyo == yoyo
    ensures r.cfg.hasStartCallback == hasStartCallback && r.cfg.hasCompleteCallback == hasCompleteCallback
    ensures r.(repeat := 0, cfg := r.cfg.(delay := 0, yoyo := false, hasStartCallback := false,
                                          hasCompleteCallback := false)) ==
            Created(props, toProps, duration, easing, hasUpdateCallback)
  {
    var s := Created(props, toProps, duration, easing, hasUpdateCallback);
    s.(repeat := repeat,
       cfg := s.cfg.(delay := delay, yoyo := yoyo, hasStartCallback := hasStartCallback,
                     hasCompleteCallback := hasCompleteCallback))
  }

  /** A freshly created tween is well formed when its duration is positive and its two
      vectors have one length; all its start-side vectors equal the given start, it is
      not started, not reversed, and its configuration is the one given. */
  lemma CreatedExInitialState(props: Props, toProps: Props, duration: u32, delay: u32,
                              repeat: i32, yoyo: bool, easing: EasingId, hasStart: bool,
                              hasUpdate: bool, hasComplete: bool)
    ensures var s := CreatedEx(props, toProps, duration, delay, repeat, yoyo, easing,
                               hasStart, hasUpdate, hasComplete);
      (s.WellFormed() <==> duration > 0 && |props| == |toProps|) &&
      s.props == props && s.startProps == props && s.repeatProps == props &&
      s.toProps == toProps && s.startTime == 0 && s.repeat == repeat &&
      !s.reversed && !s.startCallbackFired &&
      s.cfg == Config(duration, delay, yoyo, easing, hasStart, hasUpdate, hasComplete)
    ensures var s := Created(props, toProps, duration, easing, hasUpdate);
      s == CreatedEx(props, toProps, duration, 0, 0, false, easing, false, hasUpdate, false)
  {
  }

  /** The state effect of Tween_StartTween: the cycle begins `delay` ticks after `time`,
      and the live vector is reset to the start of the cycle. */
  function Started(s: TweenState, time: u32): (r: TweenState)
    ensures r.startTime == AddU32(time, s.cfg.delay) && r.props == s.startProps
    ensures r.(startTime := s.startTime, props := s.props) == s
    ensures r.cfg == s.cfg && (s.WellFormed() ==> r.WellFormed())
  {
    s.(startTime := AddU32(time, s.cfg.delay), props := s.startProps)
  }

  /** Starting a tween twice at one time has the effect of starting it once. */
  lemma StartedTwice(s: TweenState, time: u32)
    ensures Started(Started(s, time), time) == Started(s, time)
  {
  }

  /** The elapsed fraction of Tween_UpdateTween, `(time - startTime) / duration` capped at 1. */
  function Progress(time: u32, startTime: u32, duration: u32): (e: real)
    requires startTime <= time && duration > 0
    ensures 0.0 <= e <= 1.0
    ensures e == 1.0 <==> time - startTime >= duration
  {
    var q := (time - startTime) as real / duration as real;
    QuotientBelowOne(time - startTime, duration);
    if q > 1.0 then 1.0 else q
  }

  /** The real quotient of two naturals is below 1 exactly when the numerator is below
      the denominator. */
  lemma QuotientBelowOne(x: nat, d: nat)
    requires d > 0
    ensures 0.0 <= x as real / d as real
    ensures x as real / d as real < 1.0 <==> x < d
  {
    var q := x as real / d as real;
    assert (q - 1.0) * d as real == (x - d) as real;
  }

  /** The completion test `elapsed == 1`, read on the integers. */
  predicate Completes(s: TweenState, time: u32)
  {
    s.startTime <= time && time - s.startTime >= s.cfg.duration
  }

  /** What one call of Tween_UpdateTween does to the tween's own fields, whether it
      reports the tween still active, and the callbacks it fires, in order. */
  datatype Outcome = Outcome(next: TweenState, alive: bool, fired: seq<Callback>)

  /** The part of an update past the start time common to every branch: the start flag
      set and the live vector interpolated at the eased progress. */
  function Advanced(s: TweenState, time: u32, ease: EasingTable): (r: TweenState)
    requires s.WellFormed() && s.startTime <= time
    ensures r.WellFormed() && r.startCallbackFired
    ensures r.(startCallbackFired := s.startCallbackFired, props := s.props) == s
    ensures Completes(s, time) && ease(s.cfg.easing)(1.0) == 1.0 ==> r.props == s.toProps
  {
    LerpEndpoints(s.startProps, s.toProps);
    s.(startCallbackFired := true,
       props := Lerp(s.startProps, s.toProps, ease(s.cfg.easing)(Progress(time, s.startTime, s.cfg.duration))))
  }

  /** The repeat branch of an update: one repeat used up, with yoyo the repeat vector and
      the target exchanged and the direction flipped, and the next cycle set to start
      from the repeat vector `delay` ticks after `time`. */
  function Repeated(s: TweenState, time: u32): (r: TweenState)
    requires s.WellFormed() && s.repeat > 0
    ensures r.WellFormed()
    ensures r.repeat == s.repeat - 1 && r.startTime == AddU32(time, s.cfg.delay)
    ensures r.startProps == r.repeatProps
    ensures s.cfg.yoyo ==>
      r.repeatProps == s.toProps && r.toProps == s.repeatProps && r.reversed == !s.reversed
    ensures !s.cfg.yoyo ==>
      r.repeatProps == s.repeatProps && r.toProps == s.toProps && r.reversed == s.reversed
    ensures r.props == s.props && r.startCallbackFired == s.startCallbackFired && r.cfg == s.cfg
  {
    var s2 := if s.cfg.yoyo
      then s.(repeatProps := s.toProps, toProps := s.repeatProps, reversed := !s.reversed)
      else s;
    s2.(repeat := s.repeat - 1, startProps := s2.repeatProps,
        startTime := AddU32(time, s.cfg.delay))
  }

  /** The complete callback, if it is set. */
  function CompleteFired(cfg: Config): seq<Callback>
  {
    if cfg.hasCompleteCallback then [OnComplete] else []
  }

  /** Tween_UpdateTween without the starting of chained tweens. */
  function Step(s: TweenState, time: u32, ease: EasingTable): (o: Outcome)
    requires s.WellFormed()
    ensures o.next.WellFormed()
  {
    if time < s.startTime then Outcome(s, true, [])
    else
      var onStart := if !s.startCallbackFired && s.cfg.hasStartCallback then [OnStart] else [];
      var fired := onStart + (if s.cfg.hasUpdateCallback then [OnUpdate] else []);
      var s1 := Advanced(s, time, ease);
      if Progress(time, s.startTime, s.cfg.duration) == 1.0 then
        if s.repeat > 0 then Outcome(Repeated(s1, time), true, fired)
        else Outcome(s1, false, fired + CompleteFired(s.cfg))
      else
        Outcome(s1, true, fired)
  }

  /** Before its start time an update reports the tween active and changes nothing. */
  lemma PendingUpdateIsNoOp(s: TweenState, time: u32, ease: EasingTable)
    requires s.WellFormed() && time < s.startTime
    ensures Step(s, time, ease) == Outcome(s, true, [])
  {
  }

  /** The tween stops being active exactly when a cycle completes with no repeat left;
      a negative repeat counts as none. */
  lemma StepFinishesIff(s: TweenState, time: u32, ease: EasingTable)
    requires s.WellFormed()
    ensures !Step(s, time, ease).alive <==> Completes(s, time) && s.repeat <= 0
  {
  }

  /** The start flag is set by the first update at or after the start time and is never
      cleared; the start callback fires exactly on that update, if it is set. */
  lemma StartCallbackFlag(s: TweenState, time: u32, ease: EasingTable)
    requires s.WellFormed()
    ensures var o := Step(s, time, ease);
      (o.next.startCallbackFired <==> s.startCallbackFired || s.startTime <= time) &&
      multiset(o.fired)[OnStart] ==
        (if !s.startCallbackFired && s.cfg.hasStartCallback && s.startTime <= time then 1 else 0)
  {
    if s.startTime <= time {
      var onStart: seq<Callback> := if !s.startCallbackFired && s.cfg.hasStartCallback then [OnStart] else [];
      var later := FiredAfterStart(s, time, ease);
      CountStartCallbacks(onStart, later);
    }
  }

  /** What an update past the start time fires after the start callback. */
  lemma FiredAfterStart(s: TweenState, time: u32, ease: EasingTable) returns (later: seq<Callback>)
    requires s.WellFormed() && s.startTime <= time
    ensures OnStart !in later
    ensures Step(s, time, ease).fired ==
      (if !s.startCallbackFired && s.cfg.hasStartCallback then [OnStart] else []) + later
  {
    var onUpdate: seq<Callback> := if s.cfg.hasUpdateCallback then [OnUpdate] else [];
    var onComplete: seq<Callback> := if s.cfg.hasCompleteCallback then [OnComplete] else [];
    later := if Step(s, time, ease).alive then onUpdate else onUpdate + onComplete;
  }

  lemma CountStartCallbacks(first: seq<Callback>, later: seq<Callback>)
    requires first == [] || first == [OnStart]
    requires OnStart !in later
    ensures multiset(first + later)[OnStart] == |first|
  {
    assert multiset(first + later) == multiset(first) + multiset(later);
  }

  /** An update inside the cycle moves only the live vector (and the start flag). */
  lemma RunningStep(s: TweenState, time: u32, ease: EasingTable)
    requires s.WellFormed() && s.startTime <= time && !Completes(s, time)
    ensures var o := Step(s, time, ease);
      o.alive &&
      o.next == s.(startCallbackFired := true,
                   props := Lerp(s.startProps, s.toProps,
                                 ease(s.cfg.easing)(Progress(time, s.startTime, s.cfg.duration))))
  {
  }

  /** A completed cycle with repeats left: one repeat is used up, the next cycle starts
      `delay` ticks later from the repeat vector, and with yoyo the repeat vector and
      the target are exchanged and the direction flag flips. */
  lemma RepeatStep(s: TweenState, time: u32, ease: EasingTable)
    requires s.WellFormed() && Completes(s, time) && s.repeat > 0
    ensures var o := Step(s, time, ease);
      o.alive &&
      o.next.repeat == s.repeat - 1 &&
      o.next.startTime == AddU32(time, s.cfg.delay) &&
      o.next.startProps == o.next.repeatProps &&
      (s.cfg.yoyo ==>
        o.next.repeatProps == s.toProps && o.next.toProps == s.repeatProps &&
        o.next.reversed == !s.reversed) &&
      (!s.cfg.yoyo ==>
        o.next.repeatProps == s.repeatProps && o.next.toProps == s.toProps &&
        o.next.reversed == s.reversed)
  {
  }

  /** A completed cycle with no repeat left: the tween reports finished, the complete
      callback (if set) is the last one fired, and nothing but the live vector and the
      start flag changes. */
  lemma FinishStep(s: TweenState, time: u32, ease: EasingTable)
    requires s.WellFormed() && Completes(s, time) && s.repeat <= 0
    ensures var o := Step(s, time, ease);
      !o.alive &&
      o.next == s.(startCallbackFired := true, props := o.next.props) &&
      (OnComplete in o.fired <==> s.cfg.hasCompleteCallback) &&
      (s.cfg.hasCompleteCallback ==> o.fired[|o.fired| - 1] == OnComplete)
  {
  }

  /** The update that completes a cycle leaves the live vector at the target whenever
      the curve maps 1 to 1, as every standard curve does. */
  lemma CompletionReachesTarget(s: TweenState, time: u32, ease: EasingTable)
    requires s.WellFormed() && Completes(s, time) && ease(s.cfg.easing)(1.0) == 1.0
    ensures Step(s, time, ease).next.props == s.toProps
  {
    LerpEndpoints(s.startProps, s.toProps);
  }

  /** The start vector always equals the repeat vector: creation sets both, start leaves
      both alone, and a repeat copies one into the other. */
  lemma StepKeepsBaseline(s: TweenState, time: u32, ease: EasingTable)
    requires s.WellFormed() && s.startProps == s.repeatProps
    ensures var n := Step(s, time, ease).next;
      n.startProps == n.repeatProps &&
      Started(n, time).startProps == Started(n, time).repeatProps
  {
  }

  /** Updates never change the configuration fixed at creation, and the start time
      either stays or moves to `delay` ticks after the update. */
  lemma StepKeepsConfiguration(s: TweenState, time: u32, ease: EasingTable)
    requires s.WellFormed()
    ensures var n := Step(s, time, ease).next;
      n.cfg == s.cfg &&
      (n.startTime == s.startTime || n.startTime == AddU32(time, s.cfg.delay))
  {
  }

  /** Two yoyo cycles bring the target, the repeat vector and the direction flag back. */
  lemma YoyoTwoCyclesRestore(s: TweenState, t1: u32, t2: u32, ease: EasingTable)
    requires s.WellFormed() && s.cfg.yoyo && s.repeat >= 2
    requires Completes(s, t1) && Completes(Step(s, t1, ease).next, t2)
    ensures var n := Step(Step(s, t1, ease).next, t2, ease).next;
      n.toProps == s.toProps && n.repeatProps == s.repeatProps &&
      n.reversed == s.reversed && n.repeat == s.repeat - 2
  {
    RepeatStep(s, t1, ease);
    RepeatStep(Step(s, t1, ease).next, t2, ease);
  }

  /** A lone tween updated at each of `times` in turn, as an engine would drive it,
      until it reports finished: the final state, whether it is still active, and
      every callback fired on the way. */
  function Run(s: TweenState, times: seq<u32>, ease: EasingTable): (o: Outcome)
    requires s.WellFormed()
    ensures o.next.WellFormed()
    ensures o.next.cfg == s.cfg
    ensures s.startCallbackFired ==> o.next.startCallbackFired
    decreases |times|
  {
    if times == [] then Outcome(s, true, [])
    else
      StepKeepsConfiguration(s, times[0], ease);
      StartCallbackFlag(s, times[0], ease);
      var o := Step(s, times[0], ease);
      if !o.alive then o
      else
        var rest := Run(o.next, times[1..], ease);
        Outcome(rest.next, rest.alive, o.fired + rest.fired)
  }

  /** The start callback fires at most once over a tween's life, across all repeats,
      and never once the start flag is set. */
  lemma {:induction false} StartFiresAtMostOnce(s: TweenState, times: seq<u32>, ease: EasingTable)
    requires s.WellFormed()
    ensures multiset(Run(s, times, ease).fired)[OnStart] <= (if s.startCallbackFired then 0 else 1)
    decreases |times|
  {
    if times != [] {
      var o := Step(s, times[0], ease);
      StartCallbackFlag(s, times[0], ease);
      if o.alive {
        StartFiresAtMostOnce(o.next, times[1..], ease);
        var rest := Run(o.next, times[1..], ease);
        assert Run(s, times, ease).fired == o.fired + rest.fired;
        assert multiset(o.fired + rest.fired) == multiset(o.fired) + multiset(rest.fired);
      }
    }
  }

  /** How many of the updates in `times` complete a cycle, counting up to the update
      that finishes the tween; updates before the start time or inside a cycle do not
      count. */
  function Completions(s: TweenState, times: seq<u32>, ease: EasingTable): nat
    requires s.WellFormed()
    decreases |times|
  {
    if times == [] then 0
    else
      var o := Step(s, times[0], ease);
      var c := if Completes(s, times[0]) then 1 else 0;
      if o.alive then c + Completions(o.next, times[1..], ease) else c
  }

  /** With `repeat = N >= 0`, a tween finishes on its (N+1)-th completed cycle and not
      before, however many updates fall inside each cycle. After k <= N completed cycles,
      N - k repeats remain; without yoyo the start and target of every cycle are those of
      the first; with yoyo they are exchanged after every odd number of cycles, and the
      direction flag with them. */
  lemma {:induction false} RepeatCycles(s: TweenState, times: seq<u32>, ease: EasingTable)
    requires s.WellFormed() && s.repeat >= 0 && s.startProps == s.repeatProps
    ensures var r := Run(s, times, ease);
      var k := Completions(s, times, ease);
      var flipped := s.cfg.yoyo && k % 2 == 1;
      (r.alive <==> k <= s.repeat) &&
      (!r.alive ==> k == s.repeat + 1) &&
      (r.alive ==>
        r.next.repeat == s.repeat - k &&
        r.next.startProps == r.next.repeatProps &&
        r.next.startProps == (if flipped then s.toProps else s.startProps) &&
        r.next.toProps == (if flipped then s.startProps else s.toProps) &&
        r.next.reversed == (s.reversed != flipped))
    decreases |times|
  {
    if times != [] {
      var o := Step(s, times[0], ease);
      if !Completes(s, times[0]) {
        InCycleStep(s, times[0], ease);
        RepeatCycles(o.next, times[1..], ease);
        var rest := Run(o.next, times[1..], ease);
        assert Run(s, times, ease).next == rest.next && Run(s, times, ease).alive == rest.alive;
        assert Completions(s, times, ease) == Completions(o.next, times[1..], ease);
      } else if s.repeat > 0 {
        RepeatStep(s, times[0], ease);
        RepeatCycles(o.next, times[1..], ease);
        var rest := Run(o.next, times[1..], ease);
        assert Run(s, times, ease).next == rest.next && Run(s, times, ease).alive == rest.alive;
        assert Completions(s, times, ease) == 1 + Completions(o.next, times[1..], ease);
        ParityStep(Completions(s, times, ease));
      } else {
        StepFinishesIff(s, times[0], ease);
      }
    }
  }

  /** Where each cycle ends, for a curve that maps 1 to 1: while the tween is active
      after `k` completed cycles, the next completed cycle leaves the live vector at the
      original target, except with yoyo after an odd `k`, where it comes back to the
      original start. So with yoyo the first, third, ... cycles end at the target. */
  lemma CycleEndpoints(s: TweenState, times: seq<u32>, t: u32, ease: EasingTable)
    requires s.WellFormed() && s.repeat >= 0 && s.startProps == s.repeatProps
    requires Run(s, times, ease).alive
    requires ease(s.cfg.easing)(1.0) == 1.0
    requires Completes(Run(s, times, ease).next, t)
    ensures Step(Run(s, times, ease).next, t, ease).next.props ==
      (if s.cfg.yoyo && Completions(s, times, ease) % 2 == 1 then s.startProps else s.toProps)
  {
    RepeatCycles(s, times, ease);
    CompletionReachesTarget(Run(s, times, ease).next, t, ease);
  }

  /** An update that does not complete a cycle, before the start time or inside the
      cycle, keeps the tween active and changes neither its repeats, its vectors other
      than the live one, nor its direction. */
  lemma InCycleStep(s: TweenState, time: u32, ease: EasingTable)
    requires s.WellFormed() && !Completes(s, time)
    ensures var o := Step(s, time, ease);
      o.alive && o.next.(startCallbackFired := s.startCallbackFired, props := s.props) == s
  {
    if s.startTime <= time {
      RunningStep(s, time, ease);
    } else {
      PendingUpdateIsNoOp(s, time, ease);
    }
  }

  lemma ParityStep(n: nat)
    requires n > 0
    ensures (n % 2 == 1) == ((n - 1) % 2 == 0)
  {
  }
}

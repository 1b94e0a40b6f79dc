// The objects of tween.c: an engine holding the list of active tweens, and
// tweens whose fields the update functions change in place. The engine's
// methods and a tween's Start, Update and Stop are proved to act on the engine's
// abstract value, a Scheduler.World, exactly as the corresponding Scheduler or
// ActiveList function says; Chain states its effect on that value directly, as
// an update of the chain map. UpdateOwn and NextCycle are stated on the tween's
// own fields (Tween.State()), which UpdateAndRecord then copies into the
// engine's ghost mirror; FireComplete only appends to the callback log; and
// Register is ghost bookkeeping with no counterpart in tween.c.
module Tweens {
  import opened Props
  import opened Lifecycle
  import opened ActiveList
  import opened Scheduler

  /** Tween_Engine: the list of active tweens, in order and possibly with duplicates.
      `Repr` holds every tween created on this engine; `states` and `chains` mirror
      their fields, and `log` records every callback fired through the engine. */
  class Engine {
    var tweens: seq<Tween>
    ghost var Repr: set<Tween>
    ghost var states: map<Tween, TweenState>
    ghost var chains: map<Tween, seq<Tween>>
    ghost var log: seq<Fired<Tween>>

    /** Every tween created here belongs to this engine and is mirrored exactly, and the
        engine's value is a closed world: every tween is well formed and is chained only
        to tweens created here, and every active entry is such a tween. */
    ghost predicate Valid()
      reads this, Repr
    {
      states.Keys == Repr && chains.Keys == Repr &&
      (forall t | t in Repr :: t.engine == this && states[t] == t.State() && chains[t] == t.chain) &&
      Closed(Abs())
    }

    /** The engine as a value. */
    ghost function Abs(): World<Tween>
      reads this
    {
      World(states, chains, tweens, log)
    }

    /** Tween_CreateEngine: no tweens and an empty list. */
    constructor ()
      ensures Valid() && Abs() == World(map[], map[], [], [])
    {
      tweens := [];
      Repr := {};
      states := map[];
      chains := map[];
      log := [];
    }

    /** Tween_UpdateEngine: 0 if the list is empty; otherwise every entry visited in
        order, including the entries appended during the walk, each finished tween's
        entry unlinked, and 1. */
    method Update(time: u32, ease: EasingTable) returns (r: int)
      requires Valid() && Fits(Abs(), time)
      modifies this, Repr
      ensures Valid() && Repr == old(Repr)
      ensures (r, Abs()) == UpdateEngine(old(Abs()), time, ease)
    {
      if tweens == [] {
        return 0;
      }
      ghost var goal := Pass(Abs(), 0, time, ease).world;
      var i := 0;
      while i < |tweens|
        invariant Valid() && Repr == old(Repr) && Fits(Abs(), time)
        invariant i <= |tweens|
        invariant Pass(Abs(), i, time, ease).world == goal
        decreases Budget(states, chains, tweens[i..], time)
      {
        ghost var w := Abs();
        PassStep(w, i, time, ease);
        var alive := tweens[i].Update(time, ease);
        if alive {
          i := i + 1;
        } else {
          UnlinkEntry(i);
        }
      }
      return 1;
    }

    /** The unlink of Tween_UpdateEngine: the entry at `i` taken out of the list. */
    method UnlinkEntry(i: nat)
      requires Valid() && i < |tweens|
      modifies this`tweens
      ensures Valid() && Abs() == Unlink(old(Abs()), i)
    {
      UnlinkKeepsClosed(Abs(), i);
      tweens := Splice(tweens, i);
    }

    /** The chain loop of Tween_UpdateTween: each tween of `successors` started at `time`,
        in order. */
    method StartEach(successors: seq<Tween>, time: u32)
      requires Valid() && forall c | c in successors :: c in Repr
      modifies this, Repr
      ensures Valid() && Repr == old(Repr)
      ensures Abs() == StartAll(old(Abs()), successors, time)
    {
      var j := 0;
      while j < |successors|
        invariant j <= |successors|
        invariant Valid() && Repr == old(Repr)
        invariant Abs() == StartAll(old(Abs()), successors[..j], time)
      {
        StartAllSnoc(old(Abs()), successors, j, time);
        successors[j].Start(time);
        j := j + 1;
      }
      assert successors[..j] == successors;
    }
  }

  /** Tween: the fields tween.c reads and writes. The fields no function changes after
      creation are constants; `data` and the callbacks' code are not part of the model. */
  class Tween {
    const engine: Engine
    var startTime: u32
    const duration: u32
    const delay: u32
    var repeat: i32
    const yoyo: bool
    var reversed: bool
    var startCallbackFired: bool
    const easing: EasingId
    var props: Props
    var startProps: Props
    var toProps: Props
    var repeatProps: Props
    const hasStartCallback: bool
    const hasUpdateCallback: bool
    const hasCompleteCallback: bool
    var chain: seq<Tween>

    /** The fields fixed at creation, as a value. */
    function Cfg(): Config
    {
      Config(duration, delay, yoyo, easing, hasStartCallback, hasUpdateCallback, hasCompleteCallback)
    }

    /** The tween's own fields as a value. */
    function State(): TweenState
      reads this
    {
      TweenState(startTime, repeat, reversed, startCallbackFired,
                 props, startProps, toProps, repeatProps, Cfg())
    }

    /** Records a tween just created on the engine in the engine's ghost bookkeeping;
        tween.c has no counterpart. */
    ghost method Register()
      requires engine.Valid() && this !in engine.Repr && State().WellFormed() && chain == []
      modifies engine
      ensures engine.Valid()
      ensures engine.Repr == old(engine.Repr) + {this}
      ensures engine.Abs() == old(engine.Abs()).(store := old(engine.Abs()).store[this := State()],
                                                 chains := old(engine.Abs()).chains[this := []])
    {
      ghost var w0 := engine.Abs();
      engine.Repr, engine.states, engine.chains :=
        engine.Repr + {this}, engine.states[this := State()], engine.chains[this := []];
      forall t | t in engine.Repr
        ensures t.engine == engine && engine.states[t] == t.State() && engine.chains[t] == t.chain
      {
        if t != this {
          assert t in old(engine.Repr);
        }
      }
      AddClosed(w0, this, State());
    }

    /** Tween_CreateTween. The new tween is known to the engine but not in its list. */
    constructor (engine: Engine, props: Props, toProps: Props, duration: u32,
                 easing: EasingId, hasUpdateCallback: bool)
      requires engine.Valid() && duration > 0 && |props| == |toProps|
      modifies engine
      ensures engine.Valid() && this.engine == engine
      ensures State() == Created(props, toProps, duration, easing, hasUpdateCallback)
      ensures chain == []
      ensures engine.Repr == old(engine.Repr) + {this}
      ensures engine.Abs() == old(engine.Abs()).(store := old(engine.Abs()).store[this := State()],
                                                 chains := old(engine.Abs()).chains[this := []])
    {
      this.engine := engine;
      startTime := 0;
      this.duration := duration;
      delay := 0;
      repeat := 0;
      yoyo := false;
      reversed := false;
      startCallbackFired := false;
      this.easing := easing;
      this.props := props;
      this.toProps := toProps;
      startProps := props;
      repeatProps := props;
      hasStartCallback := false;
      this.hasUpdateCallback := hasUpdateCallback;
      hasCompleteCallback := false;
      chain := [];
      new;
      Register();
    }

    /** Tween_CreateTweenEx: Tween_CreateTween with the delay, repeat count, yoyo flag and
        the start and complete callbacks set. */
    constructor Ex(engine: Engine, props: Props, toProps: Props, duration: u32, delay: u32,
                   repeat: i32, yoyo: bool, easing: EasingId, hasStartCallback: bool,
                   hasUpdateCallback: bool, hasCompleteCallback: bool)
      requires engine.Valid() && duration > 0 && |props| == |toProps|
      modifies engine
      ensures engine.Valid() && this.engine == engine
      ensures State() == CreatedEx(props, toProps, duration, delay, repeat, yoyo, easing,
                                   hasStartCallback, hasUpdateCallback, hasCompleteCallback)
      ensures chain == []
      ensures engine.Repr == old(engine.Repr) + {this}
      ensures engine.Abs() == old(engine.Abs()).(store := old(engine.Abs()).store[this := State()],
                                                 chains := old(engine.Abs()).chains[this := []])
    {
      this.engine := engine;
      startTime := 0;
      this.duration := duration;
      this.delay := delay;
      this.repeat := repeat;
      this.yoyo := yoyo;
      reversed := false;
      startCallbackFired := false;
      this.easing := easing;
      this.props := props;
      this.toProps := toProps;
      startProps := props;
      repeatProps := props;
      this.hasStartCallback := hasStartCallback;
      this.hasUpdateCallback := hasUpdateCallback;
      this.hasCompleteCallback := hasCompleteCallback;
      chain := [];
      new;
      Register();
    }

    /** Tween_ChainTweens: `next` appended to this tween's chain. */
    method Chain(next: Tween)
      requires engine.Valid() && this in engine.Repr && next in engine.Repr
      modifies this, engine
      ensures engine.Valid() && engine.Repr == old(engine.Repr)
      ensures engine.Abs() == old(engine.Abs()).(chains := old(engine.Abs()).chains[this := old(chain) + [next]])
    {
      ghost var w0 := engine.Abs();
      chain := chain + [next];
      engine.chains := engine.chains[this := chain];
      forall t | t in engine.Repr
        ensures t.engine == engine && engine.states[t] == t.State() && engine.chains[t] == t.chain
      {
      }
      ChainClosed(w0, this, next);
    }

    /** Tween_StartTween: the cycle restarted `delay` ticks after `time` and an entry for
        this tween appended to the engine's list. */
    method Start(time: u32)
      requires engine.Valid() && this in engine.Repr
      modifies this, engine
      ensures engine.Valid() && engine.Repr == old(engine.Repr)
      ensures engine.Abs() == StartOne(old(engine.Abs()), this, time)
    {
      ghost var w0 := engine.Abs();
      ghost var s := Started(State(), time);
      startTime, props := AddU32(time, delay), startProps;
      assert State() == s;
      engine.tweens, engine.states := engine.tweens + [this], engine.states[this := s];
      assert engine.Abs() == StartOne(w0, this, time);
      forall t | t in engine.Repr
        ensures t.engine == engine && engine.states[t] == t.State() && engine.chains[t] == t.chain
      {
        if t != this {
          assert unchanged(t);
        }
      }
      StartOneClosed(w0, this, time);
    }

    /** Tween_UpdateTween up to the starting of the chain: the tween's own fields and the
        callbacks fired before it, in the order the source fires them. */
    method UpdateOwn(time: u32, ease: EasingTable) returns (alive: bool)
      requires State().WellFormed()
      modifies this, engine`log
      ensures chain == old(chain)
      ensures var o := Step(old(State()), time, ease);
        State() == o.next && alive == o.alive &&
        engine.log + FiredBy(this, if alive then [] else CompleteFired(Cfg())) ==
          old(engine.log) + FiredBy(this, o.fired)
    {
      if time < startTime {
        return true;
      }
      ghost var s := State();
      ghost var fired: seq<Callback> := [];
      if !startCallbackFired {
        if hasStartCallback {
          LogAppend(engine.log, this, [], [OnStart]);
          engine.log := engine.log + [Fired(this, OnStart)];
          fired := [OnStart];
        }
        startCallbackFired := true;
      }
      var elapsed := Progress(time, startTime, duration);
      props := Lerp(startProps, toProps, ease(easing)(elapsed));
      if hasUpdateCallback {
        LogAppend(old(engine.log), this, fired, [OnUpdate]);
        engine.log := engine.log + [Fired(this, OnUpdate)];
        fired := fired + [OnUpdate];
      }
      assert State() == Advanced(s, time, ease);
      assert engine.log == old(engine.log) + FiredBy(this, fired);
      if elapsed == 1.0 {
        if repeat > 0 {
          NextCycle(time);
          assert Step(s, time, ease) == Outcome(State(), true, fired);
          return true;
        }
        LogAppend(old(engine.log), this, fired, CompleteFired(Cfg()));
        assert Step(s, time, ease) == Outcome(State(), false, fired + CompleteFired(Cfg()));
        return false;
      }
      assert Step(s, time, ease) == Outcome(State(), true, fired);
      return true;
    }

    /** The repeat branch of Tween_UpdateTween: one repeat used up, with yoyo the repeat
        vector and the target exchanged and the direction flipped, and the next cycle set
        to start from the repeat vector `delay` ticks after `time`. */
    method NextCycle(time: u32)
      requires State().WellFormed() && repeat > 0
      modifies this
      ensures State() == Repeated(old(State()), time) && chain == old(chain)
    {
      repeat := repeat - 1;
      if yoyo {
        repeatProps, toProps := toProps, repeatProps;
        reversed := !reversed;
      }
      startProps := repeatProps;
      startTime := AddU32(time, delay);
    }

    /** The own update of Tween_UpdateTween with the engine's mirror of this tween kept
        up to date; the complete callback is still to fire if the tween finished. */
    method UpdateAndRecord(time: u32, ease: EasingTable) returns (alive: bool)
      requires engine.Valid() && this in engine.Repr
      modifies this, engine
      ensures engine.Valid() && engine.Repr == old(engine.Repr)
      ensures chain == old(chain)
      ensures var w := old(engine.Abs());
        var o := Step(w.store[this], time, ease);
        var r := engine.Abs();
        alive == o.alive &&
        r.(log := r.log + FiredBy(this, if alive then [] else CompleteFired(Cfg()))) ==
          w.(store := w.store[this := o.next], log := w.log + FiredBy(this, o.fired))
    {
      ghost var w := engine.Abs();
      ghost var o := Step(State(), time, ease);
      alive := UpdateOwn(time, ease);
      engine.states := engine.states[this := State()];
      forall t | t in engine.Repr
        ensures t.engine == engine && engine.states[t] == t.State() && engine.chains[t] == t.chain
      {
        if t != this {
          assert unchanged(t);
        }
      }
      SetStateClosed(w, this, o.next, engine.log);
    }

    /** The complete callback of Tween_UpdateTween, if it is set. */
    method FireComplete()
      requires engine.Valid()
      modifies engine`log
      ensures engine.Valid()
      ensures engine.Abs() == old(engine.Abs()).(log := old(engine.log) + FiredBy(this, CompleteFired(Cfg())))
    {
      if hasCompleteCallback {
        engine.log := engine.log + [Fired(this, OnComplete)];
      } else {
        assert FiredBy(this, []) == [];
      }
    }

    /** Tween_UpdateTween: the tween's own update, then, if it finished, every tween of
        its chain started at `time` in chain order and the complete callback fired. */
    method Update(time: u32, ease: EasingTable) returns (alive: bool)
      requires engine.Valid() && this in engine.Repr
      modifies this, engine, engine.Repr
      ensures engine.Valid() && engine.Repr == old(engine.Repr)
      ensures (engine.Abs(), alive) == UpdateAt(old(engine.Abs()), this, time, ease)
    {
      ghost var w := engine.Abs();
      alive := UpdateAndRecord(time, ease);
      ghost var mid := engine.Abs();
      if !alive {
        var successors := chain;
        engine.StartEach(successors, time);
        FireComplete();
      }
      UpdateAtInSourceOrder(w, this, time, ease, mid, engine.Abs());
    }

    /** Tween_StopTween: the first entry of this tween unlinked from the engine's list;
        nothing happens if the tween is not in the list. */
    method Stop()
      requires engine.Valid()
      modifies engine`tweens
      ensures engine.Valid()
      ensures engine.Abs() == old(engine.Abs()).(active := RemoveFirst(old(engine.tweens), this))
    {
      var found, i := FindEntry(engine.tweens, this);
      if found {
        FirstOccurrenceIsIndexOf(engine.tweens, this, i);
        engine.UnlinkEntry(i);
      }
    }
  }
}

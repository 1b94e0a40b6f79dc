// The engine as a value: the state of every tween created on it, every
// tween's chain, the active list, and the callbacks fired so far. Tweens are
// named by keys of a type K (in the Tweens module, the Tween objects
// themselves), so that a chain, the active list and duplicate entries can all
// refer to one tween.
//
// UpdateAt is one call of Tween_UpdateTween together with what it does to
// the chained tweens and the active list; Pass is the loop of
// Tween_UpdateEngine, an index over a list that grows while it is walked.
module Scheduler {
  import opened Props
  import opened Lifecycle
  import opened ActiveList

  /** One firing of a tween's callback. */
  datatype Fired<K> = Fired(tween: K, callback: Callback)

  datatype World<K> = World(
    store: map<K, TweenState>,
    chains: map<K, seq<K>>,
    active: seq<K>,
    log: seq<Fired<K>>)

  /** Every tween in a chain is known. */
  predicate ChainsKnown<K(==)>(chains: map<K, seq<K>>, keys: set<K>)
  {
    forall k | k in chains :: forall u | u in chains[k] :: u in keys
  }

  /** Every known tween is well formed. */
  predicate AllWellFormed<K(==)>(store: map<K, TweenState>)
  {
    forall k | k in store :: store[k].WellFormed()
  }

  /** Every tween mentioned is known, every known tween has a chain and is well formed. */
  predicate Closed<K(==)>(w: World<K>)
  {
    w.chains.Keys == w.store.Keys && AllWellFormed(w.store) &&
    ChainsKnown(w.chains, w.store.Keys) &&
    (forall k | k in w.active :: k in w.store)
  }

  /** `time + delay` does not wrap around for any tween. */
  predicate Fits<K(==)>(w: World<K>, time: u32)
  {
    forall k | k in w.store :: time + w.store[k].cfg.delay < TIME_LIMIT
  }

  /** Tween_StartTween: the tween's state restarted and one entry appended to the list. */
  function StartOne<K(==)>(w: World<K>, k: K, time: u32): (r: World<K>)
    requires k in w.store
    ensures r.store.Keys == w.store.Keys && r.chains == w.chains && r.log == w.log
    ensures r.active == w.active + [k]
  {
    w.(store := w.store[k := Started(w.store[k], time)], active := w.active + [k])
  }

  /** Adding a well-formed tween with an empty chain keeps the world closed. */
  lemma AddClosed<K>(w: World<K>, k: K, s: TweenState)
    requires Closed(w) && k !in w.store && s.WellFormed()
    ensures Closed(w.(store := w.store[k := s], chains := w.chains[k := []]))
  {
  }

  /** Chaining one known tween to another keeps the world closed. */
  lemma ChainClosed<K>(w: World<K>, k: K, next: K)
    requires Closed(w) && k in w.store && next in w.store
    ensures Closed(w.(chains := w.chains[k := w.chains[k] + [next]]))
  {
    var r := w.(chains := w.chains[k := w.chains[k] + [next]]);
    forall j | j in r.chains ensures forall u | u in r.chains[j] :: u in r.store {
      if j != k {
        assert r.chains[j] == w.chains[j];
      }
    }
  }

  /** Replacing a known tween's state by a well-formed one keeps the world closed, whatever
      the log. */
  lemma SetStateClosed<K>(w: World<K>, k: K, s: TweenState, log: seq<Fired<K>>)
    requires Closed(w) && k in w.store && s.WellFormed()
    ensures Closed(w.(store := w.store[k := s], log := log))
  {
  }

  /** Starting a known tween keeps the world closed. */
  lemma StartOneClosed<K>(w: World<K>, k: K, time: u32)
    requires Closed(w) && k in w.store
    ensures Closed(StartOne(w, k, time))
  {
    var r := StartOne(w, k, time);
    forall u | u in r.store ensures r.store[u].WellFormed() {
      if u == k {
        assert r.store[u] == Started(w.store[k], time);
      }
    }
  }

  /** The chain loop of Tween_UpdateTween: each successor started in chain order. The
      list grows by the chain and no tween is added or forgotten. */
  function StartAll<K(==)>(w: World<K>, ks: seq<K>, time: u32): (r: World<K>)
    requires forall k | k in ks :: k in w.store
    ensures r.store.Keys == w.store.Keys && r.chains == w.chains && r.log == w.log
    ensures r.active == w.active + ks
    decreases |ks|
  {
    if ks == [] then w
    else
      assert ks == ks[..|ks| - 1] + [ks[|ks| - 1]];
      StartOne(StartAll(w, ks[..|ks| - 1], time), ks[|ks| - 1], time)
  }

  /** Starting one more successor extends the chain loop by one step. */
  lemma StartAllSnoc<K>(w: World<K>, ks: seq<K>, j: nat, time: u32)
    requires j < |ks| && forall k | k in ks :: k in w.store
    ensures StartAll(w, ks[..j + 1], time) == StartOne(StartAll(w, ks[..j], time), ks[j], time)
  {
    assert ks[..j + 1][..j] == ks[..j];
  }

  /** Every successor ends up started at `time` (once or several times, to the same
      effect) and every other tween keeps its state. */
  lemma {:induction false} StartAllAt<K>(w: World<K>, ks: seq<K>, time: u32, u: K)
    requires forall k | k in ks :: k in w.store
    requires u in w.store
    ensures StartAll(w, ks, time).store[u] ==
            if u in ks then Started(w.store[u], time) else w.store[u]
    decreases |ks|
  {
    if ks != [] {
      var init := ks[..|ks| - 1];
      assert ks == init + [ks[|ks| - 1]];
      StartAllAt(w, init, time, u);
      StartedTwice(w.store[u], time);
    }
  }

  function FiredBy<K>(k: K, cs: seq<Callback>): seq<Fired<K>>
  {
    seq(|cs|, j requires 0 <= j < |cs| => Fired(k, cs[j]))
  }

  /** Logging callbacks one after another is logging them all at once. */
  lemma LogAppend<K>(log: seq<Fired<K>>, k: K, a: seq<Callback>, b: seq<Callback>)
    ensures log + FiredBy(k, a) + FiredBy(k, b) == log + FiredBy(k, a + b)
  {
    assert FiredBy(k, a + b) == FiredBy(k, a) + FiredBy(k, b);
  }

  /** Starting tweens does not touch the log. */
  lemma {:induction false} StartAllLog<K>(w: World<K>, ks: seq<K>, time: u32, log: seq<Fired<K>>)
    requires forall k | k in ks :: k in w.store
    ensures StartAll(w.(log := log), ks, time) == StartAll(w, ks, time).(log := log)
    decreases |ks|
  {
    if ks != [] {
      StartAllLog(w, ks[..|ks| - 1], time, log);
    }
  }

  /** Tween_UpdateTween on tween `k`, with the callbacks it fires logged in order, and
      whether it reports the tween still active. No tween is added or forgotten, no chain
      changes, and a finished tween's chain is appended to the list. */
  function UpdateAt<K(==)>(w: World<K>, k: K, time: u32, ease: EasingTable): (r: (World<K>, bool))
    requires Closed(w) && k in w.store
    ensures r.0.store.Keys == w.store.Keys && r.0.chains == w.chains
    ensures r.1 ==> r.0.active == w.active
    ensures !r.1 ==> r.0.active == w.active + w.chains[k]
  {
    var o := Step(w.store[k], time, ease);
    var w1 := w.(store := w.store[k := o.next], log := w.log + FiredBy(k, o.fired));
    if o.alive then (w1, true) else (StartAll(w1, w.chains[k], time), false)
  }

  /** The order of Tween_UpdateTween: the own update with its start and update callbacks,
      then, if the tween finished, the chain started, then the complete callback. This
      is UpdateAt, whose log takes all callbacks at once, since starting a tween logs
      nothing. */
  lemma UpdateAtInSourceOrder<K>(w: World<K>, k: K, time: u32, ease: EasingTable,
                                  mid: World<K>, fin: World<K>)
    requires Closed(w) && k in w.store
    requires var o := Step(w.store[k], time, ease);
      mid.(log := mid.log + FiredBy(k, if o.alive then [] else CompleteFired(w.store[k].cfg))) ==
      w.(store := w.store[k := o.next], log := w.log + FiredBy(k, o.fired))
    requires Step(w.store[k], time, ease).alive ==> fin == mid
    requires !Step(w.store[k], time, ease).alive ==>
      fin == StartAll(mid, w.chains[k], time).(log := mid.log + FiredBy(k, CompleteFired(w.store[k].cfg)))
    ensures UpdateAt(w, k, time, ease) == (fin, Step(w.store[k], time, ease).alive)
  {
    var o := Step(w.store[k], time, ease);
    var w1 := w.(store := w.store[k := o.next], log := w.log + FiredBy(k, o.fired));
    if o.alive {
      assert FiredBy(k, []) == [];
      assert mid.log + [] == mid.log;
    } else {
      StartAllLog(mid, w.chains[k], time, w1.log);
    }
  }

  /** The effect of one tween update on tween `u`. The updated tween takes its new state;
      if it finished, every tween in its chain is started at the completion time (after
      the update, so a tween chained to itself restarts); no other tween changes. The
      fired callbacks are logged under the updated tween. */
  lemma UpdateAtEffect<K>(w: World<K>, k: K, time: u32, ease: EasingTable, u: K)
    requires Closed(w) && k in w.store && u in w.store
    ensures var (r, alive) := UpdateAt(w, k, time, ease);
      var o := Step(w.store[k], time, ease);
      var base := if u == k then o.next else w.store[u];
      alive == o.alive &&
      r.log == w.log + FiredBy(k, o.fired) &&
      r.store[u] == if !alive && u in w.chains[k] then Started(base, time) else base
  {
    var o := Step(w.store[k], time, ease);
    if !o.alive {
      var w1 := w.(store := w.store[k := o.next], log := w.log + FiredBy(k, o.fired));
      StartAllAt(w1, w.chains[k], time, u);
    }
  }

  /** An update keeps every tween well formed. */
  lemma UpdateAtClosed<K>(w: World<K>, k: K, time: u32, ease: EasingTable)
    requires Closed(w) && k in w.store
    ensures Closed(UpdateAt(w, k, time, ease).0)
  {
    var r := UpdateAt(w, k, time, ease).0;
    forall u | u in r.store ensures r.store[u].WellFormed() {
      UpdateAtEffect(w, k, time, ease, u);
    }
  }

  /** The unlink of Tween_UpdateEngine: the entry at `i` taken out of the list. */
  function Unlink<K>(w: World<K>, i: nat): (r: World<K>)
    requires i < |w.active|
    ensures r.store == w.store && r.chains == w.chains && r.log == w.log
    ensures |r.active| == |w.active| - 1
    ensures forall j | 0 <= j < i :: r.active[j] == w.active[j]
    ensures forall j | i <= j < |r.active| :: r.active[j] == w.active[j + 1]
  {
    w.(active := Splice(w.active, i))
  }

  // ---- Termination of the pass ----
  //
  // A tween can finish only if its start time lies before `time`; every start and
  // every repeat during the pass moves a start time to `time + delay` or later. So
  // an entry is worth one visit plus, while its start time is still before `time`,
  // the entries its chain may add.

  function Weight<K(==)>(store: map<K, TweenState>, chains: map<K, seq<K>>, k: K, time: u32): nat
    requires k in store && k in chains
  {
    if store[k].startTime < time then 1 + |chains[k]| else 1
  }

  function Budget<K(==)>(store: map<K, TweenState>, chains: map<K, seq<K>>, xs: seq<K>, time: u32): nat
    requires forall x | x in xs :: x in store && x in chains
    decreases |xs|
  {
    if xs == [] then 0 else Weight(store, chains, xs[0], time) + Budget(store, chains, xs[1..], time)
  }

  lemma {:induction false} BudgetAppend<K>(store: map<K, TweenState>, chains: map<K, seq<K>>,
                                              xs: seq<K>, ys: seq<K>, time: u32)
    requires forall x | x in xs + ys :: x in store && x in chains
    ensures Budget(store, chains, xs + ys, time) ==
            Budget(store, chains, xs, time) + Budget(store, chains, ys, time)
    decreases |xs|
  {
    if xs != [] {
      assert (xs + ys)[0] == xs[0] && (xs + ys)[1..] == xs[1..] + ys;
      BudgetAppend(store, chains, xs[1..], ys, time);
    } else {
      assert xs + ys == ys;
    }
  }

  /** Entries whose start time is not before `time` are worth one visit each. */
  lemma {:induction false} BudgetOfStarted<K>(store: map<K, TweenState>, chains: map<K, seq<K>>,
                                                 xs: seq<K>, time: u32)
    requires forall x | x in xs :: x in store && x in chains && store[x].startTime >= time
    ensures Budget(store, chains, xs, time) == |xs|
    decreases |xs|
  {
    if xs != [] {
      BudgetOfStarted(store, chains, xs[1..], time);
    }
  }

  /** No tween is added or forgotten, no chain and no configuration changes, and every
      start time in `r` is that of `w` or not before `time`. */
  predicate Touches<K(==)>(w: World<K>, r: World<K>, time: u32)
  {
    r.store.Keys == w.store.Keys && r.chains == w.chains &&
    forall u | u in w.store ::
      r.store[u].cfg == w.store[u].cfg &&
      (r.store[u].startTime == w.store[u].startTime || r.store[u].startTime >= time)
  }

  lemma {:induction false} BudgetShrinks<K>(w: World<K>, r: World<K>, xs: seq<K>, time: u32)
    requires Touches(w, r, time)
    requires forall x | x in xs :: x in w.store && x in w.chains
    ensures Budget(r.store, r.chains, xs, time) <= Budget(w.store, w.chains, xs, time)
    decreases |xs|
  {
    if xs != [] {
      BudgetShrinks(w, r, xs[1..], time);
    }
  }

  /** An update moves start times only forward, to `time` or later, and changes no
      configuration, so `time + delay` still does not wrap. */
  lemma UpdateAtTouches<K>(w: World<K>, k: K, time: u32, ease: EasingTable)
    requires Closed(w) && Fits(w, time) && k in w.store
    ensures Touches(w, UpdateAt(w, k, time, ease).0, time)
    ensures Fits(UpdateAt(w, k, time, ease).0, time)
  {
    var r := UpdateAt(w, k, time, ease).0;
    StepKeepsConfiguration(w.store[k], time, ease);
    forall u | u in w.store
      ensures r.store[u].cfg == w.store[u].cfg
      ensures r.store[u].startTime == w.store[u].startTime || r.store[u].startTime >= time
    {
      UpdateAtEffect(w, k, time, ease, u);
    }
  }

  /** A tween can finish only if it started before `time`; the successors it starts
      then start at `time` or later. */
  lemma UpdateAtFinishes<K>(w: World<K>, k: K, time: u32, ease: EasingTable)
    requires Closed(w) && Fits(w, time) && k in w.store
    ensures var (r, alive) := UpdateAt(w, k, time, ease);
      !alive ==>
        w.store[k].startTime < time &&
        forall c | c in w.chains[k] :: r.store[c].startTime >= time
  {
    var (r, alive) := UpdateAt(w, k, time, ease);
    UpdateAtEffect(w, k, time, ease, k);
    if !alive {
      StepFinishesIff(w.store[k], time, ease);
      StepKeepsConfiguration(w.store[k], time, ease);
      forall c | c in w.chains[k] ensures r.store[c].startTime >= time {
        UpdateAtEffect(w, k, time, ease, c);
      }
    }
  }

  /** Unlinking an entry keeps the world closed. */
  lemma UnlinkKeepsClosed<K>(w: World<K>, i: nat)
    requires Closed(w) && i < |w.active|
    ensures Closed(Unlink(w, i))
  {
    forall x | x in Unlink(w, i).active ensures x in w.store {
      assert x in w.active[..i] || x in w.active[i + 1..];
    }
  }

  /** Where the entries of a list stand once `c` is appended and entry `i` unlinked. */
  lemma UnlinkAfterAppend<K>(a: seq<K>, c: seq<K>, i: nat)
    requires i < |a|
    ensures var s := a + c; (s[..i] + s[i + 1..])[..i] == a[..i]
    ensures var s := a + c; (s[..i] + s[i + 1..])[i..] == a[i + 1..] + c
  {
    var s := a + c;
    assert s[..i] == a[..i];
    assert s[i + 1..] == a[i + 1..] + c;
  }

  /** Each visit of the pass keeps the world closed and lowers the budget of the entries
      still to visit. */
  lemma UpdateAtShrinksBudget<K>(w: World<K>, i: nat, time: u32, ease: EasingTable)
    requires Closed(w) && Fits(w, time) && i < |w.active|
    ensures var (r, alive) := UpdateAt(w, w.active[i], time, ease);
      Closed(r) && Fits(r, time) && Closed(Unlink(r, i)) &&
      (alive ==> Budget(r.store, r.chains, r.active[i + 1..], time) <
                 Budget(w.store, w.chains, w.active[i..], time)) &&
      (!alive ==> Budget(r.store, r.chains, Unlink(r, i).active[i..], time) <
                  Budget(w.store, w.chains, w.active[i..], time))
  {
    var k := w.active[i];
    var (r, alive) := UpdateAt(w, k, time, ease);
    UpdateAtClosed(w, k, time, ease);
    UpdateAtTouches(w, k, time, ease);
    UpdateAtFinishes(w, k, time, ease);
    UnlinkKeepsClosed(r, i);
    assert w.active[i..][0] == k && w.active[i..][1..] == w.active[i + 1..];
    BudgetShrinks(w, r, w.active[i + 1..], time);
    if !alive {
      var chain := w.chains[k];
      UnlinkAfterAppend(w.active, chain, i);
      BudgetAppend(r.store, r.chains, w.active[i + 1..], chain, time);
      BudgetOfStarted(r.store, r.chains, chain, time);
    }
  }

  /** One step of the pass, unfolded: after updating the tween of entry `i`, the pass
      goes on from the next entry if that entry stayed, and from the same position in
      the list without it otherwise. */
  lemma PassStep<K>(w: World<K>, i: nat, time: u32, ease: EasingTable)
    requires Closed(w) && Fits(w, time) && i < |w.active|
    ensures var (r, alive) := UpdateAt(w, w.active[i], time, ease);
      Closed(r) && Fits(r, time) && Closed(Unlink(r, i)) && Fits(Unlink(r, i), time) &&
      (alive ==> i + 1 <= |r.active| &&
                 Pass(w, i, time, ease).world == Pass(r, i + 1, time, ease).world &&
                 Budget(r.store, r.chains, r.active[i + 1..], time) <
                 Budget(w.store, w.chains, w.active[i..], time)) &&
      (!alive ==> i <= |Unlink(r, i).active| &&
                  Pass(w, i, time, ease).world == Pass(Unlink(r, i), i, time, ease).world &&
                  Budget(r.store, r.chains, Unlink(r, i).active[i..], time) <
                  Budget(w.store, w.chains, w.active[i..], time))
  {
    UpdateAtShrinksBudget(w, i, time, ease);
  }

  /** One visit of the pass: the tween it updated and whether its entry stayed. */
  datatype Visit<K> = Visit(tween: K, alive: bool)

  datatype PassResult<K> = PassResult(world: World<K>, visits: seq<Visit<K>>)

  /** The loop of Tween_UpdateEngine from entry `i` on: update the tween of the current
      entry; keep the entry and move on if it is still active, unlink it otherwise. The
      list may grow during the walk, and the new entries are visited too. */
  function Pass<K(==)>(w: World<K>, i: nat, time: u32, ease: EasingTable): (r: PassResult<K>)
    requires Closed(w) && Fits(w, time) && i <= |w.active|
    ensures r.world.chains == w.chains && r.world.store.Keys == w.store.Keys
    decreases Budget(w.store, w.chains, w.active[i..], time)
  {
    if i == |w.active| then PassResult(w, [])
    else
      var k := w.active[i];
      var u := UpdateAt(w, k, time, ease);
      UpdateAtShrinksBudget(w, i, time, ease);
      if u.1 then
        var rest := Pass(u.0, i + 1, time, ease);
        PassResult(rest.world, [Visit(k, true)] + rest.visits)
      else
        var rest := Pass(Unlink(u.0, i), i, time, ease);
        PassResult(rest.world, [Visit(k, false)] + rest.visits)
  }

  /** Tween_UpdateEngine: 0 for an empty list, which stays untouched; otherwise one pass,
      and 1. */
  function UpdateEngine<K(==)>(w: World<K>, time: u32, ease: EasingTable): (r: (int, World<K>))
    requires Closed(w) && Fits(w, time)
    ensures (r.0 == 0 || r.0 == 1) && (r.0 == 0 <==> w.active == [])
    ensures w.active == [] ==> r.1 == w
    ensures r.1.chains == w.chains && r.1.store.Keys == w.store.Keys
    ensures w.log <= r.1.log
    ensures w.active != [] ==> r.1.active == Survivors(Pass(w, 0, time, ease).visits)
  {
    if w.active == [] then (0, w)
    else
      var p := Pass(w, 0, time, ease);
      PassLogGrows(w, 0, time, ease);
      PassKeeps(w, 0, time, ease);
      assert w.active[..0] == [];
      (1, p.world)
  }

  function Visited<K>(vs: seq<Visit<K>>): seq<K>
  {
    if vs == [] then [] else [vs[0].tween] + Visited(vs[1..])
  }

  function Survivors<K>(vs: seq<Visit<K>>): seq<K>
  {
    if vs == [] then [] else (if vs[0].alive then [vs[0].tween] else []) + Survivors(vs[1..])
  }

  /** The chains of the finished visits, one after the other. */
  function Successors<K(==)>(chains: map<K, seq<K>>, vs: seq<Visit<K>>): seq<K>
  {
    if vs == [] then []
    else (if !vs[0].alive && vs[0].tween in chains then chains[vs[0].tween] else [])
         + Successors(chains, vs[1..])
  }

  /** The three views of a visit list taken apart at its first visit. */
  lemma VisitsCons<K>(chains: map<K, seq<K>>, v: Visit<K>, vs: seq<Visit<K>>)
    ensures Visited([v] + vs) == [v.tween] + Visited(vs)
    ensures Survivors([v] + vs) == (if v.alive then [v.tween] else []) + Survivors(vs)
    ensures Successors(chains, [v] + vs) ==
            (if !v.alive && v.tween in chains then chains[v.tween] else []) + Successors(chains, vs)
  {
    assert ([v] + vs)[0] == v && ([v] + vs)[1..] == vs;
  }

  /** The visit-order step of a kept entry, as a fact about sequences alone. */
  lemma VisitedAliveStep<K>(a: seq<K>, i: nat, chains: map<K, seq<K>>, rest: seq<Visit<K>>)
    requires i < |a|
    requires Visited(rest) == a[i + 1..] + Successors(chains, rest)
    ensures Visited([Visit(a[i], true)] + rest) ==
            a[i..] + Successors(chains, [Visit(a[i], true)] + rest)
  {
    VisitsCons(chains, Visit(a[i], true), rest);
    assert a[i..] == [a[i]] + a[i + 1..];
  }

  /** The visit-order step of an unlinked entry whose chain went to the end of the list. */
  lemma VisitedDeadStep<K>(a: seq<K>, i: nat, chains: map<K, seq<K>>, rest: seq<Visit<K>>)
    requires i < |a| && a[i] in chains
    requires Visited(rest) == a[i + 1..] + chains[a[i]] + Successors(chains, rest)
    ensures Visited([Visit(a[i], false)] + rest) ==
            a[i..] + Successors(chains, [Visit(a[i], false)] + rest)
  {
    VisitsCons(chains, Visit(a[i], false), rest);
    assert a[i..] == [a[i]] + a[i + 1..];
  }

  /** What a pass visits: every entry from `i` on, in list order, and then the chains of
      the tweens that finished, in the order they finished. */
  lemma {:induction false} PassVisits<K>(w: World<K>, i: nat, time: u32, ease: EasingTable)
    requires Closed(w) && Fits(w, time) && i <= |w.active|
    ensures var r := Pass(w, i, time, ease);
      Visited(r.visits) == w.active[i..] + Successors(w.chains, r.visits)
    decreases Budget(w.store, w.chains, w.active[i..], time)
  {
    if i < |w.active| {
      var k := w.active[i];
      var (u, alive) := UpdateAt(w, k, time, ease);
      UpdateAtShrinksBudget(w, i, time, ease);
      if alive {
        var rest := Pass(u, i + 1, time, ease);
        assert Pass(w, i, time, ease).visits == [Visit(k, true)] + rest.visits;
        PassVisits(u, i + 1, time, ease);
        VisitedAliveStep(w.active, i, w.chains, rest.visits);
      } else {
        var v := Unlink(u, i);
        var rest := Pass(v, i, time, ease);
        assert Pass(w, i, time, ease).visits == [Visit(k, false)] + rest.visits;
        PassVisits(v, i, time, ease);
        UnlinkAfterAppend(w.active, w.chains[k], i);
        assert v.active[i..] == w.active[i + 1..] + w.chains[k];
        VisitedDeadStep(w.active, i, w.chains, rest.visits);
      }
    }
  }

  /** The survivor step of a kept entry, as a fact about sequences alone. */
  lemma SurvivorsAliveStep<K>(a: seq<K>, i: nat, kept: seq<K>, rest: seq<Visit<K>>)
    requires i < |a|
    requires kept == a[..i + 1] + Survivors(rest)
    ensures kept == a[..i] + Survivors([Visit(a[i], true)] + rest)
  {
    VisitsCons(map[], Visit(a[i], true), rest);
    assert a[..i + 1] == a[..i] + [a[i]];
  }

  /** The survivor step of an unlinked entry. */
  lemma SurvivorsDeadStep<K>(k: K, rest: seq<Visit<K>>)
    ensures Survivors([Visit(k, false)] + rest) == Survivors(rest)
  {
    VisitsCons(map[], Visit(k, false), rest);
  }

  /** What a pass keeps: the list it leaves is the entries before `i` followed by exactly
      the visited entries whose update reported the tween active, in visiting order. */
  lemma {:induction false} PassKeeps<K>(w: World<K>, i: nat, time: u32, ease: EasingTable)
    requires Closed(w) && Fits(w, time) && i <= |w.active|
    ensures var r := Pass(w, i, time, ease);
      r.world.active == w.active[..i] + Survivors(r.visits)
    decreases Budget(w.store, w.chains, w.active[i..], time)
  {
    if i == |w.active| {
      assert w.active[..i] == w.active;
    } else {
      var k := w.active[i];
      var (u, alive) := UpdateAt(w, k, time, ease);
      UpdateAtShrinksBudget(w, i, time, ease);
      if alive {
        var rest := Pass(u, i + 1, time, ease);
        assert Pass(w, i, time, ease) == PassResult(rest.world, [Visit(k, true)] + rest.visits);
        PassKeeps(u, i + 1, time, ease);
        SurvivorsAliveStep(w.active, i, rest.world.active, rest.visits);
      } else {
        var v := Unlink(u, i);
        var rest := Pass(v, i, time, ease);
        assert Pass(w, i, time, ease) == PassResult(rest.world, [Visit(k, false)] + rest.visits);
        PassKeeps(v, i, time, ease);
        UnlinkAfterAppend(w.active, w.chains[k], i);
        SurvivorsDeadStep(k, rest.visits);
      }
    }
  }

  /** Every entry from `n` on names a tween whose start time is not before `time`. */
  predicate StartsFrom<K(==)>(w: World<K>, n: nat, time: u32)
  {
    n <= |w.active| &&
    forall j | n <= j < |w.active| :: w.active[j] in w.store && time <= w.store[w.active[j]].startTime
  }

  /** Every visit from the `m`-th on kept its entry. */
  predicate AliveFrom<K>(vs: seq<Visit<K>>, m: nat)
  {
    m <= |vs| && forall j | m <= j < |vs| :: vs[j].alive
  }

  /** A visit in front of a list of visits shifts the position from which all are alive. */
  lemma AliveFromCons<K>(v: Visit<K>, vs: seq<Visit<K>>, m: nat)
    requires AliveFrom(vs, m)
    ensures AliveFrom([v] + vs, m + 1)
    ensures v.alive && m == 0 ==> AliveFrom([v] + vs, 0)
  {
  }

  /** An update that keeps the list keeps every later start at or after `time`. */
  lemma StartsFromKept<K>(w: World<K>, r: World<K>, n: nat, time: u32)
    requires Touches(w, r, time) && r.active == w.active && StartsFrom(w, n, time)
    ensures StartsFrom(r, n, time)
  {
  }

  /** Unlinking entry `i < n` after appending successors that start at or after `time`
      moves the boundary one place down. */
  lemma StartsFromUnlinked<K>(w: World<K>, r: World<K>, i: nat, n: nat, chain: seq<K>, time: u32)
    requires Touches(w, r, time) && i < n && StartsFrom(w, n, time)
    requires r.active == w.active + chain
    requires forall c | c in chain :: c in r.store && r.store[c].startTime >= time
    ensures StartsFrom(Unlink(r, i), n - 1, time)
  {
    var v := Unlink(r, i).active;
    assert v == w.active[..i] + w.active[i + 1..] + chain;
    forall j | n - 1 <= j < |v| ensures v[j] in r.store && time <= r.store[v[j]].startTime {
      if j < |w.active| - 1 {
        assert v[j] == w.active[j + 1];
      } else {
        assert v[j] == chain[j - (|w.active| - 1)];
      }
    }
  }

  /** One visit keeps the entries from `n` on started: a kept entry stays where it is
      (and a kept entry at `n` joins them), and an unlinked entry lies before `n`. */
  lemma StartsFromStep<K>(w: World<K>, i: nat, n: nat, time: u32, ease: EasingTable)
    requires Closed(w) && Fits(w, time) && i <= n && StartsFrom(w, n, time) && i < |w.active|
    ensures var (u, alive) := UpdateAt(w, w.active[i], time, ease);
      (alive ==> StartsFrom(u, if i == n then n + 1 else n, time)) &&
      (!alive ==> i < n && StartsFrom(Unlink(u, i), n - 1, time))
  {
    var k := w.active[i];
    var (u, alive) := UpdateAt(w, k, time, ease);
    UpdateAtTouches(w, k, time, ease);
    UpdateAtFinishes(w, k, time, ease);
    if alive {
      StartsFromKept(w, u, if i == n then n + 1 else n, time);
    } else {
      StartsFromUnlinked(w, u, i, n, w.chains[k], time);
    }
  }

  /** A tween started during a pass is visited in that pass but cannot finish in it:
      its start time is `time + delay`, so it is pending or at progress 0. Here every
      entry from `n` on was started at or after `time`; all visits past the first
      `n - i` report the tween active. */
  lemma {:induction false} PassStartedEntriesStay<K>(w: World<K>, i: nat, n: nat,
                                                        time: u32, ease: EasingTable)
    requires Closed(w) && Fits(w, time) && i <= n && StartsFrom(w, n, time)
    ensures AliveFrom(Pass(w, i, time, ease).visits, n - i)
    decreases Budget(w.store, w.chains, w.active[i..], time), 1
  {
    if i < |w.active| {
      if UpdateAt(w, w.active[i], time, ease).1 {
        KeptEntryStays(w, i, n, time, ease);
      } else {
        UnlinkedEntryStays(w, i, n, time, ease);
      }
    }
  }

  /** The step of PassStartedEntriesStay at a visit that keeps its entry. */
  lemma {:induction false} KeptEntryStays<K>(w: World<K>, i: nat, n: nat,
                                               time: u32, ease: EasingTable)
    requires Closed(w) && Fits(w, time) && i <= n && StartsFrom(w, n, time) && i < |w.active|
    requires UpdateAt(w, w.active[i], time, ease).1
    ensures AliveFrom(Pass(w, i, time, ease).visits, n - i)
    decreases Budget(w.store, w.chains, w.active[i..], time), 0
  {
    var k := w.active[i];
    var u := UpdateAt(w, k, time, ease).0;
    UpdateAtShrinksBudget(w, i, time, ease);
    StartsFromStep(w, i, n, time, ease);
    var m := if i == n then n + 1 else n;
    var rest := Pass(u, i + 1, time, ease).visits;
    assert Pass(w, i, time, ease).visits == [Visit(k, true)] + rest;
    PassStartedEntriesStay(u, i + 1, m, time, ease);
    AliveFromCons(Visit(k, true), rest, m - (i + 1));
  }

  /** The step of PassStartedEntriesStay at a visit that unlinks its entry. */
  lemma {:induction false} UnlinkedEntryStays<K>(w: World<K>, i: nat, n: nat,
                                                   time: u32, ease: EasingTable)
    requires Closed(w) && Fits(w, time) && i <= n && StartsFrom(w, n, time) && i < |w.active|
    requires !UpdateAt(w, w.active[i], time, ease).1
    ensures AliveFrom(Pass(w, i, time, ease).visits, n - i)
    decreases Budget(w.store, w.chains, w.active[i..], time), 0
  {
    var k := w.active[i];
    var u := UpdateAt(w, k, time, ease).0;
    UpdateAtShrinksBudget(w, i, time, ease);
    StartsFromStep(w, i, n, time, ease);
    var rest := Pass(Unlink(u, i), i, time, ease).visits;
    assert Pass(w, i, time, ease).visits == [Visit(k, false)] + rest;
    PassStartedEntriesStay(Unlink(u, i), i, n - 1, time, ease);
    AliveFromCons(Visit(k, false), rest, n - 1 - i);
  }

  /** The entries a pass appends are the chains of tweens that finished during it, all
      started at the pass's own time: the pass visits each of them and none finishes. So
      a chained tween runs its first update in the same call of Tween_UpdateEngine that
      finished its predecessor, and the pass ends. */
  lemma AppendedEntriesSurvive<K>(w: World<K>, time: u32, ease: EasingTable)
    requires Closed(w) && Fits(w, time)
    ensures AliveFrom(Pass(w, 0, time, ease).visits, |w.active|)
  {
    PassStartedEntriesStay(w, 0, |w.active|, time, ease);
  }

  /** A pass only appends to the callback log. */
  lemma {:induction false} PassLogGrows<K>(w: World<K>, i: nat, time: u32, ease: EasingTable)
    requires Closed(w) && Fits(w, time) && i <= |w.active|
    ensures w.log <= Pass(w, i, time, ease).world.log
    decreases Budget(w.store, w.chains, w.active[i..], time)
  {
    if i < |w.active| {
      var k := w.active[i];
      var (u, alive) := UpdateAt(w, k, time, ease);
      PassStep(w, i, time, ease);
      UpdateAtLogGrows(w, k, time, ease);
      if alive {
        PassLogGrows(u, i + 1, time, ease);
        PrefixTrans(w.log, u.log, Pass(u, i + 1, time, ease).world.log);
      } else {
        PassLogGrows(Unlink(u, i), i, time, ease);
        PrefixTrans(w.log, u.log, Pass(Unlink(u, i), i, time, ease).world.log);
      }
    }
  }

  /** One update only appends to the callback log. */
  lemma UpdateAtLogGrows<K>(w: World<K>, k: K, time: u32, ease: EasingTable)
    requires Closed(w) && k in w.store
    ensures w.log <= UpdateAt(w, k, time, ease).0.log
  {
    var o := Step(w.store[k], time, ease);
    assert (w.log + FiredBy(k, o.fired))[..|w.log|] == w.log;
  }

  lemma PrefixTrans<T>(a: seq<T>, b: seq<T>, c: seq<T>)
    requires a <= b && b <= c
    ensures a <= c
  {
    assert c[..|a|] == b[..|a|];
  }

  /** A chained start at the completion tick: tween 0 runs for 100 ticks from time 0 and
      is chained to tween 1, whose delay is 5. The update at time 100 finishes tween 0,
      appends tween 1 to the list and sets its start time to 105. */
  lemma ChainedStartAtCompletion(ease: EasingTable)
    ensures
      var a := Started(CreatedEx([0.0], [1.0], 100, 0, 0, false, 0, false, false, false), 0);
      var b := CreatedEx([1.0], [2.0], 50, 5, 0, false, 0, false, false, false);
      var w := World(map[0 := a, 1 := b], map[0 := [1], 1 := []], [0], []);
      Closed(w) &&
      var (r, alive) := UpdateAt(w, 0, 100, ease);
      !alive && r.active == [0, 1] && r.store[1].startTime == 105 && r.log == []
  {
    var a := Started(CreatedEx([0.0], [1.0], 100, 0, 0, false, 0, false, false, false), 0);
    var b := CreatedEx([1.0], [2.0], 50, 5, 0, false, 0, false, false, false);
    var w := World(map[0 := a, 1 := b], map[0 := [1], 1 := []], [0], []);
    StepFinishesIff(a, 100, ease);
    UpdateAtEffect(w, 0, 100, ease, 1);
    assert Step(a, 100, ease).fired == [];
  }

  /** One visit of a tween chained to itself, with empty vectors and no callbacks, whose
      cycle completes at `time` with no repeat left: it finishes, restarts at
      `time + delay` (in uint32_t) and is appended again, so after the unlink the list is
      what it was. */
  lemma SelfChainedVisit(s: TweenState, time: u32, ease: EasingTable)
    requires s.props == [] && s.startProps == [] && s.toProps == [] && s.repeatProps == []
    requires s.cfg.duration > 0 && s.repeat == 0 && s.startCallbackFired
    requires !s.cfg.hasStartCallback && !s.cfg.hasUpdateCallback && !s.cfg.hasCompleteCallback
    requires Completes(s, time)
    ensures
      var w := World(map[0 := s], map[0 := [0]], [0], []);
      var (r, alive) := UpdateAt(w, 0, time, ease);
      Closed(w) && !alive &&
      Unlink(r, 0) == World(map[0 := s.(startTime := AddU32(time, s.cfg.delay))], map[0 := [0]], [0], [])
  {
    var w := World(map[0 := s], map[0 := [0]], [0], []);
    var (r, alive) := UpdateAt(w, 0, time, ease);
    var o := Step(s, time, ease);
    StepFinishesIff(s, time, ease);
    UpdateAtEffect(w, 0, time, ease, 0);
    assert o.next.props == [];
    assert o.next == s;
    assert o.fired == [];
    assert r.store == map[0 := s.(startTime := AddU32(time, s.cfg.delay))];
    assert Unlink(r, 0).active == [0];
  }

  /** Why the walk needs `time + delay` not to wrap. A tween of duration 100 and delay
      1000 is chained to itself, and its cycle began at 2^32 - 200. At 2^32 - 10, ten
      milliseconds before a 32-bit millisecond clock wraps, it finishes and restarts at
      990, a time already passed. From then on it finishes again on every visit, and each
      visit hands the walk of Tween_UpdateEngine back the list it started with, so the
      walk never reaches the end. */
  lemma WrappedSelfChainRepeats(ease: EasingTable)
    ensures
      var cfg := Config(100, 1000, false, 0, false, false, false);
      var s0 := TweenState(TIME_LIMIT - 200, 0, false, true, [], [], [], [], cfg);
      var s1 := s0.(startTime := 990);
      var w0 := World(map[0 := s0], map[0 := [0]], [0], []);
      var w1 := World(map[0 := s1], map[0 := [0]], [0], []);
      var time: u32 := TIME_LIMIT - 10;
      Closed(w0) && !Fits(w0, time) &&
      !UpdateAt(w0, 0, time, ease).1 && Unlink(UpdateAt(w0, 0, time, ease).0, 0) == w1 &&
      !UpdateAt(w1, 0, time, ease).1 && Unlink(UpdateAt(w1, 0, time, ease).0, 0) == w1
  {
    var cfg := Config(100, 1000, false, 0, false, false, false);
    var s0 := TweenState(TIME_LIMIT - 200, 0, false, true, [], [], [], [], cfg);
    var time: u32 := TIME_LIMIT - 10;
    assert AddU32(time, 1000) == 990;
    SelfChainedVisit(s0, time, ease);
    SelfChainedVisit(s0.(startTime := 990), time, ease);
  }
}

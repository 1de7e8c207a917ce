/**
 * The experiment loop of `forecast_agent.rb`. The language model's reply to each prompt is an
 * input (`None` when it is not valid JSON); the forecast subprocess is recorded as the
 * environment it is launched with.
 */
module ForecastAgent {
  import opened Wrappers

  /** The JSON values that can reach the state through `set_param`, and Ruby's own numbers. */
  datatype Value = Int(i: int) | Float(f: real) | Str(s: string) | Bool(b: bool) | Null | Composite

  /** The `state` hash. */
  type State = map<string, Value>

  const NEstimators: string := "n_estimators"
  const MaxDepth: string := "max_depth"
  const Lags: string := "lags"
  const TrainFrac: string := "train_frac"
  const StateKeys: set<string> := {NEstimators, MaxDepth, Lags, TrainFrac}

  /** The hard cap on iterations. */
  const MaxLoops: nat := 6

  datatype Action = Train | Eval | SetParam | IncreaseTrees | DecreaseTrees | Save | Stop

  /** The name an action goes by in a reply. */
  function ActionName(a: Action): string {
    match a
    case Train => "train"
    case Eval => "eval"
    case SetParam => "set_param"
    case IncreaseTrees => "increase_trees"
    case DecreaseTrees => "decrease_trees"
    case Save => "save"
    case Stop => "stop"
  }

  /** `ALLOWED_ACTIONS`, in the source's order. */
  const AllowedNames: seq<string> := ["train", "eval", "set_param", "increase_trees", "decrease_trees", "save", "stop"]

  /** The allowed names, each with the action it selects. */
  const ActionNamed: map<string, Action> :=
    map["train" := Train, "eval" := Eval, "set_param" := SetParam, "increase_trees" := IncreaseTrees,
        "decrease_trees" := DecreaseTrees, "save" := Save, "stop" := Stop]

  /**
   * The pairs `params.each { |k, v| ... }` walks, with `k.to_s` already applied, or `None` when
   * `params` has no `each` (a JSON string, number or `true`). A hash gives its entries; an array
   * gives one pair per element (`["lags", 5]` is ("lags", 5), a bare `"lags"` is ("lags", nil));
   * a missing member, `null` or `false` gives `{}` through `|| {}`, the empty list.
   */
  type Params = Option<seq<(string, Value)>>

  /** A parsed reply: its `action` member and its `params` member. */
  datatype Command = Command(action: Value, params: Params)

  /** The environment `train` and `eval` launch the forecast script with. */
  datatype RunEnv = RunEnv(lags: Value, trainFrac: Value, nEstimators: Value, maxDepth: Value)

  /** Why the loop ended; `Crashed` is an exception nothing rescues. */
  datatype Halt = InvalidJson | Disallowed(action: Value) | StopRequested | CapReached | Crashed

  /** One action's effect: the loop goes on with a new state (and maybe a launch), or it ends. */
  datatype Step = Continue(state: State, run: Option<RunEnv>) | Halted(halt: Halt)

  /** Where the loop ends: the state, `loop_count`, the launches in order, and why it stopped. */
  datatype Final = Final(state: State, iterations: nat, runs: seq<RunEnv>, halt: Halt)

  /** The state built from the environment at start-up. */
  function InitialState(nEstimators: int, maxDepth: int, lags: int, trainFrac: real): (s: State)
    ensures s.Keys == StateKeys
  {
    map[NEstimators := Int(nEstimators), MaxDepth := Int(maxDepth), Lags := Int(lags), TrainFrac := Float(trainFrac)]
  }

  /** `state[k]`: nil for a key the hash lacks. */
  function Lookup(s: State, k: string): Value {
    if k in s then s[k] else Null
  }

  /** `ALLOWED_ACTIONS.include?(action)`, and which action it names. */
  function AllowedAction(v: Value): Option<Action> {
    if v.Str? && v.s in ActionNamed then Some(ActionNamed[v.s]) else None
  }

  /**
   * Only a string among `ALLOWED_ACTIONS` is accepted, and it selects exactly the action of that
   * name.
   */
  lemma AllowedActionByName(v: Value)
    ensures AllowedAction(v).Some? <==> v.Str? && v.s in AllowedNames
    ensures forall a :: AllowedAction(v) == Some(a) <==> v == Str(ActionName(a))
  {
  }

  /** `(v || 200)`: nil and false fall back to 200. */
  function OrDefault(v: Value): Value {
    if v == Null || v == Bool(false) then Int(200) else v
  }

  /** `(state["n_estimators"] || 200) + 50`; `None` when `+` raises (a string, true, an array). */
  function AddTrees(v: Value): Option<Value> {
    match OrDefault(v)
    case Int(i) => Some(Int(i + 50))
    case Float(f) => Some(Float(f + 50.0))
    case _ => None
  }

  /**
   * `[(state["n_estimators"] || 200) - 50, 10].max`; `Array#max` keeps the first of two equal
   * elements, so a float difference of exactly 10.0 stays a float.
   */
  function RemoveTrees(v: Value): Option<Value> {
    match OrDefault(v)
    case Int(i) => Some(Int(if i - 50 < 10 then 10 else i - 50))
    case Float(f) => Some(if f - 50.0 < 10.0 then Int(10) else Float(f - 50.0))
    case _ => None
  }

  /** `state[k] = v if state.key?(k)` for one parameter. */
  function Assign(s: State, p: (string, Value)): State {
    if p.0 in s then s[p.0 := p.1] else s
  }

  /** `params.each { ... }`: the parameters applied in order. */
  function SetParams(s: State, params: seq<(string, Value)>): State
    decreases |params|
  {
    if params == [] then s else SetParams(Assign(s, params[0]), params[1..])
  }

  /** The value of the last parameter named `k`, or `dflt` when none is. */
  function LastValueFor(params: seq<(string, Value)>, k: string, dflt: Value): Value
    decreases |params|
  {
    if params == [] then dflt
    else if params[|params| - 1].0 == k then params[|params| - 1].1
    else LastValueFor(params[..|params| - 1], k, dflt)
  }

  /** The environment built from the state for a launch. */
  function EnvOf(s: State): RunEnv {
    RunEnv(Lookup(s, Lags), Lookup(s, TrainFrac), Lookup(s, NEstimators), Lookup(s, MaxDepth))
  }

  /** The `case action` dispatch. */
  function Dispatch(s: State, a: Action, params: Params): Step {
    match a
    case Train => Continue(s, Some(EnvOf(s)))
    case Eval => Continue(s, Some(EnvOf(s)))
    case SetParam =>
      if params.None? then Halted(Crashed) else Continue(SetParams(s, params.value), None)
    case IncreaseTrees =>
      var v := AddTrees(Lookup(s, NEstimators));
      if v.None? then Halted(Crashed) else Continue(s[NEstimators := v.value], None)
    case DecreaseTrees =>
      var v := RemoveTrees(Lookup(s, NEstimators));
      if v.None? then Halted(Crashed) else Continue(s[NEstimators := v.value], None)
    case Save => Continue(s, None)
    case Stop => Halted(StopRequested)
  }

  /** What one iteration leaves: the loop has ended, or it goes on from a new state. */
  datatype Turn = Done(final: Final) | Next(state: State, runs: seq<RunEnv>)

  /** Iteration number `n` (the value of `loop_count` after its increment) from state `s`. */
  function Iteration(s: State, n: nat, runs: seq<RunEnv>, llm: (nat, State) -> Option<Command>): (t: Turn)
    ensures t.Next? ==> n < MaxLoops
    ensures t.Done? ==> t.final.iterations == n
    ensures t.Done? && t.final.halt == CapReached ==> n >= MaxLoops
    ensures t.Done? && t.final.halt != CapReached ==> t.final.state == s && t.final.runs == runs
    ensures t.Done? && t.final.halt == InvalidJson ==> llm(n, s).None?
    ensures t.Done? && t.final.halt.Disallowed? ==>
              && llm(n, s).Some?
              && llm(n, s).value.action == t.final.halt.action
              && AllowedAction(t.final.halt.action).None?
    ensures t.Done? && t.final.halt == StopRequested ==>
              llm(n, s).Some? && AllowedAction(llm(n, s).value.action) == Some(Stop)
    ensures var after := if t.Next? then t.runs else t.final.runs;
            |runs| <= |after| <= |runs| + 1 && after[..|runs|] == runs
    ensures llm(n, s).None? ==> t == Done(Final(s, n, runs, InvalidJson))
    ensures llm(n, s).Some? && AllowedAction(llm(n, s).value.action).None? ==>
              t == Done(Final(s, n, runs, Disallowed(llm(n, s).value.action)))
    ensures llm(n, s).Some? && AllowedAction(llm(n, s).value.action) == Some(Stop) ==>
              t == Done(Final(s, n, runs, StopRequested))
  {
    match llm(n, s)
    case None => Done(Final(s, n, runs, InvalidJson))
    case Some(cmd) =>
      match AllowedAction(cmd.action)
      case None => Done(Final(s, n, runs, Disallowed(cmd.action)))
      case Some(a) =>
        match Dispatch(s, a, cmd.params)
        case Halted(h) => Done(Final(s, n, runs, h))
        case Continue(s', run) =>
          var runs' := if run.Some? then runs + [run.value] else runs;
          if n >= MaxLoops then Done(Final(s', n, runs', CapReached)) else Next(s', runs')
  }

  /** The rest of the loop, after `count` iterations, from state `s`. */
  function Loop(s: State, count: nat, runs: seq<RunEnv>, llm: (nat, State) -> Option<Command>): Final
    requires count < MaxLoops
    decreases MaxLoops - count
  {
    match Iteration(s, count + 1, runs, llm)
    case Done(f) => f
    case Next(s', runs') => Loop(s', count + 1, runs', llm)
  }

  /**
   * The body of `case action`, updating the state hash in place; `set_param` walks the
   * parameters and overwrites only the keys the hash already has.
   */
  method Perform(s: State, a: Action, params: Params) returns (step: Step)
    ensures step == Dispatch(s, a, params)
  {
    var state := s;
    match a {
      case Train =>
        return Continue(state, Some(RunEnv(Lookup(state, Lags), Lookup(state, TrainFrac),
                                           Lookup(state, NEstimators), Lookup(state, MaxDepth))));
      case Eval =>
        return Continue(state, Some(RunEnv(Lookup(state, Lags), Lookup(state, TrainFrac),
                                           Lookup(state, NEstimators), Lookup(state, MaxDepth))));
      case SetParam =>
        if params.None? {
          return Halted(Crashed);
        }
        var pairs := params.value;
        var j := 0;
        while j < |pairs|
          invariant 0 <= j <= |pairs|
          invariant SetParams(state, pairs[j..]) == SetParams(s, pairs)
        {
          var (k, v) := pairs[j];
          if k in state {
            state := state[k := v];
          }
          assert pairs[j..][1..] == pairs[j + 1..];
          j := j + 1;
        }
        return Continue(state, None);
      case IncreaseTrees =>
        var v := AddTrees(Lookup(state, NEstimators));
        if v.None? {
          return Halted(Crashed);
        }
        state := state[NEstimators := v.value];
        return Continue(state, None);
      case DecreaseTrees =>
        var v := RemoveTrees(Lookup(state, NEstimators));
        if v.None? {
          return Halted(Crashed);
        }
        state := state[NEstimators := v.value];
        return Continue(state, None);
      case Save =>
        return Continue(state, None);
      case Stop =>
        return Halted(StopRequested);
    }
  }

  /**
   * One pass of the loop body after `loop_count` has become `n`: ask for a reply on the current
   * state, stop on invalid JSON, a disallowed action or `stop`, perform the action, and break
   * once `n` reaches 6.
   */
  method RunIteration(state: State, n: nat, runs: seq<RunEnv>, llm: (nat, State) -> Option<Command>)
    returns (t: Turn)
    ensures t == Iteration(state, n, runs, llm)
  {
    var reply := llm(n, state);
    if reply.None? {
      return Done(Final(state, n, runs, InvalidJson));
    }
    var allowed := AllowedAction(reply.value.action);
    if allowed.None? {
      return Done(Final(state, n, runs, Disallowed(reply.value.action)));
    }
    var step := Perform(state, allowed.value, reply.value.params);
    if step.Halted? {
      return Done(Final(state, n, runs, step.halt));
    }
    var runs' := runs;
    if step.run.Some? {
      runs' := runs' + [step.run.value];
    }
    if n >= MaxLoops {
      return Done(Final(step.state, n, runs', CapReached));
    }
    return Next(step.state, runs');
  }

  /**
   * The script's loop: `loop_count` starts at 0 and rises by one per iteration; the state hash
   * is carried from one iteration to the next until an iteration ends the loop.
   */
  method RunAgent(nEstimators: int, maxDepth: int, lags: int, trainFrac: real,
                  llm: (nat, State) -> Option<Command>)
    returns (state: State, loopCount: nat, runs: seq<RunEnv>, halt: Halt)
    ensures Final(state, loopCount, runs, halt) == Loop(InitialState(nEstimators, maxDepth, lags, trainFrac), 0, [], llm)
    ensures 1 <= loopCount <= MaxLoops
  {
    state := InitialState(nEstimators, maxDepth, lags, trainFrac);
    loopCount := 0;
    runs := [];
    ghost var target := Loop(state, 0, [], llm);
    while true
      invariant loopCount < MaxLoops
      invariant Loop(state, loopCount, runs, llm) == target
      decreases MaxLoops - loopCount
    {
      loopCount := loopCount + 1;
      var turn := RunIteration(state, loopCount, runs, llm);
      if turn.Done? {
        assert turn.final.iterations == loopCount;
        return turn.final.state, loopCount, turn.final.runs, turn.final.halt;
      }
      state, runs := turn.state, turn.runs;
    }
  }

  /** A tree count that `decrease_trees` leaves: never below 10. */
  predicate AtLeastTen(v: Value) {
    (v.Int? && v.i >= 10) || (v.Float? && v.f >= 10.0)
  }

  /**
   * `increase_trees` adds exactly 50 to an integer or float tree count (nil and false count as
   * 200) and touches no other key; it raises for a string, `true` or a composite value.
   */
  lemma IncreaseTreesAddsFifty(s: State, params: Params)
    requires NEstimators in s
    ensures var r := Dispatch(s, IncreaseTrees, params);
            && (r.Halted? <==> s[NEstimators].Str? || s[NEstimators] == Bool(true) || s[NEstimators].Composite?)
            && (r.Halted? ==> r.halt == Crashed)
            && (s[NEstimators].Int? ==> r == Continue(s[NEstimators := Int(s[NEstimators].i + 50)], None))
            && (s[NEstimators].Float? ==> r == Continue(s[NEstimators := Float(s[NEstimators].f + 50.0)], None))
            && (s[NEstimators] == Null || s[NEstimators] == Bool(false) ==>
                  r == Continue(s[NEstimators := Int(250)], None))
            && (r.Continue? ==>
                  && r.state.Keys == s.Keys
                  && r.run.None?
                  && forall k :: k in s && k != NEstimators ==> r.state[k] == s[k])
  {
  }

  /**
   * `decrease_trees` subtracts 50 but never goes below 10 (nil and false count as 200; a float
   * that would drop below 10 becomes the integer 10) and touches no other key; it raises
   * for a string, `true` or a composite value.
   */
  lemma DecreaseTreesFloorsAtTen(s: State, params: Params)
    requires NEstimators in s
    ensures var r := Dispatch(s, DecreaseTrees, params);
            && (r.Halted? <==> s[NEstimators].Str? || s[NEstimators] == Bool(true) || s[NEstimators].Composite?)
            && (r.Continue? ==> AtLeastTen(r.state[NEstimators]))
            && (s[NEstimators].Int? ==>
                  && r.Continue?
                  && r.state[NEstimators] == Int(if s[NEstimators].i - 50 > 10 then s[NEstimators].i - 50 else 10))
            && (s[NEstimators].Float? ==>
                  && r.Continue?
                  && r.state[NEstimators]
                     == (if s[NEstimators].f - 50.0 < 10.0 then Int(10) else Float(s[NEstimators].f - 50.0)))
            && (s[NEstimators] == Null || s[NEstimators] == Bool(false) ==>
                  r == Continue(s[NEstimators := Int(150)], None))
            && (r.Continue? ==>
                  && r.state.Keys == s.Keys
                  && r.run.None?
                  && forall k :: k in s && k != NEstimators ==> r.state[k] == s[k])
  {
  }

  /** `train` and `eval` launch with exactly the four state values and change nothing; `save` does nothing. */
  lemma TrainEvalSaveKeepState(s: State, params: Params)
    requires s.Keys == StateKeys
    ensures Dispatch(s, Train, params) == Continue(s, Some(RunEnv(s[Lags], s[TrainFrac], s[NEstimators], s[MaxDepth])))
    ensures Dispatch(s, Eval, params) == Continue(s, Some(RunEnv(s[Lags], s[TrainFrac], s[NEstimators], s[MaxDepth])))
    ensures Dispatch(s, Save, params) == Continue(s, None)
    ensures Dispatch(s, Stop, params) == Halted(StopRequested)
  {
  }

  lemma {:induction false} SetParamsSnoc(s: State, params: seq<(string, Value)>, p: (string, Value))
    ensures SetParams(s, params + [p]) == Assign(SetParams(s, params), p)
    decreases |params|
  {
    if params == [] {
      assert [p][1..] == [];
    } else {
      assert (params + [p])[1..] == params[1..] + [p];
      SetParamsSnoc(Assign(s, params[0]), params[1..], p);
    }
  }

  /**
   * `set_param` never adds a key, and each existing key ends with the value of the last
   * parameter naming it, or keeps its value when no parameter names it.
   */
  lemma {:induction false} SetParamsLastWins(s: State, params: seq<(string, Value)>)
    ensures SetParams(s, params).Keys == s.Keys
    ensures forall k :: k in s ==> SetParams(s, params)[k] == LastValueFor(params, k, s[k])
    decreases |params|
  {
    if params != [] {
      var init, last := params[..|params| - 1], params[|params| - 1];
      assert params == init + [last];
      SetParamsLastWins(s, init);
      SetParamsSnoc(s, init, last);
    }
  }

  /**
   * `set_param` crashes exactly when `params` has no `each`; otherwise it goes on without a
   * launch, adds no key, and each existing key ends with the value of the last pair naming it.
   */
  lemma SetParamCrashesWithoutPairs(s: State, params: Params)
    ensures var r := Dispatch(s, SetParam, params);
            && (r.Halted? <==> params.None?)
            && (r.Halted? ==> r.halt == Crashed)
            && (params.Some? ==>
                  && r.run.None?
                  && r.state.Keys == s.Keys
                  && forall k :: k in s ==> r.state[k] == LastValueFor(params.value, k, s[k]))
  {
    if params.Some? {
      SetParamsLastWins(s, params.value);
    }
  }

  /** A dispatched action that goes on keeps the key set. */
  lemma DispatchKeepsKeys(s: State, a: Action, params: Params)
    requires NEstimators in s
    ensures Dispatch(s, a, params).Continue? ==> Dispatch(s, a, params).state.Keys == s.Keys
  {
    if a == SetParam && params.Some? {
      SetParamsLastWins(s, params.value);
    }
  }

  /**
   * The loop runs at most 6 iterations, at least one more than already done, and it ends at the
   * cap only after the 6th.
   */
  lemma {:induction false} LoopBounds(s: State, count: nat, runs: seq<RunEnv>, llm: (nat, State) -> Option<Command>)
    requires count < MaxLoops
    ensures var r := Loop(s, count, runs, llm);
            && count < r.iterations <= MaxLoops
            && (r.halt == CapReached ==> r.iterations == MaxLoops)
    decreases MaxLoops - count
  {
    match Iteration(s, count + 1, runs, llm)
    case Done(f) =>
    case Next(s', runs') => LoopBounds(s', count + 1, runs', llm);
  }

  /** The launches made so far stay in the record, and each iteration adds at most one. */
  lemma {:induction false} LoopKeepsRuns(s: State, count: nat, runs: seq<RunEnv>, llm: (nat, State) -> Option<Command>)
    requires count < MaxLoops
    ensures var r := Loop(s, count, runs, llm);
            && |runs| <= |r.runs| <= |runs| + (MaxLoops - count)
            && r.runs[..|runs|] == runs
    decreases MaxLoops - count
  {
    match Iteration(s, count + 1, runs, llm)
    case Done(f) =>
    case Next(s', runs') =>
      LoopKeepsRuns(s', count + 1, runs', llm);
      var r := Loop(s', count + 1, runs', llm);
      assert r.runs[..|runs|] == r.runs[..|runs'|][..|runs|];
  }


  /** One iteration keeps the state's key set, whether the loop goes on or ends. */
  lemma IterationKeepsKeys(s: State, n: nat, runs: seq<RunEnv>, llm: (nat, State) -> Option<Command>)
    requires NEstimators in s
    ensures var t := Iteration(s, n, runs, llm);
            (if t.Next? then t.state else t.final.state).Keys == s.Keys
  {
    var reply := llm(n, s);
    if reply.Some? && AllowedAction(reply.value.action).Some? {
      DispatchKeepsKeys(s, AllowedAction(reply.value.action).value, reply.value.params);
    }
  }

  /** The state keeps the four keys it starts with, whatever the replies. */
  lemma {:induction false} LoopKeepsKeys(s: State, count: nat, runs: seq<RunEnv>, llm: (nat, State) -> Option<Command>)
    requires count < MaxLoops
    requires s.Keys == StateKeys
    ensures Loop(s, count, runs, llm).state.Keys == StateKeys
    decreases MaxLoops - count
  {
    IterationKeepsKeys(s, count + 1, runs, llm);
    match Iteration(s, count + 1, runs, llm)
    case Done(f) =>
    case Next(s', runs') => LoopKeepsKeys(s', count + 1, runs', llm);
  }

  /**
   * An invalid reply, a disallowed action or `stop` ends the loop at once, with the state and the
   * launches unchanged; and when the loop ends for one of these reasons, the reply at the final
   * iteration, asked on the final state, is the one that stopped it.
   */
  lemma {:induction false} EarlyStopKeepsState(s: State, count: nat, runs: seq<RunEnv>, llm: (nat, State) -> Option<Command>)
    requires count < MaxLoops
    ensures var r := Loop(s, count, runs, llm);
            var last := llm(r.iterations, r.state);
            && (r.halt == InvalidJson ==> last.None?)
            && (r.halt.Disallowed? ==>
                  && last.Some?
                  && last.value.action == r.halt.action
                  && AllowedAction(r.halt.action).None?)
            && (r.halt == StopRequested ==> last.Some? && AllowedAction(last.value.action) == Some(Stop))
    ensures var reply := llm(count + 1, s);
            var r := Loop(s, count, runs, llm);
            && (reply.None? ==> r == Final(s, count + 1, runs, InvalidJson))
            && (reply.Some? && AllowedAction(reply.value.action).None? ==>
                  r == Final(s, count + 1, runs, Disallowed(reply.value.action)))
            && (reply.Some? && AllowedAction(reply.value.action) == Some(Stop) ==>
                  r == Final(s, count + 1, runs, StopRequested))
    decreases MaxLoops - count
  {
    match Iteration(s, count + 1, runs, llm)
    case Done(f) =>
    case Next(s', runs') => EarlyStopKeepsState(s', count + 1, runs', llm);
  }

}

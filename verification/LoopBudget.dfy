/** The loop budget of the policy gate and the orchestration graph around it. */
module LoopBudget {
  import opened Wrappers

  // ------------------------------------------------------------------ the budget

  /** An entry of the budgets dict: absent, something that validates as an integer, or anything else. */
  datatype Raw = Missing | Number(n: int) | Unusable

  datatype Halt = NoHalt | MaxLoopsExhausted | PlanMaxIterationsExhausted

  datatype Decision = Decision(allow: bool, currentLoop: nat, maxLoops: nat, halt: Halt)

  function Min(a: nat, b: nat): (r: nat) {
    if b < a then b else a
  }

  /** _coerce_non_negative_int */
  function Coerce(raw: Raw, fallback: nat): (n: nat) {
    if raw.Number? && raw.n >= 0 then raw.n else fallback
  }

  function Limit(configured: int): (n: nat)
    ensures n >= 1
  {
    if configured >= 1 then configured else 1
  }

  predicate Bounds(n: int, configured: int, plan: Option<int>, stored: Raw) {
    || n == (if configured >= 1 then configured else 1)
    || (plan.Some? && plan.value >= 1 && n == plan.value)
    || (stored.Number? && stored.n >= 1 && n == stored.n)
  }

  /** enforce_loop_budget: the least of the configured, the planned and the stored bound decides. */
  function Enforce(maxLoops: Raw, currentLoop: Raw, configured: int, plan: Option<int>): (r: Decision)
    ensures Bounds(r.maxLoops, configured, plan, maxLoops)
    ensures forall n :: Bounds(n, configured, plan, maxLoops) ==> r.maxLoops <= n
    ensures r.allow <==> (if currentLoop.Number? && currentLoop.n >= 0 then currentLoop.n else 0) < r.maxLoops
    ensures r.currentLoop == (if currentLoop.Number? && currentLoop.n >= 0 then currentLoop.n else 0)
                               + (if r.allow then 1 else 0)
    ensures r.halt == NoHalt <==> r.allow
    ensures r.halt == PlanMaxIterationsExhausted <==> !r.allow && plan == Some(r.maxLoops)
  {
    var safeMax := Limit(configured);
    var limited := plan.Some? && plan.value >= 1;
    var effective := if limited then Min(safeMax, plan.value) else safeMax;
    var given := Coerce(maxLoops, effective);
    var max := Min(if given < 1 then effective else given, effective);
    var current := Coerce(currentLoop, 0);
    if current >= max then
      Decision(false, current, max,
               if limited && max == plan.value then PlanMaxIterationsExhausted else MaxLoopsExhausted)
    else Decision(true, current + 1, max, NoHalt)
  }

  // ------------------------------------------------------------------- the graph

  datatype Node =
    Ingest | PolicyGate | ContextBuilder | Router | Planner | Coder | Executor | Verifier | Reporter | End

  datatype Target = ToRouter | ToPlanner | ToCoder | ToContextBuilder | Elsewhere

  /** What the nodes leave for the routers; `loops` counts the loops the gate has admitted. */
  datatype State = State(node: Node, maxLoops: Raw, currentLoop: Raw, halt: Halt, verified: bool, loops: nat)

  /** What the nodes of a round decide: the plan's limit, a context reset, a retry target and a verdict. */
  datatype Input = Input(plan: Option<int>, reset: bool, retry: Target, ok: bool)

  /** route_after_policy_gate */
  function AfterGate(halt: Halt, reset: bool, retry: Target): (n: Node) {
    if halt != NoHalt then Reporter
    else if reset then ContextBuilder
    else match retry
      case ToRouter => Router
      case ToPlanner => Planner
      case ToCoder => Coder
      case ToContextBuilder => ContextBuilder
      case Elsewhere => ContextBuilder
  }

  /** route_after_verifier */
  function AfterVerifier(ok: bool): (n: Node) {
    if ok then Reporter else PolicyGate
  }

  /** The policy_gate node, which stores the decision. */
  function Gated(s: State, configured: int, plan: Option<int>): (r: State) {
    var d := Enforce(s.maxLoops, s.currentLoop, configured, plan);
    s.(maxLoops := Number(d.maxLoops), currentLoop := Number(d.currentLoop), halt := d.halt,
       verified := s.verified && d.allow, loops := s.loops + (if d.allow then 1 else 0))
  }

  /** One node runs and the graph moves on. */
  function Step(s: State, configured: int, i: Input): (r: State) {
    match s.node
    case Ingest => s.(node := PolicyGate, verified := false)
    case PolicyGate =>
      var g := Gated(s, configured, i.plan);
      g.(node := AfterGate(g.halt, i.reset, i.retry))
    case ContextBuilder => s.(node := Router)
    case Router => s.(node := Planner)
    case Planner => s.(node := Coder)
    case Coder => s.(node := Executor)
    case Executor => s.(node := Verifier)
    case Verifier => s.(node := AfterVerifier(i.ok), verified := i.ok)
    case Reporter => s.(node := End)
    case End => s
  }

  function Run(s: State, configured: int, inputs: seq<Input>): (r: State) {
    if inputs == [] then s
    else Step(Run(s, configured, inputs[..|inputs| - 1]), configured, inputs[|inputs| - 1])
  }

  /** The edges of build_graph. */
  predicate Edge(a: Node, b: Node) {
    match a
    case Ingest => b == PolicyGate
    case PolicyGate => b in {ContextBuilder, Router, Planner, Coder, Reporter}
    case ContextBuilder => b == Router
    case Router => b == Planner
    case Planner => b == Coder
    case Coder => b == Executor
    case Executor => b == Verifier
    case Verifier => b in {Reporter, PolicyGate}
    case Reporter => b == End
    case End => false
  }

  /** Where the gate sends a run: to the reporter exactly if it refuses; otherwise a context reset goes before
      the retry target, and anything that is no target means the context builder. */
  lemma GateRoutes(s: State, configured: int, i: Input)
    requires s.node == PolicyGate
    ensures var r := Step(s, configured, i);
            var refused := r.loops == s.loops;
            && (r.node == Reporter <==> refused) && (refused <==> r.halt != NoHalt)
            && (r.node == Router <==> !refused && !i.reset && i.retry == ToRouter)
            && (r.node == Planner <==> !refused && !i.reset && i.retry == ToPlanner)
            && (r.node == Coder <==> !refused && !i.reset && i.retry == ToCoder)
            && (r.node == ContextBuilder <==> !refused && (i.reset || i.retry in {ToContextBuilder, Elsewhere}))
            && r.maxLoops.Number? && r.currentLoop.Number?
            && (refused <==> r.currentLoop.n >= r.maxLoops.n && r.currentLoop == Number(Coerce(s.currentLoop, 0)))
  {
  }

  /** The verifier sends a run to the reporter exactly if it agrees. */
  lemma VerifierRoutes(s: State, configured: int, i: Input)
    requires s.node == Verifier
    ensures var r := Step(s, configured, i);
            && (r.node == Reporter <==> i.ok) && (r.node == PolicyGate <==> !i.ok)
            && r.(node := s.node, verified := s.verified) == s
  {
  }

  // ------------------------------------------------------------------ termination

  /** The loops that the configuration still allows. */
  function Remaining(s: State, configured: int): (n: nat) {
    if Limit(configured) <= Coerce(s.currentLoop, 0) then 0 else Limit(configured) - Coerce(s.currentLoop, 0)
  }

  /** The longest way from a node to the end that admits no further loop. */
  function Distance(n: Node): (d: nat) {
    match n
    case Ingest => 3
    case PolicyGate => 2
    case ContextBuilder => 8
    case Router => 7
    case Planner => 6
    case Coder => 5
    case Executor => 4
    case Verifier => 3
    case Reporter => 1
    case End => 0
  }

  /** Along every edge the remaining loops go down, or stay while the distance goes down. */
  lemma MeasureDecreases(s: State, configured: int, i: Input)
    requires s.node != End
    ensures var r := Step(s, configured, i);
            && Remaining(r, configured) <= Remaining(s, configured)
            && (Remaining(r, configured) == Remaining(s, configured) ==> Distance(r.node) < Distance(s.node))
            && 7 * Remaining(r, configured) + Distance(r.node) < 7 * Remaining(s, configured) + Distance(s.node)
  {
    if s.node == PolicyGate {
      var d := Enforce(s.maxLoops, s.currentLoop, configured, i.plan);
      assert Bounds(Limit(configured), configured, i.plan, s.maxLoops);
    }
  }

  lemma {:induction false} MeasureOfRun(s: State, configured: int, inputs: seq<Input>)
    ensures var r := Run(s, configured, inputs);
            r.node == End || 7 * Remaining(r, configured) + Distance(r.node) + |inputs|
                <= 7 * Remaining(s, configured) + Distance(s.node)
  {
    if inputs != [] {
      var front := inputs[..|inputs| - 1];
      MeasureOfRun(s, configured, front);
      var t := Run(s, configured, front);
      if t.node != End { MeasureDecreases(t, configured, inputs[|inputs| - 1]); }
    }
  }

  /** Whatever the verdicts, retry targets, resets and plans, every run is over after at most
      7 * max(configured, 1) + 3 nodes. */
  lemma EveryRunEnds(s: State, configured: int, inputs: seq<Input>)
    requires s.node == Ingest && |inputs| >= 7 * Limit(configured) + 3
    ensures Run(s, configured, inputs).node == End
  {
    MeasureOfRun(s, configured, inputs);
  }

  function Repeat(i: Input, n: nat): (r: seq<Input>)
    ensures |r| == n && forall k :: 0 <= k < n ==> r[k] == i
  {
    seq(n, _ => i)
  }

  /** The input of a round that fails and starts over. */
  const FAIL := Input(None, false, ToContextBuilder, false)

  lemma Advance(s: State, configured: int, n: nat, t: State)
    requires Run(s, configured, Repeat(FAIL, n)) == t
    ensures Run(s, configured, Repeat(FAIL, n + 1)) == Step(t, configured, FAIL)
  {
    RunOneMore(s, configured, FAIL, n);
  }

  lemma FailingLap(s: State, configured: int)
    requires s.node == ContextBuilder
    ensures Run(s, configured, Repeat(FAIL, 6)) == s.(node := PolicyGate, verified := false)
  {
    assert Repeat(FAIL, 0) == [];
    Advance(s, configured, 0, s);
    Advance(s, configured, 1, s.(node := Router));
    Advance(s, configured, 2, s.(node := Planner));
    Advance(s, configured, 3, s.(node := Coder));
    Advance(s, configured, 4, s.(node := Executor));
    Advance(s, configured, 5, s.(node := Verifier));
  }

  lemma FailingGate(s: State, configured: int)
    requires s.node == PolicyGate && (s.maxLoops == Missing || s.maxLoops == Number(Limit(configured)))
    ensures var current := Coerce(s.currentLoop, 0);
            var r := Step(s, configured, FAIL);
            if current < Limit(configured) then
              r == State(ContextBuilder, Number(Limit(configured)), Number(current + 1), NoHalt,
                         s.verified, s.loops + 1)
            else r == State(Reporter, Number(Limit(configured)), Number(current), MaxLoopsExhausted, false, s.loops)
  {
    assert Bounds(Limit(configured), configured, None, s.maxLoops);
  }

  /** One round of a run whose verifier never agrees and that always goes back to the start. */
  lemma FailingRound(s: State, configured: int)
    requires s.node == PolicyGate && Coerce(s.currentLoop, 0) < Limit(configured)
    requires s.maxLoops == Missing || s.maxLoops == Number(Limit(configured))
    ensures Run(s, configured, Repeat(FAIL, 7))
              == State(PolicyGate, Number(Limit(configured)), Number(Coerce(s.currentLoop, 0) + 1), NoHalt, false,
                  s.loops + 1)
  {
    assert Repeat(FAIL, 0) == [];
    Advance(s, configured, 0, s);
    FailingGate(s, configured);
    FailingLap(Step(s, configured, FAIL), configured);
    RunRepeats(s, configured, FAIL, 1, 6);
  }

  lemma RunOneMore(s: State, configured: int, i: Input, n: nat)
    ensures Run(s, configured, Repeat(i, n + 1)) == Step(Run(s, configured, Repeat(i, n)), configured, i)
  {
    assert Repeat(i, n + 1)[..n] == Repeat(i, n);
  }

  lemma {:induction false} RunRepeats(s: State, configured: int, i: Input, m: nat, n: nat)
    ensures Run(s, configured, Repeat(i, m + n)) == Run(Run(s, configured, Repeat(i, m)), configured, Repeat(i, n))
    decreases n
  {
    if n == 0 {
      assert Repeat(i, 0) == [];
    } else {
      RunRepeats(s, configured, i, m, n - 1);
      RunOneMore(s, configured, i, m + n - 1);
      RunOneMore(Run(s, configured, Repeat(i, m)), configured, i, n - 1);
    }
  }

  lemma {:induction false} FailingRounds(s: State, configured: int, n: nat)
    requires s == State(PolicyGate, Missing, Missing, NoHalt, false, 0) && n <= Limit(configured)
    ensures Run(s, configured, Repeat(FAIL, 7 * n))
              == if n == 0 then s else State(PolicyGate, Number(Limit(configured)), Number(n), NoHalt, false, n)
  {
    if n > 0 {
      FailingRounds(s, configured, n - 1);
      RunRepeats(s, configured, FAIL, 7 * (n - 1), 7);
      FailingRound(Run(s, configured, Repeat(FAIL, 7 * (n - 1))), configured);
    } else {
      assert Repeat(FAIL, 0) == [];
    }
  }

  /** The bound is met: a fresh run that never succeeds uses every loop it may and stands at the reporter
      with exactly one node to go. */
  lemma LongestRun(configured: int)
    ensures Run(State(Ingest, Missing, Missing, NoHalt, false, 0), configured, Repeat(FAIL, 7 * Limit(configured) + 2))
              == State(Reporter, Number(Limit(configured)), Number(Limit(configured)), MaxLoopsExhausted, false,
                  Limit(configured))
  {
    var s, l := State(Ingest, Missing, Missing, NoHalt, false, 0), Limit(configured);
    var t := s.(node := PolicyGate);
    FirstNode(s, configured);
    FailingRounds(t, configured, l);
    var u := State(PolicyGate, Number(l), Number(l), NoHalt, false, l);
    FailingGate(u, configured);
    RunsOn(s, configured, 1, t, 7 * l, u);
    assert 1 + 7 * l + 1 == 7 * l + 2;
  }

  lemma FirstNode(s: State, configured: int)
    requires s.node == Ingest && !s.verified
    ensures Run(s, configured, Repeat(FAIL, 1)) == s.(node := PolicyGate)
  {
    assert Repeat(FAIL, 0) == [];
    Advance(s, configured, 0, s);
  }

  lemma RunsOn(s: State, configured: int, m: nat, t: State, n: nat, u: State)
    requires Run(s, configured, Repeat(FAIL, m)) == t && Run(t, configured, Repeat(FAIL, n)) == u
    ensures Run(s, configured, Repeat(FAIL, m + n + 1)) == Step(u, configured, FAIL)
  {
    RunRepeats(s, configured, FAIL, m, n);
    Advance(s, configured, m + n, u);
  }

  // ------------------------------------------------------------ the edges, exactly

  const FRESH_START := State(Ingest, Missing, Missing, NoHalt, false, 0)

  /** After these inputs a fresh run stands at a, and with one more it moves to b. */
  predicate Moves(configured: int, inputs: seq<Input>, i: Input, a: Node, b: Node) {
    var s := Run(FRESH_START, configured, inputs);
    s.node == a && Step(s, configured, i).node == b
  }

  /** The edges are exactly the moves: each move follows one, and each is taken by some run from the start. */
  lemma EdgesAreTheMoves(a: Node, b: Node)
    requires a != End
    ensures Edge(a, b) <==> exists configured, inputs, i :: Moves(configured, inputs, i, a, b)
  {
    if Edge(a, b) {
      var inputs, i := WayTo(a, b);
      assert Moves(1, inputs, i, a, b);
    }
  }

  /** With one loop allowed: failing inputs lead past every node to the reporter. */
  lemma FailingWay(n: nat)
    requires n <= 9
    ensures Run(FRESH_START, 1, Repeat(FAIL, n)) ==
              if n == 0 then FRESH_START
              else if n == 1 then FRESH_START.(node := PolicyGate)
              else if n == 9 then State(Reporter, Number(1), Number(1), MaxLoopsExhausted, false, 1)
              else State([ContextBuilder, Router, Planner, Coder, Executor, Verifier, PolicyGate][n - 2],
                         Number(1), Number(1), NoHalt, false, 1)
  {
    if n == 0 {
      assert Repeat(FAIL, 0) == [];
    } else {
      FailingWay(n - 1);
      var s := Run(FRESH_START, 1, Repeat(FAIL, n - 1));
      RunOneMore(FRESH_START, 1, FAIL, n - 1);
      if n == 2 || n == 9 { FailingGate(s, 1); }
    }
  }

  lemma WayTo(a: Node, b: Node) returns (inputs: seq<Input>, i: Input)
    requires Edge(a, b)
    ensures Moves(1, inputs, i, a, b)
  {
    var n := match a
      case Ingest => 0
      case PolicyGate => if b == Reporter then 8 else 1
      case ContextBuilder => 2
      case Router => 3
      case Planner => 4
      case Coder => 5
      case Executor => 6
      case Verifier => 7
      case _ => 9;
    var retry := match b
      case Router => ToRouter
      case Planner => ToPlanner
      case Coder => ToCoder
      case _ => ToContextBuilder;
    inputs, i := Repeat(FAIL, n), Input(None, false, retry, b == Reporter);
    FailingWay(n);
    var s := Run(FRESH_START, 1, inputs);
    if a == PolicyGate { assert Bounds(1, 1, None, s.maxLoops); }
  }

  // ---------------------------------------------------------- what a run keeps

  /** The loops admitted so far and the stored bound, against where the run began. */
  predicate WithinBudget(s: State, r: State, configured: int) {
    && s.loops <= r.loops
    && (r.loops == s.loops || r.loops - s.loops + Coerce(s.currentLoop, 0) <= Limit(configured))
    && (r.loops > s.loops ==> Coerce(r.currentLoop, 0) == Coerce(s.currentLoop, 0) + (r.loops - s.loops))
    && (r.loops == s.loops ==> Coerce(r.currentLoop, 0) == Coerce(s.currentLoop, 0))
    && (r.maxLoops == s.maxLoops || (r.maxLoops.Number? && 1 <= r.maxLoops.n <= Limit(configured)))
    && (s.maxLoops.Number? && s.maxLoops.n >= 1 ==> r.maxLoops.Number? && 1 <= r.maxLoops.n <= s.maxLoops.n)
  }

  /** The gate admits at most max(configured, 1) loops less those already counted, counts each of them,
      and the stored bound never rises, whatever the plans say on the way. */
  lemma {:induction false} LoopsWithinBudget(s: State, configured: int, inputs: seq<Input>)
    ensures WithinBudget(s, Run(s, configured, inputs), configured)
  {
    if inputs != [] {
      var front, i := inputs[..|inputs| - 1], inputs[|inputs| - 1];
      LoopsWithinBudget(s, configured, front);
      var t := Run(s, configured, front);
      if t.node == PolicyGate {
        assert Bounds(Limit(configured), configured, i.plan, t.maxLoops);
        if t.maxLoops.Number? && t.maxLoops.n >= 1 { assert Bounds(t.maxLoops.n, configured, i.plan, t.maxLoops); }
      }
    }
  }

  /** Why a run is at its end. */
  predicate Explained(s: State) {
    && (s.node in {Reporter, End} ==> (s.verified <==> s.halt == NoHalt))
    && (s.node in {PolicyGate, ContextBuilder, Router, Planner, Coder, Executor, Verifier} ==> !s.verified)
    && (s.node in {ContextBuilder, Router, Planner, Coder, Executor, Verifier} ==> s.halt == NoHalt)
  }

  /** A run that reaches the reporter was verified, or the gate has named the bound that stopped it;
      never both and never neither. */
  lemma {:induction false} ReporterExplains(s: State, configured: int, inputs: seq<Input>)
    requires s.node == Ingest
    ensures Explained(Run(s, configured, inputs))
  {
    if inputs != [] { ReporterExplains(s, configured, inputs[..|inputs| - 1]); }
  }
}

/** The adaptive concurrency budget of the node client: additive increase, multiplicative decrease over a semaphore. */
module RpcLimiter {
  import opened Numbers

  datatype Config = Config(min: nat, max: nat, growAfter: nat) {
    predicate Sane() { 1 <= min <= max && 1 <= growAfter }
  }

  /** The bounds as the constructor corrects them. */
  function Corrected(min: nat, max: nat, growAfter: nat): (c: Config)
    ensures c.Sane()
    ensures Config(min, max, growAfter).Sane() ==> c == Config(min, max, growAfter)
    ensures c.max <= Max(max, 1) && c.growAfter <= Max(growAfter, 1)
    ensures (max >= 1 ==> c.max == max) && (growAfter >= 1 ==> c.growAfter == growAfter)
    ensures (min == 0 ==> c.min == 1) && (min > c.max ==> c.min == c.max) && (1 <= min <= c.max ==> c.min == min)
  {
    Config(Clamp(min, 1, Max(max, 1)), Max(max, 1), Max(growAfter, 1))
  }

  /** Permits free in the semaphore and held by calls, the intended budget, the run of successes, and the permits that
      could not be taken back so far: forgetting takes only free ones. */
  datatype Budget = Budget(free: nat, held: nat, effective: nat, streak: nat, short: nat)

  datatype Op = Acquire | Release | OnSuccess | OnTransient

  predicate Ready(b: Budget, op: Op) {
    if op == Acquire then b.free > 0 else b.held > 0
  }

  /** How much a transient failure takes off the budget. */
  function Decrease(c: Config, b: Budget): nat {
    var next := Max(b.effective / 2, c.min);
    if next < b.effective then b.effective - next else 0
  }

  function After(c: Config, b: Budget, op: Op): Budget
    requires Ready(b, op)
  {
    match op
    case Acquire => b.(free := b.free - 1, held := b.held + 1)
    case Release => b.(free := b.free + 1, held := b.held - 1)
    case OnTransient =>
      var cut := Decrease(c, b);
      var taken := Min(b.free, cut);
      b.(streak := 0, free := b.free - taken, effective := b.effective - cut, short := b.short + cut - taken)
    case OnSuccess =>
      if b.effective >= c.max then b
      else if b.streak + 1 >= c.growAfter then b.(streak := 0, free := b.free + 1, effective := b.effective + 1)
      else b.(streak := b.streak + 1)
  }

  /** The limiter, its operations taken one at a time. */
  class AimdLimiter {
    const config: Config
    var free: nat
    var effective: nat
    var streak: nat
    ghost var held: nat
    ghost var short: nat

    ghost function View(): Budget
      reads this
    {
      Budget(free, held, effective, streak, short)
    }

    constructor (min: nat, start: nat, max: nat, growAfter: nat)
      ensures config == Corrected(min, max, growAfter)
      ensures View() == Fresh(config, start)
      ensures free == effective && streak == held == short == 0
      ensures (1 <= start <= config.max ==> effective == start)
      ensures (start == 0 ==> effective == 1) && (start > config.max ==> effective == config.max)
    {
      var most := Max(max, 1);
      var first := Clamp(start, 1, most);
      var permits := most;
      var reserve := most - first;
      if reserve > 0 {
        permits := permits - reserve;
      }
      config := Corrected(min, max, growAfter);
      free, effective, streak, held, short := permits, first, 0, 0, 0;
    }

    method OnTransient()
      requires held > 0
      modifies this
      ensures View() == After(config, old(View()), Op.OnTransient)
      ensures effective == Min(old(effective), Max(old(effective) / 2, config.min))
      ensures free == old(free) - Min(old(free), old(effective) - effective) && streak == 0
    {
      streak := 0;
      var cur := effective;
      var next := Max(cur / 2, config.min);
      if next < cur {
        var taken := Min(free, cur - next);
        free := free - taken;
        short := short + (cur - next - taken);
        effective := next;
      }
    }

    method OnSuccess()
      requires held > 0
      modifies this
      ensures View() == After(config, old(View()), Op.OnSuccess)
      ensures effective
           == old(effective) + (if old(effective) < config.max && old(streak) + 1 >= config.growAfter then 1 else 0)
      ensures free - old(free) == effective - old(effective)
    {
      var cur := effective;
      if cur >= config.max {
        return;
      }
      streak := streak + 1;
      if streak >= config.growAfter {
        streak := 0;
        free := free + 1;
        effective := cur + 1;
      }
    }

    method Acquire()
      requires free > 0
      modifies this
      ensures View() == After(config, old(View()), Op.Acquire)
    {
      free := free - 1;
      held := held + 1;
    }

    method Release()
      requires held > 0
      modifies this
      ensures View() == After(config, old(View()), Op.Release)
    {
      free := free + 1;
      held := held - 1;
    }
  }

  function Fresh(c: Config, start: nat): Budget
    requires c.Sane()
  {
    Budget(Clamp(start, 1, c.max), 0, Clamp(start, 1, c.max), 0, 0)
  }

  // ---- What a failure and a row of successes do ----

  /** A failure halves the budget, rounding down, but not below the minimum, and never raises it; of the free permits it
      takes as many as that, or all. */
  lemma TransientHalves(c: Config, b: Budget)
    requires b.held > 0
    ensures var a := After(c, b, OnTransient);
            && a.effective == Min(b.effective, Max(b.effective / 2, c.min))
            && a.free == b.free - Min(b.free, b.effective - a.effective)
            && a.held == b.held && a.streak == 0
  {
  }

  ghost function Successes(n: nat): seq<Op> {
    seq(n, _ => OnSuccess)
  }

  /** Too few successes in a row are only counted. */
  lemma {:induction false} SuccessesCount(c: Config, b: Budget, n: nat)
    requires b.held > 0 && b.effective < c.max && b.streak + n < c.growAfter
    ensures CanPerform(c, b, Successes(n)) && Perform(c, b, Successes(n)) == b.(streak := b.streak + n)
    decreases n
  {
    if n > 0 {
      assert Successes(n)[1..] == Successes(n - 1);
      SuccessesCount(c, After(c, b, OnSuccess), n - 1);
    }
  }

  /** Below the maximum, the threshold of successes in a row adds one permit to the budget and to the free ones, and
      counting starts again; at the maximum successes change nothing. */
  lemma {:induction false} SuccessesGrow(c: Config, b: Budget, n: nat)
    requires b.held > 0 && b.streak < c.growAfter && n == c.growAfter - b.streak
    ensures CanPerform(c, b, Successes(n))
    ensures Perform(c, b, Successes(n))
         == if b.effective < c.max then b.(free := b.free + 1, effective := b.effective + 1, streak := 0) else b
    decreases n
  {
    assert Successes(n)[1..] == Successes(n - 1);
    if b.effective >= c.max {
      Unmoved(c, b, n);
    } else if n > 1 {
      SuccessesGrow(c, After(c, b, OnSuccess), n - 1);
    } else {
      assert Successes(0) == [];
    }
  }

  lemma {:induction false} Unmoved(c: Config, b: Budget, n: nat)
    requires b.held > 0 && b.effective >= c.max
    ensures CanPerform(c, b, Successes(n)) && Perform(c, b, Successes(n)) == b
  {
    if n > 0 {
      assert Successes(n)[1..] == Successes(n - 1);
      Unmoved(c, b, n - 1);
    }
  }

  // ---- Runs ----

  ghost predicate CanPerform(c: Config, b: Budget, ops: seq<Op>)
    decreases |ops|
  {
    ops == [] || (Ready(b, ops[0]) && CanPerform(c, After(c, b, ops[0]), ops[1..]))
  }

  ghost function Perform(c: Config, b: Budget, ops: seq<Op>): Budget
    requires CanPerform(c, b, ops)
    decreases |ops|
  {
    if ops == [] then b else Perform(c, After(c, b, ops[0]), ops[1..])
  }

  /** Every transient failure found enough free permits to forget. */
  ghost predicate NeverShort(c: Config, b: Budget, ops: seq<Op>)
    requires CanPerform(c, b, ops)
    decreases |ops|
  {
    ops == [] || ((ops[0].OnTransient? ==> b.free >= Decrease(c, b)) && NeverShort(c, After(c, b, ops[0]), ops[1..]))
  }

  /** The budget stays within its bounds, the permits are the budget and what could not be taken back, and there is
      always one. */
  ghost predicate Sound(c: Config, floor: nat, b: Budget) {
    && floor <= b.effective <= c.max && 1 <= b.effective
    && b.free + b.held == b.effective + b.short
    && b.streak < c.growAfter
  }

  lemma {:induction false} RunsAreSound(c: Config, floor: nat, b: Budget, ops: seq<Op>)
    requires c.Sane() && Sound(c, floor, b) && floor <= c.min && CanPerform(c, b, ops)
    ensures Sound(c, floor, Perform(c, b, ops))
    ensures Perform(c, b, ops).short >= b.short
    ensures NeverShort(c, b, ops) <==> Perform(c, b, ops).short == b.short
    decreases |ops|
  {
    if ops != [] {
      RunsAreSound(c, floor, After(c, b, ops[0]), ops[1..]);
    }
  }

  /** Over every run from a new limiter: the budget is between the smaller of start and minimum and the maximum, the
      permits that exist are the budget plus the shortfalls, and there are no shortfalls exactly when every transient
      failure found enough free permits. */
  lemma EveryRunIsSound(c: Config, start: nat, ops: seq<Op>)
    requires c.Sane() && CanPerform(c, Fresh(c, start), ops)
    ensures var b := Perform(c, Fresh(c, start), ops);
            && Min(Clamp(start, 1, c.max), c.min) <= b.effective <= c.max
            && b.free + b.held == b.effective + b.short >= 1
            && (NeverShort(c, Fresh(c, start), ops) <==> b.short == 0)
  {
    RunsAreSound(c, Min(Clamp(start, 1, c.max), c.min), Fresh(c, start), ops);
  }
}

/** The same limiter with callers interleaved between the single reads and writes of its atomics. */
module LimiterRaces {
  import opened Numbers
  import opened RpcLimiter

  /** Where a caller stands. In every phase but `Idle` it holds a permit. */
  datatype Phase =
    | Idle
    | Calling
    | Failed
    | Cutting(cur: nat)
    | Growing(cur: nat)
    | Resetting(cur: nat)
    | Adding(cur: nat)
    | Storing(value: nat)
    | Leaving

  datatype State = State(free: nat, effective: nat, streak: nat, callers: seq<Phase>)

  datatype Outcome = Success | Transient | Rejected

  /** Caller `i` takes its next step; `outcome` matters only to one whose call returns. */
  predicate Enabled(s: State, i: nat) {
    i < |s.callers| && (s.callers[i].Idle? ==> s.free > 0)
  }

  function Target(c: Config, cur: nat): nat {
    Max(cur / 2, c.min)
  }

  function Next(c: Config, s: State, i: nat, outcome: Outcome): State
    requires Enabled(s, i)
  {
    match s.callers[i]
    case Idle => s.(free := s.free - 1, callers := s.callers[i := Calling])
    case Calling => (
      match outcome
      case Rejected => s.(callers := s.callers[i := Leaving])
      case Transient => s.(streak := 0, callers := s.callers[i := Failed])
      case Success => s.(callers := s.callers[i := if s.effective >= c.max then Leaving else Growing(s.effective)]))
    case Failed =>
      s.(callers := s.callers[i := if Target(c, s.effective) < s.effective then Cutting(s.effective) else Leaving])
    case Cutting(cur) =>
      var next := Target(c, cur);
      s.(free := s.free - Min(s.free, if next < cur then cur - next else 0), callers := s.callers[i := Storing(next)])
    case Growing(cur) =>
      var phase := if s.streak + 1 >= c.growAfter then Resetting(cur) else Leaving;
      s.(streak := s.streak + 1, callers := s.callers[i := phase])
    case Resetting(cur) => s.(streak := 0, callers := s.callers[i := Adding(cur)])
    case Adding(cur) => s.(free := s.free + 1, callers := s.callers[i := Storing(cur + 1)])
    case Storing(value) => s.(effective := value, callers := s.callers[i := Leaving])
    case Leaving => s.(free := s.free + 1, callers := s.callers[i := Idle])
  }

  ghost function Start(c: Config, start: nat, callers: nat): State {
    State(Clamp(start, 1, c.max), Clamp(start, 1, c.max), 0, seq(callers, _ => Idle))
  }

  /** A schedule: which caller steps, and how its call turns out. */
  type Schedule = seq<(nat, Outcome)>

  ghost predicate CanRun(c: Config, s: State, schedule: Schedule)
    decreases |schedule|
  {
    schedule == []
    || (Enabled(s, schedule[0].0) && CanRun(c, Next(c, s, schedule[0].0, schedule[0].1), schedule[1..]))
  }

  ghost function Run(c: Config, s: State, schedule: Schedule): State
    requires CanRun(c, s, schedule)
    decreases |schedule|
  {
    if schedule == [] then s else Run(c, Next(c, s, schedule[0].0, schedule[0].1), schedule[1..])
  }

  /** A permit exists: free, or held by a caller. */
  ghost predicate PermitExists(s: State) {
    s.free > 0 || exists i :: 0 <= i < |s.callers| && s.callers[i] != Idle
  }

  /** What a caller has read or will write is within the bounds. */
  ghost predicate InRange(c: Config, floor: nat, p: Phase) {
    match p
    case Cutting(cur) => floor <= cur <= c.max
    case Growing(cur) => floor <= cur < c.max
    case Resetting(cur) => floor <= cur < c.max
    case Adding(cur) => floor <= cur < c.max
    case Storing(value) => floor <= value <= c.max
    case _ => true
  }

  ghost predicate Inv(c: Config, floor: nat, s: State) {
    && PermitExists(s)
    && floor <= s.effective <= c.max
    && forall i | 0 <= i < |s.callers| :: InRange(c, floor, s.callers[i])
  }

  lemma StepKeepsRange(c: Config, floor: nat, s: State, i: nat, outcome: Outcome)
    requires c.Sane() && floor <= c.min && Enabled(s, i) && Inv(c, floor, s)
    ensures Inv(c, floor, Next(c, s, i, outcome))
  {
    hide PermitExists;
    assert InRange(c, floor, s.callers[i]);
    StepKeepsPermit(c, s, i, outcome);
  }

  /** A caller that forgets permits holds one itself. */
  lemma StepKeepsPermit(c: Config, s: State, i: nat, outcome: Outcome)
    requires Enabled(s, i) && PermitExists(s)
    ensures PermitExists(Next(c, s, i, outcome))
  {
    var s' := Next(c, s, i, outcome);
    if s.callers[i] != Leaving {
      assert s'.callers[i] != Idle;
    }
  }

  lemma {:induction false} RunKeepsInv(c: Config, floor: nat, s: State, schedule: Schedule)
    requires c.Sane() && floor <= c.min && Inv(c, floor, s) && CanRun(c, s, schedule)
    ensures Inv(c, floor, Run(c, s, schedule))
    decreases |schedule|
  {
    hide Inv, Next;
    if schedule != [] {
      StepKeepsRange(c, floor, s, schedule[0].0, schedule[0].1);
      RunKeepsInv(c, floor, Next(c, s, schedule[0].0, schedule[0].1), schedule[1..]);
    }
  }

  /** Under every interleaving of any number of callers a permit exists, so when no call is under way one can start,
      and the budget stays within its bounds. */
  lemma NeverWedged(c: Config, start: nat, callers: nat, schedule: Schedule)
    requires c.Sane() && CanRun(c, Start(c, start, callers), schedule)
    ensures var s := Run(c, Start(c, start, callers), schedule);
            && PermitExists(s)
            && ((forall i | 0 <= i < |s.callers| :: s.callers[i] == Idle) ==> s.free > 0)
            && Min(Clamp(start, 1, c.max), c.min) <= s.effective <= c.max
  {
    RunKeepsInv(c, Min(Clamp(start, 1, c.max), c.min), Start(c, start, callers), schedule);
  }

  /** Permits held by callers. */
  ghost function Held(callers: seq<Phase>): nat {
    if callers == [] then 0 else (if callers[0] == Idle then 0 else 1) + Held(callers[1..])
  }

  /** The two callers step in turn, `n` times each. */
  ghost function Rounds(n: nat): Schedule {
    if n == 0 then [] else [(0, Transient), (1, Transient)] + Rounds(n - 1)
  }

  /** Interleaved, the permits need not match the budget: two callers that read the same budget both halve it, and of
      eight permits two are left for a budget of four. */
  lemma RaceLosesPermits()
    ensures var c := Corrected(1, 8, 1);
            && CanRun(c, Start(c, 8, 2), Rounds(5))
            && var s := Run(c, Start(c, 8, 2), Rounds(5));
               s.free + Held(s.callers) == 2 && s.effective == 4
  {
    var c := Corrected(1, 8, 1);
    assert Start(c, 8, 2) == State(8, 8, 0, [Idle, Idle]);
    var called, failed := State(6, 8, 0, [Calling, Calling]), State(6, 8, 0, [Failed, Failed]);
    var cutting, storing := State(6, 8, 0, [Cutting(8), Cutting(8)]), State(0, 8, 0, [Storing(4), Storing(4)]);
    var end := State(0, 4, 0, [Leaving, Leaving]);
    assert CanRun(c, end, Rounds(0)) && Run(c, end, Rounds(0)) == end;
    hide CanRun, Run;
    Round(c, storing, end, 0);
    Round(c, cutting, storing, 1);
    Round(c, failed, cutting, 2);
    Round(c, called, failed, 3);
    Round(c, Start(c, 8, 2), called, 4);
    assert [Leaving, Leaving][1..] == [Leaving];
  }

  /** Both callers take one step, then the other rounds follow. */
  lemma Round(c: Config, s: State, s': State, n: nat)
    requires Enabled(s, 0) && Enabled(Next(c, s, 0, Transient), 1)
    requires s' == Next(c, Next(c, s, 0, Transient), 1, Transient) && CanRun(c, s', Rounds(n))
    ensures CanRun(c, s, Rounds(n + 1)) && Run(c, s, Rounds(n + 1)) == Run(c, s', Rounds(n))
  {
    assert Rounds(n + 1)[1..] == [(1, Transient)] + Rounds(n);
    assert Rounds(n + 1)[1..][1..] == Rounds(n);
  }

  // ---- When calls in flight stay within the maximum ----

  /** Calls under way: callers waiting for the node's answer. */
  ghost function InFlight(callers: seq<Phase>): nat {
    if callers == [] then 0 else (if callers[0] == Calling then 1 else 0) + InFlight(callers[1..])
  }

  ghost predicate Reaches(c: Config, s: State, t: State) {
    exists schedule :: CanRun(c, s, schedule) && Run(c, s, schedule) == t
  }

  lemma ReachesItself(c: Config, s: State)
    ensures Reaches(c, s, s)
  {
    assert CanRun(c, s, []) && Run(c, s, []) == s;
  }

  lemma {:induction false} RunFurther(c: Config, s: State, schedule: Schedule, i: nat, outcome: Outcome)
    requires CanRun(c, s, schedule) && Enabled(Run(c, s, schedule), i)
    ensures CanRun(c, s, schedule + [(i, outcome)])
    ensures Run(c, s, schedule + [(i, outcome)]) == Next(c, Run(c, s, schedule), i, outcome)
    decreases |schedule|
  {
    var longer := schedule + [(i, outcome)];
    if schedule == [] {
      assert longer[1..] == [];
    } else {
      assert longer[1..] == schedule[1..] + [(i, outcome)];
      RunFurther(c, Next(c, s, schedule[0].0, schedule[0].1), schedule[1..], i, outcome);
    }
  }

  /** One more step. */
  lemma ReachesNext(c: Config, s: State, t: State, i: nat, outcome: Outcome)
    requires Reaches(c, s, t) && Enabled(t, i)
    ensures Reaches(c, s, Next(c, t, i, outcome))
  {
    var schedule :| CanRun(c, s, schedule) && Run(c, s, schedule) == t;
    RunFurther(c, s, schedule, i, outcome);
  }

  // ---- One caller alone ----

  /** A whole call, one operation at a time. */
  ghost function AfterCall(c: Config, b: Budget, outcome: Outcome): Budget
    requires b.free > 0
  {
    var granted := After(c, b, Acquire);
    After(c, match outcome
             case Success => After(c, granted, OnSuccess)
             case Transient => After(c, granted, OnTransient)
             case Rejected => granted,
          Release)
  }

  ghost function Solo(i: nat, outcome: Outcome, n: nat): Schedule {
    seq(n, _ => (i, outcome))
  }

  lemma SoloStep(c: Config, s: State, i: nat, outcome: Outcome, n: nat)
    requires CanRun(c, s, Solo(i, outcome, n)) && Enabled(Run(c, s, Solo(i, outcome, n)), i)
    ensures CanRun(c, s, Solo(i, outcome, n + 1))
    ensures Run(c, s, Solo(i, outcome, n + 1)) == Next(c, Run(c, s, Solo(i, outcome, n)), i, outcome)
  {
    hide CanRun, Run;
    RunFurther(c, s, Solo(i, outcome, n), i, outcome);
    assert Solo(i, outcome, n + 1) == Solo(i, outcome, n) + [(i, outcome)];
  }

  /** The limiter shows what the operations one at a time come to. */
  ghost predicate Shows(s: State, b: Budget) {
    s.free == b.free && s.effective == b.effective && s.streak == b.streak
  }

  /** A caller that runs alone through a call, whatever the others have begun, leaves the limiter as the operations one
      at a time do. */
  lemma AloneIsSequential(c: Config, s: State, i: nat, outcome: Outcome, b: Budget) returns (n: nat)
    requires i < |s.callers| && s.callers[i] == Idle && s.free > 0 && Shows(s, b)
    ensures CanRun(c, s, Solo(i, outcome, n))
    ensures var t := Run(c, s, Solo(i, outcome, n)); Shows(t, AfterCall(c, b, outcome)) && t.callers == s.callers
  {
    assert Solo(i, outcome, 0) == [] && Run(c, s, []) == s;
    hide CanRun, Solo, Run, Next, AlongTheCall, StepsLeft;
    SoloStep(c, s, i, outcome, 0);
    SoloStep(c, s, i, outcome, 1);
    Answered(c, s, i, outcome, b);
    n := 2;
    while Run(c, s, Solo(i, outcome, n)).callers[i] != Idle
      invariant CanRun(c, s, Solo(i, outcome, n)) && |Run(c, s, Solo(i, outcome, n)).callers| == |s.callers|
      invariant AlongTheCall(c, s, Run(c, s, Solo(i, outcome, n)), i, outcome, b)
      decreases StepsLeft(Run(c, s, Solo(i, outcome, n)).callers[i])
    {
      AlongOn(c, s, Run(c, s, Solo(i, outcome, n)), i, outcome, b);
      SoloStep(c, s, i, outcome, n);
      n := n + 1;
    }
    AtTheEnd(c, s, Run(c, s, Solo(i, outcome, n)), i, outcome, b);
  }

  lemma Answered(c: Config, s: State, i: nat, outcome: Outcome, b: Budget)
    requires i < |s.callers| && s.callers[i] == Idle && s.free > 0 && Shows(s, b)
    ensures var called := Next(c, s, i, outcome);
      Enabled(called, i) && AlongTheCall(c, s, Next(c, called, i, outcome), i, outcome, b)
  {
  }

  lemma AlongOn(c: Config, s: State, t: State, i: nat, outcome: Outcome, b: Budget)
    requires i < |s.callers| && b.free > 0 && AlongTheCall(c, s, t, i, outcome, b) && t.callers[i] != Idle
    ensures Enabled(t, i)
    ensures var u := Next(c, t, i, outcome);
      AlongTheCall(c, s, u, i, outcome, b) && StepsLeft(u.callers[i]) < StepsLeft(t.callers[i])
  {
  }

  lemma AtTheEnd(c: Config, s: State, t: State, i: nat, outcome: Outcome, b: Budget)
    requires i < |s.callers| == |t.callers| && s.callers[i] == t.callers[i] == Idle && b.free > 0
    requires AlongTheCall(c, s, t, i, outcome, b)
    ensures Shows(t, AfterCall(c, b, outcome)) && t.callers == s.callers
  {
    assert t.callers[i := Idle] == t.callers && s.callers[i := Idle] == s.callers;
  }

  /** How far a call whose answer is in can still go. */
  function StepsLeft(p: Phase): nat {
    match p
    case Idle => 0
    case Leaving => 1
    case Storing(_) => 2
    case Cutting(_) => 3
    case Adding(_) => 3
    case Failed => 4
    case Resetting(_) => 4
    case Growing(_) => 5
    case Calling => 6
  }

  /** Where the limiter stands while a caller alone goes through the rest of its call. */
  ghost predicate AlongTheCall(c: Config, s: State, t: State, i: nat, outcome: Outcome, b: Budget)
    requires i < |s.callers| && b.free > 0
  {
    && |t.callers| == |s.callers| && t.callers[i := Idle] == s.callers[i := Idle]
    && var end := AfterCall(c, b, outcome);
    match t.callers[i]
    case Idle => Shows(t, end)
    case Leaving => t.free + 1 == end.free && t.effective == end.effective && t.streak == end.streak
    case Storing(value) => t.free + 1 == end.free && value == end.effective && t.streak == end.streak
    case Adding(cur) =>
      t.free + 2 == end.free && cur + 1 == end.effective && t.streak == end.streak && outcome == Success
    case Resetting(cur) => t.free + 2 == end.free && cur + 1 == end.effective && end.streak == 0 && outcome == Success
    case Growing(cur) =>
      t.free == b.free - 1 && t.effective == b.effective == cur < c.max && t.streak == b.streak && outcome == Success
    case Failed => t.free == b.free - 1 && t.effective == b.effective && t.streak == 0 && outcome == Transient
    case Cutting(cur) =>
      && t.free == b.free - 1 && t.effective == b.effective == cur && t.streak == 0 && outcome == Transient
      && Target(c, cur) < cur
    case Calling => false
  }

  /** A caller that stores its value and leaves gives its permit back. */
  lemma Stores(c: Config, s: State, t: State, i: nat)
    requires Reaches(c, s, t) && i < |t.callers| && t.callers[i].Storing?
    ensures Reaches(c, s, State(t.free + 1, t.callers[i].value, t.streak, t.callers[i := Idle]))
  {
    hide Reaches;
    ReachesNext(c, s, t, i, Success);
    var u := t.(effective := t.callers[i].value, callers := t.callers[i := Leaving]);
    ReachesNext(c, s, u, i, Success);
    assert u.callers[i := Idle] == t.callers[i := Idle];
  }

  /** A success that does not grow the budget yet. */
  lemma Succeeds(c: Config, s: State, t: State, i: nat)
    requires Reaches(c, s, t) && i < |t.callers| && t.callers[i] == Idle && t.free > 0 && t.effective < c.max
    requires t.streak + 1 < c.growAfter
    ensures Reaches(c, s, t.(streak := t.streak + 1))
  {
    hide Reaches;
    var e := t.effective;
    ReachesNext(c, s, t, i, Success);
    var called := t.(free := t.free - 1, callers := t.callers[i := Calling]);
    ReachesNext(c, s, called, i, Success);
    var growing := called.(callers := t.callers[i := Growing(e)]);
    assert called.callers[i := Growing(e)] == growing.callers;
    ReachesNext(c, s, growing, i, Success);
    var leaving := growing.(streak := t.streak + 1, callers := t.callers[i := Leaving]);
    assert growing.callers[i := Leaving] == leaving.callers;
    ReachesNext(c, s, leaving, i, Success);
    assert leaving.callers[i := Idle] == t.callers;
  }

  /** A success that grows the budget, up to the point where the caller has added a permit and has not stored the new
      budget. */
  lemma AddsPermit(c: Config, s: State, t: State, i: nat)
    requires Reaches(c, s, t) && i < |t.callers| && t.callers[i] == Idle && t.free > 0 && t.effective < c.max
    requires t.streak + 1 >= c.growAfter
    ensures Reaches(c, s, t.(streak := 0, callers := t.callers[i := Storing(t.effective + 1)]))
  {
    hide Reaches;
    var e := t.effective;
    ReachesNext(c, s, t, i, Success);
    var called := t.(free := t.free - 1, callers := t.callers[i := Calling]);
    ReachesNext(c, s, called, i, Success);
    var growing := called.(callers := t.callers[i := Growing(e)]);
    assert called.callers[i := Growing(e)] == growing.callers;
    ReachesNext(c, s, growing, i, Success);
    var resetting := growing.(streak := t.streak + 1, callers := t.callers[i := Resetting(e)]);
    assert growing.callers[i := Resetting(e)] == resetting.callers;
    ReachesNext(c, s, resetting, i, Success);
    var adding := resetting.(streak := 0, callers := t.callers[i := Adding(e)]);
    assert resetting.callers[i := Adding(e)] == adding.callers;
    ReachesNext(c, s, adding, i, Success);
    assert adding.callers[i := Storing(e + 1)] == t.callers[i := Storing(e + 1)];
  }

  /** Successes one after the other, up to one that adds a permit. */
  lemma {:induction false} GrowsHalfway(c: Config, s: State, t: State, i: nat)
    requires Reaches(c, s, t) && i < |t.callers| && t.callers[i] == Idle && t.free > 0 && t.effective < c.max
    ensures Reaches(c, s, t.(streak := 0, callers := t.callers[i := Storing(t.effective + 1)]))
    decreases c.growAfter - t.streak
  {
    hide Reaches;
    if t.streak + 1 < c.growAfter {
      Succeeds(c, s, t, i);
      GrowsHalfway(c, s, t.(streak := t.streak + 1), i);
    } else {
      AddsPermit(c, s, t, i);
    }
  }

  /** Successes one after the other grow budget and permits together. */
  lemma Grows(c: Config, s: State, t: State, i: nat)
    requires Reaches(c, s, t) && i < |t.callers| && t.callers[i] == Idle && t.free > 0 && t.effective < c.max
    ensures Reaches(c, s, t.(free := t.free + 1, effective := t.effective + 1, streak := 0))
  {
    hide Reaches;
    GrowsHalfway(c, s, t, i);
    var half := t.(streak := 0, callers := t.callers[i := Storing(t.effective + 1)]);
    Stores(c, s, half, i);
    assert half.callers[i := Idle] == t.callers;
  }

  lemma {:induction false} GrowsToMax(c: Config, s: State, t: State) returns (u: State)
    requires Reaches(c, s, t) && 0 < |t.callers| && t.callers[0] == Idle && t.free > 0 && t.effective <= c.max
    ensures Reaches(c, s, u) && u.effective == c.max && u.free == t.free + c.max - t.effective && u.callers == t.callers
    decreases c.max - t.effective
  {
    hide Reaches;
    if t.effective == c.max {
      u := t;
    } else {
      Grows(c, s, t, 0);
      u := GrowsToMax(c, s, t.(free := t.free + 1, effective := t.effective + 1, streak := 0));
    }
  }

  /** Two callers that read the same budget both add a permit, and the budget counts one. */
  lemma Races(c: Config, s: State, t: State)
    requires Reaches(c, s, t) && 2 <= |t.callers| && t.callers[0] == t.callers[1] == Idle
    requires t.free > 0 && t.effective < c.max
    ensures Reaches(c, s, t.(free := t.free + 2, effective := t.effective + 1, streak := 0))
  {
    hide Reaches;
    GrowsHalfway(c, s, t, 1);
    var half := t.(streak := 0, callers := t.callers[1 := Storing(t.effective + 1)]);
    Grows(c, s, half, 0);
    var both := half.(free := t.free + 1, effective := t.effective + 1);
    Stores(c, s, both, 1);
    assert both.callers[1 := Idle] == t.callers;
  }

  /** The first `k` of `n` callers are calling. */
  function Busy(n: nat, k: nat): (callers: seq<Phase>)
    ensures |callers| == n
  {
    seq(n, i => if i < k then Calling else Idle)
  }

  lemma {:induction false} BusyInFlight(n: nat, k: nat)
    requires k <= n
    ensures InFlight(Busy(n, k)) == k
  {
    if n > 0 {
      assert Busy(n, k)[1..] == Busy(n - 1, if k > 0 then k - 1 else 0);
      BusyInFlight(n - 1, if k > 0 then k - 1 else 0);
    }
  }

  lemma {:induction false} Fills(c: Config, s: State, t: State, k: nat, m: nat)
    requires Reaches(c, s, t) && t.callers == Busy(|t.callers|, k) && k <= m <= |t.callers| && m - k <= t.free
    ensures Reaches(c, s, t.(free := t.free - (m - k), callers := Busy(|t.callers|, m)))
    decreases m - k
  {
    hide Reaches;
    if k < m {
      ReachesNext(c, s, t, k, Success);
      var u := t.(free := t.free - 1, callers := Busy(|t.callers|, k + 1));
      assert t.callers[k := Calling] == u.callers;
      Fills(c, s, u, k + 1, m);
    }
  }

  /** Refused calls leave. */
  lemma {:induction false} Empties(c: Config, s: State, t: State, k: nat)
    requires Reaches(c, s, t) && t.callers == Busy(|t.callers|, k) && k <= |t.callers|
    ensures Reaches(c, s, t.(free := t.free + k, callers := Busy(|t.callers|, 0)))
    decreases k
  {
    hide Reaches;
    if k > 0 {
      var n := |t.callers|;
      ReachesNext(c, s, t, k - 1, Rejected);
      var leaving := t.(callers := t.callers[k - 1 := Leaving]);
      ReachesNext(c, s, leaving, k - 1, Rejected);
      assert leaving.callers[k - 1 := Idle] == Busy(n, k - 1);
      Empties(c, s, t.(free := t.free + 1, callers := Busy(n, k - 1)), k - 1);
    }
  }

  /** A failure while every permit is held halves the budget and takes no permit back. */
  lemma Fails(c: Config, s: State, t: State, k: nat)
    requires c.Sane() && Reaches(c, s, t) && t.free == 0 && t.callers == Busy(|t.callers|, k) && 0 < k <= |t.callers|
    requires Target(c, t.effective) < t.effective
    ensures Reaches(c, s, State(1, Target(c, t.effective), 0, Busy(|t.callers|, k - 1)))
  {
    hide Reaches;
    var e, i := t.effective, k - 1;
    ReachesNext(c, s, t, i, Transient);
    var failed := t.(streak := 0, callers := t.callers[i := Failed]);
    ReachesNext(c, s, failed, i, Transient);
    var cutting := failed.(callers := t.callers[i := Cutting(e)]);
    assert failed.callers[i := Cutting(e)] == cutting.callers;
    ReachesNext(c, s, cutting, i, Transient);
    var storing := cutting.(callers := t.callers[i := Storing(Target(c, e))]);
    assert cutting.callers[i := Storing(Target(c, e))] == storing.callers;
    Stores(c, s, storing, i);
    assert storing.callers[i := Idle] == Busy(|t.callers|, k - 1);
  }

  /** From a quiet limiter with more permits than its budget, calls in flight come to exceed the maximum. */
  lemma SurplusExceeds(c: Config, s: State, t: State) returns (u: State)
    requires Reaches(c, s, t) && t.callers == Busy(|t.callers|, 0) && c.max < |t.callers|
    requires t.effective < t.free && t.effective <= c.max
    ensures Reaches(c, s, u) && InFlight(u.callers) == c.max + 1
  {
    hide Reaches;
    var grown := GrowsToMax(c, s, t);
    Fills(c, s, grown, 0, c.max + 1);
    u := grown.(free := grown.free - (c.max + 1), callers := Busy(|t.callers|, c.max + 1));
    BusyInFlight(|t.callers|, c.max + 1);
  }

  /** Some schedule of enough callers exceeds the maximum: by a failure that finds every permit held, if the limiter
      starts at its maximum and can shrink; by two racing successes, if it starts below. */
  lemma ExceedsTheMaximum(c: Config, start: nat) returns (u: State)
    requires c.Sane() && !(c.min == c.max == Clamp(start, 1, c.max))
    ensures Reaches(c, Start(c, start, c.max + 1), u) && InFlight(u.callers) == c.max + 1
  {
    hide Reaches;
    var n := c.max + 1;
    var s := Start(c, start, n);
    ReachesItself(c, s);
    assert s.callers == Busy(n, 0);
    if s.effective < c.max {
      Races(c, s, s);
      u := SurplusExceeds(c, s, s.(free := s.free + 2, effective := s.effective + 1, streak := 0));
    } else {
      Fills(c, s, s, 0, c.max);
      var full := s.(free := 0, callers := Busy(n, c.max));
      Fails(c, s, full, c.max);
      var next := Target(c, c.max);
      var failed := State(1, next, 0, Busy(n, c.max - 1));
      Empties(c, s, failed, c.max - 1);
      u := SurplusExceeds(c, s, State(c.max, next, 0, Busy(n, 0)));
    }
  }

  // A budget that does not move.

  /** At its maximum, with so many permits, and no caller that will change either. */
  ghost predicate Fixed(c: Config, permits: nat, s: State) {
    && s.effective == c.max && s.free + Held(s.callers) == permits
    && forall i | 0 <= i < |s.callers| ::
         var p := s.callers[i]; p.Idle? || p.Calling? || (p.Failed? && c.min == c.max) || p.Leaving?
  }

  lemma {:induction false} HeldUpdate(callers: seq<Phase>, i: nat, p: Phase)
    requires i < |callers|
    ensures Held(callers[i := p]) + (if callers[i] == Idle then 0 else 1)
        == Held(callers) + (if p == Idle then 0 else 1)
  {
    if i > 0 {
      assert callers[i := p][1..] == callers[1..][i - 1 := p];
      HeldUpdate(callers[1..], i - 1, p);
    } else {
      assert callers[i := p][1..] == callers[1..];
    }
  }

  lemma {:induction false} InFlightIsHeld(callers: seq<Phase>)
    ensures InFlight(callers) <= Held(callers)
  {
    if callers != [] {
      InFlightIsHeld(callers[1..]);
    }
  }

  lemma {:induction false} NoneHeld(n: nat)
    ensures Held(seq(n, _ => Idle)) == 0
  {
    if n > 0 {
      assert seq(n, _ => Idle)[1..] == seq(n - 1, _ => Idle);
      NoneHeld(n - 1);
    }
  }

  lemma StepKeepsFixed(c: Config, permits: nat, s: State, i: nat, outcome: Outcome)
    requires c.Sane() && (c.min == c.max || outcome != Transient) && Fixed(c, permits, s) && Enabled(s, i)
    ensures Fixed(c, permits, Next(c, s, i, outcome))
  {
    hide Held;
    var t := Next(c, s, i, outcome);
    HeldUpdate(s.callers, i, t.callers[i]);
    assert t.callers == s.callers[i := t.callers[i]];
  }

  /** The schedule cannot shrink the budget. */
  ghost predicate NoDecrease(c: Config, schedule: Schedule) {
    c.min == c.max || forall k | 0 <= k < |schedule| :: schedule[k].1 != Transient
  }

  lemma {:induction false} RunKeepsFixed(c: Config, permits: nat, s: State, schedule: Schedule)
    requires c.Sane() && NoDecrease(c, schedule) && Fixed(c, permits, s) && CanRun(c, s, schedule)
    ensures Fixed(c, permits, Run(c, s, schedule))
    decreases |schedule|
  {
    hide Fixed, Next;
    if schedule != [] {
      StepKeepsFixed(c, permits, s, schedule[0].0, schedule[0].1);
      RunKeepsFixed(c, permits, Next(c, s, schedule[0].0, schedule[0].1), schedule[1..]);
    }
  }

  /** Calls in flight never exceed the maximum, for every number of callers and every interleaving of their single
      steps, exactly when minimum, start and maximum are all the same: when the budget never moves. */
  lemma MaximumHoldsExactly(c: Config, start: nat)
    requires c.Sane()
    ensures (forall callers: nat, schedule | CanRun(c, Start(c, start, callers), schedule) ::
               InFlight(Run(c, Start(c, start, callers), schedule).callers) <= c.max)
            <==> c.min == c.max == Clamp(start, 1, c.max)
  {
    hide CanRun, Run, InFlight;
    if c.min == c.max == Clamp(start, 1, c.max) {
      forall callers: nat, schedule | CanRun(c, Start(c, start, callers), schedule)
        ensures InFlight(Run(c, Start(c, start, callers), schedule).callers) <= c.max
      {
        NoneHeld(callers);
        RunKeepsFixed(c, c.max, Start(c, start, callers), schedule);
        InFlightIsHeld(Run(c, Start(c, start, callers), schedule).callers);
      }
    } else {
      var u := ExceedsTheMaximum(c, start);
      var schedule :| CanRun(c, Start(c, start, c.max + 1), schedule)
          && Run(c, Start(c, start, c.max + 1), schedule) == u;
      assert InFlight(Run(c, Start(c, start, c.max + 1), schedule).callers) == c.max + 1;
    }
  }

  // ---- When permits lost to a race come back ----

  /** No call is under way. */
  ghost predicate Quiet(s: State) {
    s.callers == Busy(|s.callers|, 0)
  }

  lemma {:induction false} QuietHoldsNone(n: nat)
    ensures Held(Busy(n, 0)) == 0
  {
    if n > 0 {
      assert Busy(n, 0)[1..] == Busy(n - 1, 0);
      QuietHoldsNone(n - 1);
    }
  }

  /** With the budget at its maximum successes add no permit: a loss stays until a failure shrinks the budget. */
  lemma LossStays(c: Config, s: State, schedule: Schedule)
    requires c.Sane() && Quiet(s) && s.effective == c.max && CanRun(c, s, schedule) && NoDecrease(c, schedule)
    ensures var t := Run(c, s, schedule); t.effective == c.max && t.free + Held(t.callers) == s.free
  {
    hide CanRun, Run, NoDecrease;
    QuietHoldsNone(|s.callers|);
    RunKeepsFixed(c, s.free, s, schedule);
  }

  /** A failure with every permit held shrinks the budget and keeps the permits. */
  lemma ShrinksTo(c: Config, s: State, t: State)
    requires c.Sane() && Reaches(c, s, t) && Quiet(t) && 0 < t.free <= |t.callers| && c.min < t.effective
    ensures Reaches(c, s, State(t.free, Target(c, t.effective), 0, t.callers))
  {
    hide Reaches;
    var n, k := |t.callers|, t.free;
    Fills(c, s, t, 0, k);
    Fails(c, s, t.(free := 0, callers := Busy(n, k)), k);
    Empties(c, s, State(1, Target(c, t.effective), 0, Busy(n, k - 1)), k - 1);
  }

  /** Some schedule makes up for lost permits: failures that find every permit held take the budget down to its minimum,
      and two racing successes add two permits for one. */
  lemma {:induction false} Regains(c: Config, s: State, t: State) returns (u: State)
    requires c.Sane() && c.min < c.max <= |t.callers| && Reaches(c, s, t) && Quiet(t)
    requires 0 < t.free && t.effective <= c.max && t.free <= c.max
    ensures Reaches(c, s, u) && Quiet(u) && u.effective <= u.free
    decreases c.max - t.free, t.effective
  {
    hide Reaches;
    if t.effective <= t.free {
      u := t;
    } else if c.min < t.effective {
      ShrinksTo(c, s, t);
      u := Regains(c, s, State(t.free, Target(c, t.effective), 0, t.callers));
    } else {
      Races(c, s, t);
      var more := t.(free := t.free + 2, effective := t.effective + 1, streak := 0);
      if more.effective <= more.free {
        u := more;
      } else {
        u := Regains(c, s, more);
      }
    }
  }

  ghost predicate MadeUpFor(c: Config, s: State) {
    exists u :: Reaches(c, s, u) && Quiet(u) && u.effective <= u.free
  }

  /** Permits missing from a quiet limiter at its maximum can come back exactly when the minimum is below it. */
  lemma RegainedExactly(c: Config, s: State)
    requires c.Sane() && Quiet(s) && c.max <= |s.callers| && s.effective == c.max && 0 < s.free < c.max
    ensures MadeUpFor(c, s) <==> c.min < c.max
  {
    if c.min < c.max {
      ReachesItself(c, s);
      hide Reaches;
      var u := Regains(c, s, s);
    } else {
      forall u | Reaches(c, s, u) && Quiet(u)
        ensures u.free < u.effective
      {
        var schedule :| CanRun(c, s, schedule) && Run(c, s, schedule) == u;
        LossStays(c, s, schedule);
        QuietHoldsNone(|u.callers|);
      }
    }
  }

  /** The service's own settings: minimum 2, start 8, maximum 16, and 17 calls in flight. */
  lemma DefaultsExceed() returns (u: State)
    ensures Reaches(Corrected(2, 16, 20), Start(Corrected(2, 16, 20), 8, 17), u) && InFlight(u.callers) == 17
  {
    hide Reaches, InFlight;
    u := ExceedsTheMaximum(Corrected(2, 16, 20), 8);
  }

  /** A minimum equal to the maximum does not help a limiter that starts below them: of two, three in flight. */
  lemma ThreeInFlightOfTwo() returns (u: State)
    ensures Reaches(Corrected(2, 2, 1), Start(Corrected(2, 2, 1), 1, 3), u) && InFlight(u.callers) == 3
  {
    hide Reaches, InFlight;
    u := ExceedsTheMaximum(Corrected(2, 2, 1), 1);
  }
}

/** What the settler pays gas for: the checks on a client's transaction, and what they mean for the settler's coin. */
module Sponsorship {
  import opened Numbers
  import opened Wrappers

  const SPONSOR_GAS_BUDGET_PER_COMMAND: nat := 100_000_000
  const SUI_FRAMEWORK_ADDRESS := "0x0000000000000000000000000000000000000000000000000000000000000002"

  const SPONSOR_TUNNEL_FNS: set<string> := {
    "create", "deposit_party_a", "deposit_party_b", "entry_deposit", "entry_create_and_share", "create_and_fund",
    "close_cooperative", "close_cooperative_with_root", "entry_close_cooperative", "entry_close_cooperative_with_root"
  }

  const COIN_BALANCE_FNS: set<string> := { "redeem_funds", "send_funds", "destroy_zero" }

  datatype Argument = Gas | Input(i: nat) | Result(command: nat) | NestedResult(command: nat, k: nat)

  datatype Target = Target(package: string, name: string, fn: string)

  datatype Command =
    | MoveCall(target: Target, typeArguments: seq<string>, arguments: seq<Argument>)
    | SplitCoins(coin: Argument, amounts: seq<Argument>)
    | MergeCoins(coin: Argument, coinsToMerge: seq<Argument>)
    | TransferObjects(objects: seq<Argument>, address: Argument)
    | MakeMoveVector(elements: seq<Argument>)
    | Publish
    | Upgrade
    | Unrecognized

  datatype WithdrawFrom = Sender | Sponsor

  datatype PtbInput = Pure | Object(id: nat) | FundsWithdrawal(amount: nat, source: WithdrawFrom, coinType: string)

  datatype Ptb = Ptb(inputs: seq<PtbInput>, commands: seq<Command>)

  datatype ExampleModule = ExampleModule(package: string, name: string, fns: set<string>)

  /** The tunnel package, the stake coin and, for a struct coin type, its package, and the example applications. */
  datatype Config = Config(package: string, coinType: string, coinPackage: Option<string>, examples: seq<ExampleModule>)

  datatype Refusal =
    | ReferencesGas
    | MoveCallRefused(target: Target)
    | UnexpectedCoinType
    | PublishesCode
    | UnrecognizedCommand
    | NotFromSender
    | UnexpectedWithdrawal

  // ---- The checks ----

  predicate CommandReferencesGas(c: Command) {
    match c
    case MoveCall(_, _, arguments) => Gas in arguments
    case SplitCoins(coin, amounts) => coin == Gas || Gas in amounts
    case MergeCoins(coin, coinsToMerge) => coin == Gas || Gas in coinsToMerge
    case TransferObjects(objects, address) => address == Gas || Gas in objects
    case MakeMoveVector(elements) => Gas in elements
    case _ => false
  }

  /** Calls that are generic over the coin: tunnel functions, coin balance operations, example applications. */
  predicate CoinCall(cfg: Config, t: Target) {
    || (t.package == cfg.package && t.name == "tunnel" && t.fn in SPONSOR_TUNNEL_FNS)
    || (t.package == SUI_FRAMEWORK_ADDRESS && t.name == "coin" && t.fn in COIN_BALANCE_FNS)
    || exists i :: 0 <= i < |cfg.examples| && t.package == cfg.examples[i].package && t.name == cfg.examples[i].name
                   && t.fn in cfg.examples[i].fns
  }

  predicate OtherCall(cfg: Config, t: Target) {
    || t == Target(SUI_FRAMEWORK_ADDRESS, "transfer", "public_share_object")
    || (cfg.coinPackage == Some(t.package) && t.name == "mtps" && t.fn == "mint_nft")
  }

  function CommandRefusal(cfg: Config, c: Command): Option<Refusal> {
    if CommandReferencesGas(c) then Some(ReferencesGas)
    else
      match c
      case MoveCall(target, typeArguments, _) =>
        if !CoinCall(cfg, target) && !OtherCall(cfg, target) then Some(MoveCallRefused(target))
        else if CoinCall(cfg, target) && typeArguments != [cfg.coinType] then Some(UnexpectedCoinType)
        else None
      case Publish => Some(PublishesCode)
      case Upgrade => Some(PublishesCode)
      case Unrecognized => Some(UnrecognizedCommand)
      case _ => None
  }

  function InputRefusal(cfg: Config, input: PtbInput): Option<Refusal> {
    match input
    case FundsWithdrawal(_, source, coinType) =>
      if source != Sender then Some(NotFromSender)
      else if coinType != cfg.coinType then Some(UnexpectedWithdrawal)
      else None
    case _ => None
  }

  /** The refusal of the first command that has one. */
  ghost function CommandsRefusal(cfg: Config, cs: seq<Command>): Option<Refusal> {
    if cs == [] then None
    else if CommandRefusal(cfg, cs[0]).Some? then CommandRefusal(cfg, cs[0])
    else CommandsRefusal(cfg, cs[1..])
  }

  ghost function InputsRefusal(cfg: Config, inputs: seq<PtbInput>): Option<Refusal> {
    if inputs == [] then None
    else if InputRefusal(cfg, inputs[0]).Some? then InputRefusal(cfg, inputs[0])
    else InputsRefusal(cfg, inputs[1..])
  }

  ghost function Refused(cfg: Config, ptb: Ptb): Option<Refusal> {
    if CommandsRefusal(cfg, ptb.commands).Some? then CommandsRefusal(cfg, ptb.commands)
    else InputsRefusal(cfg, ptb.inputs)
  }

  method ValidateSponsorable(cfg: Config, ptb: Ptb) returns (refusal: Option<Refusal>)
    ensures refusal == Refused(cfg, ptb)
  {
    hide CommandRefusal, InputRefusal;
    var i := 0;
    while i < |ptb.commands|
      invariant 0 <= i <= |ptb.commands|
      invariant CommandsRefusal(cfg, ptb.commands) == CommandsRefusal(cfg, ptb.commands[i..])
    {
      assert ptb.commands[i..][1..] == ptb.commands[i + 1..];
      refusal := CommandRefusal(cfg, ptb.commands[i]);
      if refusal.Some? {
        return;
      }
      i := i + 1;
    }
    i := 0;
    while i < |ptb.inputs|
      invariant 0 <= i <= |ptb.inputs|
      invariant InputsRefusal(cfg, ptb.inputs) == InputsRefusal(cfg, ptb.inputs[i..])
    {
      assert ptb.inputs[i..][1..] == ptb.inputs[i + 1..];
      refusal := InputRefusal(cfg, ptb.inputs[i]);
      if refusal.Some? {
        return;
      }
      i := i + 1;
    }
    refusal := None;
  }

  // ---- What is accepted ----

  /** The arguments of a command, whatever its shape. */
  function Arguments(c: Command): seq<Argument> {
    match c
    case MoveCall(_, _, arguments) => arguments
    case SplitCoins(coin, amounts) => [coin] + amounts
    case MergeCoins(coin, coinsToMerge) => [coin] + coinsToMerge
    case TransferObjects(objects, address) => objects + [address]
    case MakeMoveVector(elements) => elements
    case _ => []
  }

  /** Opening, funding and cooperatively closing a tunnel. */
  ghost function TunnelTargets(package: string): set<Target> {
    { Target(package, "tunnel", "create"), Target(package, "tunnel", "deposit_party_a"),
      Target(package, "tunnel", "deposit_party_b"), Target(package, "tunnel", "entry_deposit"),
      Target(package, "tunnel", "entry_create_and_share"), Target(package, "tunnel", "create_and_fund"),
      Target(package, "tunnel", "close_cooperative"), Target(package, "tunnel", "close_cooperative_with_root"),
      Target(package, "tunnel", "entry_close_cooperative"),
      Target(package, "tunnel", "entry_close_cooperative_with_root") }
  }

  /** Moving a coin in and out of an address balance. */
  ghost const COIN_TARGETS: set<Target> := {
    Target(SUI_FRAMEWORK_ADDRESS, "coin", "redeem_funds"), Target(SUI_FRAMEWORK_ADDRESS, "coin", "send_funds"),
    Target(SUI_FRAMEWORK_ADDRESS, "coin", "destroy_zero")
  }

  ghost predicate OfExample(cfg: Config, t: Target) {
    exists e :: e in cfg.examples && t.package == e.package && t.name == e.name && t.fn in e.fns
  }

  /** The targets that take exactly the stake coin, and those whose type arguments are not looked at. */
  ghost predicate OverTheCoin(cfg: Config, t: Target) {
    t in TunnelTargets(cfg.package) || t in COIN_TARGETS || OfExample(cfg, t)
  }

  ghost predicate OverAnything(cfg: Config, t: Target) {
    || t == Target(SUI_FRAMEWORK_ADDRESS, "transfer", "public_share_object")
    || (cfg.coinPackage.Some? && t == Target(cfg.coinPackage.value, "mtps", "mint_nft"))
  }

  lemma ListedCalls(cfg: Config, t: Target)
    ensures CoinCall(cfg, t) <==> OverTheCoin(cfg, t)
    ensures OtherCall(cfg, t) <==> OverAnything(cfg, t)
  {
    if i :| 0 <= i < |cfg.examples| && t.package == cfg.examples[i].package && t.name == cfg.examples[i].name
            && t.fn in cfg.examples[i].fns {
      assert cfg.examples[i] in cfg.examples;
    }
  }

  /** The policy: no code is published, no argument is the gas coin, every call is on the list, and the calls that are
      generic over a coin name exactly the stake coin. */
  ghost predicate Sponsorable(cfg: Config, c: Command) {
    && !c.Publish? && !c.Upgrade? && !c.Unrecognized?
    && Gas !in Arguments(c)
    && (c.MoveCall? ==>
          && (OverTheCoin(cfg, c.target) || OverAnything(cfg, c.target))
          && (OverTheCoin(cfg, c.target) ==> c.typeArguments == [cfg.coinType]))
  }

  ghost predicate OwnFunds(cfg: Config, input: PtbInput) {
    input.FundsWithdrawal? ==> input.source == Sender && input.coinType == cfg.coinType
  }

  lemma CommandAcceptedExactly(cfg: Config, c: Command)
    ensures CommandRefusal(cfg, c).None? <==> Sponsorable(cfg, c)
    ensures CommandReferencesGas(c) <==> Gas in Arguments(c)
  {
    if c.MoveCall? {
      ListedCalls(cfg, c.target);
    }
    hide CoinCall, OtherCall, OverTheCoin, OverAnything;
  }

  lemma {:induction false} CommandsAcceptedExactly(cfg: Config, cs: seq<Command>)
    ensures CommandsRefusal(cfg, cs).None? <==> forall i | 0 <= i < |cs| :: Sponsorable(cfg, cs[i])
  {
    hide Sponsorable, CommandRefusal;
    if cs != [] {
      CommandAcceptedExactly(cfg, cs[0]);
      CommandsAcceptedExactly(cfg, cs[1..]);
      assert forall i | 0 < i < |cs| :: cs[i] == cs[1..][i - 1];
    }
  }

  lemma {:induction false} InputsAcceptedExactly(cfg: Config, inputs: seq<PtbInput>)
    ensures InputsRefusal(cfg, inputs).None? <==> forall i | 0 <= i < |inputs| :: OwnFunds(cfg, inputs[i])
  {
    if inputs != [] {
      InputsAcceptedExactly(cfg, inputs[1..]);
      assert forall i | 0 < i < |inputs| :: inputs[i] == inputs[1..][i - 1];
    }
  }

  /** A transaction is accepted exactly when every command is within the policy and every withdrawal is the sender's,
      in the stake coin. */
  lemma AcceptedExactly(cfg: Config, ptb: Ptb)
    ensures Refused(cfg, ptb).None? <==>
            && (forall i | 0 <= i < |ptb.commands| :: Sponsorable(cfg, ptb.commands[i]))
            && (forall i | 0 <= i < |ptb.inputs| :: OwnFunds(cfg, ptb.inputs[i]))
  {
    hide Sponsorable, OwnFunds;
    CommandsAcceptedExactly(cfg, ptb.commands);
    InputsAcceptedExactly(cfg, ptb.inputs);
  }

  /** Acceptance distributes over concatenation, and a refusal of the whole is the first part's, or the second's. */
  lemma {:induction false} Distributes(cfg: Config, a: seq<Command>, b: seq<Command>)
    ensures CommandsRefusal(cfg, a + b)
         == if CommandsRefusal(cfg, a).Some? then CommandsRefusal(cfg, a) else CommandsRefusal(cfg, b)
  {
    hide CommandRefusal;
    if a == [] {
      assert a + b == b;
    } else {
      assert (a + b)[1..] == a[1..] + b;
      Distributes(cfg, a[1..], b);
    }
  }

  // ---- What commands do ----

  type Value = int

  /** Values while a transaction runs: the gas coin, the inputs, and what each command so far returned. */
  datatype Env = Env(gas: Value, inputs: seq<Value>, results: seq<seq<Value>>)

  /** What a command makes of its arguments: new values for them, and results. */
  datatype Effect = Effect(updated: seq<Value>, results: seq<Value>)

  /** Commands are arbitrary functions of their position and the values of their arguments. */
  type Meaning = (nat, seq<Value>) -> Effect

  function At(values: seq<Value>, k: nat): Value {
    if k < |values| then values[k] else 0
  }

  function Lookup(env: Env, a: Argument): Value {
    match a
    case Gas => env.gas
    case Input(i) => At(env.inputs, i)
    case Result(c) => if c < |env.results| then At(env.results[c], 0) else 0
    case NestedResult(c, k) => if c < |env.results| then At(env.results[c], k) else 0
  }

  function Set(values: seq<Value>, k: nat, v: Value): seq<Value> {
    if k < |values| then values[k := v] else values
  }

  function Update(env: Env, a: Argument, v: Value): Env {
    match a
    case Gas => env.(gas := v)
    case Input(i) => env.(inputs := Set(env.inputs, i, v))
    case Result(c) => if c < |env.results| then env.(results := env.results[c := Set(env.results[c], 0, v)]) else env
    case NestedResult(c, k) => if c < |env.results| then env.(results := env.results[c := Set(env.results[c], k, v)])
        else env
  }

  /** The place an argument names. */
  function PlaceOf(a: Argument): Argument {
    if a.Result? then NestedResult(a.command, 0) else a
  }

  ghost predicate Exists(env: Env, a: Argument) {
    match a
    case Gas => true
    case Input(i) => i < |env.inputs|
    case Result(c) => c < |env.results| && env.results[c] != []
    case NestedResult(c, k) => c < |env.results| && k < |env.results[c]|
  }

  /** A command that changes an argument changes that place and no other. */
  lemma UpdatesOnePlace(env: Env, a: Argument, v: Value, b: Argument)
    requires Exists(env, a)
    ensures Lookup(Update(env, a, v), b) == if PlaceOf(a) == PlaceOf(b) then v else Lookup(env, b)
  {
  }

  function Values(env: Env, args: seq<Argument>): (vs: seq<Value>)
    ensures |vs| == |args|
  {
    seq(|args|, i requires 0 <= i < |args| => Lookup(env, args[i]))
  }

  /** Arguments are passed by reference: the command may leave new values in them. */
  function UpdateAll(env: Env, args: seq<Argument>, vs: seq<Value>): Env
    decreases |args|
  {
    if args == [] || vs == [] then env else UpdateAll(Update(env, args[0], vs[0]), args[1..], vs[1..])
  }

  function Execute(env: Env, c: Command, meaning: Meaning): Env {
    var effect := meaning(|env.results|, Values(env, Arguments(c)));
    var after := UpdateAll(env, Arguments(c), effect.updated);
    after.(results := after.results + [effect.results])
  }

  function Run(env: Env, cs: seq<Command>, meaning: Meaning): Env
    decreases |cs|
  {
    if cs == [] then env else Run(Execute(env, cs[0], meaning), cs[1..], meaning)
  }

  /** Everything but the gas coin is the same. */
  ghost predicate SameButGas(a: Env, b: Env) {
    a.inputs == b.inputs && a.results == b.results
  }

  lemma {:induction false} UpdatesAgree(a: Env, b: Env, args: seq<Argument>, vs: seq<Value>)
    requires SameButGas(a, b) && Gas !in args
    ensures SameButGas(UpdateAll(a, args, vs), UpdateAll(b, args, vs))
    ensures UpdateAll(a, args, vs).gas == a.gas
    decreases |args|
  {
    if args != [] && vs != [] {
      assert args[0] in args;
      UpdatesAgree(Update(a, args[0], vs[0]), Update(b, args[0], vs[0]), args[1..], vs[1..]);
    }
  }

  lemma ExecutionsAgree(a: Env, b: Env, c: Command, meaning: Meaning)
    requires SameButGas(a, b) && Gas !in Arguments(c)
    ensures SameButGas(Execute(a, c, meaning), Execute(b, c, meaning))
    ensures Execute(a, c, meaning).gas == a.gas
  {
    hide UpdateAll, Arguments;
    assert forall i | 0 <= i < |Arguments(c)| :: Arguments(c)[i] != Gas;
    assert Values(a, Arguments(c)) == Values(b, Arguments(c));
    UpdatesAgree(a, b, Arguments(c), meaning(|a.results|, Values(a, Arguments(c))).updated);
  }

  ghost predicate NoGas(cs: seq<Command>) {
    forall i | 0 <= i < |cs| :: Gas !in Arguments(cs[i])
  }

  lemma {:induction false} RunsAgree(a: Env, b: Env, cs: seq<Command>, meaning: Meaning)
    requires SameButGas(a, b) && NoGas(cs)
    ensures SameButGas(Run(a, cs, meaning), Run(b, cs, meaning)) && Run(a, cs, meaning).gas == a.gas
    decreases |cs|
  {
    hide Arguments, Execute, SameButGas;
    if cs != [] {
      ExecutionsAgree(a, b, cs[0], meaning);
      RunsAgree(Execute(a, cs[0], meaning), Execute(b, cs[0], meaning), cs[1..], meaning);
    }
  }

  /** Whatever its commands do, an accepted transaction leaves the gas coin as it was, and nothing it computes depends
      on the gas coin: with another value in it, all other values come out the same. */
  lemma GasCoinIsSafe(cfg: Config, ptb: Ptb, inputs: seq<Value>, gas: Value, other: Value, meaning: Meaning)
    requires Refused(cfg, ptb).None?
    ensures var end := Run(Env(gas, inputs, []), ptb.commands, meaning);
            end.gas == gas && SameButGas(end, Run(Env(other, inputs, []), ptb.commands, meaning))
  {
    hide Arguments, Run, Refused;
    AcceptedExactly(cfg, ptb);
    RunsAgree(Env(gas, inputs, []), Env(other, inputs, []), ptb.commands, meaning);
  }

  /** The commands that hand their arguments on. */
  function HandOn(k: nat, vs: seq<Value>): Effect {
    Effect(vs, vs)
  }

  ghost predicate Independent(cs: seq<Command>) {
    forall inputs, gas, other, meaning ::
        SameButGas(Run(Env(gas, inputs, []), cs, meaning), Run(Env(other, inputs, []), cs, meaning))
  }

  lemma {:induction false} UpdateToSame(env: Env, all: seq<Argument>, from: nat)
    requires from <= |all|
    ensures UpdateAll(env, all[from..], Values(env, all)[from..]) == env
    decreases |all| - from
  {
    if from < |all| {
      var args, vs := all[from..], Values(env, all)[from..];
      assert args[1..] == all[from + 1..] && vs[1..] == Values(env, all)[from + 1..];
      UpdateSame(env, all[from]);
      UpdateToSame(env, all, from + 1);
    }
  }

  lemma UpdateSame(env: Env, a: Argument)
    ensures Update(env, a, Lookup(env, a)) == env
  {
    match a
    case Gas =>
    case Input(i) =>
      SetSame(env.inputs, i);
    case Result(c) =>
      if c < |env.results| {
        SetSame(env.results[c], 0);
        assert env.results[c := env.results[c]] == env.results;
      }
    case NestedResult(c, k) =>
      if c < |env.results| {
        SetSame(env.results[c], k);
        assert env.results[c := env.results[c]] == env.results;
      }
  }

  lemma SetSame(values: seq<Value>, k: nat)
    ensures Set(values, k, At(values, k)) == values
  {
  }

  lemma HandedOn(env: Env, c: Command)
    ensures Execute(env, c, HandOn) == env.(results := env.results + [Values(env, Arguments(c))])
  {
    hide Arguments, UpdateAll;
    var args := Arguments(c);
    UpdateToSame(env, args, 0);
    assert args[0..] == args && Values(env, args)[0..] == Values(env, args);
  }

  lemma {:induction false} ResultsStay(env: Env, cs: seq<Command>)
    ensures env.results <= Run(env, cs, HandOn).results
    decreases |cs|
  {
    hide Arguments, Execute;
    if cs != [] {
      HandedOn(env, cs[0]);
      ResultsStay(Execute(env, cs[0], HandOn), cs[1..]);
    }
  }

  /** From a command that takes the gas coin on, the results tell which coin it was. */
  lemma {:induction false} GasShows(a: Env, b: Env, cs: seq<Command>, i: nat)
    requires i < |cs| && Gas in Arguments(cs[i]) && a.gas != b.gas && |a.results| == |b.results|
    ensures !SameButGas(Run(a, cs, HandOn), Run(b, cs, HandOn))
    decreases |cs|
  {
    hide Arguments, Execute;
    HandedOn(a, cs[0]);
    HandedOn(b, cs[0]);
    var a', b' := Execute(a, cs[0], HandOn), Execute(b, cs[0], HandOn);
    if i > 0 {
      GasShows(a', b', cs[1..], i - 1);
    } else {
      var args, n := Arguments(cs[0]), |a.results|;
      var k :| 0 <= k < |args| && args[k] == Gas;
      assert a'.results[n][k] == a.gas && b'.results[n][k] == b.gas;
      ResultsStay(a', cs[1..]);
      ResultsStay(b', cs[1..]);
      assert Run(a, cs, HandOn).results[n] == a'.results[n] && Run(b, cs, HandOn).results[n] == b'.results[n];
    }
  }

  /** The guard is exact: commands are independent of the gas coin, for every meaning, exactly when none refers to it.
      */
  lemma IndependentExactly(cs: seq<Command>)
    ensures Independent(cs) <==> forall i | 0 <= i < |cs| :: !CommandReferencesGas(cs[i])
  {
    forall c
      ensures CommandReferencesGas(c) <==> Gas in Arguments(c)
    {
      CommandAcceptedExactly(Config("", "", None, []), c);
    }
    hide Arguments, CommandReferencesGas, Run;
    if NoGas(cs) {
      forall inputs, gas, other, meaning
        ensures SameButGas(Run(Env(gas, inputs, []), cs, meaning), Run(Env(other, inputs, []), cs, meaning))
      {
        RunsAgree(Env(gas, inputs, []), Env(other, inputs, []), cs, meaning);
      }
    } else {
      var i: nat :| i < |cs| && Gas in Arguments(cs[i]);
      GasShows(Env(0, [], []), Env(1, [], []), cs, i);
    }
  }

  // ---- Targets ----

  function TargetName(t: Target): string {
    t.package + "::" + t.name + "::" + t.fn
  }

  /** The call targets, each once, in the order they first appear. */
  ghost function Targets(cs: seq<Command>): seq<string> {
    if cs == [] then []
    else
      var before, c := Targets(cs[..|cs| - 1]), cs[|cs| - 1];
      if c.MoveCall? && TargetName(c.target) !in before then before + [TargetName(c.target)] else before
  }

  /** The command calls the target, written as package, module and function. */
  ghost predicate Calls(c: Command, target: string) {
    c.MoveCall? && target == c.target.package + "::" + c.target.name + "::" + c.target.fn
  }

  lemma CallsByName(c: Command, target: string)
    ensures Calls(c, target) <==> c.MoveCall? && TargetName(c.target) == target
  {
  }

  /** Exactly the targets called, without repeats. */
  lemma {:induction false} TargetsExact(cs: seq<Command>, target: string)
    ensures target in Targets(cs) <==> exists i :: 0 <= i < |cs| && Calls(cs[i], target)
    ensures forall i, j | 0 <= i < j < |Targets(cs)| :: Targets(cs)[i] != Targets(cs)[j]
  {
    hide TargetName;
    if cs != [] {
      var n := |cs| - 1;
      TargetsExact(cs[..n], target);
      assert forall i | 0 <= i < n :: cs[..n][i] == cs[i];
      CallsByName(cs[n], target);
      if Calls(cs[n], target) {
        assert target in Targets(cs);
      }
    }
  }

  /** In the order first seen: a target listed earlier was called before any call of one listed later. */
  lemma {:induction false} TargetsFirstSeen(cs: seq<Command>, i: nat, j: nat, k: nat) returns (first: nat)
    requires i < j < |Targets(cs)| && k < |cs| && Calls(cs[k], Targets(cs)[j])
    ensures first < k && Calls(cs[first], Targets(cs)[i])
  {
    hide TargetName;
    var n := |cs| - 1;
    var before := Targets(cs[..n]);
    assert forall m | 0 <= m < n :: cs[..n][m] == cs[m];
    if j < |before| && k < n {
      first := TargetsFirstSeen(cs[..n], i, j, k);
    } else {
      TargetsExact(cs[..n], before[i]);
      TargetsExact(cs[..n], Targets(cs)[j]);
      assert k == n;
      var m :| 0 <= m < |cs[..n]| && Calls(cs[..n][m], before[i]);
      first := m;
    }
  }

  /** The same checks, then the targets for the other provider. */
  method ValidateKind(cfg: Config, ptb: Ptb) returns (refusal: Option<Refusal>, targets: seq<string>)
    ensures refusal == Refused(cfg, ptb)
    ensures targets == if refusal.None? then Targets(ptb.commands) else []
  {
    hide Refused, TargetName;
    targets := [];
    refusal := ValidateSponsorable(cfg, ptb);
    if refusal.Some? {
      return;
    }
    for i := 0 to |ptb.commands|
      invariant targets == Targets(ptb.commands[..i])
    {
      assert ptb.commands[..i + 1][..i] == ptb.commands[..i];
      var c := ptb.commands[i];
      if c.MoveCall? {
        var target := TargetName(c.target);
        if target !in targets {
          targets := targets + [target];
        }
      }
    }
    assert ptb.commands[..|ptb.commands|] == ptb.commands;
  }

  // ---- The budget ----

  function Budget(commands: nat): nat {
    var scaled := if SPONSOR_GAS_BUDGET_PER_COMMAND * commands > U64_MAX then U64_MAX
                  else SPONSOR_GAS_BUDGET_PER_COMMAND * commands;
    if scaled < SPONSOR_GAS_BUDGET_PER_COMMAND then SPONSOR_GAS_BUDGET_PER_COMMAND else scaled
  }

  /** The budget never shrinks with size, fits 64 bits, and within the protocol's 1024 commands is additive: two
      transactions merged get what they would get apart. */
  lemma BudgetScales(a: nat, b: nat)
    ensures SPONSOR_GAS_BUDGET_PER_COMMAND <= Budget(a) <= Budget(a + b) <= U64_MAX
    ensures 1 <= a && 1 <= b && a + b <= 1024 ==> Budget(a + b) == Budget(a) + Budget(b)
  {
  }
}

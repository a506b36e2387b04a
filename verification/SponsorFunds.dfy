/** Whose funds a sponsored transaction can use: the sender's, and of the gas owner's nothing but gas. */
module SponsorFunds {
  import opened Numbers
  import opened Wrappers
  import opened Sponsorship

  const SUI := "0x0000000000000000000000000000000000000000000000000000000000000002::sui::SUI"

  datatype Kind = Programmable(ptb: Ptb) | OtherKind

  /** A client's kind wrapped in gas. The gas payment names no coin: gas is drawn from the owner's address balance. */
  datatype Transaction = Transaction(ptb: Ptb, sender: string, gasOwner: string, budget: nat)

  datatype Reason = NotProgrammable | Policy(refusal: Refusal)

  ghost function Sponsored(cfg: Config, kind: Kind, sender: string, gasOwner: string): Result<Transaction, Reason> {
    match kind
    case OtherKind => Err(NotProgrammable)
    case Programmable(ptb) =>
      if Refused(cfg, ptb).Some? then Err(Policy(Refused(cfg, ptb).value))
      else Ok(Transaction(ptb, sender, gasOwner, Budget(|ptb.commands|)))
  }

  method BuildSponsoredTx(cfg: Config, kind: Kind, sender: string, gasOwner: string)
    returns (r: Result<Transaction, Reason>)
    ensures r == Sponsored(cfg, kind, sender, gasOwner)
    ensures r.Ok? ==>
      && kind == Programmable(r.value.ptb) && r.value.sender == sender && r.value.gasOwner == gasOwner
      && r.value.budget == Budget(|r.value.ptb.commands|)
    ensures r == Err(NotProgrammable) <==> kind.OtherKind?
  {
    match kind {
      case OtherKind =>
        r := Err(NotProgrammable);
      case Programmable(ptb) =>
        var refusal := ValidateSponsorable(cfg, ptb);
        r := if refusal.Some? then Err(Policy(refusal.value))
             else Ok(Transaction(ptb, sender, gasOwner, Budget(|ptb.commands|)));
    }
  }

  // ---- What the chain does with it ----

  datatype Owner = Address(address: string) | Shared

  datatype Held = Held(owner: Owner, content: Value)

  /** Address balances by address and coin type, and objects by id. */
  datatype Ledger = Ledger(balance: (string, string) -> nat, objects: nat -> Held)

  /** What the commands do with what they get hold of: anything, to the values of their arguments, to the object inputs,
      and as deposits to any address. */
  datatype Doing = Doing(meaning: Meaning, deposits: (string, string) -> nat, after: nat -> Held)

  /** The address a withdrawal input draws on. */
  function Payer(input: PtbInput, sender: string, gasOwner: string): string
    requires input.FundsWithdrawal?
  {
    if input.source == Sender then sender else gasOwner
  }

  function Drawn(input: PtbInput, sender: string, gasOwner: string, who: string, coin: string): nat {
    if input.FundsWithdrawal? && Payer(input, sender, gasOwner) == who && input.coinType == coin then input.amount
    else 0
  }

  function Withdrawn(inputs: seq<PtbInput>, sender: string, gasOwner: string, who: string, coin: string): nat {
    if inputs == [] then 0
    else Drawn(inputs[0], sender, gasOwner, who, coin) + Withdrawn(inputs[1..], sender, gasOwner, who, coin)
  }

  function Taken(tx: Transaction, who: string, coin: string): nat {
    Withdrawn(tx.ptb.inputs, tx.sender, tx.gasOwner, who, coin)
  }

  /** The chain runs a transaction when the sender may use its objects and the balances cover withdrawals and gas. */
  ghost predicate Admissible(ledger: Ledger, tx: Transaction, charge: nat) {
    && charge <= tx.budget
    && (forall i | 0 <= i < |tx.ptb.inputs| && tx.ptb.inputs[i].Object? ::
          ledger.objects(tx.ptb.inputs[i].id).owner in {Address(tx.sender), Shared})
    && (forall who, coin :: Taken(tx, who, coin) + (if who == tx.gasOwner && coin == SUI then charge else 0)
                              <= ledger.balance(who, coin))
  }

  /** The value an input stands for. */
  function Worth(ledger: Ledger, input: PtbInput): Value {
    match input
    case Pure => 0
    case Object(id) => ledger.objects(id).content
    case FundsWithdrawal(amount, _, _) => amount
  }

  /** The gas argument stands for what the gas owner has left once withdrawals and gas are taken. */
  ghost function Start(ledger: Ledger, tx: Transaction, charge: nat): Env {
    Env(ledger.balance(tx.gasOwner, SUI) - Taken(tx, tx.gasOwner, SUI) - charge,
        seq(|tx.ptb.inputs|, i requires 0 <= i < |tx.ptb.inputs| => Worth(ledger, tx.ptb.inputs[i])), [])
  }

  ghost function End(ledger: Ledger, tx: Transaction, charge: nat, doing: Doing): Env {
    Run(Start(ledger, tx, charge), tx.ptb.commands, doing.meaning)
  }

  /** The balance after: what was not withdrawn, for the gas owner what the commands left of the gas argument, and
      deposits. */
  ghost function BalanceAfter(ledger: Ledger, tx: Transaction, charge: nat, doing: Doing, who: string,
                              coin: string): int {
    var kept := if who == tx.gasOwner && coin == SUI then End(ledger, tx, charge, doing).gas
                else ledger.balance(who, coin) - Taken(tx, who, coin);
    kept + doing.deposits(who, coin)
  }

  ghost predicate IsInput(tx: Transaction, id: nat) {
    Object(id) in tx.ptb.inputs
  }

  ghost function ObjectAfter(ledger: Ledger, tx: Transaction, doing: Doing, id: nat): Held {
    if IsInput(tx, id) then doing.after(id) else ledger.objects(id)
  }

  /** The gas owner loses gas and nothing else: no balance falls by more, and its objects stay as they are. */
  ghost predicate GasOnly(ledger: Ledger, tx: Transaction, charge: nat, doing: Doing) {
    && (forall coin :: ledger.balance(tx.gasOwner, coin) - (if coin == SUI then charge else 0)
                       <= BalanceAfter(ledger, tx, charge, doing, tx.gasOwner, coin))
    && (forall id: nat | ledger.objects(id).owner == Address(tx.gasOwner) ::
          ObjectAfter(ledger, tx, doing, id) == ledger.objects(id))
  }

  /** On every ledger that admits it, whatever its commands do. */
  ghost predicate Safe(tx: Transaction) {
    forall ledger, charge: nat, doing | Admissible(ledger, tx, charge) :: GasOnly(ledger, tx, charge, doing)
  }

  // ---- When the gas owner is safe ----

  /** No input of the transaction is the gas owner's. */
  ghost predicate NothingOfTheOwners(tx: Transaction) {
    forall i | 0 <= i < |tx.ptb.inputs| :: NotTheOwners(tx.ptb.inputs[i], tx.sender, tx.gasOwner)
  }

  predicate NotTheOwners(input: PtbInput, sender: string, gasOwner: string) {
    match input
    case Pure => true
    case Object(_) => sender != gasOwner
    case FundsWithdrawal(amount, source, _) => sender == gasOwner || source == Sponsor ==> amount == 0
  }

  lemma {:induction false} NothingWithdrawn(inputs: seq<PtbInput>, sender: string, gasOwner: string, coin: string)
    requires forall i | 0 <= i < |inputs| :: NotTheOwners(inputs[i], sender, gasOwner)
    ensures Withdrawn(inputs, sender, gasOwner, gasOwner, coin) == 0
  {
    if inputs != [] {
      NothingWithdrawn(inputs[1..], sender, gasOwner, coin);
    }
  }

  lemma SafeIf(tx: Transaction)
    requires NoGas(tx.ptb.commands) && NothingOfTheOwners(tx)
    ensures Safe(tx)
  {
    hide NoGas, Run, Withdrawn;
    forall ledger, charge: nat, doing | Admissible(ledger, tx, charge)
      ensures GasOnly(ledger, tx, charge, doing)
    {
      var start := Start(ledger, tx, charge);
      RunsAgree(start, start, tx.ptb.commands, doing.meaning);
      forall coin
        ensures Taken(tx, tx.gasOwner, coin) == 0
      {
        NothingWithdrawn(tx.ptb.inputs, tx.sender, tx.gasOwner, coin);
      }
    }
  }

  // ---- And only then ----

  /** Everything an input can draw. */
  function Total(inputs: seq<PtbInput>): nat {
    if inputs == [] then 0 else (if inputs[0].FundsWithdrawal? then inputs[0].amount else 0) + Total(inputs[1..])
  }

  lemma {:induction false} WithdrawnWithin(inputs: seq<PtbInput>, sender: string, gasOwner: string, who: string,
                                           coin: string)
    ensures Withdrawn(inputs, sender, gasOwner, who, coin) <= Total(inputs)
  {
    if inputs != [] {
      WithdrawnWithin(inputs[1..], sender, gasOwner, who, coin);
    }
  }

  lemma {:induction false} WithdrawnAtLeast(inputs: seq<PtbInput>, sender: string, gasOwner: string, who: string,
                                            coin: string, i: nat)
    requires i < |inputs|
    ensures Drawn(inputs[i], sender, gasOwner, who, coin) <= Withdrawn(inputs, sender, gasOwner, who, coin)
  {
    if i > 0 {
      WithdrawnAtLeast(inputs[1..], sender, gasOwner, who, coin, i - 1);
    }
  }

  /** A ledger that admits the transaction without charge: everyone can pay, and every object is the sender's. */
  ghost function Rich(tx: Transaction): Ledger {
    var enough := Total(tx.ptb.inputs) + 1;
    Ledger((who, coin) => enough, id => Held(Address(tx.sender), 0))
  }

  lemma RichAdmits(tx: Transaction)
    ensures Admissible(Rich(tx), tx, 0)
  {
    hide Withdrawn;
    forall who, coin
      ensures Taken(tx, who, coin) <= Total(tx.ptb.inputs)
    {
      WithdrawnWithin(tx.ptb.inputs, tx.sender, tx.gasOwner, who, coin);
    }
  }

  /** Commands that empty what they get, deposit nothing and share every object. */
  const EMPTYING: Doing := Doing(Empty, (who, coin) => 0, id => Held(Shared, 0))

  function Empty(k: nat, vs: seq<Value>): Effect {
    Effect(seq(|vs|, i => 0), [])
  }

  lemma {:induction false} GasEmptied(env: Env, args: seq<Argument>, vs: seq<Value>)
    requires |vs| == |args| && forall i | 0 <= i < |vs| :: vs[i] == 0
    ensures UpdateAll(env, args, vs).gas == if Gas in args then 0 else env.gas
    decreases |args|
  {
    if args != [] {
      var next := Update(env, args[0], vs[0]);
      GasEmptied(next, args[1..], vs[1..]);
      assert Gas in args <==> args[0] == Gas || Gas in args[1..];
    }
  }

  lemma {:induction false} RunEmpties(env: Env, cs: seq<Command>)
    ensures Run(env, cs, Empty).gas == if NoGas(cs) then env.gas else 0
    decreases |cs|
  {
    hide Arguments, UpdateAll;
    if cs != [] {
      var args := Arguments(cs[0]);
      GasEmptied(env, args, Empty(|env.results|, Values(env, args)).updated);
      RunEmpties(Execute(env, cs[0], Empty), cs[1..]);
      assert forall i | 0 < i < |cs| :: cs[i] == cs[1..][i - 1];
      assert NoGas(cs) <==> Gas !in args && NoGas(cs[1..]);
    }
  }

  lemma SafeOnlyIf(tx: Transaction)
    requires Safe(tx)
    ensures NoGas(tx.ptb.commands) && NothingOfTheOwners(tx)
  {
    hide NoGas, Run, Withdrawn, Safe;
    var ledger := Rich(tx);
    RichAdmits(tx);
    assert GasOnly(ledger, tx, 0, EMPTYING) by {
      SafeAt(tx, ledger);
    }
    var owner, start := tx.gasOwner, Start(ledger, tx, 0);
    RunEmpties(start, tx.ptb.commands);
    WithdrawnWithin(tx.ptb.inputs, tx.sender, owner, owner, SUI);
    assert BalanceAfter(ledger, tx, 0, EMPTYING, owner, SUI) == End(ledger, tx, 0, EMPTYING).gas;
    forall i | 0 <= i < |tx.ptb.inputs|
      ensures NotTheOwners(tx.ptb.inputs[i], tx.sender, owner)
    {
      InputNotTheOwners(tx, i);
    }
  }

  lemma SafeAt(tx: Transaction, ledger: Ledger)
    requires Safe(tx) && Admissible(ledger, tx, 0)
    ensures GasOnly(ledger, tx, 0, EMPTYING)
  {
    hide Admissible, GasOnly;
  }

  lemma InputNotTheOwners(tx: Transaction, i: nat)
    requires i < |tx.ptb.inputs| && GasOnly(Rich(tx), tx, 0, EMPTYING)
    requires End(Rich(tx), tx, 0, EMPTYING).gas == Start(Rich(tx), tx, 0).gas
    ensures NotTheOwners(tx.ptb.inputs[i], tx.sender, tx.gasOwner)
  {
    hide Run, Withdrawn, End;
    var ledger, owner, input := Rich(tx), tx.gasOwner, tx.ptb.inputs[i];
    match input
    case Pure =>
    case Object(id) =>
      assert IsInput(tx, id);
      assert ledger.objects(id).owner == Address(tx.sender);
      assert ObjectAfter(ledger, tx, EMPTYING, id).owner == Shared;
    case FundsWithdrawal(amount, _, coin) =>
      WithdrawnAtLeast(tx.ptb.inputs, tx.sender, owner, owner, coin, i);
      assert BalanceAfter(ledger, tx, 0, EMPTYING, owner, coin) == ledger.balance(owner, coin) - Taken(tx, owner, coin);
  }

  /** For every transaction: its gas owner loses gas only exactly when no command refers to the gas argument and no
      input is the gas owner's. */
  lemma SafeExactly(tx: Transaction)
    ensures Safe(tx) <==> NoGas(tx.ptb.commands) && NothingOfTheOwners(tx)
  {
    hide Safe, NoGas, NothingOfTheOwners;
    if NoGas(tx.ptb.commands) && NothingOfTheOwners(tx) {
      SafeIf(tx);
    }
    if Safe(tx) {
      SafeOnlyIf(tx);
    }
  }

  /** It withdraws nothing and takes no objects. */
  ghost predicate UsesNoFunds(ptb: Ptb) {
    forall i | 0 <= i < |ptb.inputs| ::
        ptb.inputs[i].Pure? || (ptb.inputs[i].FundsWithdrawal? && ptb.inputs[i].amount == 0)
  }

  /** For every sponsored transaction: the sponsor pays gas only, exactly when it is not the sender itself, or when the
      transaction uses nobody's funds. */
  lemma SponsoredIsSafeExactly(cfg: Config, kind: Kind, sender: string, gasOwner: string)
    requires Sponsored(cfg, kind, sender, gasOwner).Ok?
    ensures Safe(Sponsored(cfg, kind, sender, gasOwner).value) <==> sender != gasOwner || UsesNoFunds(kind.ptb)
  {
    hide Safe, Refused, Sponsorable;
    var ptb := kind.ptb;
    AcceptedExactly(cfg, ptb);
    assert NoGas(ptb.commands) by {
      AcceptedUseNoGas(cfg, ptb);
    }
    hide NoGas;
    SafeExactly(Sponsored(cfg, kind, sender, gasOwner).value);
    assert forall i | 0 <= i < |ptb.inputs| :: OwnFunds(cfg, ptb.inputs[i]);
  }

  /** What a sponsor that is not the sender pays is exactly the gas: beside deposits, its balance in SUI falls by the
      charge and no other balance changes. */
  lemma SponsorPaysExactlyGas(cfg: Config, kind: Kind, sender: string, gasOwner: string, ledger: Ledger, charge: nat,
                              doing: Doing, coin: string)
    requires Sponsored(cfg, kind, sender, gasOwner).Ok? && sender != gasOwner
    ensures var tx := Sponsored(cfg, kind, sender, gasOwner).value;
            BalanceAfter(ledger, tx, charge, doing, gasOwner, coin)
            == ledger.balance(gasOwner, coin) - (if coin == SUI then charge else 0) + doing.deposits(gasOwner, coin)
  {
    hide Refused, Run, Withdrawn, Sponsorable, NoGas;
    var tx, ptb := Sponsored(cfg, kind, sender, gasOwner).value, kind.ptb;
    AcceptedExactly(cfg, ptb);
    AcceptedUseNoGas(cfg, ptb);
    forall i | 0 <= i < |ptb.inputs|
      ensures NotTheOwners(ptb.inputs[i], sender, gasOwner)
    {
      assert OwnFunds(cfg, ptb.inputs[i]);
    }
    NothingWithdrawn(ptb.inputs, sender, gasOwner, coin);
    NothingWithdrawn(ptb.inputs, sender, gasOwner, SUI);
    RunsAgree(Start(ledger, tx, charge), Start(ledger, tx, charge), ptb.commands, doing.meaning);
  }

  lemma AcceptedUseNoGas(cfg: Config, ptb: Ptb)
    requires Refused(cfg, ptb).None?
    ensures NoGas(ptb.commands)
  {
    hide Refused, Arguments;
    AcceptedExactly(cfg, ptb);
  }

  /** The stake is never the sponsor's, for every kind a client may send, exactly when the sender is not the sponsor. */
  lemma NeverTheSponsorsExactly(cfg: Config, sender: string, gasOwner: string)
    ensures (forall kind | Sponsored(cfg, kind, sender, gasOwner).Ok? ::
        Safe(Sponsored(cfg, kind, sender, gasOwner).value))
            <==> sender != gasOwner
  {
    hide Safe, Sponsored;
    forall kind | Sponsored(cfg, kind, sender, gasOwner).Ok?
      ensures sender != gasOwner ==> Safe(Sponsored(cfg, kind, sender, gasOwner).value)
    {
      SponsoredIsSafeExactly(cfg, kind, sender, gasOwner);
    }
    SponsorAsSender(cfg, gasOwner);
  }

  /** A kind that withdraws one unit of the stake coin from its sender. */
  function Withdrawing(cfg: Config): Kind {
    Programmable(Ptb([FundsWithdrawal(1, Sender, cfg.coinType)], []))
  }

  /** With the sponsor as sender such a kind is sponsored, and draws on the sponsor for more than gas. */
  lemma SponsorAsSender(cfg: Config, sponsor: string)
    ensures Sponsored(cfg, Withdrawing(cfg), sponsor, sponsor).Ok?
    ensures !Safe(Sponsored(cfg, Withdrawing(cfg), sponsor, sponsor).value)
  {
    hide Safe;
    var ptb := Withdrawing(cfg).ptb;
    AcceptedExactly(cfg, ptb);
    assert !UsesNoFunds(ptb) by {
      assert ptb.inputs[0].FundsWithdrawal? && ptb.inputs[0].amount == 1;
    }
    SponsoredIsSafeExactly(cfg, Withdrawing(cfg), sponsor, sponsor);
  }
}

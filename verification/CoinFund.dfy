/** Funding from a master wallet: choosing coins, checking amounts, paying in chunks. */
module CoinFund {
  import opened Numbers
  import opened Wrappers

  const GAS_BUDGET: U64 := 200_000_000

  type U64 = n: nat | n <= U64_MAX

  datatype Coin = Coin(objectId: string, balance: U64)

  function Sum(coins: seq<Coin>): nat {
    if coins == [] then 0 else coins[0].balance + Sum(coins[1..])
  }

  ghost predicate Descending(s: seq<Coin>) {
    forall i, j | 0 <= i <= j < |s| :: s[i].balance >= s[j].balance
  }

  ghost predicate IsSortOf(s: seq<Coin>, coins: seq<Coin>) {
    Descending(s) && multiset(s) == multiset(coins)
  }

  // ---- Sorting ----

  method Insert(s: seq<Coin>, c: Coin) returns (r: seq<Coin>)
    requires Descending(s)
    ensures IsSortOf(r, s + [c])
  {
    hide Descending;
    var i := |s|;
    while i > 0 && s[i - 1].balance < c.balance
      invariant 0 <= i <= |s| && forall j | i <= j < |s| :: s[j].balance < c.balance
    {
      i := i - 1;
    }
    r := s[..i] + [c] + s[i..];
    InsertedSorted(s, c, i);
    InsertedSame(s, c, i);
  }

  lemma InsertedSorted(s: seq<Coin>, c: Coin, i: nat)
    requires Descending(s) && i <= |s| && (i > 0 ==> s[i - 1].balance >= c.balance)
    requires forall j | i <= j < |s| :: s[j].balance < c.balance
    ensures Descending(s[..i] + [c] + s[i..])
  {
    var r := s[..i] + [c] + s[i..];
    forall a, b | 0 <= a <= b < |r|
      ensures r[a].balance >= r[b].balance
    {
      assert r[a] == if a < i then s[a] else if a == i then c else s[a - 1];
      assert r[b] == if b < i then s[b] else if b == i then c else s[b - 1];
    }
  }

  lemma InsertedSame(s: seq<Coin>, c: Coin, i: nat)
    requires i <= |s|
    ensures multiset(s[..i] + [c] + s[i..]) == multiset(s + [c])
  {
    assert s == s[..i] + s[i..];
  }

  method SortByBalance(coins: seq<Coin>) returns (s: seq<Coin>)
    ensures IsSortOf(s, coins)
  {
    s := [];
    for i := 0 to |coins|
      invariant IsSortOf(s, coins[..i])
    {
      s := Insert(s, coins[i]);
      assert coins[..i + 1] == coins[..i] + [coins[i]];
    }
    assert coins[..|coins|] == coins;
  }

  // ---- Selection ----

  /** Take coins until the amount is met; give up when they run out or the running sum no longer fits. */
  function Greedy(s: seq<Coin>, amount: U64, sum: nat): Option<seq<Coin>>
    decreases |s|
  {
    if sum >= amount then Some([])
    else if s == [] || sum + s[0].balance > U64_MAX then None
    else Prefixed([s[0]], Greedy(s[1..], amount, sum + s[0].balance))
  }

  function Prefixed(front: seq<Coin>, r: Option<seq<Coin>>): Option<seq<Coin>> {
    if r.None? then None else Some(front + r.value)
  }

  lemma PrefixedMore(front: seq<Coin>, c: Coin, r: Option<seq<Coin>>)
    ensures Prefixed([], r) == r && Prefixed(front, Prefixed([c], r)) == Prefixed(front + [c], r)
  {
    if r.Some? {
      assert [] + r.value == r.value && front + ([c] + r.value) == front + [c] + r.value;
    }
  }

  method SelectCoins(coins: seq<Coin>, amount: U64) returns (r: Option<seq<Coin>>, ghost sorted: seq<Coin>)
    ensures IsSortOf(sorted, coins) && r == Greedy(sorted, amount, 0)
  {
    var s := SortByBalance(coins);
    sorted := s;
    hide IsSortOf;
    var selected := [];
    var sum: nat := 0;
    var i := 0;
    assert s[0..] == s;
    PrefixedMore([], Coin("", 0), Greedy(s, amount, 0));
    while i < |s| && sum < amount
      invariant 0 <= i <= |s| && selected == s[..i]
      invariant Greedy(s, amount, 0) == Prefixed(selected, Greedy(s[i..], amount, sum))
    {
      assert s[i..] != [] && s[i..][0] == s[i] && s[i..][1..] == s[i + 1..];
      if sum + s[i].balance > U64_MAX {
        return None, sorted;
      }
      PrefixedMore(selected, s[i], Greedy(s[i + 1..], amount, sum + s[i].balance));
      sum := sum + s[i].balance;
      selected := selected + [s[i]];
      i := i + 1;
    }
    assert selected + [] == selected;
    r := if sum >= amount then Some(selected) else None;
  }

  // ---- What a selection is ----

  lemma {:induction false} SumSplit(a: seq<Coin>, b: seq<Coin>)
    ensures Sum(a + b) == Sum(a) + Sum(b)
  {
    if a == [] {
      assert a + b == b;
    } else {
      assert (a + b)[1..] == a[1..] + b;
      SumSplit(a[1..], b);
    }
  }

  /** A selection is a shortest prefix that meets the amount: without its last coin it is short. */
  lemma {:induction false} GreedyIsPrefix(s: seq<Coin>, amount: U64, sum: nat)
    requires Greedy(s, amount, sum).Some?
    ensures var g := Greedy(s, amount, sum).value;
            && g <= s
            && sum + Sum(g) >= amount
            && (sum <= U64_MAX ==> sum + Sum(g) <= U64_MAX)
            && (g != [] ==> sum + Sum(g[..|g| - 1]) < amount)
  {
    if sum < amount {
      var rest := Greedy(s[1..], amount, sum + s[0].balance).value;
      GreedyIsPrefix(s[1..], amount, sum + s[0].balance);
      var g := [s[0]] + rest;
      assert g[1..] == rest;
      if rest == [] {
        assert g[..0] == [];
      } else {
        assert g[..|g| - 1][1..] == rest[..|rest| - 1];
      }
    }
  }

  /** Moving the window one coin down a descending sequence loses. */
  lemma {:induction false} ShiftLoses(s: seq<Coin>, k: nat)
    requires Descending(s) && k < |s|
    ensures Sum(s[1..][..k]) <= Sum(s[..k])
  {
    if k > 0 {
      assert s[1..][..k][1..] == s[1..][1..][..k - 1];
      assert s[..k][1..] == s[1..][..k - 1];
      ShiftLoses(s[1..], k - 1);
    }
  }

  /** One coin taken out. */
  lemma Without(p: seq<Coin>, i: nat) returns (others: seq<Coin>)
    requires i < |p|
    ensures |others| == |p| - 1
    ensures multiset(p) == multiset(others) + multiset{p[i]}
    ensures Sum(p) == p[i].balance + Sum(others)
  {
    others := p[..i] + p[i + 1..];
    var tail := [p[i]] + p[i + 1..];
    assert p == p[..i] + tail;
    SumSplit(p[..i], tail);
    assert tail[1..] == p[i + 1..];
    SumSplit(p[..i], p[i + 1..]);
  }

  lemma HeadOf(s: seq<Coin>, k: nat)
    requires k < |s|
    ensures Sum(s[..k + 1]) == s[0].balance + Sum(s[1..][..k])
  {
    assert s[..k + 1][1..] == s[1..][..k];
  }

  lemma TakeBoth(a: multiset<Coin>, b: multiset<Coin>, x: Coin)
    requires a + multiset{x} <= b + multiset{x}
    ensures a <= b
  {
    forall y
      ensures a[y] <= b[y]
    {
      assert (a + multiset{x})[y] <= (b + multiset{x})[y];
    }
  }

  lemma NotTaken(a: multiset<Coin>, b: multiset<Coin>, x: Coin)
    requires a <= b + multiset{x} && x !in a
    ensures a <= b
  {
    forall y
      ensures a[y] <= b[y]
    {
      assert a[y] <= (b + multiset{x})[y];
    }
  }

  lemma HeadAside(s: seq<Coin>)
    requires s != []
    ensures multiset(s) == multiset(s[1..]) + multiset{s[0]}
    ensures Descending(s) ==> Descending(s[1..])
  {
    assert s == [s[0]] + s[1..];
  }

  /** The first k coins of a descending sequence are worth at least as much as any k of its coins. */
  lemma {:induction false} FirstAreGreatest(s: seq<Coin>, p: seq<Coin>)
    requires Descending(s) && multiset(p) <= multiset(s)
    ensures |p| <= |s| && Sum(p) <= Sum(s[..|p|])
    decreases |s|
  {
    hide Sum, Descending;
    if p == [] {
      assert s[..0] == p;
    } else {
      assert p[0] in multiset(s);
      var rest := s[1..];
      HeadAside(s);
      if s[0] in p {
        var i: nat :| i < |p| && p[i] == s[0];
        var others := Without(p, i);
        TakeBoth(multiset(others), multiset(rest), s[0]);
        FirstAreGreatest(rest, others);
        HeadOf(s, |p| - 1);
      } else {
        NotTaken(multiset(p), multiset(rest), s[0]);
        FirstAreGreatest(rest, p);
        ShiftLoses(s, |p|);
      }
    }
  }

  lemma {:induction false} PrefixGrows(s: seq<Coin>, j: nat, k: nat)
    requires j <= k <= |s|
    ensures Sum(s[..j]) <= Sum(s[..k])
  {
    assert s[..k] == s[..j] + s[j..k];
    SumSplit(s[..j], s[j..k]);
  }

  /** A selection covers the amount with coins of the wallet, and no set of its coins that does has fewer. */
  lemma FewestCoins(coins: seq<Coin>, s: seq<Coin>, amount: U64, p: seq<Coin>)
    requires IsSortOf(s, coins) && Greedy(s, amount, 0).Some?
    ensures var g := Greedy(s, amount, 0).value;
            && Sum(g) >= amount
            && multiset(g) <= multiset(coins)
            && (multiset(p) <= multiset(coins) && Sum(p) >= amount ==> |g| <= |p|)
  {
    hide Greedy, Sum, Descending;
    GreedyIsPrefix(s, amount, 0);
    var g := Greedy(s, amount, 0).value;
    assert s == g + s[|g|..];
    if multiset(p) <= multiset(coins) {
      FirstAreGreatest(s, p);
      if |p| < |g| {
        assert g[..|g| - 1] == s[..|g| - 1];
        PrefixGrows(s, |p|, |g| - 1);
      }
    }
  }

  // ---- When there is none ----

  /** The running sum leaves 64 bits before it meets the amount. */
  ghost predicate Overflows(s: seq<Coin>, amount: U64, sum: nat) {
    exists m :: 0 <= m < |s| && sum + Sum(s[..m]) < amount && sum + Sum(s[..m + 1]) > U64_MAX
  }

  lemma OverflowNow(s: seq<Coin>, amount: U64, sum: nat)
    requires sum < amount && s != []
    ensures Overflows(s, amount, sum) <==>
            sum + s[0].balance > U64_MAX || Overflows(s[1..], amount, sum + s[0].balance)
  {
    assert s[..0] == [] && s[..1] == [s[0]];
    forall m | 1 <= m <= |s|
      ensures Sum(s[..m]) == s[0].balance + Sum(s[1..][..m - 1])
    {
      assert s[..m][1..] == s[1..][..m - 1];
    }
    if sum + s[0].balance > U64_MAX {
      assert sum + Sum(s[..0]) < amount && sum + Sum(s[..0 + 1]) > U64_MAX;
    }
    if Overflows(s[1..], amount, sum + s[0].balance) {
      var m :| 0 <= m < |s| - 1 && sum + s[0].balance + Sum(s[1..][..m]) < amount
               && sum + s[0].balance + Sum(s[1..][..m + 1]) > U64_MAX;
      assert sum + Sum(s[..m + 1]) < amount && sum + Sum(s[..m + 1 + 1]) > U64_MAX;
    }
    if Overflows(s, amount, sum) {
      var m :| 0 <= m < |s| && sum + Sum(s[..m]) < amount && sum + Sum(s[..m + 1]) > U64_MAX;
      if m > 0 {
        assert sum + s[0].balance + Sum(s[1..][..m - 1]) < amount
            && sum + s[0].balance + Sum(s[1..][..m - 1 + 1]) > U64_MAX;
      }
    }
  }

  /** No selection exactly when the coins are short of the amount, or their running sum overflows on the way. */
  lemma {:induction false} NoneExactly(s: seq<Coin>, amount: U64, sum: nat)
    ensures Greedy(s, amount, sum).None? <==> sum + Sum(s) < amount || (sum < amount && Overflows(s, amount, sum))
    decreases |s|
  {
    hide Overflows;
    if s == [] {
      NoOverflow(amount, sum);
    } else if sum < amount {
      OverflowNow(s, amount, sum);
      NoneExactly(s[1..], amount, sum + s[0].balance);
      if sum + s[0].balance >= amount && sum + s[0].balance <= U64_MAX {
        CannotOverflow(s[1..], amount, sum + s[0].balance);
      }
    }
  }

  lemma NoOverflow(amount: U64, sum: nat)
    ensures !Overflows([], amount, sum)
  {
  }

  lemma CannotOverflow(s: seq<Coin>, amount: U64, sum: nat)
    requires sum >= amount
    ensures !Overflows(s, amount, sum)
  {
  }

  lemma {:induction false} SameSum(a: seq<Coin>, b: seq<Coin>)
    requires multiset(a) == multiset(b)
    ensures Sum(a) == Sum(b)
    decreases |a|
  {
    hide Sum;
    assert |multiset(a)| == |a| && |multiset(b)| == |b|;
    if a == [] {
      assert b == a;
    } else {
      assert a[0] in multiset(b);
      var i: nat :| i < |b| && b[i] == a[0];
      var c := Without(a, 0);
      var d := Without(b, i);
      TakeBoth(multiset(c), multiset(d), a[0]);
      TakeBoth(multiset(d), multiset(c), a[0]);
      SameSum(c, d);
    }
  }

  /** With a total that fits 64 bits, there is no selection exactly when the total is short. */
  lemma NoneWhenShort(coins: seq<Coin>, s: seq<Coin>, amount: U64)
    requires IsSortOf(s, coins) && Sum(coins) <= U64_MAX
    ensures Greedy(s, amount, 0).None? <==> Sum(coins) < amount
  {
    SameSum(s, coins);
    NoneExactly(s, amount, 0);
    assert s[..|s|] == s;
    if Overflows(s, amount, 0) {
      var m :| 0 <= m < |s| && 0 + Sum(s[..m]) < amount && 0 + Sum(s[..m + 1]) > U64_MAX;
      PrefixGrows(s, m + 1, |s|);
      assert false;
    }
  }

  /** A wallet that covers the amount can be refused: two coins of half the range each. */
  lemma RefusedThoughCovered()
    ensures var half: U64 := 0x8000_0000_0000_0000;
            var coins := [Coin("a", half), Coin("b", half)];
            IsSortOf(coins, coins) && Sum(coins) >= half + 1 && Greedy(coins, half + 1, 0).None?
  {
    var half: U64 := 0x8000_0000_0000_0000;
    var coins := [Coin("a", half), Coin("b", half)];
    assert coins[1..] == [Coin("b", half)] && coins[1..][1..] == [];
  }

  // ---- One payment ----

  datatype FundError = InvalidInput | InsufficientFunds | Failed(msg: string)

  datatype Transfer = Transfer(recipient: string, amount: U64)

  /** The coins that pay, the coins that pay gas beside them, and who gets what. */
  datatype Payment = Payment(coins: seq<Coin>, gas: seq<Coin>, transfers: seq<Transfer>)

  /** What the transfers of a payment come to. */
  ghost function PaidOut(transfers: seq<Transfer>): nat {
    if transfers == [] then 0 else transfers[0].amount + PaidOut(transfers[1..])
  }

  lemma {:induction false} PaidOutAlike(transfers: seq<Transfer>, amount: U64)
    requires forall i | 0 <= i < |transfers| :: transfers[i].amount == amount
    ensures PaidOut(transfers) == amount * |transfers|
  {
    if transfers != [] {
      PaidOutAlike(transfers[1..], amount);
      assert amount * |transfers| == amount + amount * |transfers[1..]|;
    }
  }

  /** The checks of a payment, in order: a request that makes sense and fits 64 bits, then coins, then gas. The coins
      cover what is paid out, so the change is not negative, and for SUI the gas budget is left over. */
  method Plan(amount: U64, recipients: seq<string>, isSui: bool, coins: seq<Coin>, gasCoins: seq<Coin>)
    returns (r: Result<Payment, FundError>)
    ensures r == Err(InvalidInput) <==>
            recipients == [] || amount == 0 || amount * |recipients| + (if isSui then GAS_BUDGET else 0) > U64_MAX
    ensures r.Err? ==> r.error.InvalidInput? || r.error.InsufficientFunds?
    ensures r.Ok? ==>
      && r.value.coins != [] && multiset(r.value.coins) <= multiset(coins)
      && Sum(r.value.coins) >= PaidOut(r.value.transfers) + (if isSui then GAS_BUDGET else 0)
      && (if isSui then r.value.gas == []
          else r.value.gas != [] && multiset(r.value.gas) <= multiset(gasCoins) && Sum(r.value.gas) >= GAS_BUDGET)
      && |r.value.transfers| == |recipients|
      && forall i | 0 <= i < |recipients| :: r.value.transfers[i] == Transfer(recipients[i], amount)
    ensures r != Err(InvalidInput) && Sum(coins) <= U64_MAX && Sum(gasCoins) <= U64_MAX ==>
      (r == Err(InsufficientFunds) <==>
       || Sum(coins) < amount * |recipients| + (if isSui then GAS_BUDGET else 0)
       || (!isSui && Sum(gasCoins) < GAS_BUDGET))
  {
    if recipients == [] || amount == 0 {
      return Err(InvalidInput);
    }
    var total := amount * |recipients|;
    assert total >= amount;
    if total > U64_MAX {
      return Err(InvalidInput);
    }
    var required := total;
    if isSui {
      if total + GAS_BUDGET > U64_MAX {
        return Err(InvalidInput);
      }
      required := total + GAS_BUDGET;
    }
    hide Greedy, IsSortOf, Sum;
    var selected, sorted := SelectCoins(coins, required);
    if Sum(coins) <= U64_MAX {
      NoneWhenShort(coins, sorted, required);
    }
    if selected.None? {
      return Err(InsufficientFunds);
    }
    FewestCoins(coins, sorted, required, []);
    NotEmpty(selected.value, required);
    var gas := [];
    if !isSui {
      var chosen, sortedGas := SelectCoins(gasCoins, GAS_BUDGET);
      if Sum(gasCoins) <= U64_MAX {
        NoneWhenShort(gasCoins, sortedGas, GAS_BUDGET);
      }
      if chosen.None? {
        return Err(InsufficientFunds);
      }
      FewestCoins(gasCoins, sortedGas, GAS_BUDGET, []);
      NotEmpty(chosen.value, GAS_BUDGET);
      gas := chosen.value;
    }
    var transfers := seq(|recipients|, i requires 0 <= i < |recipients| => Transfer(recipients[i], amount));
    PaidOutAlike(transfers, amount);
    r := Ok(Payment(selected.value, gas, transfers));
  }

  lemma NotEmpty(coins: seq<Coin>, amount: nat)
    requires Sum(coins) >= amount > 0
    ensures coins != []
  {
  }

  // ---- Many payments ----

  /** How paying one chunk can end: paid, paid although waiting for the effects failed, or not paid. */
  datatype FundOutcome = Paid(digest: string) | PaidUnconfirmed(error: FundError) | NotPaid(error: FundError)

  /** The chunks one after the other. */
  ghost function Joined(chunks: seq<seq<string>>): seq<string> {
    if chunks == [] then [] else Joined(chunks[..|chunks| - 1]) + chunks[|chunks| - 1]
  }

  /** Every chunk is as long as allowed, but for a last one that ends the recipients. */
  ghost predicate Cuts(chunks: seq<seq<string>>, recipients: seq<string>, maxPerTx: nat) {
    && Joined(chunks) <= recipients
    && forall i | 0 <= i < |chunks| ::
         && 0 < |chunks[i]| <= maxPerTx
         && (|chunks[i]| < maxPerTx ==> i == |chunks| - 1 && Joined(chunks) == recipients)
  }

  /** The next chunk carries on where the ones before end. */
  lemma CutsMore(chunks: seq<seq<string>>, recipients: seq<string>, maxPerTx: nat, n: nat, end: nat)
    requires Cuts(chunks, recipients, maxPerTx) && n < end <= |recipients| && Joined(chunks) == recipients[..n]
    requires end == n + maxPerTx || (end == |recipients| && end < n + maxPerTx)
    ensures var more := chunks + [recipients[n..end]];
      && Cuts(more, recipients, maxPerTx) && Joined(more) == recipients[..end] && more[..|chunks|] == chunks
  {
    hide Joined;
    var chunk := recipients[n..end];
    var more := chunks + [chunk];
    JoinedMore(chunks, chunk);
    Carried(recipients, n, end);
    assert |Joined(chunks)| < |recipients|;
    forall i | 0 <= i < |more|
      ensures 0 < |more[i]| <= maxPerTx
      ensures |more[i]| < maxPerTx ==> i == |chunks| && end == |recipients|
    {
      assert more[i] == if i < |chunks| then chunks[i] else chunk;
    }
  }

  lemma JoinedMore(chunks: seq<seq<string>>, chunk: seq<string>)
    ensures (chunks + [chunk])[..|chunks|] == chunks
    ensures Joined(chunks + [chunk]) == Joined(chunks) + chunk
  {
    assert (chunks + [chunk])[..|chunks|] == chunks;
  }

  lemma Carried(s: seq<string>, n: nat, end: nat)
    requires n <= end <= |s|
    ensures s[..n] + s[n..end] == s[..end] && s[..end] <= s && (end == |s| ==> s[..end] == s)
  {
  }

  /** Pay in chunks, one transaction each, stopping at the first that reports an error. `calls` are the chunks a
      transaction was made for, and `paid` is who was paid: on success everyone, once and in order; on an error everyone
      before the failing chunk, and that chunk too exactly when its transaction went through and only the wait for it
      failed. */
  method FundBatch(amount: U64, recipients: seq<string>, maxPerTx: nat, fund: (nat, seq<string>) -> FundOutcome)
    returns (r: Result<seq<string>, FundError>, paid: seq<string>, ghost calls: seq<seq<string>>)
    ensures recipients == [] || amount == 0 || maxPerTx == 0 ==> r == Err(InvalidInput) && paid == [] && calls == []
    ensures Cuts(calls, recipients, maxPerTx) && forall i: nat | i + 1 < |calls| :: fund(i, calls[i]).Paid?
    ensures r.Ok? ==>
      && Joined(calls) == recipients == paid && |r.value| == |calls|
      && forall i: nat | i < |calls| :: fund(i, calls[i]) == Paid(r.value[i])
    ensures r.Err? && recipients != [] && amount > 0 && maxPerTx > 0 ==>
      && calls != []
      && var last := |calls| - 1;
      var outcome := fund(last, calls[last]);
      && !outcome.Paid? && r.error == outcome.error
      && paid == if outcome.PaidUnconfirmed? then Joined(calls) else Joined(calls[..last])
  {
    calls, paid := [], [];
    assert Cuts([], recipients, maxPerTx) && Joined([]) == [];
    if recipients == [] || amount == 0 || maxPerTx == 0 {
      return Err(InvalidInput), [], [];
    }
    var digests := [];
    var n: nat := 0;
    hide Cuts, Joined;
    while n < |recipients|
      invariant n <= |recipients| && paid == recipients[..n] == Joined(calls)
      invariant Cuts(calls, recipients, maxPerTx) && |digests| == |calls|
      invariant forall i: nat | i < |calls| :: fund(i, calls[i]) == Paid(digests[i])
      decreases |recipients| - n
    {
      var end := if n + maxPerTx < |recipients| then n + maxPerTx else |recipients|;
      var chunk := recipients[n..end];
      CutsMore(calls, recipients, maxPerTx, n, end);
      calls := calls + [chunk];
      var outcome := fund(|digests|, chunk);
      if !outcome.Paid? {
        return Err(outcome.error), if outcome.PaidUnconfirmed? then paid + chunk else paid, calls;
      }
      paid := paid + chunk;
      digests := digests + [outcome.digest];
      n := end;
    }
    r := Ok(digests);
  }
}

/** The multi-hop swap router: an amount is threaded through untrusted pools, each hop bound
    by a floor derived from the pool's own quote, the whole path by a final minimum. */
module SwapRouter {
  import opened Prelude

  const I128_MAX: int := 0x7fff_ffff_ffff_ffff_ffff_ffff_ffff_ffff
  const I128_MIN: int := -0x8000_0000_0000_0000_0000_0000_0000_0000
  const BPS := 10000
  const MAX_HOP_SLIPPAGE_BPS := 100

  type I128 = x: int | I128_MIN <= x <= I128_MAX

  predicate FitsI128(x: int) { I128_MIN <= x <= I128_MAX }

  type Address = string

  datatype SwapError = DeadlineExceeded | InvalidDeadline | EmptyPath | InvalidAmount | SlippageExceeded

  datatype SwapStep = SwapStep(pool: Address, assetIn: Address, assetOut: Address)

  datatype SwapParams = SwapParams(
    path: seq<SwapStep>, amountIn: I128, minAmountOut: I128, recipient: Address, deadline: nat)

  /** How a contract call ends: a value, a contract error, or a host trap. Both of the last
      two make the host roll the transaction back. */
  datatype Reply<+T> = Returned(value: T) | Failed(error: SwapError) | Trapped

  /** What a pool does with a swap: its new state, the amount it claims to pay, and the
      tokens it really delivers to the router. */
  datatype Payment<+S> = Payment(state: S, amountOut: I128, delivered: nat)

  /** The code of all pools: arbitrary functions of the pool's address and own state. */
  datatype PoolCode<!S> = PoolCode(
    quote: (S, SwapStep, I128) -> Option<I128>,
    swap: (S, SwapStep, I128, I128) -> Option<Payment<S>>)

  /** Token balances, by asset and holder. */
  type Balances = map<(Address, Address), nat>

  datatype World<+S> = World(pools: map<Address, S>, balances: Balances)

  function BalanceOf(b: Balances, asset: Address, holder: Address): nat {
    if (asset, holder) in b then b[(asset, holder)] else 0
  }

  function Credit(b: Balances, asset: Address, holder: Address, amount: nat): Balances {
    b[(asset, holder) := BalanceOf(b, asset, holder) + amount]
  }

  /** A token transfer; the token contract traps on a negative amount or missing funds. */
  function Transfer(b: Balances, asset: Address, from: Address, to: Address, amount: int): Option<Balances> {
    if amount < 0 || BalanceOf(b, asset, from) < amount then None
    else Some(Credit(b[(asset, from) := BalanceOf(b, asset, from) - amount], asset, to, amount))
  }

  /** A transfer succeeds exactly if the sender has the amount, and then moves it and nothing else;
      who has no entry has nothing. */
  lemma TransferMoves(b: Balances, asset: Address, from: Address, to: Address, amount: int, other: (Address, Address))
    ensures BalanceOf(map[], asset, from) == 0
    ensures Transfer(b, asset, from, to, amount).Some? <==> 0 <= amount <= BalanceOf(b, asset, from)
    ensures Transfer(b, asset, from, to, amount).Some? ==>
              BalanceOf(Transfer(b, asset, from, to, amount).value, other.0, other.1) ==
              BalanceOf(b, other.0, other.1)
              - (if other == (asset, from) then amount else 0) + (if other == (asset, to) then amount else 0)
  {
  }

  // ----- One hop -----

  function PoolQuote<S>(code: PoolCode<S>, pools: map<Address, S>, step: SwapStep, amountIn: I128): Option<I128> {
    if step.pool in pools then code.quote(pools[step.pool], step, amountIn) else None
  }

  function CheckedMul(a: I128, b: I128): Option<I128> {
    if FitsI128(a * b) then Some(a * b) else None
  }

  /** Division that truncates towards zero; `b` is positive. */
  function TruncatedDiv(a: int, b: int): int
    requires b > 0
  {
    if a >= 0 then a / b else -((-a) / b)
  }

  function HopMinimum<S>(code: PoolCode<S>, pools: map<Address, S>, step: SwapStep, amountIn: I128): Reply<I128> {
    if amountIn <= 0 then Failed(InvalidAmount)
    else
      match PoolQuote(code, pools, step, amountIn)
      case None => Trapped
      case Some(expected) =>
        if expected <= 0 then Failed(InvalidAmount)
        else
          match CheckedMul(expected, BPS - MAX_HOP_SLIPPAGE_BPS)
          case None => Failed(InvalidAmount)
          case Some(value) =>
            var floor := TruncatedDiv(value, BPS);
            Returned(if floor > 0 then floor else 1)
  }

  /** One percent below the quote, but at least one unit. */
  function FloorOf(quote: int): int {
    MaxOf(1, 9900 * quote / 10000)
  }

  /** A hop has a minimum exactly for positive inputs whose quote is positive and small
      enough for the multiplication; the minimum is then the floor, between 1 and the quote. */
  lemma HopMinimumExact<S>(code: PoolCode<S>, pools: map<Address, S>, step: SwapStep, amountIn: I128, m: I128)
    ensures HopMinimum(code, pools, step, amountIn) == Returned(m) <==>
            && amountIn > 0
            && PoolQuote(code, pools, step, amountIn).Some?
            && var q := PoolQuote(code, pools, step, amountIn).value;
               0 < q <= I128_MAX / 9900 && m == FloorOf(q)
    ensures HopMinimum(code, pools, step, amountIn) == Returned(m) ==>
              1 <= m <= PoolQuote(code, pools, step, amountIn).value
  {
  }

  // ----- The whole path -----

  /** Quote, floor, pool call and check of one step. */
  function Hop<S>(code: PoolCode<S>, router: Address, w: World<S>, step: SwapStep, amount: I128): Reply<(World<S>,
                  I128)> {
    match HopMinimum(code, w.pools, step, amount)
    case Failed(e) => Failed(e)
    case Trapped => Trapped
    case Returned(hopMin) =>
      match code.swap(w.pools[step.pool], step, amount, hopMin)
      case None => Trapped
      case Some(p) =>
        if p.amountOut < hopMin then Failed(SlippageExceeded)
        else
          Returned((World(w.pools[step.pool := p.state], Credit(w.balances, step.assetOut, router, p.delivered)),
                    p.amountOut))
  }

  /** The hops from `amount` on; `None` of the three replies leaves a world behind. */
  function Hops<S>(code: PoolCode<S>, router: Address, w: World<S>, path: seq<SwapStep>,
                   amount: I128): Reply<(World<S>, I128)>
    decreases |path|
  {
    if path == [] then Returned((w, amount))
    else
      match Hop(code, router, w, path[0], amount)
      case Failed(e) => Failed(e)
      case Trapped => Trapped
      case Returned((w', out)) => Hops(code, router, w', path[1..], out)
  }

  /** The checks before any token moves. */
  function Precheck(params: SwapParams, sequence: nat): Option<SwapError> {
    if params.deadline == 0 then Some(InvalidDeadline)
    else if sequence >= params.deadline then Some(DeadlineExceeded)
    else if params.path == [] then Some(EmptyPath)
    else if params.amountIn <= 0 || params.minAmountOut <= 0 then Some(InvalidAmount)
    else None
  }

  /** The call as seen from outside: its reply and the world the host keeps. */
  function Swap<S>(code: PoolCode<S>, router: Address, caller: Address, params: SwapParams, sequence: nat, w: World<S>)
    : (Reply<I128>, World<S>)
  {
    var early := Precheck(params, sequence);
    if early.Some? then (Failed(early.value), w)
    else
      var first, last := params.path[0], params.path[|params.path| - 1];
      var funded := Transfer(w.balances, first.assetIn, caller, router, params.amountIn);
      if funded.None? then (Trapped, w)
      else
        match Hops(code, router, w.(balances := funded.value), params.path, params.amountIn)
        case Failed(e) => (Failed(e), w)
        case Trapped => (Trapped, w)
        case Returned((w', out)) =>
          if out < params.minAmountOut then (Failed(SlippageExceeded), w)
          else
            var settled := Transfer(w'.balances, last.assetOut, router, params.recipient, out);
            if settled.None? then (Trapped, w)
            else (Returned(out), w'.(balances := settled.value))
  }

  function QuotePath<S>(code: PoolCode<S>, pools: map<Address, S>, path: seq<SwapStep>, amount: I128): Option<I128>
    decreases |path|
  {
    if path == [] then Some(amount)
    else
      var q := PoolQuote(code, pools, path[0], amount);
      if q.None? then None else QuotePath(code, pools, path[1..], q.value)
  }

  // ----- The contract -----

  class Router<S> {
    const code: PoolCode<S>
    const address: Address
    var pools: map<Address, S>
    var balances: Balances

    constructor (code: PoolCode<S>, address: Address, pools: map<Address, S>, balances: Balances)
      ensures this.code == code && this.address == address
      ensures this.pools == pools && this.balances == balances
    {
      this.code, this.address, this.pools, this.balances := code, address, pools, balances;
    }

    /** Executes the swap hop by hop; whatever is not a success puts the ledger back. */
    method Execute(caller: Address, params: SwapParams, sequence: nat) returns (r: Reply<I128>)
      modifies this
      ensures (r, World(pools, balances)) ==
              Swap(code, address, caller, params, sequence, old(World(pools, balances)))
      ensures !r.Returned? ==> pools == old(pools) && balances == old(balances)
    {
      var early := Precheck(params, sequence);
      if early.Some? {
        return Failed(early.value);
      }
      var before := World(pools, balances);
      var currentAmount: I128 := params.amountIn;
      var funded := Transfer(balances, params.path[0].assetIn, caller, address, currentAmount);
      if funded.None? {
        return Trapped;
      }
      balances := funded.value;
      ghost var all := Hops(code, address, World(pools, balances), params.path, currentAmount);
      var i := 0;
      while i < |params.path|
        invariant 0 <= i <= |params.path|
        invariant all == Hops(code, address, World(pools, balances), params.path[i..], currentAmount)
      {
        var step := params.path[i];
        assert params.path[i..][0] == step && params.path[i..][1..] == params.path[i + 1..];
        var hopMin := HopMinimum(code, pools, step, currentAmount);
        if !hopMin.Returned? {
          pools, balances := before.pools, before.balances;
          return match hopMin case Failed(e) => Failed(e) case _ => Trapped;
        }
        var paid := code.swap(pools[step.pool], step, currentAmount, hopMin.value);
        if paid.None? {
          pools, balances := before.pools, before.balances;
          return Trapped;
        }
        if paid.value.amountOut < hopMin.value {
          pools, balances := before.pools, before.balances;
          return Failed(SlippageExceeded);
        }
        pools := pools[step.pool := paid.value.state];
        balances := Credit(balances, step.assetOut, address, paid.value.delivered);
        currentAmount := paid.value.amountOut;
        i := i + 1;
      }
      if currentAmount < params.minAmountOut {
        pools, balances := before.pools, before.balances;
        return Failed(SlippageExceeded);
      }
      var last := params.path[|params.path| - 1];
      var settled := Transfer(balances, last.assetOut, address, params.recipient, currentAmount);
      if settled.None? {
        pools, balances := before.pools, before.balances;
        return Trapped;
      }
      balances := settled.value;
      r := Returned(currentAmount);
    }

    /** Simulates the path against the current pool states. */
    method Quote(path: seq<SwapStep>, amountIn: I128) returns (r: Option<I128>)
      ensures r == QuotePath(code, pools, path, amountIn)
    {
      var current: I128 := amountIn;
      for i := 0 to |path|
        invariant QuotePath(code, pools, path[i..], current) == QuotePath(code, pools, path, amountIn)
      {
        assert path[i..][0] == path[i] && path[i..][1..] == path[i + 1..];
        var q := PoolQuote(code, pools, path[i], current);
        if q.None? {
          return None;
        }
        current := q.value;
      }
      r := Some(current);
    }
  }

  // ----- Slippage guarantee -----

  /** Of two inputs that this pool quotes, the larger one never has the lower quote. */
  ghost predicate Monotone<S>(code: PoolCode<S>, s: S, step: SwapStep) {
    forall x: I128, y: I128 {:trigger code.quote(s, step, x), code.quote(s, step, y)} ::
      0 < x <= y && code.quote(s, step, x).Some? && code.quote(s, step, y).Some? ==>
        code.quote(s, step, x).value <= code.quote(s, step, y).value
  }

  ghost predicate PathMonotone<S>(code: PoolCode<S>, pools: map<Address, S>, path: seq<SwapStep>) {
    forall i :: 0 <= i < |path| && path[i].pool in pools ==> Monotone(code, pools[path[i].pool], path[i])
  }

  ghost predicate NoPoolRevisited(path: seq<SwapStep>) {
    forall i, j :: 0 <= i < j < |path| ==> path[i].pool != path[j].pool
  }

  /** The floor of one hop; a missing quote counts as the smallest. */
  function FloorAt<S>(code: PoolCode<S>, pools: map<Address, S>, step: SwapStep, amount: I128): (r: I128)
    ensures r >= 1
  {
    var q := PoolQuote(code, pools, step, amount);
    if q.Some? then FloorOf(q.value) else 1
  }

  /** The per-hop floors, composed over the pools' states before the swap. */
  function ComposedFloors<S>(code: PoolCode<S>, pools: map<Address, S>, path: seq<SwapStep>, amount: I128): I128
    decreases |path|
  {
    if path == [] then amount else ComposedFloors(code, pools, path[1..], FloorAt(code, pools, path[0], amount))
  }

  lemma {:induction false} FloorsFrame<S>(code: PoolCode<S>, p: map<Address, S>, q: map<Address, S>,
                                          path: seq<SwapStep>, amount: I128)
    requires forall i :: 0 <= i < |path| ==>
               (path[i].pool in p <==> path[i].pool in q) && (path[i].pool in p ==> p[path[i].pool] == q[path[i].pool])
    ensures ComposedFloors(code, p, path, amount) == ComposedFloors(code, q, path, amount)
    ensures QuotePath(code, p, path, amount) == QuotePath(code, q, path, amount)
    decreases |path|
  {
    if path == [] {
    } else {
      var r := PoolQuote(code, p, path[0], amount);
      FloorsFrame(code, p, q, path[1..], FloorAt(code, p, path[0], amount));
      if r.Some? {
        FloorsFrame(code, p, q, path[1..], r.value);
      }
    }
  }

  /** A hop pays at least the floor of any smaller amount. */
  lemma HopFloor<S>(code: PoolCode<S>, router: Address, w: World<S>, step: SwapStep, amount: I128, lower: I128)
    requires 1 <= lower <= amount
    requires step.pool in w.pools ==> Monotone(code, w.pools[step.pool], step)
    requires Hop(code, router, w, step, amount).Returned?
    ensures var (w', out) := Hop(code, router, w, step, amount).value;
            && FloorAt(code, w.pools, step, lower) <= out
            && step.pool in w.pools && w'.pools == w.pools[step.pool := w'.pools[step.pool]]
  {
  }

  lemma {:induction false} HopsFloor<S>(code: PoolCode<S>, router: Address, w: World<S>, path: seq<SwapStep>,
                                        amount: I128, lower: I128)
    requires 1 <= lower <= amount
    requires PathMonotone(code, w.pools, path) && NoPoolRevisited(path)
    requires Hops(code, router, w, path, amount).Returned?
    ensures ComposedFloors(code, w.pools, path, lower) <= Hops(code, router, w, path, amount).value.1
    decreases |path|
  {
    if path == [] {
    } else {
      HopFloor(code, router, w, path[0], amount, lower);
      var (w', out) := Hop(code, router, w, path[0], amount).value;
      var floor := FloorAt(code, w.pools, path[0], lower);
      HopsFloor(code, router, w', path[1..], out, floor);
      FloorsFrame(code, w.pools, w'.pools, path[1..], floor);
    }
  }

  /** Every successful swap returns at least the caller's minimum and, with monotone pools
      visited once each, at least the composed floors, however the pools pay. */
  lemma SwapGuarantee<S>(code: PoolCode<S>, router: Address, caller: Address, params: SwapParams, sequence: nat,
                         w: World<S>)
    requires Swap(code, router, caller, params, sequence, w).0.Returned?
    ensures params.minAmountOut <= Swap(code, router, caller, params, sequence, w).0.value
    ensures PathMonotone(code, w.pools, params.path) && NoPoolRevisited(params.path) ==>
              ComposedFloors(code, w.pools, params.path, params.amountIn) <=
              Swap(code, router, caller, params, sequence, w).0.value
  {
    if PathMonotone(code, w.pools, params.path) && NoPoolRevisited(params.path) {
      var funded := Transfer(w.balances, params.path[0].assetIn, caller, router, params.amountIn).value;
      HopsFloor(code, router, w.(balances := funded), params.path, params.amountIn, params.amountIn);
    }
  }

  // ----- Why no pool may be revisited -----

  /** A pool with a good price for its first visitor only (state 0), from two units on. */
  function FirstVisitQuote(s: int, x: int): I128 { if s == 0 && x >= 2 then 1000 else 1 }

  function FirstVisitPools(): PoolCode<int> {
    PoolCode((s: int, step, x) => Some(FirstVisitQuote(s, x)),
             (s: int, step, x, m) => Some(Payment(1, FirstVisitQuote(s, x), 1000)))
  }

  function PoolsOf(path: seq<SwapStep>): set<Address> { set i | 0 <= i < |path| :: path[i].pool }

  /** All pools of the path exist. */
  predicate Serves(pools: map<Address, int>, path: seq<SwapStep>) {
    forall i :: 0 <= i < |path| ==> path[i].pool in pools
  }

  /** Some pool of the path has had its first visitor. */
  predicate Exhausted(pools: map<Address, int>, path: seq<SwapStep>)
    requires Serves(pools, path)
  {
    exists i :: 0 <= i < |path| && pools[path[i].pool] != 0
  }

  lemma FirstVisitHop(router: Address, w: World<int>, step: SwapStep, amount: I128)
    requires step.pool in w.pools && amount >= 1
    ensures Hop(FirstVisitPools(), router, w, step, amount) ==
            Returned((World(w.pools[step.pool := 1], Credit(w.balances, step.assetOut, router, 1000)),
                      FirstVisitQuote(w.pools[step.pool], amount)))
  {
  }

  lemma ExhaustedNext(pools: map<Address, int>, path: seq<SwapStep>)
    requires path != [] && Serves(pools, path) && pools[path[0].pool] == 0
    requires !NoPoolRevisited(path) || Exhausted(pools, path)
    ensures var pools' := pools[path[0].pool := 1];
            Serves(pools', path[1..]) && (!NoPoolRevisited(path[1..]) || Exhausted(pools', path[1..]))
  {
    var pools' := pools[path[0].pool := 1];
    if Exhausted(pools, path) {
      var i :| 0 <= i < |path| && pools[path[i].pool] != 0;
      assert path[1..][i - 1] == path[i];
    } else {
      var i, j :| 0 <= i < j < |path| && path[i].pool == path[j].pool;
      assert path[1..][j - 1] == path[j];
      if i > 0 {
        assert path[1..][i - 1] == path[i];
      }
    }
  }

  /** A second visit brings the amount down to one, where it stays. */
  lemma {:induction false} SecondVisitSinks(router: Address, w: World<int>, path: seq<SwapStep>, amount: I128)
    requires Serves(w.pools, path)
    requires amount == 1 || (amount >= 2 && (!NoPoolRevisited(path) || Exhausted(w.pools, path)))
    ensures var hops := Hops(FirstVisitPools(), router, w, path, amount);
            && hops.Returned? && hops.value.1 == 1
            && (path != [] ==> BalanceOf(hops.value.0.balances, path[|path| - 1].assetOut, router) >= 1)
    decreases |path|
  {
    if path == [] {
    } else {
      FirstVisitHop(router, w, path[0], amount);
      var (w', out) := Hop(FirstVisitPools(), router, w, path[0], amount).value;
      if amount >= 2 && w.pools[path[0].pool] == 0 {
        ExhaustedNext(w.pools, path);
      }
      SecondVisitSinks(router, w', path[1..], out);
      if |path| == 1 {
        assert path[1..] == [];
      } else {
        assert path[1..][|path[1..]| - 1] == path[|path| - 1];
      }
    }
  }

  lemma {:induction false} FirstVisitFloors(pools: map<Address, int>, path: seq<SwapStep>, amount: I128)
    requires Serves(pools, path) && !Exhausted(pools, path) && amount >= 2
    ensures ComposedFloors(FirstVisitPools(), pools, path, amount) == if path == [] then amount else 990
    decreases |path|
  {
    if path == [] {
    } else {
      assert pools[path[0].pool] == 0;
      assert forall i :: 0 <= i < |path[1..]| ==> path[1..][i] == path[i + 1];
      FirstVisitFloors(pools, path[1..], 990);
    }
  }

  lemma FirstVisitMonotone(pools: map<Address, int>, path: seq<SwapStep>)
    ensures PathMonotone(FirstVisitPools(), pools, path)
  {
  }

  /** A funded swap whose hops end well is settled. */
  lemma SwapSettles<S>(code: PoolCode<S>, router: Address, caller: Address, params: SwapParams, sequence: nat,
                       w: World<S>, funded: Balances)
    requires Precheck(params, sequence).None?
    requires Transfer(w.balances, params.path[0].assetIn, caller, router, params.amountIn) == Some(funded)
    requires var hops := Hops(code, router, w.(balances := funded), params.path, params.amountIn);
             && hops.Returned? && 0 <= params.minAmountOut <= hops.value.1
             && BalanceOf(hops.value.0.balances, params.path[|params.path| - 1].assetOut, router) >= hops.value.1
    ensures Swap(code, router, caller, params, sequence, w).0 ==
            Returned(Hops(code, router, w.(balances := funded), params.path, params.amountIn).value.1)
  {
  }

  /** Without the restriction the guarantee is false: any path that visits a pool twice has a
      successful swap far below the composed floors, with monotone quotes. */
  lemma RevisitedPoolBreaksFloors(path: seq<SwapStep>) returns (params: SwapParams, w: World<int>)
    requires !NoPoolRevisited(path)
    ensures params.path == path && PathMonotone(FirstVisitPools(), w.pools, path)
    ensures Swap(FirstVisitPools(), "router", "caller", params, 1, w).0 == Returned(1)
    ensures ComposedFloors(FirstVisitPools(), w.pools, path, params.amountIn) == 990
  {
    params := SwapParams(path, 2, 1, "recipient", 2);
    var asset := path[0].assetIn;
    w := World(map a | a in PoolsOf(path) :: 0, map[(asset, "caller") := 2]);
    assert Serves(w.pools, path) && !Exhausted(w.pools, path);
    FirstVisitMonotone(w.pools, path);
    FirstVisitFloors(w.pools, path, 2);
    var funded := Transfer(w.balances, asset, "caller", "router", 2);
    assert funded.Some?;
    SecondVisitSinks("router", w.(balances := funded.value), path, 2);
    SwapSettles(FirstVisitPools(), "router", "caller", params, 1, w, funded.value);
  }

  /** One instance of the guarantee, for pools whose state is a number. */
  ghost predicate FloorsMet(path: seq<SwapStep>, code: PoolCode<int>, router: Address, caller: Address,
                            params: SwapParams,
                            sequence: nat, w: World<int>)
  {
    var r := Swap(code, router, caller, params, sequence, w).0;
    params.path == path && PathMonotone(code, w.pools, path) && r.Returned? ==>
      ComposedFloors(code, w.pools, path, params.amountIn) <= r.value
  }

  /** The floors are met by all monotone pools, in all worlds, exactly on the paths that visit
      no pool twice. */
  lemma FloorsMetExactlyWithoutRevisits(path: seq<SwapStep>)
    ensures NoPoolRevisited(path) <==>
            forall code, router, caller, params, sequence, w ::
              FloorsMet(path, code, router, caller, params, sequence, w)
  {
    if NoPoolRevisited(path) {
      forall code, router, caller, params, sequence, w
        ensures FloorsMet(path, code, router, caller, params, sequence, w)
      {
        if params.path == path && Swap(code, router, caller, params, sequence, w).0.Returned? {
          SwapGuarantee(code, router, caller, params, sequence, w);
        }
      }
    } else {
      var params, w := RevisitedPoolBreaksFloors(path);
      assert !FloorsMet(path, FirstVisitPools(), "router", "caller", params, 1, w);
    }
  }

  // ----- Honest pools -----

  /** The pool pays and delivers exactly what it quotes. */
  ghost predicate PaysQuote<S>(code: PoolCode<S>, s: S, step: SwapStep) {
    forall x: I128, m: I128 :: 0 < x && code.quote(s, step, x).Some? && m <= code.quote(s, step, x).value ==>
      && code.swap(s, step, x, m).Some?
      && code.swap(s, step, x, m).value.amountOut == code.quote(s, step, x).value
      && code.swap(s, step, x, m).value.delivered == code.quote(s, step, x).value
  }

  ghost predicate PathPaysQuote<S>(code: PoolCode<S>, pools: map<Address, S>, path: seq<SwapStep>) {
    forall i :: 0 <= i < |path| && path[i].pool in pools ==> PaysQuote(code, pools[path[i].pool], path[i])
  }

  /** Every quote met along the path is positive and leaves room for the multiplication. */
  predicate QuotesFit<S>(code: PoolCode<S>, pools: map<Address, S>, path: seq<SwapStep>, amount: I128)
    decreases |path|
  {
    path == [] ||
    (&& amount > 0
     && var q := PoolQuote(code, pools, path[0], amount);
        q.Some? && 0 < q.value <= I128_MAX / 9900 && QuotesFit(code, pools, path[1..], q.value))
  }

  lemma {:induction false} QuotesFitFrame<S>(code: PoolCode<S>, p: map<Address, S>, q: map<Address, S>,
                                             path: seq<SwapStep>, amount: I128)
    requires forall i :: 0 <= i < |path| ==>
               (path[i].pool in p <==> path[i].pool in q) && (path[i].pool in p ==> p[path[i].pool] == q[path[i].pool])
    ensures QuotesFit(code, p, path, amount) == QuotesFit(code, q, path, amount)
    decreases |path|
  {
    if path == [] {
    } else {
      var r := PoolQuote(code, p, path[0], amount);
      if r.Some? {
        QuotesFitFrame(code, p, q, path[1..], r.value);
      }
    }
  }

  lemma HonestHop<S>(code: PoolCode<S>, router: Address, w: World<S>, step: SwapStep, amount: I128)
    requires step.pool in w.pools ==> PaysQuote(code, w.pools[step.pool], step)
    ensures var q := PoolQuote(code, w.pools, step, amount);
            var hop := Hop(code, router, w, step, amount);
            && (hop.Returned? <==> amount > 0 && q.Some? && 0 < q.value <= I128_MAX / 9900)
            && (hop.Returned? ==>
                  && hop.value.1 == q.value
                  && step.pool in w.pools
                  && hop.value.0.pools == w.pools[step.pool := hop.value.0.pools[step.pool]]
                  && BalanceOf(hop.value.0.balances, step.assetOut, router) >= hop.value.1)
  {
  }

  /** With honest pools visited once each, no hop is rejected exactly when the quotes fit,
      and the hops then end at the simulated amount, which the router really holds. */
  lemma {:induction false} HonestHops<S>(code: PoolCode<S>, router: Address, w: World<S>, path: seq<SwapStep>,
                                         amount: I128)
    requires PathPaysQuote(code, w.pools, path) && NoPoolRevisited(path)
    ensures var hops := Hops(code, router, w, path, amount);
            && (hops.Returned? <==> QuotesFit(code, w.pools, path, amount))
            && (hops.Returned? ==> QuotePath(code, w.pools, path, amount) == Some(hops.value.1))
            && (hops.Returned? && path != [] ==>
                  BalanceOf(hops.value.0.balances, path[|path| - 1].assetOut, router) >= hops.value.1)
    decreases |path|
  {
    if path == [] {
    } else {
      HonestHop(code, router, w, path[0], amount);
      var hop := Hop(code, router, w, path[0], amount);
      if hop.Returned? {
        var (w', out) := hop.value;
        HonestHops(code, router, w', path[1..], out);
        QuotesFitFrame(code, w.pools, w'.pools, path[1..], out);
        FloorsFrame(code, w.pools, w'.pools, path[1..], out);
        if |path| == 1 {
          assert path[1..] == [];
        } else {
          assert path[1..][|path[1..]| - 1] == path[|path| - 1];
        }
      }
    }
  }

  /** An in-deadline, funded swap over honest pools whose quotes fit returns exactly what
      `quote` announced, or is refused because that is below the caller's minimum. */
  lemma HonestSwap<S>(code: PoolCode<S>, router: Address, caller: Address, params: SwapParams, sequence: nat,
                      w: World<S>)
    requires sequence < params.deadline && params.path != [] && params.amountIn > 0 && params.minAmountOut > 0
    requires params.amountIn <= BalanceOf(w.balances, params.path[0].assetIn, caller)
    requires PathPaysQuote(code, w.pools, params.path) && NoPoolRevisited(params.path)
    requires QuotesFit(code, w.pools, params.path, params.amountIn)
    ensures var q := QuotePath(code, w.pools, params.path, params.amountIn);
            q.Some? &&
            Swap(code, router, caller, params, sequence, w).0 ==
            if q.value < params.minAmountOut then Failed(SlippageExceeded) else Returned(q.value)
  {
    var funded := Transfer(w.balances, params.path[0].assetIn, caller, router, params.amountIn).value;
    HonestHops(code, router, w.(balances := funded), params.path, params.amountIn);
  }

  // ----- Pools that keep to the minimum -----

  /** The pool never pays less than the minimum that it is given. */
  ghost predicate KeepsMinimum<S(!new)>(code: PoolCode<S>) {
    forall s: S, step, x: I128, m: I128 ::
      code.swap(s, step, x, m).Some? ==> m <= code.swap(s, step, x, m).value.amountOut
  }

  /** Each hop gives its pool the hop's own minimum, so pools that keep to what they are given
      are never rejected for slippage. */
  lemma {:induction false} KeepingPoolsNeverSlip<S(!new)>(code: PoolCode<S>, router: Address, w: World<S>,
                                                    path: seq<SwapStep>, amount: I128)
    requires KeepsMinimum(code)
    ensures Hops(code, router, w, path, amount) != Failed(SlippageExceeded)
    decreases |path|
  {
    if path == [] {
    } else {
      var hop := Hop(code, router, w, path[0], amount);
      if hop.Returned? {
        KeepingPoolsNeverSlip(code, router, hop.value.0, path[1..], hop.value.1);
      }
    }
  }

  // ----- Who pays, who receives -----

  lemma {:induction false} HopsTouchRouterOnly<S>(code: PoolCode<S>, router: Address, w: World<S>, path: seq<SwapStep>,
                                                  amount: I128, asset: Address, holder: Address)
    requires holder != router
    requires Hops(code, router, w, path, amount).Returned?
    ensures BalanceOf(Hops(code, router, w, path, amount).value.0.balances, asset, holder) ==
            BalanceOf(w.balances, asset, holder)
    decreases |path|
  {
    if path == [] {
    } else {
      var (w', out) := Hop(code, router, w, path[0], amount).value;
      HopsTouchRouterOnly(code, router, w', path[1..], out, asset, holder);
    }
  }

  /** Outside the router, a swap moves exactly the input from the caller and the returned
      amount to the recipient, and a swap that does not succeed moves nothing. */
  lemma SwapMovesExactly<S>(code: PoolCode<S>, router: Address, caller: Address, params: SwapParams, sequence: nat,
                            w: World<S>, asset: Address, holder: Address)
    requires holder != router
    ensures var (r, w') := Swap(code, router, caller, params, sequence, w);
            && (!r.Returned? ==> w' == w)
            && (r.Returned? ==>
                  BalanceOf(w'.balances, asset, holder) ==
                  BalanceOf(w.balances, asset, holder)
                  - (if holder == caller && asset == params.path[0].assetIn then params.amountIn else 0)
                  + (if holder == params.recipient && asset == params.path[|params.path| - 1].assetOut
                     then r.value else 0))
  {
    if Swap(code, router, caller, params, sequence, w).0.Returned? {
      var funded := Transfer(w.balances, params.path[0].assetIn, caller, router, params.amountIn).value;
      HopsTouchRouterOnly(code, router, w.(balances := funded), params.path, params.amountIn, asset, holder);
    }
  }

  lemma {:induction false} HopErrors<S>(code: PoolCode<S>, router: Address, w: World<S>, path: seq<SwapStep>,
                                        amount: I128)
    ensures var r := Hops(code, router, w, path, amount);
            r.Failed? ==> r.error == InvalidAmount || r.error == SlippageExceeded
    decreases |path|
  {
    if path == [] {
    } else {
      var hop := Hop(code, router, w, path[0], amount);
      if hop.Returned? {
        HopErrors(code, router, hop.value.0, path[1..], hop.value.1);
      }
    }
  }

  /** Which errors mean what: the deadline errors exactly for a missing or passed deadline, the
      path error exactly for an empty path in time; success only in time. */
  lemma SwapErrors<S>(code: PoolCode<S>, router: Address, caller: Address, params: SwapParams, sequence: nat,
                      w: World<S>)
    ensures var r := Swap(code, router, caller, params, sequence, w).0;
            && (r == Failed(InvalidDeadline) <==> params.deadline == 0)
            && (r == Failed(DeadlineExceeded) <==> 0 < params.deadline <= sequence)
            && (r == Failed(EmptyPath) <==> sequence < params.deadline && params.path == [])
            && (sequence < params.deadline && params.path != [] &&
                (params.amountIn <= 0 || params.minAmountOut <= 0) ==>
                  r == Failed(InvalidAmount))
            && (r.Returned? ==> sequence < params.deadline && params.path != [] && params.amountIn > 0 && r.value > 0)
  {
    if Precheck(params, sequence).None? {
      var funded := Transfer(w.balances, params.path[0].assetIn, caller, router, params.amountIn);
      if funded.Some? {
        HopErrors(code, router, w.(balances := funded.value), params.path, params.amountIn);
      }
    }
  }
}

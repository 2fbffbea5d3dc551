/** The launch monitor of src/services/MonitorService.ts: a poller that keeps one
    watermark, `blockNumber`, and on each timer tick reads the chain height, advances
    the watermark and asks for the `Launched` events of the new height; and the
    handler that reads a launched token's name and symbol and, for symbols that
    start with "actualz", is meant to send one buy per configured key.

    Everything the bot learns from the chain (the height, the event list, the token's
    replies, how each buy ended) is an input; the model computes the new
    watermark, the query the tick makes, the events it hands on, and the buys. */
module MonitorService {
  import opened Results

  /** Why a call to the chain failed: the transport rejected it, or the contract's
      ABI does not declare a function of that name, so the call finds no matching fragment. */
  datatype CallError = Transport | Undeclared(name: string)

  /** The first two arguments of a `Launched(token, pair, uint)` event. */
  datatype LaunchArgs = LaunchArgs(tokenAddress: string, pairAddress: string)

  /** An item returned by the log query: a decoded event, or a raw log. */
  datatype LogItem = EventLog(args: LaunchArgs) | RawLog

  /** The poller's one piece of state. */
  datatype Poller = Poller(blockNumber: int)

  /** The inclusive block range of a log query. */
  datatype BlockRange = BlockRange(fromBlock: int, toBlock: int)

  /** What one tick sees: the height read, and the reply of the log query (only
      consulted when the tick makes one). */
  datatype TickInput = TickInput(height: Result<int, CallError>, logs: Result<seq<LogItem>, CallError>)

  /** What one tick does: the next state, the query it makes, and the event
      arguments it hands to the launch handler, in order. */
  datatype TickEffect = TickEffect(next: Poller, query: Option<BlockRange>, dispatched: seq<LaunchArgs>)

  /** The outcome of a sequence of ticks: the last state and the blocks queried, in order. */
  datatype RunEffect = RunEffect(last: Poller, queried: seq<int>)

  // ---------------------------------------------------------------------------
  // Polling

  /** `start()`: the first watermark is the height read at start; when that read
      fails, `start` rejects and no timer is set. */
  function Start(height: Result<int, CallError>): (r: Result<Poller, CallError>)
    ensures r.Ok? <==> height.Ok?
    ensures r.Ok? ==> r.value.blockNumber == height.value
    ensures r.Err? ==> r.error == height.error
  {
    var h :- height;
    Ok(Poller(h))
  }

  /** The arguments of the decoded events among `items`, in order; other items are skipped. */
  function LaunchedArgs(items: seq<LogItem>): (r: seq<LaunchArgs>)
    ensures |r| <= |items|
    ensures forall a :: a in r <==> EventLog(a) in items
    decreases |items|
  {
    if |items| == 0 then []
    else
      var rest := LaunchedArgs(items[..|items| - 1]);
      var last := items[|items| - 1];
      assert items == items[..|items| - 1] + [last];
      if last.EventLog? then rest + [last.args] else rest
  }

  /** Number of decoded events among `items`. */
  function EventCount(items: seq<LogItem>): nat
    decreases |items|
  {
    if |items| == 0 then 0
    else EventCount(items[..|items| - 1]) + (if items[|items| - 1].EventLog? then 1 else 0)
  }

  /** Every decoded event is handed on once: the list handed on has one element per event. */
  lemma {:induction false} LaunchedArgsCount(items: seq<LogItem>)
    ensures |LaunchedArgs(items)| == EventCount(items)
    decreases |items|
  {
    if |items| > 0 {
      LaunchedArgsCount(items[..|items| - 1]);
    }
  }

  /** Events are handed on in result order: the events of a concatenation are
      those of the first part followed by those of the second. */
  lemma {:induction false} LaunchedArgsAppend(a: seq<LogItem>, b: seq<LogItem>)
    ensures LaunchedArgs(a + b) == LaunchedArgs(a) + LaunchedArgs(b)
    decreases |b|
  {
    if |b| == 0 {
      assert a + b == a;
    } else {
      var b' := b[..|b| - 1];
      assert (a + b)[..|a + b| - 1] == a + b';
      LaunchedArgsAppend(a, b');
    }
  }

  /** One timer tick (lines 48-64). A failed height read is caught and changes
      nothing. A height above the watermark becomes the watermark at once, and only
      that one block is queried; a failed query is caught after the watermark moved. */
  function Tick(p: Poller, input: TickInput): (r: TickEffect)
    ensures input.height.Err? ==> r == TickEffect(p, None, [])
    ensures r.next.blockNumber >= p.blockNumber
    ensures r.next != p <==> input.height.Ok? && input.height.value > p.blockNumber
    ensures r.next != p ==> r.next.blockNumber == input.height.value
    ensures r.query.Some? <==> r.next != p
    ensures r.query.Some? ==> r.query.value == BlockRange(r.next.blockNumber, r.next.blockNumber)
    ensures r.dispatched != [] ==> r.query.Some? && input.logs.Ok?
    ensures r.query.Some? && input.logs.Ok? ==> r.dispatched == LaunchedArgs(input.logs.value)
  {
    match input.height
    case Err(_) => TickEffect(p, None, [])
    case Ok(current) =>
      if current > p.blockNumber then
        var next := Poller(current);
        var range := BlockRange(current, current);
        match input.logs
        case Err(_) => TickEffect(next, Some(range), [])
        case Ok(items) => TickEffect(next, Some(range), LaunchedArgs(items))
      else TickEffect(p, None, [])
  }

  /** The watermark moves before the query is made: where it moves does not depend
      on what the query returns, so a block whose query failed is still marked seen. */
  lemma WatermarkBeforeQuery(p: Poller, height: Result<int, CallError>, logs: Result<seq<LogItem>, CallError>, logs': Result<seq<LogItem>, CallError>)
    ensures Tick(p, TickInput(height, logs)).next == Tick(p, TickInput(height, logs')).next
    ensures Tick(p, TickInput(height, logs)).query == Tick(p, TickInput(height, logs')).query
    ensures logs.Err? && height.Ok? && height.value > p.blockNumber ==>
      Tick(p, TickInput(height, logs)) == TickEffect(Poller(height.value), Some(BlockRange(height.value, height.value)), [])
  {
  }

  /** Ticks one after another, each seeing the state the previous one left. */
  function Run(p: Poller, inputs: seq<TickInput>): (r: RunEffect)
    ensures r.last.blockNumber >= p.blockNumber
    ensures forall i, j :: 0 <= i < j < |r.queried| ==> r.queried[i] < r.queried[j]
    ensures forall i :: 0 <= i < |r.queried| ==> p.blockNumber < r.queried[i] <= r.last.blockNumber
    ensures |r.queried| > 0 ==> r.queried[|r.queried| - 1] == r.last.blockNumber
    ensures |r.queried| == 0 ==> r.last == p
    decreases |inputs|
  {
    if |inputs| == 0 then RunEffect(p, [])
    else
      var before := Run(p, inputs[..|inputs| - 1]);
      var step := Tick(before.last, inputs[|inputs| - 1]);
      var queried := if step.query.Some? then before.queried + [step.query.value.fromBlock] else before.queried;
      RunEffect(step.next, queried)
  }

  /** A block is queried only if some tick read it as the chain height: the blocks
      a tick jumps over are never asked for. */
  lemma {:induction false} OnlyReadHeightsQueried(p: Poller, inputs: seq<TickInput>, b: int)
    requires forall i :: 0 <= i < |inputs| ==> inputs[i].height != Ok(b)
    ensures b !in Run(p, inputs).queried
    decreases |inputs|
  {
    if |inputs| > 0 {
      OnlyReadHeightsQueried(p, inputs[..|inputs| - 1], b);
    }
  }

  // ---------------------------------------------------------------------------
  // The buy decision

  /** `toLowerCase` on the ASCII letters; other characters are kept. */
  function LowerChar(c: char): (d: char)
    ensures 'A' <= c <= 'Z' ==> d as int == c as int + 32
    ensures !('A' <= c <= 'Z') ==> d == c
  {
    if 'A' <= c <= 'Z' then (c as int + 32) as char else c
  }

  function ToLowerAscii(s: string): (r: string)
    ensures |r| == |s|
    ensures forall i :: 0 <= i < |s| ==> r[i] == LowerChar(s[i])
    decreases |s|
  {
    if |s| == 0 then "" else ToLowerAscii(s[..|s| - 1]) + [LowerChar(s[|s| - 1])]
  }

  /** Lowercasing twice is lowercasing once. */
  lemma LowerIdempotent(s: string)
    ensures ToLowerAscii(ToLowerAscii(s)) == ToLowerAscii(s)
  {
    var once := ToLowerAscii(s);
    var twice := ToLowerAscii(once);
    assert |twice| == |once|;
    forall i | 0 <= i < |once| ensures twice[i] == once[i] {
    }
  }

  const BuyPrefix := "actualz"

  /** The buy gate of MonitorService.ts lines 76-77: the lowercased symbol starts
      with "actualz". */
  predicate IsBuyTarget(symbol: string) {
    BuyPrefix <= ToLowerAscii(symbol)
  }

  /** The gate reads only the first seven characters, each up to case. */
  lemma BuyTargetByPrefix(symbol: string)
    ensures IsBuyTarget(symbol) <==>
      |symbol| >= |BuyPrefix| && forall i :: 0 <= i < |BuyPrefix| ==> LowerChar(symbol[i]) == BuyPrefix[i]
  {
    var lower := ToLowerAscii(symbol);
    if |symbol| >= |BuyPrefix| && forall i :: 0 <= i < |BuyPrefix| ==> LowerChar(symbol[i]) == BuyPrefix[i] {
      assert lower[..|BuyPrefix|] == BuyPrefix;
    }
  }

  /** The gate ignores case and anything after the prefix. */
  lemma BuyTargetIgnoresCase(symbol: string, suffix: string)
    ensures IsBuyTarget(ToLowerAscii(symbol)) <==> IsBuyTarget(symbol)
    ensures IsBuyTarget(symbol) ==> IsBuyTarget(symbol + suffix)
  {
    LowerIdempotent(symbol);
    BuyTargetByPrefix(symbol);
    BuyTargetByPrefix(symbol + suffix);
    if IsBuyTarget(symbol) {
      forall i | 0 <= i < |BuyPrefix|
        ensures LowerChar((symbol + suffix)[i]) == BuyPrefix[i]
      {
        assert (symbol + suffix)[i] == symbol[i];
      }
    }
  }

  /** `ethers.parseEther('5')`: five ether, in wei. */
  const BuyStake: int := 5_000_000_000_000_000_000
  const BuyGasLimit: int := 800_000
  /** `ethers.parseUnits("0.03", "gwei")`, in wei. */
  const BuyFeePerGas: int := 30_000_000

  /** One `buy(amountIn, tokenAddress, overrides)` sent from the wallet of `privateKey`. */
  datatype BuyCall = BuyCall(
    privateKey: string,
    amountIn: int,
    tokenAddress: string,
    gasLimit: int,
    maxFeePerGas: int,
    maxPriorityFeePerGas: int)

  /** What the handler does: the buys it sends, and whether it ends in the catch
      block, which starts a provider reconnect. */
  datatype LaunchOutcome = LaunchOutcome(buys: seq<BuyCall>, reconnect: bool)

  /** Lines 80-89: one buy per configured key, in key order, all for the same token. */
  function Buys(keys: seq<string>, token: string): (r: seq<BuyCall>)
    ensures |r| == |keys|
    ensures forall i :: 0 <= i < |r| ==> r[i].privateKey == keys[i] && r[i].tokenAddress == token
    ensures forall i :: 0 <= i < |r| ==> r[i].amountIn == BuyStake && r[i].gasLimit == BuyGasLimit
    ensures forall i :: 0 <= i < |r| ==> r[i].maxFeePerGas == BuyFeePerGas && r[i].maxPriorityFeePerGas == BuyFeePerGas
    decreases |keys|
  {
    if |keys| == 0 then []
    else Buys(keys[..|keys| - 1], token) + [BuyCall(keys[|keys| - 1], BuyStake, token, BuyGasLimit, BuyFeePerGas, BuyFeePerGas)]
  }

  /** A view call on a contract object built from `abi`: the chain's reply when the
      ABI declares the function; when it does not, the call fails because the ABI
      does not declare the function. */
  function ReadView(abi: seq<string>, fn: string, reply: Result<string, CallError>): (r: Result<string, CallError>)
    ensures fn !in abi ==> r == Err(Undeclared(fn))
    ensures fn in abi ==> r == reply
  {
    if fn in abi then reply else Err(Undeclared(fn))
  }

  /** `await Promise.all(buyPromises)` of MonitorService.ts lines 80-89 rejects when one
      of the buys fails; for no buys at all it resolves. */
  predicate AnyFailed(results: seq<Outcome<CallError>>) {
    exists i :: 0 <= i < |results| && results[i].Fail?
  }

  /** `handleLaunchedEvent(args)` (lines 68-98) with the token contract built from
      `abi`: read `name()` then `symbol()`; when the symbol passes the gate send one
      buy per key, whose outcome is the matching entry of `buyResults`; any throw,
      including a failed buy reported by `Promise.all`, ends in the catch block. */
  function HandleLaunchedEvent(
    abi: seq<string>, args: LaunchArgs,
    nameReply: Result<string, CallError>, symbolReply: Result<string, CallError>,
    keys: seq<string>, buyResults: seq<Outcome<CallError>>): (r: LaunchOutcome)
    requires |buyResults| == |keys|
    ensures r.buys != [] ==> "name" in abi && nameReply.Ok? && "symbol" in abi && symbolReply.Ok?
    ensures r.buys != [] ==> IsBuyTarget(symbolReply.value)
    ensures r.buys != [] ==> r.buys == Buys(keys, args.tokenAddress) && (r.reconnect <==> AnyFailed(buyResults))
    ensures ("name" !in abi || nameReply.Err?) ==> r == LaunchOutcome([], true)
    ensures keys == [] ==> r.buys == [] && (r.reconnect <==> "name" !in abi || nameReply.Err? || "symbol" !in abi || symbolReply.Err?)
  {
    match ReadView(abi, "name", nameReply)
    case Err(_) => LaunchOutcome([], true)
    case Ok(_) =>
      match ReadView(abi, "symbol", symbolReply)
      case Err(_) => LaunchOutcome([], true)
      case Ok(symbol) =>
        if IsBuyTarget(symbol) then LaunchOutcome(Buys(keys, args.tokenAddress), AnyFailed(buyResults))
        else LaunchOutcome([], false)
  }

  /** `ERC20_ABI` of src/contracts/interfaces.ts: the functions it declares. */
  const Erc20Abi: seq<string> := ["balanceOf", "decimals", "symbol", "approve", "allowance"]

  /** The ABI the handler needs: `ERC20_ABI` with `name` added. */
  const TokenAbi: seq<string> := Erc20Abi + ["name"]

  /** The handler as written: the token contract is built from `ERC20_ABI`. */
  function HandleAsWritten(args: LaunchArgs,
    nameReply: Result<string, CallError>, symbolReply: Result<string, CallError>,
    keys: seq<string>, buyResults: seq<Outcome<CallError>>): (r: LaunchOutcome)
    requires |buyResults| == |keys|
    ensures r.buys == [] && r.reconnect
  {
    assert "name" !in Erc20Abi;
    HandleLaunchedEvent(Erc20Abi, args, nameReply, symbolReply, keys, buyResults)
  }

  /** As written, `ERC20_ABI` declares no `name`, so the call at line 73 fails for
      every launch: no buy is ever sent and every launch ends in the catch block,
      whatever the chain replies. */
  lemma AsWrittenNeverBuys(args: LaunchArgs,
    nameReply: Result<string, CallError>, symbolReply: Result<string, CallError>,
    keys: seq<string>, buyResults: seq<Outcome<CallError>>)
    requires |buyResults| == |keys|
    ensures HandleAsWritten(args, nameReply, symbolReply, keys, buyResults) == LaunchOutcome([], true)
  {
    assert "name" !in Erc20Abi;
  }

  /** The handler with the token contract built from an ABI that declares `name`. */
  function OnLaunch(args: LaunchArgs,
    nameReply: Result<string, CallError>, symbolReply: Result<string, CallError>,
    keys: seq<string>, buyResults: seq<Outcome<CallError>>): (r: LaunchOutcome)
    requires |buyResults| == |keys|
    ensures nameReply.Ok? && symbolReply.Ok? && IsBuyTarget(symbolReply.value) ==>
      r.buys == Buys(keys, args.tokenAddress)
    ensures !(nameReply.Ok? && symbolReply.Ok? && IsBuyTarget(symbolReply.value)) ==> r.buys == []
  {
    assert "name" in TokenAbi && "symbol" in TokenAbi by {
      assert TokenAbi[5] == "name" && TokenAbi[2] == "symbol";
    }
    HandleLaunchedEvent(TokenAbi, args, nameReply, symbolReply, keys, buyResults)
  }

  /** With `name` declared, a launch is bought exactly when both reads succeed and the
      symbol passes the gate: then there is one buy of five ether per key, and the
      catch block runs exactly when one of the buys fails. A read failure means no buy
      and a reconnect; a symbol that fails the gate means neither. */
  lemma OnLaunchBuysIffGate(args: LaunchArgs,
    nameReply: Result<string, CallError>, symbolReply: Result<string, CallError>,
    keys: seq<string>, buyResults: seq<Outcome<CallError>>)
    requires |buyResults| == |keys|
    ensures var r := OnLaunch(args, nameReply, symbolReply, keys, buyResults);
      var gate := nameReply.Ok? && symbolReply.Ok? && IsBuyTarget(symbolReply.value);
      && (gate ==> r == LaunchOutcome(Buys(keys, args.tokenAddress), AnyFailed(buyResults)))
      && (!gate ==> r.buys == [])
      && (r.reconnect <==> nameReply.Err? || symbolReply.Err? || (gate && AnyFailed(buyResults)))
  {
    assert "name" in TokenAbi && "symbol" in TokenAbi by {
      assert TokenAbi[5] == "name" && TokenAbi[2] == "symbol";
    }
  }

  /** With no keys configured, a launch that passes the gate sends nothing and
      returns normally: `Promise.all([])` resolves, so the catch block does not run. */
  lemma NoKeysReturnsNormally(args: LaunchArgs, name: string, symbol: string)
    requires IsBuyTarget(symbol)
    ensures OnLaunch(args, Ok(name), Ok(symbol), [], []) == LaunchOutcome([], false)
  {
    OnLaunchBuysIffGate(args, Ok(name), Ok(symbol), [], []);
  }
}

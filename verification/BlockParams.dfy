/** Rewriting the block parameter of a request to a fixed number, and the cache key built from it. */
module BlockParams {
  import opened Options
  import opened Chain

  datatype Json =
    | Null
    | Bool(b: bool)
    | Number(n: int)
    | Text(s: string)
    | List(items: seq<Json>)
    | Object(fields: map<string, Json>)

  datatype BlockNumber = Earliest | Finalized | Latest | At(n: nat) | Pending | Safe

  // ----- hexadecimal numbers as the json layer writes them -----

  function Digit(d: nat): char
    requires d < 16
  {
    if d < 10 then '0' + d as char else 'a' + (d - 10) as char
  }

  function HexDigits(n: nat): (s: string)
    ensures |s| >= 1
  {
    if n < 16 then [Digit(n)] else HexDigits(n / 16) + [Digit(n % 16)]
  }

  function Hex(n: nat): string { "0x" + HexDigits(n) }

  function DigitValue(c: char): Option<nat> {
    if '0' <= c <= '9' then Some((c - '0') as nat)
    else if 'a' <= c <= 'f' then Some((c - 'a') as nat + 10)
    else None
  }

  function ParseDigits(s: string): Option<nat> {
    if s == [] then Some(0)
    else
      var high, low := ParseDigits(s[..|s| - 1]), DigitValue(s[|s| - 1]);
      if high.None? || low.None? then None else Some(16 * high.value + low.value)
  }

  lemma {:induction false} DigitRoundTrip(d: nat)
    requires d < 16
    ensures DigitValue(Digit(d)) == Some(d)
  {
  }

  lemma {:induction false} ParseAppend(s: string, c: char, high: nat, low: nat)
    requires ParseDigits(s) == Some(high) && DigitValue(c) == Some(low)
    ensures ParseDigits(s + [c]) == Some(16 * high + low)
  {
    assert (s + [c])[..|s|] == s;
  }

  lemma {:induction false} HexRoundTrip(n: nat)
    ensures ParseDigits(HexDigits(n)) == Some(n)
  {
    var high, low := n / 16, n % 16;
    DigitRoundTrip(low);
    if n < 16 {
      ParseAppend([], Digit(n), 0, n);
      assert [] + [Digit(n)] == [Digit(n)];
    } else {
      HexRoundTrip(high);
      ParseAppend(HexDigits(high), Digit(low), high, low);
    }
  }

  /** The text of a number: "0x" and lower-case digits, the highest first, without leading zeros. */
  lemma {:induction false} HexShape(n: nat)
    ensures Hex(n)[..2] == "0x" && (n == 0 ==> Hex(n) == "0x0") && (n > 0 ==> Hex(n)[2] != '0')
    ensures forall i | 2 <= i < |Hex(n)| :: '0' <= Hex(n)[i] <= '9' || 'a' <= Hex(n)[i] <= 'f'
    ensures n % 16 < 10 ==> Hex(n)[|Hex(n)| - 1] == '0' + (n % 16) as char
    ensures n % 16 >= 10 ==> Hex(n)[|Hex(n)| - 1] == 'a' + (n % 16 - 10) as char
  {
    var ds := HexDigits(n);
    HexDigitsShape(n);
    assert Hex(n)[2..] == ds && forall i | 2 <= i < |Hex(n)| :: Hex(n)[i] == ds[i - 2];
    if n == 0 {
      assert ds == ['0'] && Hex(0) == "0x" + "0";
    }
  }

  lemma {:induction false} HexDigitsShape(n: nat)
    ensures n > 0 ==> HexDigits(n)[0] != '0'
    ensures forall i | 0 <= i < |HexDigits(n)| :: '0' <= HexDigits(n)[i] <= '9' || 'a' <= HexDigits(n)[i] <= 'f'
    ensures HexDigits(n)[|HexDigits(n)| - 1] == Digit(n % 16)
  {
    if n >= 16 {
      HexDigitsShape(n / 16);
    }
  }

  function ParseTag(s: string): Option<BlockNumber> {
    if s == "earliest" then Some(Earliest)
    else if s == "finalized" then Some(Finalized)
    else if s == "latest" then Some(Latest)
    else if s == "pending" then Some(Pending)
    else if s == "safe" then Some(Safe)
    else None
  }

  /** A 64-bit number in hexadecimal. */
  function ParseNumber(s: string): Option<BlockNumber> {
    if |s| > 2 && s[0] == '0' && s[1] == 'x' then
      var n := ParseDigits(s[2..]);
      if n.None? || n.value > U64_MAX then None else Some(At(n.value))
    else None
  }

  /** The block numbers accepted in a parameter: a tag, or a number. */
  function ParseBlockNumber(j: Json): Option<BlockNumber> {
    if !j.Text? then None else if ParseTag(j.s).Some? then ParseTag(j.s) else ParseNumber(j.s)
  }

  lemma {:induction false} NotATag(s: string)
    requires s != [] && s[0] == '0'
    ensures ParseTag(s).None?
  {
    assert "earliest"[0] == 'e' && "finalized"[0] == 'f' && "latest"[0] == 'l';
    assert "pending"[0] == 'p' && "safe"[0] == 's';
  }

  lemma {:induction false} ParseHexDigits(n: nat, s: string)
    requires n <= U64_MAX && s == Hex(n)
    ensures ParseNumber(s) == Some(At(n)) && s[0] == '0'
  {
    HexRoundTrip(n);
    assert s[2..] == HexDigits(n);
  }

  lemma {:induction false} ParseHex(n: nat)
    requires n <= U64_MAX
    ensures ParseBlockNumber(Text(Hex(n))) == Some(At(n))
  {
    ParseHexDigits(n, Hex(n));
    NotATag(Hex(n));
  }

  // ----- cleaning one parameter -----

  /** The outcome of a step that can fail or, where a subtraction underflows, panic. */
  datatype Outcome<T> = Ok(value: T) | Err | Panic

  /** The number a tag stands for, and whether the parameter has to be rewritten. */
  function BlockNumToU64(b: BlockNumber, latest: nat): Outcome<(nat, bool)> {
    match b
    case Earliest => Ok((0, false))
    case Finalized => if latest < 10 then Panic else Ok((latest - 10, false))
    case Latest => Ok((latest, true))
    case At(n) => Ok((n, false))
    case Pending => Ok((latest, false))
    case Safe => if latest < 3 then Panic else Ok((latest - 3, false))
  }

  /** A parameter after cleaning, with the block it needs. */
  datatype Cleaned = Cleaned(json: Json, block: Outcome<nat>)

  /** A block given by its hash, or by number; `blockOf` finds the number of the block with a given hash. */
  function CleanValue(x: Json, latest: nat, blockOf: Json -> Option<nat>): Cleaned {
    if x.Object? then
      if "blockHash" !in x.fields || blockOf(x.fields["blockHash"]).None? then Cleaned(x, Err)
      else Cleaned(x, Ok(blockOf(x.fields["blockHash"]).value))
    else CleanNumber(x, latest)
  }

  function CleanNumber(x: Json, latest: nat): Cleaned {
    var b := ParseBlockNumber(x);
    if b.None? then Cleaned(x, Err)
    else
      match BlockNumToU64(b.value, latest)
      case Ok((n, change)) => Cleaned(if change then Text(Hex(n)) else x, Ok(n))
      case Err => Cleaned(x, Err)
      case Panic => Cleaned(x, Panic)
  }

  function Clean(params: Json, id: nat, latest: nat, blockOf: Json -> Option<nat>): Cleaned {
    if !params.List? then Cleaned(params, Err)
    else if id < |params.items| then
      var c := CleanValue(params.items[id], latest, blockOf);
      Cleaned(List(params.items[id := c.json]), c.block)
    else if |params.items| == id then Cleaned(List(params.items + [Text(Hex(latest))]), Ok(latest))
    else Cleaned(params, Ok(latest))
  }

  /** A request whose params are rewritten in place. */
  class Request {
    var params: Json

    constructor (params: Json)
      ensures this.params == params
    {
      this.params := params;
    }

    method CleanBlockNumber(id: nat, latest: nat, blockOf: Json -> Option<nat>) returns (block: Outcome<nat>)
      modifies this
      ensures Cleaned(params, block) == Clean(old(params), id, latest, blockOf)
    {
      if !params.List? {
        return Err;
      }
      var items := params.items;
      if id >= |items| {
        if |items| == id {
          params := List(items + [Text(Hex(latest))]);
        }
        return Ok(latest);
      }
      var x := items[id];
      assert items[id := x] == items;
      if x.Object? {
        if "blockHash" !in x.fields {
          return Err;
        }
        var n := blockOf(x.fields["blockHash"]);
        return if n.None? then Err else Ok(n.value);
      }
      var b := ParseBlockNumber(x);
      if b.None? {
        return Err;
      }
      match BlockNumToU64(b.value, latest) {
        case Ok((n, change)) =>
          if change {
            params := List(items[id := Text(Hex(n))]);
          }
          block := Ok(n);
        case Err => block := Err;
        case Panic => block := Panic;
      }
    }
  }

  /** Only "latest" is rewritten. */
  lemma {:induction false} CleanNumberCases(x: Json, latest: nat)
    ensures var c := CleanNumber(x, latest);
      if ParseBlockNumber(x) == Some(Latest) then c == Cleaned(Text(Hex(latest)), Ok(latest)) else c.json == x
  {
  }

  lemma {:induction false} CleanHex(n: nat, latest: nat)
    requires n <= U64_MAX
    ensures CleanNumber(Text(Hex(n)), latest) == Cleaned(Text(Hex(n)), Ok(n))
  {
    ParseHex(n);
  }

  lemma {:induction false} CleanNumberIdempotent(x: Json, latest: nat)
    requires latest <= U64_MAX
    ensures var c := CleanNumber(x, latest); CleanNumber(c.json, latest) == c
  {
    CleanNumberCases(x, latest);
    CleanHex(latest, latest);
  }

  lemma {:induction false} CleanValueIdempotent(x: Json, latest: nat, blockOf: Json -> Option<nat>)
    requires latest <= U64_MAX
    ensures var c := CleanValue(x, latest, blockOf); CleanValue(c.json, latest, blockOf) == c
  {
    if !x.Object? {
      CleanNumberIdempotent(x, latest);
      CleanNumberCases(x, latest);
    }
  }

  /** What each way to name a block means at head `h`, and that only "latest" is rewritten. A number beyond 64 bits, or
      anything that is no text, names none. */
  lemma {:induction false} TagsMean(h: nat, n: nat, x: Json)
    requires h <= U64_MAX
    ensures CleanNumber(Text("earliest"), h) == Cleaned(Text("earliest"), Ok(0))
    ensures CleanNumber(Text("latest"), h) == Cleaned(Text(Hex(h)), Ok(h))
    ensures CleanNumber(Text("pending"), h) == Cleaned(Text("pending"), Ok(h))
    ensures CleanNumber(Text("safe"), h) == Cleaned(Text("safe"), if h >= 3 then Ok(h - 3) else Panic)
    ensures CleanNumber(Text("finalized"), h) == Cleaned(Text("finalized"), if h >= 10 then Ok(h - 10) else Panic)
    ensures CleanNumber(Text(Hex(n)), h) ==
              Cleaned(Text(Hex(n)), if n <= 18_446_744_073_709_551_615 then Ok(n) else Err)
    ensures !x.Text? ==> CleanNumber(x, h) == Cleaned(x, Err)
  {
    TagsParse();
    HexRoundTrip(n);
    var s := Hex(n);
    assert s[2..] == HexDigits(n);
    NotATag(s);
  }

  lemma {:induction false} TagsParse()
    ensures ParseTag("earliest") == Some(Earliest) && ParseTag("latest") == Some(Latest)
    ensures ParseTag("pending") == Some(Pending) && ParseTag("safe") == Some(Safe)
    ensures ParseTag("finalized") == Some(Finalized)
  {
    assert "earliest"[0] == 'e' && "finalized"[0] == 'f' && "latest"[0] == 'l';
    assert "pending"[0] == 'p' && "safe"[0] == 's';
  }

  /** Cleaning looks at the parameter `id`: a block given by hash is the one found for that hash, a missing last one is
      the head, and all other parameters stay as they are. */
  lemma {:induction false} CleanMeans(items: seq<Json>, id: nat, h: nat, blockOf: Json -> Option<nat>)
    requires h <= U64_MAX
    ensures var c := Clean(List(items), id, h, blockOf);
      && c.json.List? && |c.json.items| == (if id == |items| then |items| + 1 else |items|)
      && (forall i | 0 <= i < |items| && i != id :: c.json.items[i] == items[i])
      && (id >= |items| ==> c.block == Ok(h))
      && (id == |items| ==> c.json.items[id] == Text(Hex(h)))
      && (id < |items| && items[id].Object? ==>
            && c.json.items[id] == items[id]
            && c.block == (if "blockHash" in items[id].fields && blockOf(items[id].fields["blockHash"]).Some?
                           then Ok(blockOf(items[id].fields["blockHash"]).value) else Err))
      && (id < |items| && !items[id].Object? ==>
            Cleaned(c.json.items[id], c.block) == CleanNumber(items[id], h))
  {
  }

  /** Cleaning twice at one head is cleaning once, for all params. */
  lemma {:induction false} CleanIdempotent(params: Json, id: nat, latest: nat, blockOf: Json -> Option<nat>)
    requires latest <= U64_MAX
    ensures var c := Clean(params, id, latest, blockOf); Clean(c.json, id, latest, blockOf) == c
  {
    CleanHex(latest, latest);
    if params.List? && id < |params.items| {
      CleanValueIdempotent(params.items[id], latest, blockOf);
    }
  }

  /** Omitting the block, asking for "latest" and naming the head's number come to the same params and block. */
  lemma {:induction false} SameRequest(args: seq<Json>, latest: nat, blockOf: Json -> Option<nat>)
    requires latest <= U64_MAX
    ensures var id, head := |args|, Text(Hex(latest));
      && Clean(List(args), id, latest, blockOf) == Cleaned(List(args + [head]), Ok(latest))
      && Clean(List(args + [Text("latest")]), id, latest, blockOf) == Cleaned(List(args + [head]), Ok(latest))
      && Clean(List(args + [head]), id, latest, blockOf) == Cleaned(List(args + [head]), Ok(latest))
  {
    ParseHex(latest);
    var head := Text(Hex(latest));
    assert (args + [Text("latest")])[|args| := head] == args + [head];
    assert (args + [head])[|args| := head] == args + [head];
  }

  /** The parameter names its block by number or hash, or is the genesis tag. */
  predicate Pinned(params: Json, id: nat) {
    params.List? && id < |params.items| &&
    var x := params.items[id];
    x.Object? || ParseBlockNumber(x) == Some(Earliest) || (ParseBlockNumber(x).Some? && ParseBlockNumber(x).value.At?)
  }

  lemma {:induction false} PinnedStays(params: Json, id: nat, latest: nat, later: nat, blockOf: Json -> Option<nat>)
    requires Pinned(params, id)
    ensures Clean(params, id, later, blockOf) == Clean(params, id, latest, blockOf)
  {
  }

  lemma {:induction false} NotPinnedMoves(params: Json, id: nat, latest: nat, blockOf: Json -> Option<nat>)
    requires !Pinned(params, id) && latest < U64_MAX
    requires Clean(params, id, latest, blockOf).block.Ok?
    ensures Clean(params, id, latest + 1, blockOf).block != Clean(params, id, latest, blockOf).block
  {
  }

  /** At every later head the params are left alone and mean the same block. */
  ghost predicate Stable(params: Json, id: nat, latest: nat, blockOf: Json -> Option<nat>) {
    forall later: nat | latest <= later <= U64_MAX ::
      Clean(params, id, later, blockOf) == Cleaned(params, Clean(params, id, latest, blockOf).block)
  }

  /** A cleaned request means the same block at every later head exactly when its parameter is pinned, which "latest"
      and an omitted block always are after cleaning, and "pending", "safe" and "finalized" never. */
  lemma {:induction false} PinnedIffStable(params: Json, id: nat, latest: nat, blockOf: Json -> Option<nat>)
    requires latest < U64_MAX && Clean(params, id, latest, blockOf).block.Ok?
    ensures Stable(Clean(params, id, latest, blockOf).json, id, latest, blockOf)
            <==> Pinned(Clean(params, id, latest, blockOf).json, id)
  {
    var p := Clean(params, id, latest, blockOf).json;
    CleanIdempotent(params, id, latest, blockOf);
    if Pinned(p, id) {
      forall later: nat | latest <= later <= U64_MAX
        ensures Clean(p, id, later, blockOf) == Cleaned(p, Clean(p, id, latest, blockOf).block)
      {
        PinnedStays(p, id, latest, later, blockOf);
      }
    } else {
      NotPinnedMoves(p, id, latest, blockOf);
    }
  }

  /** Whatever cleaning rewrites is pinned. */
  lemma {:induction false} RewrittenIsPinned(params: Json, id: nat, latest: nat, blockOf: Json -> Option<nat>)
    requires latest <= U64_MAX && Clean(params, id, latest, blockOf).json != params
    ensures Pinned(Clean(params, id, latest, blockOf).json, id)
  {
    ParseHex(latest);
    if id < |params.items| {
      assert params.items[id := params.items[id]] == params.items;
      CleanNumberCases(params.items[id], latest);
    }
  }

  // ----- which block a request needs -----

  datatype Kind = NoCache | Forever | AtHead | Param(id: nat) | Logs

  /** How each method names its block. */
  function KindOf(name: string): Kind {
    if |name| >= 6 && name[..6] == "trace_" then NoCache
    else match name
      case "debug_traceTransaction" => NoCache
      case "eth_call" => Param(1)
      case "eth_estimateGas" => Param(1)
      case "eth_getBalance" => Param(1)
      case "eth_getBlockByHash" => Forever
      case "eth_getBlockReceipts" => Param(0)
      case "eth_getBlockTransactionCountByHash" => Forever
      case "eth_getBlockTransactionCountByNumber" => Param(0)
      case "eth_getCode" => Param(1)
      case "eth_getLogs" => Logs
      case "eth_getStorageAt" => Param(2)
      case "eth_getTransactionByBlockHashAndIndex" => Forever
      case "eth_getTransactionByBlockNumberAndIndex" => Param(0)
      case "eth_getTransactionCount" => Param(1)
      case "eth_getUncleByBlockHashAndIndex" => Forever
      case "eth_getUncleByBlockNumberAndIndex" => Param(0)
      case "eth_getUncleCountByBlockHash" => Forever
      case "eth_getUncleCountByBlockNumber" => Param(0)
      case _ => AtHead
  }

  datatype Needed = CacheForever | CacheNever | Cache(block: nat) | CacheRange(from: nat, to: nat)

  /** A request's params after the check, and the blocks its answer depends on. */
  datatype Checked = Checked(params: Option<Json>, needed: Outcome<Needed>)

  function BlockNeeded(name: string, params: Option<Json>, head: nat, blockOf: Json -> Option<nat>): Checked {
    if KindOf(name).NoCache? then Checked(params, Ok(CacheNever))
    else if params.None? then Checked(params, Ok(Cache(head)))
    else
      match KindOf(name)
      case Forever => Checked(params, Ok(CacheForever))
      case Param(id) =>
        var c := Clean(params.value, id, head, blockOf);
        Checked(Some(c.json), match c.block case Ok(n) => Ok(Cache(n)) case Err => Ok(Cache(head)) case Panic => Panic)
      case Logs => LogsNeeded(params.value, head)
      case _ => Checked(params, Ok(Cache(head)))
  }

  /** One optional end of a log range. */
  function CleanEnd(fields: map<string, Json>, field: string, default: nat, latest: nat)
    : (map<string, Json>, Outcome<nat>)
  {
    if field !in fields then (fields, Ok(default))
    else
      var c := CleanNumber(fields[field], latest);
      (fields[field := c.json], c.block)
  }

  function LogsNeeded(params: Json, head: nat): Checked {
    if !params.List? || params.items == [] then Checked(Some(params), Panic)
    else if !params.items[0].Object? then Checked(Some(params), Err)
    else if "blockHash" in params.items[0].fields then Checked(Some(params), Ok(CacheForever))
    else
      var (fields1, from) := CleanEnd(params.items[0].fields, "fromBlock", 0, head);
      if !from.Ok? then Checked(Some(List(params.items[0 := Object(fields1)])), if from.Err? then Err else Panic)
      else
        var (fields2, to) := CleanEnd(fields1, "toBlock", head, head);
        Checked(Some(List(params.items[0 := Object(fields2)])),
                match to case Ok(n) => Ok(CacheRange(from.value, n)) case Err => Err case Panic => Panic)
  }

  lemma {:induction false} CleanEndIdempotent(fields: map<string, Json>, field: string, default: nat, latest: nat)
    requires latest <= U64_MAX
    ensures var r := CleanEnd(fields, field, default, latest); CleanEnd(r.0, field, default, latest) == r
    ensures forall f | f != field :: (f in CleanEnd(fields, field, default, latest).0 <==> f in fields)
              && (f in fields ==> CleanEnd(fields, field, default, latest).0[f] == fields[f])
  {
    if field in fields {
      CleanNumberIdempotent(fields[field], latest);
      var c := CleanNumber(fields[field], latest);
      assert fields[field := c.json][field := c.json] == fields[field := c.json];
    }
  }

  lemma {:induction false} LogsIdempotent(params: Json, head: nat)
    requires head <= U64_MAX
    ensures var r := LogsNeeded(params, head); r.params.Some? && LogsNeeded(r.params.value, head) == r
  {
    if params.List? && params.items != [] && params.items[0].Object? && "blockHash" !in params.items[0].fields {
      var fields := params.items[0].fields;
      CleanEndIdempotent(fields, "fromBlock", 0, head);
      var (fields1, from) := CleanEnd(fields, "fromBlock", 0, head);
      if from.Ok? {
        CleanEndIdempotent(fields1, "toBlock", head, head);
        var (fields2, to) := CleanEnd(fields1, "toBlock", head, head);
        KeepsClean(fields2, "fromBlock", 0, head, from);
        var p := params.items[0 := Object(fields2)];
        assert p[0 := Object(fields2)] == p;
      } else {
        var p := params.items[0 := Object(fields1)];
        assert p[0 := Object(fields1)] == p;
      }
    }
  }

  /** An end that is clean in one object is clean in every object that has the same end. */
  lemma {:induction false} KeepsClean(fields: map<string, Json>, field: string, default: nat, latest: nat,
                                      block: Outcome<nat>)
    requires field in fields ==> CleanNumber(fields[field], latest) == Cleaned(fields[field], block)
    requires field !in fields ==> block == Ok(default)
    ensures CleanEnd(fields, field, default, latest) == (fields, block)
  {
    if field in fields {
      assert fields[field := fields[field]] == fields;
    }
  }

  /** Checking a request twice at one head is checking it once, for every method and all params. */
  lemma {:induction false} BlockNeededIdempotent(name: string, params: Option<Json>, head: nat,
                                                 blockOf: Json -> Option<nat>)
    requires head <= U64_MAX
    ensures var r := BlockNeeded(name, params, head, blockOf); BlockNeeded(name, r.params, head, blockOf) == r
  {
    if params.Some? {
      match KindOf(name)
      case Param(id) => CleanIdempotent(params.value, id, head, blockOf);
      case Logs => LogsIdempotent(params.value, head);
      case _ =>
    }
  }

  /** The key an answer is cached under; blocks are compared by hash. */
  datatype CacheKey = CacheKey(
    fromBlock: Option<Hash>, toBlock: Option<Hash>, name: string, params: Option<Json>, cacheErrors: bool)

  function KeyFor(name: string, r: Checked, canonical: nat -> Hash): Option<CacheKey> {
    if !r.needed.Ok? then None
    else
      match r.needed.value
      case CacheForever => Some(CacheKey(None, None, name, r.params, false))
      case CacheNever => None
      case Cache(n) => Some(CacheKey(Some(canonical(n)), None, name, r.params, true))
      case CacheRange(a, b) => Some(CacheKey(Some(canonical(a)), Some(canonical(b)), name, r.params, true))
  }

  /** Which parameter of a method names its block. */
  const BLOCK_PARAMS: map<string, nat> := map[
    "eth_getBlockReceipts" := 0, "eth_getBlockTransactionCountByNumber" := 0,
    "eth_getTransactionByBlockNumberAndIndex" := 0, "eth_getUncleByBlockNumberAndIndex" := 0,
    "eth_getUncleCountByBlockNumber" := 0,
    "eth_call" := 1, "eth_estimateGas" := 1, "eth_getBalance" := 1, "eth_getCode" := 1, "eth_getTransactionCount" := 1,
    "eth_getStorageAt" := 2]

  /** The methods whose parameters name a block by its hash. */
  const BY_HASH: set<string> := {
    "eth_getBlockByHash", "eth_getBlockTransactionCountByHash", "eth_getTransactionByBlockHashAndIndex",
    "eth_getUncleByBlockHashAndIndex", "eth_getUncleCountByBlockHash"}

  lemma {:induction false} NotTraced(name: string)
    requires name in BLOCK_PARAMS || name in BY_HASH || name == "eth_getLogs"
    ensures |name| >= 6 && name[0] == 'e' && name != "debug_traceTransaction"
  {
    assert "debug_traceTransaction"[0] == 'd';
  }

  lemma {:induction false} KindIff(name: string)
    ensures KindOf(name).NoCache? <==>
              (|name| >= 6 && name[..6] == "trace_") || name == "debug_traceTransaction"
    ensures name in BLOCK_PARAMS ==> KindOf(name) == Param(BLOCK_PARAMS[name])
    ensures KindOf(name).Param? ==> name in BLOCK_PARAMS
    ensures KindOf(name).Forever? <==> name in BY_HASH
    ensures KindOf(name).Logs? <==> name == "eth_getLogs"
  {
    if name in BLOCK_PARAMS || name in BY_HASH || name == "eth_getLogs" {
      NotTraced(name);
      assert "trace_"[0] == 't' && name[..6][0] == 'e';
    }
  }

  /** Omitted block, "latest" and the head's own number share one cache entry. */
  lemma {:induction false} SameCacheEntry(name: string, args: seq<Json>, head: nat, blockOf: Json -> Option<nat>,
                                          canonical: nat -> Hash)
    requires head <= U64_MAX && KindOf(name) == Param(|args|)
    ensures var key := Some(CacheKey(Some(canonical(head)), None, name, Some(List(args + [Text(Hex(head))])), true));
      forall p | p in [List(args), List(args + [Text("latest")]), List(args + [Text(Hex(head))])] ::
        KeyFor(name, BlockNeeded(name, Some(p), head, blockOf), canonical) == key
  {
    SameRequest(args, head, blockOf);
  }

  /** The cache entry of every request: none for traces, one for all blocks where blocks are named by hash, the block a
      parameter names where one does, a range for logs, and otherwise the head. */
  lemma {:induction false} KeyMeans(name: string, params: Option<Json>, head: nat, blockOf: Json -> Option<nat>,
                                    canonical: nat -> Hash)
    ensures var checked := BlockNeeded(name, params, head, blockOf);
      var key := KeyFor(name, checked, canonical);
      if (|name| >= 6 && name[..6] == "trace_") || name == "debug_traceTransaction" then key == None
      else if params.None? then key == Some(CacheKey(Some(canonical(head)), None, name, None, true))
      else if name in BY_HASH then key == Some(CacheKey(None, None, name, params, false))
      else if name in BLOCK_PARAMS then
        var c := Clean(params.value, BLOCK_PARAMS[name], head, blockOf);
        key == (match c.block
                case Ok(n) => Some(CacheKey(Some(canonical(n)), None, name, Some(c.json), true))
                case Err => Some(CacheKey(Some(canonical(head)), None, name, Some(c.json), true))
                case Panic => None)
      else if name == "eth_getLogs" then checked == LogsNeeded(params.value, head)
      else key == Some(CacheKey(Some(canonical(head)), None, name, params, true))
  {
    KindIff(name);
  }

  /** When a log request fails: it panics on params that are no list or empty, and is refused if the first is no object.
      An end that names no block refuses it too, and one before the genesis block panics; the first end is looked at
      first. */
  lemma {:induction false} LogsFail(params: Json, head: nat)
    ensures var needed := LogsNeeded(params, head).needed;
      if !params.List? || params.items == [] then needed == Panic
      else if !params.items[0].Object? then needed == Err
      else
        var fields := params.items[0].fields;
        var from := if "fromBlock" in fields then CleanNumber(fields["fromBlock"], head).block else Ok(0);
        var to := if "toBlock" in fields then CleanNumber(fields["toBlock"], head).block else Ok(head);
        if "blockHash" in fields then needed == Ok(CacheForever)
        else if from.Err? then needed == Err
        else if from.Panic? then needed == Panic
        else if to.Err? then needed == Err
        else if to.Panic? then needed == Panic
        else needed == Ok(CacheRange(from.value, to.value))
  {
  }

  /** A log request from block `a` to block `b` depends on that range; without a first block it starts at the genesis
      block, without a last one it ends at the head, and with a block hash it depends on no range. */
  lemma {:induction false} LogsMean(fields: map<string, Json>, rest: seq<Json>, head: nat, a: nat, b: nat,
                                    canonical: nat -> Hash)
    requires a <= U64_MAX && b <= U64_MAX
    ensures var checked := LogsNeeded(List([Object(fields)] + rest), head);
      var key := KeyFor("eth_getLogs", checked, canonical);
      && ("blockHash" in fields ==>
            key == Some(CacheKey(None, None, "eth_getLogs", Some(List([Object(fields)] + rest)), false)))
      && ("blockHash" !in fields
          && (if "fromBlock" in fields then fields["fromBlock"] == Text(Hex(a)) else a == 0)
          && (if "toBlock" in fields then fields["toBlock"] == Text(Hex(b)) else b == head) ==>
            key == Some(CacheKey(Some(canonical(a)), Some(canonical(b)), "eth_getLogs",
                                 Some(List([Object(fields)] + rest)), true)))
  {
    CleanHex(a, head);
    CleanHex(b, head);
    var p := [Object(fields)] + rest;
    assert p[0 := Object(fields)] == p;
    if "fromBlock" in fields {
      assert fields["fromBlock" := fields["fromBlock"]] == fields;
    }
    if "toBlock" in fields {
      assert fields["toBlock" := fields["toBlock"]] == fields;
    }
  }
}

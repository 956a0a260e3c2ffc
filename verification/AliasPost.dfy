/** ConnectInputsPost (src/dions.cpp): a transaction of a block, of the memory pool, or about to be mined. */
module AliasPost {
  import opened Octets
  import opened AliasScript

  const MAX_LOCATOR_LENGTH := 684
  const MAX_XUNIT_LENGTH := 1024 * 1024
  const MIN_SET_DEPTH := 1

  type Bytes = seq<Byte>

  datatype TxId = TxId(n: nat)

  /** Where a spent output stands: its block's height, its transaction in the block, and its number there. Not yet on the
      chain, it is given a height above the best block's. */
  datatype Input = Input(height: nat, index: nat, n: nat)

  /** IsCoinBase and IsCoinStake, which depend on the null input and on the empty first output. */
  datatype Kind = Coinbase | Coinstake | Ordinary

  /** A transaction, its inputs already resolved; a coinbase has none. Each output has a script and a value. */
  datatype Tx = Tx(id: TxId, kind: Kind, dion: bool, vin: seq<Input>, vout: seq<Script>, values: seq<nat>)

  /** What the code leaves to others: the hash, the signature and address checks on a transaction and the scripts it
      spends, and the two integers it declares without a value. */
  datatype Env = Env(testNet: bool, hash160: Bytes -> Bytes, signed: (Tx, seq<Script>) -> bool, prevOp0: Tx -> nat,
                     op0: Tx -> nat)

  /** `Undefined`: an argument is read that is not there. */
  datatype Verdict = Accepted | Rejected | Undefined

  /** Why ConnectInputsPost is called: for a block being connected (fBlock), for a block being made out of the
      transactions chosen so far (fMiner), or for the memory pool. */
  datatype Mode = InBlock | ForMining(pool: set<TxId>) | ForPool

  function ScaleMonitor(testNet: bool): nat { if testNet then 200 else 210000 }

  // ---- Looking for the one alias script

  datatype Hit = Nothing | Once(i: nat) | Many

  /** Which of the scripts is an alias script. */
  function Sole(ss: seq<Script>): (h: Hit)
    ensures h.Once? ==> h.i < |ss| && ParseAlias(ss[h.i], 0).ok
  {
    if ss == [] then Nothing
    else
      var init, last := ss[..|ss| - 1], ss[|ss| - 1];
      if ParseAlias(last, 0).ok then
        if Sole(init).Nothing? then Once(|init|) else Many
      else Sole(init)
  }

  /** The variable `op` when the loop is left, at the second alias script or at the end: every script that gets past
      its first opcode overwrites it. */
  function OpAfter(ss: seq<Script>, op0: nat): nat {
    if ss == [] then op0
    else
      var init := ss[..|ss| - 1];
      if Sole(init).Many? then OpAfter(init, op0) else ParseAlias(ss[|ss| - 1], OpAfter(init, op0)).op
  }

  function ArgsOf(ss: seq<Script>): seq<Bytes> {
    if Sole(ss).Once? then ParseAlias(ss[Sole(ss).i], 0).args else []
  }

  /** The first opcode is OP_1 .. OP_16. */
  predicate Touches(s: Script) { s != [] && OP_1 <= s[0] <= OP_16 }

  lemma ParseOp(s: Script, op: nat)
    ensures ParseAlias(s, op) == ParseAlias(s, 0).(op := if Touches(s) then s[0] - OP_1 + 1 else op)
    ensures ParseAlias(s, op).ok ==> Touches(s)
  {
  }

  /** After the second alias script nothing more is read. */
  lemma {:induction false} ManyStays(ss: seq<Script>, k: nat, op0: nat)
    requires k <= |ss| && Sole(ss[..k]).Many?
    ensures Sole(ss).Many? && OpAfter(ss, op0) == OpAfter(ss[..k], op0)
  {
    if k == |ss| {
      assert ss[..k] == ss;
    } else {
      assert ss[..|ss| - 1][..k] == ss[..k];
      ManyStays(ss[..|ss| - 1], k, op0);
    }
  }

  /** The loop over outputs (and, but for the error, over spent outputs): `found` unless there are none or two. */
  method FindAlias(ss: seq<Script>, op0: nat) returns (many: bool, found: bool, op: nat, n: nat, args: seq<Bytes>)
    ensures (many <==> Sole(ss).Many?) && (found <==> Sole(ss).Once?) && op == OpAfter(ss, op0) && args == ArgsOf(ss)
    ensures found ==> Sole(ss) == Once(n)
  {
    found, op, n, args := false, op0, 0, [];
    assert ss[..0] == [];
    for i := 0 to |ss|
      invariant !Sole(ss[..i]).Many? && (found <==> Sole(ss[..i]).Once?) && op == OpAfter(ss[..i], op0)
      invariant found ==> Sole(ss[..i]) == Once(n) && args == ParseAlias(ss[n], 0).args
      invariant !found ==> args == []
    {
      assert ss[..i + 1][..i] == ss[..i];
      ParseOp(ss[i], op);
      var ok, op', read, pc := ParseScript(ss[i], op);
      hide ParseAlias;
      op := op';
      if ok {
        if found {
          ManyStays(ss, i + 1, op0);
          return true, false, op, n, [];
        }
        n, found, args := i, true, read;
      }
    }
    assert ss[..|ss|] == ss;
    many := false;
  }

  // ---- Depth

  /** Where a block is stored. */
  datatype Place = Place(file: nat, pos: nat)

  /** CheckTransactionAtRelativeDepth: how far below `h` the block stored at `place` lies, if nearer than `max`. */
  method RelativeDepth(places: seq<Place>, h: nat, place: Place, max: nat) returns (d: int)
    requires h < |places|
    requires forall i, j :: 0 <= i < j < |places| ==> places[i] != places[j]
    ensures d == -1 || (0 <= d < max && d <= h && places[h - d] == place)
    ensures forall g :: 0 <= g <= h && places[g] == place ==> d == Depth(h, g, max)
  {
    var p: int := h;
    while p >= 0 && h - p < max
      invariant -1 <= p <= h && h - p <= max
      invariant forall g :: p < g <= h ==> places[g] != place
    {
      if places[p] == place {
        return h - p;
      }
      p := p - 1;
    }
    d := -1;
  }

  function Depth(h: nat, g: nat, max: nat): int {
    if g <= h && h - g < max then h - g else -1
  }

  // ---- The verdict

  /** uint160 of a vector: zero unless it has 20 bytes. */
  function AsHash(v: Bytes): Bytes { if |v| == 20 then v else seq(20, _ => 0) }

  function CheckSet(env: Env, tx: Tx, spent: seq<Script>, prevOp: nat, prev: seq<Bytes>, args: seq<Bytes>, found: bool,
                    depth: int): Verdict
  {
    if !found || prevOp != ENCRYPTED then Rejected
    else if |args| < 2 || (if prev != [] then |prev| < 3 else |args| < 3) then Undefined
    else if !env.signed(tx, spent) then Rejected
    else if |args| < 3 || |prev| < 3 then Undefined
    else if args[2] != prev[2] then Rejected
    else if |args| < 4 then Undefined
    else if |args[3]| > 20 || |args[2]| > MAX_XUNIT_LENGTH then Rejected
    else if |prev| < 4 then Undefined
    else if AsHash(prev[3]) != env.hash160(args[3] + args[0]) then Rejected
    else if 0 <= depth < MIN_SET_DEPTH then Rejected
    else Accepted
  }

  function CheckRelay(env: Env, prevOp: nat, prev: seq<Bytes>, args: seq<Bytes>, found: bool, depth: int): Verdict {
    if !found || (prevOp != SET && prevOp != RELAY) then Rejected
    else if |args| < 2 then Undefined
    else if |args[1]| > MAX_XUNIT_LENGTH then Rejected
    else if prev == [] then Undefined
    else if prev[0] != args[0] then Rejected
    else if depth < 0 then Rejected
    else Accepted
  }

  function CheckEncrypted(env: Env, tx: Tx, spent: seq<Script>, prev: seq<Bytes>, args: seq<Bytes>): Verdict {
    if |args| < 4 then Undefined
    else if |args[3]| != 20 then Rejected
    else if |args| < 6 || (prev != [] && |prev| < 3) then Undefined
    else if !env.signed(tx, spent) then Rejected
    else Accepted
  }

  function CheckSigned(env: Env, tx: Tx, spent: seq<Script>, args: seq<Bytes>, n: nat): Verdict {
    if |args| < n then Undefined else if !env.signed(tx, spent) then Rejected else Accepted
  }

  /** What is asked of a SET that is to be mined: its commitment is on the chain and has not expired, and no other
      transaction chosen is pending on the alias. */
  function MoreSet(mode: Mode, depth: int, pending: set<TxId>): Verdict {
    if mode.ForMining? && (depth == -1 || mode.pool * pending != {}) then Rejected else Accepted
  }

  /** Outside a block, a RELAY spends what the index holds for the alias. */
  function MoreRelay(mode: Mode, indexed: bool): Verdict {
    if !mode.InBlock? && !indexed then Rejected else Accepted
  }

  function Then(v: Verdict, w: Verdict): Verdict { if v == Accepted then w else v }

  function Switch(env: Env, mode: Mode, tx: Tx, spent: seq<Script>, prevOp: nat, prev: seq<Bytes>, op: nat,
                  args: seq<Bytes>, found: bool, h: nat, g: nat, pending: set<TxId>, indexed: bool): Verdict
  {
    if op == PUBLIC_KEY || op == VERTEX || op == ENCRYPTED_MESSAGE || op == MAP_PROJECT then
      CheckSigned(env, tx, spent, args, 5)
    else if op == MESSAGE then CheckSigned(env, tx, spent, args, 4)
    else if op == ENCRYPTED then CheckEncrypted(env, tx, spent, prev, args)
    else if op == SET then
      Then(CheckSet(env, tx, spent, prevOp, prev, args, found,
                    if found && !mode.ForPool? then Depth(h, g, MIN_SET_DEPTH) else -1),
           MoreSet(mode, if found then Depth(h, g, ScaleMonitor(env.testNet)) else -1, pending))
    else if op == RELAY then
      Then(CheckRelay(env, prevOp, prev, args, found,
                      if mode.ForPool? then 0 else if found then Depth(h, g, ScaleMonitor(env.testNet)) else -1),
           MoreRelay(mode, indexed))
    else Rejected
  }

  /** The height of the spent alias output's block. */
  function AliasHeight(tx: Tx, spent: seq<Script>): nat
    requires |spent| == |tx.vin|
  {
    if Sole(spent).Once? then tx.vin[Sole(spent).i].height else 0
  }

  /** The verdict on a transaction with the best block, or the block being connected, at height `h`. `pending` are the
      transactions pending on its alias, and `indexed` says whether the alias input is the alias's last record. */
  function PostIn(env: Env, mode: Mode, tx: Tx, spent: seq<Script>, h: nat, pending: set<TxId>, indexed: bool): Verdict
    requires |spent| == |tx.vin|
  {
    if !tx.dion then Accepted
    else if Sole(spent).Many? || !Sole(tx.vout).Once? then Rejected
    else
      var args := ArgsOf(tx.vout);
      if args == [] then Undefined
      else if |args[0]| > MAX_LOCATOR_LENGTH then Rejected
      else
        Switch(env, mode, tx, spent, OpAfter(spent, env.prevOp0(tx)), ArgsOf(spent), OpAfter(tx.vout, env.op0(tx)), args,
               Sole(spent).Once?, h, AliasHeight(tx, spent), pending, indexed)
  }

  /** The verdict on a transaction of the block at height `h`, given the scripts it spends. */
  function Post(env: Env, tx: Tx, spent: seq<Script>, h: nat): Verdict
    requires |spent| == |tx.vin|
  {
    PostIn(env, InBlock, tx, spent, h, {}, true)
  }

  /** What acceptance says of any alias transaction: its one alias output is signed for, unless it is a RELAY, and
      within the limits on alias, commitment, offset and entry. */
  lemma AcceptedWithinLimits(env: Env, mode: Mode, tx: Tx, spent: seq<Script>, h: nat, pending: set<TxId>, indexed: bool)
    requires |spent| == |tx.vin| && tx.dion && PostIn(env, mode, tx, spent, h, pending, indexed) == Accepted
    ensures Sole(tx.vout).Once? && !Sole(spent).Many?
    ensures var args, op := ArgsOf(tx.vout), OpAfter(tx.vout, env.op0(tx));
            && args != [] && |args[0]| <= MAX_LOCATOR_LENGTH
            && op in [PUBLIC_KEY, VERTEX, ENCRYPTED_MESSAGE, MAP_PROJECT, MESSAGE, ENCRYPTED, SET, RELAY]
            && (op != RELAY ==> env.signed(tx, spent))
            && (op == ENCRYPTED ==> |args| >= 6 && |args[3]| == 20)
            && (op == SET ==> |args| >= 4 && |args[2]| <= MAX_XUNIT_LENGTH && |args[3]| <= 20)
            && (op == RELAY ==> |args| >= 2 && |args[1]| <= MAX_XUNIT_LENGTH)
            && (op == MESSAGE ==> |args| >= 4)
            && (op in [PUBLIC_KEY, VERTEX, ENCRYPTED_MESSAGE, MAP_PROJECT] ==> |args| >= 5)
  {
    hide Sole, OpAfter, ArgsOf;
  }

  // ---- Acceptance, op by op

  /** No second alias script among those spent, just one among the outputs, and an alias within its limit. */
  ghost predicate Formed(tx: Tx, spent: seq<Script>) {
    && !Sole(spent).Many? && Sole(tx.vout).Once? && ArgsOf(tx.vout) != [] && |ArgsOf(tx.vout)[0]| <= 684
  }

  /** The alias script spent lies on the chain, less than the monitored span below height `h`. */
  ghost predicate InSpan(env: Env, tx: Tx, spent: seq<Script>, h: nat)
    requires |spent| == |tx.vin|
  {
    Sole(spent).Once? && 0 <= h - AliasHeight(tx, spent) < if env.testNet then 200 else 210000
  }

  /** A SET opens the commitment it spends: owner, offset and entry within their limits, and twenty committed bytes, or
      zeros for another number of them. Outside the pool the commitment is not of the same block. To be mined it has to be
      on the chain and not expired, and nothing chosen may be pending on the alias. */
  ghost predicate SetOpens(env: Env, mode: Mode, tx: Tx, spent: seq<Script>, h: nat, pending: set<TxId>)
    requires |spent| == |tx.vin|
  {
    var args, commit := ArgsOf(tx.vout), ArgsOf(spent);
    && Sole(spent).Once? && OpAfter(spent, env.prevOp0(tx)) == 1 && |args| >= 4 && |commit| >= 4 && env.signed(tx, spent)
    && args[2] == commit[2] && |args[2]| <= 1048576 && |args[3]| <= 20
    && env.hash160(args[3] + args[0]) == (if |commit[3]| == 20 then commit[3] else seq(20, _ => 0))
    && (mode != ForPool ==> AliasHeight(tx, spent) != h)
    && (mode.ForMining? ==> InSpan(env, tx, spent, h) && forall id :: id in mode.pool ==> id !in pending)
  }

  /** A RELAY goes on with the alias it spends, which outside the pool lies within the span, and outside a block is what
      the index holds. */
  ghost predicate RelayGoesOn(env: Env, mode: Mode, tx: Tx, spent: seq<Script>, h: nat, indexed: bool)
    requires |spent| == |tx.vin|
  {
    var args, prev := ArgsOf(tx.vout), ArgsOf(spent);
    && Sole(spent).Once? && (OpAfter(spent, env.prevOp0(tx)) == 2 || OpAfter(spent, env.prevOp0(tx)) == 3)
    && |args| >= 2 && |args[1]| <= 1048576 && prev != [] && prev[0] == args[0]
    && (mode != ForPool ==> InSpan(env, tx, spent, h)) && (mode != InBlock ==> indexed)
  }

  /** A commitment has twenty committed bytes, and is signed. */
  ghost predicate Commits(env: Env, tx: Tx, spent: seq<Script>) {
    var args, prev := ArgsOf(tx.vout), ArgsOf(spent);
    |args| >= 6 && |args[3]| == 20 && (prev == [] || |prev| >= 3) && env.signed(tx, spent)
  }

  /** What each op asks for. */
  ghost predicate Grounds(env: Env, mode: Mode, tx: Tx, spent: seq<Script>, h: nat, pending: set<TxId>, indexed: bool)
    requires |spent| == |tx.vin|
  {
    match OpAfter(tx.vout, env.op0(tx))
    case 1 => Commits(env, tx, spent)
    case 2 => SetOpens(env, mode, tx, spent, h, pending)
    case 3 => RelayGoesOn(env, mode, tx, spent, h, indexed)
    case 5 => |ArgsOf(tx.vout)| >= 4 && env.signed(tx, spent)
    case 6 | 7 | 9 | 16 => |ArgsOf(tx.vout)| >= 5 && env.signed(tx, spent)
    case _ => false
  }

  /** An alias transaction is accepted exactly if it is well formed and meets what its op asks for, whether for a block,
      to be mined or for the pool. */
  lemma AcceptedExactly(env: Env, mode: Mode, tx: Tx, spent: seq<Script>, h: nat, pending: set<TxId>, indexed: bool)
    requires |spent| == |tx.vin| && tx.dion
    ensures PostIn(env, mode, tx, spent, h, pending, indexed) == Accepted <==>
            Formed(tx, spent) && Grounds(env, mode, tx, spent, h, pending, indexed)
  {
    hide Sole, OpAfter, ArgsOf;
    if mode.ForMining? { Disjoint(mode.pool, pending); }
  }

  /** An argument that is not there is read only where there are too few, in the output or in what it spends. */
  lemma UndefinedOnly(env: Env, mode: Mode, tx: Tx, spent: seq<Script>, h: nat, pending: set<TxId>, indexed: bool)
    requires |spent| == |tx.vin| && PostIn(env, mode, tx, spent, h, pending, indexed) == Undefined
    ensures tx.dion && Sole(tx.vout).Once? && !Sole(spent).Many?
    ensures var args, prev, op := ArgsOf(tx.vout), ArgsOf(spent), OpAfter(tx.vout, env.op0(tx));
            || |args| < 5 || (op == 1 && (|args| == 5 || |prev| < 3)) || (op == 2 && |prev| < 4) || (op == 3 && prev == [])
  {
    hide Sole, OpAfter, ArgsOf;
  }

  lemma Disjoint(a: set<TxId>, b: set<TxId>)
    ensures a * b == {} <==> forall x :: x in a ==> x !in b
  {
    forall x | x in a ensures x in b <==> x in a * b {
    }
  }

  // ---- From the miner's choice to its block

  /** How far the alias input's block lies below height `h`, if that input is the one alias script spent. */
  function InputAge(tx: Tx, spent: seq<Script>, h: nat): int
    requires |spent| == |tx.vin|
  {
    h - AliasHeight(tx, spent)
  }

  lemma SwitchMined(env: Env, pool: set<TxId>, tx: Tx, spent: seq<Script>, prevOp: nat, prev: seq<Bytes>, op: nat,
                    args: seq<Bytes>, found: bool, h: nat, g: nat, pending: set<TxId>, indexed: bool)
    requires Switch(env, ForMining(pool), tx, spent, prevOp, prev, op, args, found, h, g, pending, indexed) == Accepted
    ensures Switch(env, InBlock, tx, spent, prevOp, prev, op, args, found, h + 1, g, {}, true) == Accepted
            <==> !(op == RELAY && h + 1 - g == ScaleMonitor(env.testNet))
  {
  }

  /** A transaction is chosen for a block with the best block at height `h`, one below. When that block is connected
      the transaction passes again, unless it is a RELAY whose alias input then lies exactly the monitored number of
      blocks back: that one the miner takes and the block is refused for. */
  lemma MinedConnects(env: Env, pool: set<TxId>, tx: Tx, spent: seq<Script>, h: nat, pending: set<TxId>, indexed: bool)
    requires |spent| == |tx.vin| && PostIn(env, ForMining(pool), tx, spent, h, pending, indexed) == Accepted
    ensures Post(env, tx, spent, h + 1) == Accepted <==>
            !(tx.dion && OpAfter(tx.vout, env.op0(tx)) == RELAY && InputAge(tx, spent, h + 1) == ScaleMonitor(env.testNet))
  {
    hide Sole, OpAfter, ArgsOf, Switch, AliasHeight;
    if tx.dion {
      SwitchMined(env, pool, tx, spent, OpAfter(spent, env.prevOp0(tx)), ArgsOf(spent), OpAfter(tx.vout, env.op0(tx)),
                  ArgsOf(tx.vout), Sole(spent).Once?, h, AliasHeight(tx, spent), pending, indexed);
    }
  }

  /** The pending transactions of an alias without `id`. */
  function Erase(m: map<Bytes, set<TxId>>, alias: Bytes, id: TxId): (r: map<Bytes, set<TxId>>)
    ensures r.Keys == m.Keys && forall a :: a in m ==> r[a] == if a == alias then m[a] - {id} else m[a]
  {
    if alias in m then m[alias := m[alias] - {id}] else m
  }

  /** A key exchange is recorded when its key is not there yet; one that is there is left alone. */
  function Record(m: map<Bytes, set<TxId>>, key: Bytes, id: TxId): (r: map<Bytes, set<TxId>>)
    ensures r.Keys == m.Keys + {key} && (key !in m ==> r[key] == {id}) && forall a :: a in m ==> r[a] == m[a]
  {
    if key in m then m else m[key := {id}]
  }

  /** Where the inputs are stored: on the chain, or nowhere on it. */
  ghost predicate Stored(tx: Tx, places: seq<Place>, wheres: seq<Place>) {
    && |wheres| == |tx.vin|
    && (forall i, j :: 0 <= i < j < |places| ==> places[i] != places[j])
    && forall k {:trigger tx.vin[k]} :: 0 <= k < |tx.vin| ==>
         if tx.vin[k].height < |places| then wheres[k] == places[tx.vin[k].height]
         else forall g :: 0 <= g < |places| ==> places[g] != wheres[k]
  }

  /** CheckTransactionAtRelativeDepth of one input. */
  method InputDepth(tx: Tx, places: seq<Place>, wheres: seq<Place>, n: nat, max: nat) returns (d: int)
    requires places != [] && Stored(tx, places, wheres) && n < |tx.vin|
    ensures d == Depth(|places| - 1, tx.vin[n].height, max)
  {
    d := RelativeDepth(places, |places| - 1, wheres[n], max);
  }

  /** The switch over the op; `n` is the alias input, if there is one. */
  method Judge(env: Env, mode: Mode, tx: Tx, spent: seq<Script>, prevOp: nat, prev: seq<Bytes>, op: nat,
               args: seq<Bytes>, found: bool, places: seq<Place>, wheres: seq<Place>, n: nat, pending: set<TxId>,
               indexed: bool)
    returns (v: Verdict, looked: bool)
    requires places != [] && Stored(tx, places, wheres) && (found ==> n < |tx.vin|)
    ensures v == Switch(env, mode, tx, spent, prevOp, prev, op, args, found, |places| - 1,
                        if found then tx.vin[n].height else 0, pending, indexed)
    ensures looked <==> mode.ForMining? && op == SET
                        && Switch(env, ForMining({}), tx, spent, prevOp, prev, op, args, found, |places| - 1,
                                  if found then tx.vin[n].height else 0, {}, true) == Accepted
    ensures v == Accepted && (op == PUBLIC_KEY || op == VERTEX) ==> |args| >= 5
  {
    hide Stored, Depth, CheckSet, CheckRelay, CheckEncrypted;
    looked := false;
    match op {
      case 7 | 9 | 6 | 16 => v := CheckSigned(env, tx, spent, args, 5);
      case 5 => v := CheckSigned(env, tx, spent, args, 4);
      case 1 => v := CheckEncrypted(env, tx, spent, prev, args);
      case 2 =>
        var d := -1;
        if found && !mode.ForPool? { d := InputDepth(tx, places, wheres, n, MIN_SET_DEPTH); }
        v := CheckSet(env, tx, spent, prevOp, prev, args, found, d);
        if v == Accepted && mode.ForMining? {
          d := -1;
          if found { d := InputDepth(tx, places, wheres, n, ScaleMonitor(env.testNet)); }
          looked := d != -1;
          v := MoreSet(mode, d, pending);
        }
      case 3 =>
        var d := if mode.ForPool? then 0 else -1;
        if found && !mode.ForPool? { d := InputDepth(tx, places, wheres, n, ScaleMonitor(env.testNet)); }
        v := CheckRelay(env, prevOp, prev, args, found, d);
        if v == Accepted { v := MoreRelay(mode, indexed); }
      case _ => v := Rejected;
    }
  }

  function PendingOn(m: map<Bytes, set<TxId>>, alias: Bytes): set<TxId> { if alias in m then m[alias] else {} }

  /** Looking up the pending transactions of an alias makes an entry for it. */
  function LookedUp(m: map<Bytes, set<TxId>>, alias: Bytes): (r: map<Bytes, set<TxId>>)
    ensures r.Keys == m.Keys + {alias} && forall a :: a in r ==> r[a] == if a in m then m[a] else {}
  {
    if alias in m then m else m[alias := {}]
  }

  /** A SET to be mined gets as far as looking up its alias. */
  ghost predicate LooksUp(env: Env, mode: Mode, tx: Tx, spent: seq<Script>, h: nat)
    requires |spent| == |tx.vin|
  {
    && mode.ForMining? && tx.dion && Sole(tx.vout).Once? && OpAfter(tx.vout, env.op0(tx)) == SET
    && PostIn(env, ForMining({}), tx, spent, h, {}, true) == Accepted
  }

  /** The alias layer's memory: transactions pending per alias and per key exchange. */
  class AliasState {
    var mapState: map<Bytes, set<TxId>>
    var k1Export: map<Bytes, set<TxId>>

    constructor ()
      ensures mapState == map[] && k1Export == map[]
    {
      mapState, k1Export := map[], map[];
    }

    /** ConnectInputsPost. `places` says where the chain's blocks are stored up to the best one, or the one being
        connected, and `wheres` where the inputs' blocks are. */
    method ConnectInputsPost(env: Env, mode: Mode, tx: Tx, spent: seq<Script>, places: seq<Place>, wheres: seq<Place>,
                             indexed: bool)
      returns (v: Verdict)
      requires |spent| == |tx.vin| && places != [] && Stored(tx, places, wheres)
      modifies this
      ensures var pending := if ArgsOf(tx.vout) == [] then {} else PendingOn(old(mapState), ArgsOf(tx.vout)[0]);
              && v == PostIn(env, mode, tx, spent, |places| - 1, pending, indexed)
              && (v == Accepted <==>
                    !tx.dion || (Formed(tx, spent) && Grounds(env, mode, tx, spent, |places| - 1, pending, indexed)))
      ensures var args, op := ArgsOf(tx.vout), OpAfter(tx.vout, env.op0(tx));
              && mapState == (if v == Accepted && tx.dion && mode.InBlock? && op != ENCRYPTED
                              then Erase(old(mapState), args[0], tx.id)
                              else if LooksUp(env, mode, tx, spent, |places| - 1) then LookedUp(old(mapState), args[0])
                              else old(mapState))
              && k1Export == (if v == Accepted && tx.dion && (op == PUBLIC_KEY || op == VERTEX)
                              then Record(old(k1Export), args[0] + args[1], tx.id) else old(k1Export))
    {
      hide Sole, OpAfter, ArgsOf, Switch, Erase, Record, Stored, LookedUp, PendingOn, Formed, Grounds;
      if !tx.dion {
        return Accepted;
      }
      AcceptedExactly(env, mode, tx, spent, |places| - 1,
                      if ArgsOf(tx.vout) == [] then {} else PendingOn(mapState, ArgsOf(tx.vout)[0]), indexed);
      var many, found, prevOp, nInput, prev := FindAlias(spent, env.prevOp0(tx));
      if many {
        return Rejected;
      }
      var many', found', op, nOut, args := FindAlias(tx.vout, env.op0(tx));
      if many' || !found' {
        return Rejected;
      }
      if args == [] {
        return Undefined;
      }
      if |args[0]| > MAX_LOCATOR_LENGTH {
        return Rejected;
      }
      var pending := PendingOn(mapState, args[0]);
      var looked;
      v, looked := Judge(env, mode, tx, spent, prevOp, prev, op, args, found, places, wheres, nInput, pending, indexed);
      if looked {
        mapState := LookedUp(mapState, args[0]);
      }
      if v != Accepted {
        return;
      }
      if op == PUBLIC_KEY || op == VERTEX {
        k1Export := Record(k1Export, args[0] + args[1], tx.id);
      }
      if mode.InBlock? && op != ENCRYPTED {
        mapState := Erase(mapState, args[0], tx.id);
      }
    }
  }
}

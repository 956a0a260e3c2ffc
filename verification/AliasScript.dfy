/** Alias scripts: the script reader (src/script.h) and the alias parser built on it (src/dions.cpp). */
module AliasScript {
  import opened Octets

  type Script = seq<Byte>

  const PUSHDATA1 := 0x4c
  const PUSHDATA2 := 0x4d
  const PUSHDATA4 := 0x4e
  const OP_1 := 0x51
  const OP_16 := 0x60
  const NOP := 0x61
  const DROP2 := 0x6d
  const DROP := 0x75
  const INVALID := 0xff

  const ENCRYPTED := 1
  const SET := 2
  const RELAY := 3
  const MESSAGE := 5
  const ENCRYPTED_MESSAGE := 6
  const PUBLIC_KEY := 7
  const VERTEX := 9
  const MAP_PROJECT := 16

  const SIZE_LIMIT := 0x1_0000_0000

  predicate DropLike(opcode: nat) { opcode == DROP || opcode == DROP2 || opcode == NOP }

  /** A little-endian number. */
  function Little(b: seq<Byte>): nat { if b == [] then 0 else b[0] + 256 * Little(b[1..]) }

  // ---- GetOp2

  /** What GetOp2 returns, and where it leaves the cursor. */
  datatype Fetch = Fetch(ok: bool, opcode: nat, data: seq<Byte>, pc: nat)

  /** How many length bytes follow a push opcode. */
  function LengthBytes(opcode: nat): nat {
    if opcode < PUSHDATA1 then 0 else if opcode == PUSHDATA1 then 1 else if opcode == PUSHDATA2 then 2 else 4
  }

  function GetOp(s: Script, pc: nat): (f: Fetch)
    requires pc <= |s|
    ensures pc <= f.pc <= |s| && (f.ok ==> pc < f.pc && f.opcode == s[pc]) && (!f.ok ==> f.opcode == INVALID)
    ensures pc < |s| ==> pc < f.pc
  {
    if pc == |s| then Fetch(false, INVALID, [], pc)
    else
      var opcode := s[pc];
      if opcode > PUSHDATA4 then Fetch(true, opcode, [], pc + 1)
      else
        var n := LengthBytes(opcode);
        if |s| - pc - 1 < n then Fetch(false, INVALID, [], pc + 1)
        else
          var p := pc + 1 + n;
          var size := if opcode < PUSHDATA1 then opcode else Little(s[pc + 1..p]);
          if |s| - p < size then Fetch(false, INVALID, [], p)
          else Fetch(true, opcode, s[p..p + size], p + size)
  }

  // ---- aliasScript

  /** The outcome of the parser; `op` is the caller's variable, which keeps its value if nothing was written. */
  datatype Alias = Alias(ok: bool, op: nat, args: seq<seq<Byte>>, pc: nat)

  predicate Arity(op: nat, n: nat) {
    || (op == ENCRYPTED && n == 8) || (op == SET && n == 5) || (op == RELAY && n == 2)
    || op in [MESSAGE, ENCRYPTED_MESSAGE, MAP_PROJECT, PUBLIC_KEY, VERTEX]
  }

  /** The argument loop from `pc`: the arguments, whether a drop ended them, and the cursor. */
  function Args(s: Script, pc: nat, args: seq<seq<Byte>>): (r: (bool, seq<seq<Byte>>, nat))
    requires pc <= |s|
    ensures pc <= r.2 <= |s| && (r.0 ==> pc < r.2)
    decreases |s| - pc
  {
    var f := GetOp(s, pc);
    if !f.ok then (false, args, f.pc)
    else if DropLike(f.opcode) then (true, args, f.pc)
    else if f.opcode > PUSHDATA4 then (false, args, f.pc)
    else Args(s, f.pc, args + [f.data])
  }

  /** The drop loop from `pc`. */
  function Drops(s: Script, pc: nat): (r: nat)
    requires pc <= |s|
    ensures pc <= r <= |s|
    decreases |s| - pc
  {
    var f := GetOp(s, pc);
    if f.ok && DropLike(f.opcode) then Drops(s, f.pc) else f.pc
  }

  function ParseAlias(s: Script, op: nat): (r: Alias)
    ensures r.pc <= |s|
  {
    var f := GetOp(s, 0);
    if !f.ok || f.opcode < OP_1 || f.opcode > OP_16 then Alias(false, op, [], f.pc)
    else
      var op' := f.opcode - OP_1 + 1;
      var a := Args(s, f.pc, []);
      if !a.0 then Alias(false, op', a.1, a.2)
      else Alias(Arity(op', |a.1|), op', a.1, Drops(s, a.2) - 1)
  }

  /** aliasScript: on failure too, `op` may have been written. */
  method ParseScript(s: Script, op0: nat) returns (ok: bool, op: nat, args: seq<seq<Byte>>, pc: nat)
    ensures Alias(ok, op, args, pc) == ParseAlias(s, op0)
  {
    op, args := op0, [];
    var f := GetOp(s, 0);
    pc := f.pc;
    if !f.ok || f.opcode < OP_1 || f.opcode > OP_16 {
      return false, op, args, pc;
    }
    op := f.opcode - OP_1 + 1;
    while true
      invariant pc <= |s| && Args(s, pc, args) == Args(s, f.pc, [])
      decreases |s| - pc
    {
      var g := GetOp(s, pc);
      pc := g.pc;
      if !g.ok {
        return false, op, args, pc;
      }
      if DropLike(g.opcode) {
        break;
      }
      if g.opcode > PUSHDATA4 {
        return false, op, args, pc;
      }
      args := args + [g.data];
    }
    var dropping := true;
    ghost var start := pc;
    while dropping
      invariant start <= pc <= |s|
      invariant if dropping then Drops(s, pc) == Drops(s, start) else pc == Drops(s, start)
      decreases dropping, |s| - pc
    {
      var g := GetOp(s, pc);
      pc := g.pc;
      dropping := g.ok && DropLike(g.opcode);
    }
    pc := pc - 1;
    ok := Arity(op, |args|);
  }

  /** aliasStrip; a script that is no alias script is an error. */
  datatype Stripped = NotAlias | Stripped(rest: Script)

  function AliasStrip(s: Script): Stripped {
    var r := ParseAlias(s, 0);
    if r.ok then Stripped(s[r.pc..]) else NotAlias
  }

  // ---- The printer

  /** The length bytes written in front of `n` bytes of data, after the opcode. */
  function PushHead(n: nat): seq<Byte>
    requires n < SIZE_LIMIT
  {
    if n < PUSHDATA1 then [n]
    else if n <= 0xff then [PUSHDATA1, n]
    else if n <= 0xffff then [PUSHDATA2, n % 256, n / 256]
    else [PUSHDATA4, n % 256, n / 256 % 256, n / 0x1_0000 % 256, n / 0x100_0000]
  }

  /** operator<< of a byte vector */
  function Push(data: seq<Byte>): seq<Byte>
    requires |data| < SIZE_LIMIT
  {
    PushHead(|data|) + data
  }

  ghost predicate Short(args: seq<seq<Byte>>) { forall i :: 0 <= i < |args| ==> |args[i]| < SIZE_LIMIT }

  function Pushes(args: seq<seq<Byte>>): seq<Byte>
    requires Short(args)
  {
    if args == [] then [] else Push(args[0]) + Pushes(args[1..])
  }

  ghost predicate AllDrops(drops: seq<Byte>) { forall i :: 0 <= i < |drops| ==> DropLike(drops[i]) }

  /** An alias script: op, arguments, drops, and the script that says who may spend it. */
  function Print(op: nat, args: seq<seq<Byte>>, drops: seq<Byte>, rest: Script): Script
    requires 1 <= op <= 16 && Short(args)
  {
    [OP_1 + op - 1] + Pushes(args) + drops + rest
  }

  // ---- Reading what was printed

  lemma LittleWidths(n: nat)
    requires n < SIZE_LIMIT
    ensures n <= 0xff ==> Little([n]) == n
    ensures n <= 0xffff ==> Little([n % 256, n / 256]) == n
    ensures Little([n % 256, n / 256 % 256, n / 0x1_0000 % 256, n / 0x100_0000]) == n
  {
    var q := n / 256;
    var r := q / 256;
    assert n / 0x1_0000 == r && n / 0x100_0000 == r / 256;
    LittleStep(n / 0x100_0000, []);
    LittleStep(r % 256, [n / 0x100_0000]);
    LittleStep(q % 256, [r % 256, n / 0x100_0000]);
    LittleStep(n % 256, [q % 256, r % 256, n / 0x100_0000]);
    if n <= 0xff { LittleStep(n, []); }
    if n <= 0xffff { LittleStep(q, []); LittleStep(n % 256, [q]); }
  }

  lemma LittleStep(x: Byte, b: seq<Byte>)
    ensures Little([x] + b) == x + 256 * Little(b)
  {
    assert ([x] + b)[1..] == b;
  }

  /** The reader takes back exactly one pushed vector, whatever form its length takes. */
  lemma GetPush(a: seq<Byte>, data: seq<Byte>, b: seq<Byte>)
    requires |data| < SIZE_LIMIT
    ensures var f := GetOp(a + Push(data) + b, |a|);
            f.ok && f.opcode <= PUSHDATA4 && f.data == data && f.pc == |a + Push(data)|
  {
    var n := |data|;
    var s := a + Push(data) + b;
    var h := PushHead(n);
    LittleWidths(n);
    assert s[|a|] == h[0];
    assert s[|a| + 1..|a| + |h|] == h[1..];
    assert s[|a| + |h|..|a| + |h| + n] == data;
  }

  lemma ArgsStep(s: Script, pc: nat, acc: seq<seq<Byte>>)
    requires pc < |s|
    ensures var f := GetOp(s, pc);
            && (f.ok && f.opcode <= PUSHDATA4 ==> Args(s, pc, acc) == Args(s, f.pc, acc + [f.data]))
            && (DropLike(s[pc]) ==> Args(s, pc, acc) == (true, acc, pc + 1))
  {
  }

  lemma {:induction false} ArgsPrinted(a: seq<Byte>, args: seq<seq<Byte>>, drop: Byte, b: seq<Byte>, acc: seq<seq<Byte>>)
    requires Short(args) && DropLike(drop)
    ensures Args(a + Pushes(args) + [drop] + b, |a|, acc) == (true, acc + args, |a + Pushes(args)| + 1)
    decreases |args|
  {
    hide GetOp, Push, Args;
    var s := a + Pushes(args) + [drop] + b;
    ArgsStep(s, |a|, acc);
    if args == [] {
      assert s[|a|] == drop;
      assert acc + args == acc;
    } else {
      var rest := Pushes(args[1..]) + [drop] + b;
      var p := Push(args[0]);
      Reassociate(a, p, Pushes(args[1..]), [drop], b);
      GetPush(a, args[0], rest);
      ArgsPrinted(a + p, args[1..], drop, b, acc + [args[0]]);
      assert acc + [args[0]] + args[1..] == acc + args;
    }
  }

  lemma Reassociate(a: seq<Byte>, p: seq<Byte>, q: seq<Byte>, d: seq<Byte>, b: seq<Byte>)
    ensures a + (p + q) + d + b == a + p + (q + d + b) == (a + p) + q + d + b
    ensures a + (p + q) == a + p + q
  {
  }

  lemma DropTaken(s: Script, pc: nat)
    requires pc < |s| && DropLike(s[pc])
    ensures Drops(s, pc) == Drops(s, pc + 1)
  {
  }

  lemma {:induction false} DropsPrinted(a: seq<Byte>, drops: seq<Byte>, b: seq<Byte>)
    requires AllDrops(drops)
    ensures Drops(a + drops + b, |a|) == Drops(a + drops + b, |a + drops|)
    decreases |drops|
  {
    hide Drops;
    if drops != [] {
      var s, h := a + drops + b, a + [drops[0]];
      assert s[|a|] == drops[0];
      DropTaken(s, |a|);
      assert a + drops == h + drops[1..];
      DropsPrinted(h, drops[1..], b);
    }
  }

  /** Where the parser stops. */
  lemma PrintedParse(op: nat, args: seq<seq<Byte>>, drops: seq<Byte>, rest: Script, op0: nat)
    requires 1 <= op <= 16 && Short(args) && drops != [] && AllDrops(drops)
    ensures var s := Print(op, args, drops, rest);
            ParseAlias(s, op0) == Alias(Arity(op, |args|), op, args, Drops(s, |s| - |rest|) - 1)
  {
    var s := Print(op, args, drops, rest);
    var a: seq<Byte> := [OP_1 + op - 1];
    assert GetOp(s, 0) == Fetch(true, OP_1 + op - 1, [], 1);
    hide GetOp, Pushes, Args, Drops;
    var h := a + Pushes(args) + [drops[0]];
    PrintSplit(a, Pushes(args), drops, rest);
    ArgsPrinted(a, args, drops[0], drops[1..] + rest, []);
    assert [] + args == args;
    DropsPrinted(h, drops[1..], rest);
    assert |h + drops[1..]| == |s| - |rest|;
  }

  lemma PrintSplit(a: seq<Byte>, p: seq<Byte>, drops: seq<Byte>, rest: seq<Byte>)
    requires drops != []
    ensures a + p + drops + rest == a + p + [drops[0]] + (drops[1..] + rest) == a + p + [drops[0]] + drops[1..] + rest
  {
    assert drops == [drops[0]] + drops[1..];
  }

  /** The cursor moves by one byte where the rest begins, and the rest does not go on being dropped: it is a single
      byte, or it begins with a one-byte operation that is no drop, or with a push cut off so early that only its
      opcode is taken. */
  predicate OneByteFirst(rest: Script) {
    || |rest| == 1
    || (|rest| > 1 && !DropLike(rest[0])
        && (|| rest[0] == 0 || rest[0] > PUSHDATA4
            || (rest[0] < PUSHDATA1 && |rest| - 1 < rest[0])
            || (rest[0] >= PUSHDATA1 && |rest| - 1 < LengthBytes(rest[0]))))
  }

  lemma OneByteFetch(a: seq<Byte>, rest: Script)
    requires rest != [] && !DropLike(rest[0])
    ensures GetOp(a + rest, |a|).pc == |a| + 1 <==> OneByteFirst(rest)
  {
    assert (a + rest)[|a|] == rest[0];
  }

  /** The parser recovers the op and the arguments of every printed script of the right arity. */
  lemma PrintedAlias(op: nat, args: seq<seq<Byte>>, drops: seq<Byte>, rest: Script, op0: nat)
    requires 1 <= op <= 16 && Short(args) && drops != [] && AllDrops(drops)
    ensures var r := ParseAlias(Print(op, args, drops, rest), op0);
            r.ok == Arity(op, |args|) && r.op == op && r.args == args
  {
    PrintedParse(op, args, drops, rest, op0);
  }

  /** Stripping a printed script leaves exactly the rest, if and only if the rest begins with a single byte that is
      read on its own. Nothing at all, a further drop, or a push of data is not left as it was. */
  lemma PrintedStrip(op: nat, args: seq<seq<Byte>>, drops: seq<Byte>, rest: Script)
    requires 1 <= op <= 16 && Short(args) && Arity(op, |args|) && drops != [] && AllDrops(drops)
    ensures AliasStrip(Print(op, args, drops, rest)) == Stripped(rest) <==> OneByteFirst(rest)
  {
    var s := Print(op, args, drops, rest);
    var a := [OP_1 + op - 1] + Pushes(args) + drops;
    assert s == a + rest;
    PrintedParse(op, args, drops, rest, 0);
    var pc := Drops(s, |a|) - 1;
    if rest == [] {
      assert |s[pc..]| == 1;
    } else if DropLike(rest[0]) {
      assert s[|a|] == rest[0];
      DropsBeyond(s, |a|);
      assert |rest| == 1 ==> s[pc..] == rest;
      assert |rest| > 1 ==> |s[pc..]| < |rest|;
    } else {
      OneByteFetch(a, rest);
      assert s[|a|] == rest[0];
      assert |s[pc..]| == |s| - pc;
      assert s[|a|..] == rest;
    }
  }

  /** A drop in front is taken too, and at least one more byte if there is one. */
  lemma {:induction false} DropsBeyond(s: Script, pc: nat)
    requires pc < |s| && DropLike(s[pc])
    ensures Drops(s, pc) - 1 > pc || (Drops(s, pc) == |s| == pc + 1)
    decreases |s| - pc
  {
    assert GetOp(s, pc).pc == pc + 1;
    assert Drops(s, pc) == Drops(s, pc + 1);
    if pc + 1 < |s| && DropLike(s[pc + 1]) { DropsBeyond(s, pc + 1); }
  }
}

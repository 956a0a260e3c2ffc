/** Which scripts are alias scripts: the parser accepts just those of one shape. */
module AliasShapes {
  import opened Octets
  import opened AliasScript

  /** One push of the data, in any of the four forms its length may take. */
  ghost predicate PushedAs(enc: seq<Byte>, data: seq<Byte>) {
    var n := |data|;
    || (n < 76 && enc == [n] + data)
    || (n < 0x100 && enc == [0x4c, n] + data)
    || (n < 0x1_0000 && enc == [0x4d, n % 256, n / 256] + data)
    || (n < 0x1_0000_0000 && enc == [0x4e, n % 256, n / 256 % 256, n / 0x1_0000 % 256, n / 0x100_0000] + data)
  }

  ghost predicate AllPushed(encs: seq<seq<Byte>>, args: seq<seq<Byte>>) {
    |encs| == |args| && forall i :: 0 <= i < |args| ==> PushedAs(encs[i], args[i])
  }

  function Flat(encs: seq<seq<Byte>>): seq<Byte> { if encs == [] then [] else encs[0] + Flat(encs[1..]) }

  // ---- One push

  lemma Pieces(a: seq<Byte>, head: seq<Byte>, data: seq<Byte>, z: seq<Byte>)
    requires head != []
    ensures var s := a + (head + data) + z;
            && |s| >= |a| + |head| + |data| && s[|a|] == head[0] && s[|a| + 1..|a| + |head|] == head[1..]
            && s[|a| + |head|..|a| + |head| + |data|] == data
  {
  }

  lemma HeadRead(a: seq<Byte>, head: seq<Byte>, data: seq<Byte>, z: seq<Byte>)
    requires head != [] && head[0] <= PUSHDATA4 && |head| == 1 + LengthBytes(head[0])
    requires |data| == if head[0] < PUSHDATA1 then head[0] else Little(head[1..])
    ensures var f := GetOp(a + (head + data) + z, |a|);
            f.ok && f.opcode <= PUSHDATA4 && f.data == data && f.pc == |a + (head + data)|
  {
    Pieces(a, head, data, z);
    hide Little;
  }

  /** The reader takes every form back. */
  lemma PushRead(a: seq<Byte>, enc: seq<Byte>, data: seq<Byte>, z: seq<Byte>)
    requires PushedAs(enc, data)
    ensures var f := GetOp(a + enc + z, |a|); f.ok && f.opcode <= PUSHDATA4 && f.data == data && f.pc == |a + enc|
  {
    hide Little, GetOp;
    var n := |data|;
    if n < 76 && enc == [n] + data {
      HeadRead(a, [n], data, z);
    } else {
      LittleWidths(n);
      var head := enc[..|enc| - n];
      assert enc == head + data;
      HeadRead(a, head, data, z);
    }
  }

  lemma LittleOne(b: seq<Byte>)
    requires |b| == 1
    ensures Little(b) == b[0] < 0x100
  {
    LittleStep(b[0], []);
    assert b == [b[0]] + [];
  }

  lemma LittleTwo(b: seq<Byte>)
    requires |b| == 2
    ensures var n := Little(b); n < 0x1_0000 && b == [n % 256, n / 256]
  {
    LittleOne(b[1..]);
    LittleStep(b[0], b[1..]);
    assert b == [b[0]] + b[1..];
  }

  lemma LittleFour(b: seq<Byte>)
    requires |b| == 4
    ensures var n := Little(b); n < 0x1_0000_0000 && b == [n % 256, n / 256 % 256, n / 0x1_0000 % 256, n / 0x100_0000]
  {
    LittleTwo(b[2..]);
    LittleStep(b[1], b[2..]);
    LittleStep(b[0], b[1..]);
    assert b[1..] == [b[1]] + b[2..] && b == [b[0]] + b[1..];
    hide Little;
    var h := Little(b[2..]);
    FourDigits(b[0], b[1], h);
    assert b[2] == b[2..][0] && b[3] == b[2..][1];
  }

  lemma FourDigits(x: Byte, y: Byte, h: nat)
    requires h < 0x1_0000
    ensures var n := x + 256 * (y + 256 * h);
            && n < 0x1_0000_0000 && n % 256 == x && n / 256 % 256 == y
            && n / 0x1_0000 % 256 == h % 256 && n / 0x100_0000 == h / 256
  {
    var n := x + 256 * (y + 256 * h);
    assert n / 256 == y + 256 * h;
    assert n / 0x1_0000 == h;
    assert n / 0x100_0000 == h / 256;
  }

  /** And whatever it takes as a push is one of them. */
  lemma ReadPush(s: Script, pc: nat)
    requires pc < |s| && GetOp(s, pc).ok && GetOp(s, pc).opcode <= PUSHDATA4
    ensures var f := GetOp(s, pc); pc < f.pc <= |s| && PushedAs(s[pc..f.pc], f.data)
  {
    hide Little, PushedAs;
    var f := GetOp(s, pc);
    var l := s[pc + 1..pc + 1 + LengthBytes(s[pc])];
    assert s[pc..f.pc] == [s[pc]] + l + f.data;
    HeadPushes(s[pc], l, f.data);
  }

  lemma HeadPushes(opcode: Byte, l: seq<Byte>, data: seq<Byte>)
    requires opcode <= PUSHDATA4 && |l| == LengthBytes(opcode)
    requires |data| == if opcode < PUSHDATA1 then opcode else Little(l)
    ensures PushedAs([opcode] + l + data, data)
  {
    if |l| == 1 { LittleOne(l); } else if |l| == 2 { LittleTwo(l); } else if |l| == 4 { LittleFour(l); }
    hide Little;
    if |l| == 0 { assert [opcode] + l + data == [opcode] + data; }
  }

  // ---- The arguments

  /** The argument loop takes any pushes up to a drop. */
  lemma {:induction false} PushesRead(a: seq<Byte>, encs: seq<seq<Byte>>, args: seq<seq<Byte>>, drop: Byte, z: seq<Byte>,
                                      acc: seq<seq<Byte>>)
    requires AllPushed(encs, args) && DropLike(drop)
    ensures Args(a + Flat(encs) + [drop] + z, |a|, acc) == (true, acc + args, |a + Flat(encs)| + 1)
    decreases |encs|
  {
    hide GetOp, PushedAs, Args;
    var s := a + Flat(encs) + [drop] + z;
    ArgsStep(s, |a|, acc);
    if encs == [] {
      assert s[|a|] == drop;
      assert acc + args == acc;
    } else {
      var rest := Flat(encs[1..]) + [drop] + z;
      Reassociate(a, encs[0], Flat(encs[1..]), [drop], z);
      PushRead(a, encs[0], args[0], rest);
      PushesRead(a + encs[0], encs[1..], args[1..], drop, z, acc + [args[0]]);
      assert acc + [args[0]] + args[1..] == acc + args;
    }
  }

  /** And what it takes up to a drop are pushes. */
  lemma {:induction false} ReadPushes(s: Script, pc: nat, acc: seq<seq<Byte>>) returns (encs: seq<seq<Byte>>)
    requires pc <= |s| && Args(s, pc, acc).0
    ensures var (_, args, end) := Args(s, pc, acc);
            && |acc| <= |args| && args[..|acc|] == acc && AllPushed(encs, args[|acc|..])
            && pc < end <= |s| && DropLike(s[end - 1]) && s[pc..end - 1] == Flat(encs)
    decreases |s| - pc
  {
    hide GetOp, PushedAs;
    var f := GetOp(s, pc);
    if DropLike(f.opcode) {
      encs := [];
      DropFetched(s, pc);
    } else {
      ReadPush(s, pc);
      var args := Args(s, pc, acc).1;
      var more := ReadPushes(s, f.pc, acc + [f.data]);
      encs := [s[pc..f.pc]] + more;
      Extended(args, acc, f.data);
      assert encs[1..] == more;
      var end := Args(s, pc, acc).2;
      assert s[pc..end - 1] == s[pc..f.pc] + s[f.pc..end - 1];
    }
  }

  lemma Extended(args: seq<seq<Byte>>, acc: seq<seq<Byte>>, data: seq<Byte>)
    requires |acc| + 1 <= |args| && args[..|acc| + 1] == acc + [data]
    ensures args[..|acc|] == acc && args[|acc|..] == [data] + args[|acc| + 1..]
  {
    assert args[..|acc| + 1][..|acc|] == acc;
    assert args[|acc|] == args[..|acc| + 1][|acc|];
  }

  lemma DropFetched(s: Script, pc: nat)
    requires pc <= |s| && GetOp(s, pc).ok && DropLike(GetOp(s, pc).opcode)
    ensures pc < |s| && DropLike(s[pc]) && GetOp(s, pc).pc == pc + 1
  {
  }

  // ---- The whole script

  /** How many arguments each op takes: eight, five and two for commitment, SET and RELAY, any number for the five kinds
      of message, and none is no alias op. */
  predicate Takes(op: nat, n: nat) {
    (op == 1 && n == 8) || (op == 2 && n == 5) || (op == 3 && n == 2) || op == 5 || op == 6 || op == 7 || op == 9 || op == 16
  }

  /** An op, pushes of the arguments, and a drop; whatever comes then. */
  ghost predicate Shaped(s: Script, op: nat, args: seq<seq<Byte>>, encs: seq<seq<Byte>>, drop: Byte, rest: Script) {
    && 1 <= op <= 16 && Takes(op, |args|) && AllPushed(encs, args) && (drop == 0x75 || drop == 0x6d || drop == 0x61)
    && s == [0x50 + op] + Flat(encs) + [drop] + rest
  }

  lemma ShapedParses(s: Script, op: nat, args: seq<seq<Byte>>, encs: seq<seq<Byte>>, drop: Byte, rest: Script, op0: nat)
    requires Shaped(s, op, args, encs, drop, rest)
    ensures var r := ParseAlias(s, op0); r.ok && r.op == op && r.args == args
  {
    hide PushedAs, Args, Flat, Drops;
    var a: seq<Byte> := [0x50 + op];
    PushesRead(a, encs, args, drop, rest, []);
    assert [] + args == args;
  }

  lemma ParsedShape(s: Script, op0: nat) returns (encs: seq<seq<Byte>>, drop: Byte, rest: Script)
    requires ParseAlias(s, op0).ok
    ensures var r := ParseAlias(s, op0); Shaped(s, r.op, r.args, encs, drop, rest)
  {
    hide PushedAs, Args, Flat, Drops;
    encs := ReadPushes(s, 1, []);
    var end := Args(s, 1, []).2;
    var args := Args(s, 1, []).1;
    assert args[0..] == args;
    drop, rest := s[end - 1], s[end..];
    assert s == [s[0]] + s[1..end - 1] + [drop] + rest;
  }

  /** A script is an alias script of an op and arguments exactly if it has that shape. */
  lemma ParsesExactly(s: Script, op: nat, args: seq<seq<Byte>>, op0: nat)
    ensures (var r := ParseAlias(s, op0); r.ok && r.op == op && r.args == args) <==>
            exists encs, drop, rest :: Shaped(s, op, args, encs, drop, rest)
  {
    hide ParseAlias, Shaped;
    var r := ParseAlias(s, op0);
    if r.ok && r.op == op && r.args == args {
      var encs, drop, rest := ParsedShape(s, op0);
    }
    if encs, drop, rest :| Shaped(s, op, args, encs, drop, rest) {
      ShapedParses(s, op, args, encs, drop, rest, op0);
    }
  }
}

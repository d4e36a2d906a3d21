/** The command bytes of the filter runner: what they decode to, and what each decoded
    operation does to the registers and to the shared working buffer. */
module Commands {

  type Byte = b: int | 0 <= b < 256

  /** The seven macros the commands are made of: a tap of the recursive part, of the finite
      part or of both, the same three closing a stage, and a gain. */
  datatype Op = TapI | TapF | TapB | EndI | EndF | EndB | Amplify

  /** Commands followed by a repeat count. */
  predicate Counted(ch: int) {
    ch == 4 || ch == 8 || ch == 12 || ch == 19 || ch == 20 || ch == 21
  }

  /** The macros one command stands for, once. */
  function Unit(ch: int): seq<Op> {
    match ch
    case 1 => [TapI]
    case 2 => [TapI, TapI]
    case 3 => [TapI, TapI, TapI]
    case 4 => [TapI, TapI, TapI, TapI]
    case 5 => [TapF]
    case 6 => [TapF, TapF]
    case 7 => [TapF, TapF, TapF]
    case 8 => [TapF, TapF, TapF, TapF]
    case 9 => [TapB]
    case 10 => [TapB, TapB]
    case 11 => [TapB, TapB, TapB]
    case 12 => [TapB, TapB, TapB, TapB]
    case 13 => [EndI]
    case 14 => [EndF]
    case 15 => [EndB]
    case 16 => [TapI, EndI]
    case 17 => [TapF, EndF]
    case 18 => [TapB, EndB]
    case 19 => [TapI, EndI]
    case 20 => [TapF, EndF]
    case 21 => [TapB, EndB]
    case 22 => [Amplify]
    case _ => []
  }

  function Repeat(ops: seq<Op>, n: nat): seq<Op> {
    if n == 0 then [] else ops + Repeat(ops, n - 1)
  }

  /** A do-while loop on a count runs at least once. */
  function LoopTimes(count: nat): nat {
    if count == 0 then 1 else count
  }

  /** The length of the first command with its count, if it has one. */
  function HeadLength(cmd: seq<Byte>): (n: nat)
    requires |cmd| > 0
    ensures 1 <= n
  {
    if Counted(cmd[0]) then 2 else 1
  }

  /** What the first command makes the interpreter do. */
  function HeadOps(cmd: seq<Byte>): seq<Op>
    requires |cmd| > 0 && HeadLength(cmd) <= |cmd|
  {
    Repeat(Unit(cmd[0]), if Counted(cmd[0]) then LoopTimes(cmd[1]) else 1)
  }

  /** Everything a command list makes the interpreter do, up to the terminating zero. */
  function Ops(cmd: seq<Byte>): seq<Op> {
    if |cmd| == 0 || cmd[0] == 0 || HeadLength(cmd) > |cmd| then []
    else HeadOps(cmd) + Ops(cmd[HeadLength(cmd)..])
  }

  /** A stretch of whole commands without the terminator. */
  predicate Closed(cmd: seq<Byte>) {
    |cmd| == 0 || (cmd[0] != 0 && HeadLength(cmd) <= |cmd| && Closed(cmd[HeadLength(cmd)..]))
  }

  lemma {:induction false} OpsConcat(c: seq<Byte>, d: seq<Byte>)
    requires Closed(c)
    ensures Ops(c + d) == Ops(c) + Ops(d)
    ensures Closed(d) ==> Closed(c + d)
    decreases |c|
  {
    hide HeadOps, HeadLength, Ops;
    if |c| == 0 {
      assert c + d == d;
      NoOps(c);
      assert [] + Ops(d) == Ops(d);
    } else {
      var l := HeadLength(c);
      SameHead(c, d);
      OpsConcat(c[l..], d);
      FirstOps(c);
      FirstOps(c + d);
      assert HeadOps(c) + Ops(c[l..]) + Ops(d) == HeadOps(c) + (Ops(c[l..]) + Ops(d));
    }
  }

  lemma {:induction false} NoOps(c: seq<Byte>)
    requires |c| == 0
    ensures Ops(c) == []
  {
  }

  lemma {:induction false} FirstOps(c: seq<Byte>)
    requires |c| > 0 && c[0] != 0 && HeadLength(c) <= |c|
    ensures Ops(c) == HeadOps(c) + Ops(c[HeadLength(c)..])
  {
    hide HeadOps;
  }

  lemma {:induction false} SameHead(c: seq<Byte>, d: seq<Byte>)
    requires |c| > 0 && HeadLength(c) <= |c|
    ensures HeadLength(c + d) == HeadLength(c) && HeadOps(c + d) == HeadOps(c)
    ensures (c + d)[HeadLength(c)..] == c[HeadLength(c)..] + d && (c + d)[0] == c[0]
  {
    hide Unit, Repeat;
  }

  /** A terminated list: whole commands, then zero. */
  predicate Terminated(cmd: seq<Byte>) {
    |cmd| > 0 && cmd[|cmd| - 1] == 0 && Closed(cmd[..|cmd| - 1])
  }

  // ------------------------------------------------------ coefficients and slots used

  function CoefUse(ops: seq<Op>): nat {
    if |ops| == 0 then 0 else Coefs(ops[0]) + CoefUse(ops[1..])
  }

  function Coefs(op: Op): nat {
    match op
    case TapI => 1
    case TapF => 1
    case TapB => 2
    case EndI => 1
    case EndF => 2
    case EndB => 3
    case Amplify => 1
  }

  function SlotUse(ops: seq<Op>): nat {
    if |ops| == 0 then 0 else (if ops[0] == Amplify then 0 else 1) + SlotUse(ops[1..])
  }

  lemma {:induction false} UseConcat(a: seq<Op>, b: seq<Op>)
    ensures CoefUse(a + b) == CoefUse(a) + CoefUse(b)
    ensures SlotUse(a + b) == SlotUse(a) + SlotUse(b)
    decreases |a|
  {
    if |a| == 0 {
      assert a + b == b;
    } else {
      assert (a + b)[1..] == a[1..] + b;
      UseConcat(a[1..], b);
    }
  }

  lemma {:induction false} UseRepeat(ops: seq<Op>, n: nat)
    ensures CoefUse(Repeat(ops, n)) == n * CoefUse(ops)
    ensures SlotUse(Repeat(ops, n)) == n * SlotUse(ops)
    decreases n
  {
    if n > 0 {
      calc {
        CoefUse(Repeat(ops, n));
        { UseConcat(ops, Repeat(ops, n - 1)); }
        CoefUse(ops) + CoefUse(Repeat(ops, n - 1));
        { UseRepeat(ops, n - 1); }
        CoefUse(ops) + (n - 1) * CoefUse(ops);
        n * CoefUse(ops);
      }
      calc {
        SlotUse(Repeat(ops, n));
        { UseConcat(ops, Repeat(ops, n - 1)); }
        SlotUse(ops) + SlotUse(Repeat(ops, n - 1));
        { UseRepeat(ops, n - 1); }
        SlotUse(ops) + (n - 1) * SlotUse(ops);
        n * SlotUse(ops);
      }
    }
  }

  // ------------------------------------------------------------------- the machine

  /** The interpreter in the middle of a step: the registers, the coefficients still to be
      read, the buffer slots already passed, and those still ahead. */
  datatype Machine = Machine(iir: real, fir: real, tmp: real, coef: seq<real>, out: seq<real>, rest: seq<real>)

  predicate Enough(ops: seq<Op>, m: Machine) {
    CoefUse(ops) <= |m.coef| && SlotUse(ops) <= |m.rest|
  }

  /** One multiply-accumulate, and its counterpart that subtracts. */
  function Acc(sum: real, c: real, t: real): real {
    sum + c * t
  }

  function Dec(sum: real, c: real, t: real): real {
    sum - c * t
  }

  /** One macro. */
  function Micro(op: Op, m: Machine): Machine
    requires Coefs(op) <= |m.coef| && (op == Amplify || |m.rest| > 0)
  {
    var c := m.coef;
    if op == Amplify then m.(iir := m.iir * c[0], coef := c[1..])
    else
      var recursive := op == TapI || op == TapB || op == EndI || op == EndB;
      var finite := op == TapF || op == TapB || op == EndF || op == EndB;
      var iir := if recursive then Dec(m.iir, c[0], m.tmp) else m.iir;
      var c1 := if recursive then c[1..] else c;
      var fir := if finite then Acc(m.fir, c1[0], m.tmp) else m.fir;
      var c2 := if finite then c1[1..] else c1;
      var next, rest := m.rest[0], m.rest[1..];
      if op == EndI then Machine(iir, fir, next, c2, m.out + [iir], rest)
      else if op == EndF || op == EndB then Machine(Acc(fir, c2[0], iir), 0.0, next, c2[1..], m.out + [iir], rest)
      else Machine(iir, fir, next, c2, m.out + [next], rest)
  }

  function RunOps(ops: seq<Op>, m: Machine): (r: Machine)
    requires Enough(ops, m)
    ensures |r.coef| == |m.coef| - CoefUse(ops) && |r.rest| == |m.rest| - SlotUse(ops)
    ensures |r.out| == |m.out| + SlotUse(ops)
    decreases |ops|
  {
    if |ops| == 0 then m else RunOps(ops[1..], Micro(ops[0], m))
  }

  lemma {:induction false} RunConcat(a: seq<Op>, b: seq<Op>, m: Machine)
    requires Enough(a + b, m)
    ensures Enough(a, m) && Enough(b, RunOps(a, m))
    ensures RunOps(a + b, m) == RunOps(b, RunOps(a, m))
    decreases |a|
  {
    UseConcat(a, b);
    if |a| == 0 {
      assert a + b == b;
    } else {
      assert (a + b)[1..] == a[1..] + b;
      RunConcat(a[1..], b, Micro(a[0], m));
    }
  }

  /** The machine at the start of a step: the buffer is shifted down by one slot, its last
      slot keeps its value, and the displaced first value is in tmp. */
  function Start(coef: seq<real>, buf: seq<real>, x: real): Machine
    requires |buf| > 0
  {
    Machine(x, 0.0, buf[0], coef, [], buf[1..] + [buf[|buf| - 1]])
  }
}

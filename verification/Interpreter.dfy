/** The interpreter: one sample through the command list, updating the shared buffer in
    place. */
module Interpreter {
  import opened Commands

  /** The registers of a step in progress: read positions in the coefficient list and in
      the buffer, and the three values threaded through the macros. */
  datatype Registers = Registers(k: nat, j: nat, iir: real, fir: real, tmp: real)

  /** Registers and buffer seen as the machine of the specification. */
  ghost function View(r: Registers, coef: seq<real>, buf: seq<real>): Machine
    requires r.k <= |coef| && r.j <= |buf|
  {
    Machine(r.iir, r.fir, r.tmp, coef[r.k..], buf[..r.j], buf[r.j..])
  }

  /** One macro on the real buffer. */
  method Perform(op: Op, coef: seq<real>, buf: array<real>, r: Registers) returns (s: Registers)
    requires r.k + Coefs(op) <= |coef| && r.j + (if op == Amplify then 0 else 1) <= buf.Length
    modifies buf
    ensures s.k == r.k + Coefs(op) && s.j == r.j + (if op == Amplify then 0 else 1)
    ensures View(s, coef, buf[..]) == Micro(op, View(r, coef, old(buf[..])))
  {
    if op == Amplify {
      s := r.(iir := r.iir * coef[r.k], k := r.k + 1);
      return;
    }
    var k, iir, fir := r.k, r.iir, r.fir;
    if op == TapI || op == TapB || op == EndI || op == EndB {
      iir := Dec(iir, coef[k], r.tmp);
      k := k + 1;
    }
    if op == TapF || op == TapB || op == EndF || op == EndB {
      fir := Acc(fir, coef[k], r.tmp);
      k := k + 1;
    }
    var tmp, j := buf[r.j], r.j + 1;
    if op == EndI || op == EndF || op == EndB {
      buf[j - 1] := iir;
    }
    if op == EndF || op == EndB {
      iir := Acc(fir, coef[k], iir);
      fir := 0.0;
      k := k + 1;
    }
    s := Registers(k, j, iir, fir, tmp);
    ghost var c, b := coef[r.k..], old(buf[..]);
    assert Coefs(op) > 0 && c[1..] == coef[r.k + 1..];
    assert Coefs(op) > 1 ==> c[1..][1..] == coef[r.k + 2..];
    assert Coefs(op) > 2 ==> c[1..][1..][1..] == coef[r.k + 3..];
    assert buf[..j] == b[..r.j] + [buf[r.j]] && buf[j..] == b[r.j..][1..];
  }

  /** The macros of one command, once. */
  method PerformAll(ops: seq<Op>, coef: seq<real>, buf: array<real>, r: Registers) returns (s: Registers)
    requires r.k + CoefUse(ops) <= |coef| && r.j + SlotUse(ops) <= buf.Length
    modifies buf
    ensures s.k == r.k + CoefUse(ops) && s.j == r.j + SlotUse(ops)
    ensures View(s, coef, buf[..]) == RunOps(ops, View(r, coef, old(buf[..])))
  {
    hide Micro;
    s := r;
    ghost var before := View(r, coef, buf[..]);
    var i := 0;
    while i < |ops|
      invariant 0 <= i <= |ops|
      invariant s.k + CoefUse(ops[i..]) == r.k + CoefUse(ops) && s.j + SlotUse(ops[i..]) == r.j + SlotUse(ops)
      invariant RunOps(ops[i..], View(s, coef, buf[..])) == RunOps(ops, before)
    {
      assert ops[i..][0] == ops[i] && ops[i..][1..] == ops[i + 1..];
      s := Perform(ops[i], coef, buf, s);
      i := i + 1;
    }
  }

  /** A command with its count: a do-while loop that counts down a byte. */
  method PerformCounted(unit: seq<Op>, count: nat, coef: seq<real>, buf: array<real>, r: Registers) returns (s: Registers)
    requires var ops := Repeat(unit, LoopTimes(count));
      r.k + CoefUse(ops) <= |coef| && r.j + SlotUse(ops) <= buf.Length
    modifies buf
    ensures var ops := Repeat(unit, LoopTimes(count));
      && s.k == r.k + CoefUse(ops) && s.j == r.j + SlotUse(ops)
      && View(s, coef, buf[..]) == RunOps(ops, View(r, coef, old(buf[..])))
  {
    hide RunOps, CoefUse, SlotUse;
    s := r;
    var cnt: int := count;
    var again := true;
    ghost var before, all := View(r, coef, buf[..]), Repeat(unit, LoopTimes(count));
    ghost var left := LoopTimes(count);
    while again
      invariant if again then cnt >= 0 && left == LoopTimes(cnt) else left == 0
      invariant var ops := Repeat(unit, left);
        && s.k + CoefUse(ops) == r.k + CoefUse(all) && s.j + SlotUse(ops) == r.j + SlotUse(all)
        && RunOps(ops, View(s, coef, buf[..])) == RunOps(all, before)
      decreases left
    {
      UseConcat(unit, Repeat(unit, left - 1));
      RunConcat(unit, Repeat(unit, left - 1), View(s, coef, buf[..]));
      s := PerformAll(unit, coef, buf, s);
      cnt := cnt - 1;
      again := cnt > 0;
      left := left - 1;
    }
    NothingLeft(View(s, coef, buf[..]));
  }

  lemma {:induction false} NothingLeft(m: Machine)
    ensures CoefUse([]) == 0 && SlotUse([]) == 0 && RunOps([], m) == m
  {
  }

  /** Shifts the whole buffer down by one slot; the last slot keeps its value. */
  method ShiftDown(buf: array<real>)
    requires buf.Length > 0
    modifies buf
    ensures buf[..] == old(buf[1..]) + [old(buf[buf.Length - 1])]
  {
    forall i | 0 <= i < buf.Length - 1 {
      buf[i] := buf[i + 1];
    }
  }

  /** The command at ci, with its count if it has one. */
  method StepCommand(coef: seq<real>, cmd: seq<Byte>, buf: array<real>, ci: nat, r: Registers) returns (ciEnd: nat, s: Registers)
    requires Terminates(cmd, ci) && cmd[ci] != 0 && Fits(cmd, ci, coef, buf.Length, r)
    modifies buf
    ensures ci < ciEnd && Terminates(cmd, ciEnd) && Fits(cmd, ciEnd, coef, buf.Length, s)
    ensures RunOps(Ops(cmd[ciEnd..]), View(s, coef, buf[..])) == old(RunOps(Ops(cmd[ci..]), View(r, coef, buf[..])))
  {
    hide RunOps, CoefUse, SlotUse, Repeat, Unit, Ops, Closed;
    NextCommand(cmd, ci);
    var ch, count := cmd[ci], 1;
    ciEnd := ci + 1;
    if Counted(ch) {
      count := cmd[ciEnd];
      ciEnd := ciEnd + 1;
    }
    ghost var ops := Repeat(Unit(ch), LoopTimes(count));
    UseConcat(ops, Ops(cmd[ciEnd..]));
    RunConcat(ops, Ops(cmd[ciEnd..]), View(r, coef, buf[..]));
    s := PerformCounted(Unit(ch), count, coef, buf, r);
  }

  ghost predicate Terminates(cmd: seq<Byte>, ci: nat) {
    ci < |cmd| && cmd[|cmd| - 1] == 0 && Closed(cmd[ci..|cmd| - 1])
  }

  ghost predicate Fits(cmd: seq<Byte>, ci: nat, coef: seq<real>, length: nat, r: Registers)
    requires ci <= |cmd|
  {
    r.k + CoefUse(Ops(cmd[ci..])) <= |coef| && r.j + SlotUse(Ops(cmd[ci..])) <= length
  }

  /** One sample through a command list.  The oldest value of the first segment is kept in
      a register before one shift moves all segments at once. */
  method FilterStep(coef: seq<real>, cmd: seq<Byte>, buf: array<real>, x: real) returns (y: real)
    requires Terminated(cmd) && buf.Length > 0
    requires CoefUse(Ops(cmd)) <= |coef| && SlotUse(Ops(cmd)) <= buf.Length
    modifies buf
    ensures var m := RunOps(Ops(cmd), Start(coef, old(buf[..]), x));
      y == m.iir && buf[..] == m.out + m.rest
  {
    hide RunOps, CoefUse, SlotUse, Ops, Closed;
    ghost var start := Start(coef, buf[..], x);
    var r := Registers(0, 0, x, 0.0, buf[0]);
    ShiftDown(buf);
    assert View(r, coef, buf[..]) == start;
    var ci := 0;
    assert cmd[0..] == cmd && cmd[0..|cmd| - 1] == cmd[..|cmd| - 1];
    while cmd[ci] != 0
      invariant Terminates(cmd, ci) && Fits(cmd, ci, coef, buf.Length, r)
      invariant RunOps(Ops(cmd[ci..]), View(r, coef, buf[..])) == RunOps(Ops(cmd), start)
      decreases |cmd| - ci
    {
      ci, r := StepCommand(coef, cmd, buf, ci, r);
    }
    NoMoreOps(cmd[ci..], View(r, coef, buf[..]));
    y := r.iir;
  }

  lemma {:induction false} NoMoreOps(cmd: seq<Byte>, m: Machine)
    requires |cmd| > 0 && cmd[0] == 0
    ensures Ops(cmd) == [] && RunOps(Ops(cmd), m) == m
  {
  }

  /** The first command of what is left, and what is left after it. */
  lemma {:induction false} NextCommand(cmd: seq<Byte>, ci: nat)
    requires |cmd| > 0 && ci <= |cmd| - 1 && Closed(cmd[ci..|cmd| - 1]) && cmd[|cmd| - 1] == 0 && cmd[ci] != 0
    ensures var l := HeadLength(cmd[ci..]); var end := |cmd| - 1;
      && ci + l <= end && Closed(cmd[ci + l..end])
      && Ops(cmd[ci..]) == Repeat(Unit(cmd[ci]), LoopTimes(if Counted(cmd[ci]) then cmd[ci + 1] else 1)) + Ops(cmd[ci + l..])
  {
    var l, end := HeadLength(cmd[ci..]), |cmd| - 1;
    assert ci < end;
    assert cmd[ci..end][0] == cmd[ci] && cmd[ci..end][l..] == cmd[ci + l..end];
    assert cmd[ci..][0] == cmd[ci] && cmd[ci..][l..] == cmd[ci + l..];
  }
}

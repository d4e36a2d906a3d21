/** The command bytes the compiler emits for a list of pairs, and what they decode to. */
module Emission {
  import opened Commands
  import opened Stages
  import opened Pairing

  /** The bytes so far; prev is the last command if it may still be merged with the next
      one, and 0 otherwise. */
  datatype Code = Code(cmd: seq<Byte>, prev: Byte)

  function Max(a: nat, b: nat): nat {
    if a > b then a else b
  }

  function Gap(a: nat, b: nat): nat {
    if a > b then a - b else 0
  }

  /** The bytes for n taps of one kind: counted groups of four, then up to three more. */
  function Chunks(base: Byte, n: nat): seq<Byte>
    requires base <= 8
    decreases n
  {
    if n >= 4 then
      var groups := if n / 4 > 255 then 255 else n / 4;
      [base + 4, groups] + Chunks(base, n - 4 * groups)
    else if n > 0 then [base + n]
    else []
  }

  /** A pair without a code of its own: leading taps of the longer half, taps of both, and
      the tap that closes the stage. */
  function GeneralCode(ni: nat, nf: nat): seq<Byte> {
    Chunks(0, OnlyI(ni, nf)) + Chunks(4, OnlyF(ni, nf)) + Chunks(8, Common(ni, nf))
    + [if nf < 2 then 13 else if ni < 2 then 14 else 15]
  }

  /** The single command for a pair of three taps, 0 for any other pair. */
  function Shape(p: Pair): Byte {
    if |p.iir| == 3 && |p.fir| == 3 then 18
    else if |p.iir| == 1 && |p.fir| == 3 then 17
    else if |p.iir| == 3 && |p.fir| == 1 then 16
    else 0
  }

  /** Incrementing an unsigned char. */
  function Increment(b: Byte): Byte {
    (b as int + 1) % 256
  }

  /** One more three-tap pair: a second one turns the command into a counted one, later ones
      increment the count, which is a byte. */
  function EmitRun(c: Code, shape: Byte): Code
    requires 16 <= shape <= 18 && (c.prev != 0 ==> |c.cmd| > 0)
  {
    var l := |c.cmd| - 1;
    if c.prev == shape then Code(c.cmd[..l] + [shape + 3, 2], shape + 3)
    else if c.prev == shape + 3 then Code(c.cmd[..l] + [Increment(c.cmd[l])], shape + 3)
    else Code(c.cmd + [shape], shape)
  }

  function Emit(c: Code, p: Pair): (r: Code)
    requires c.prev != 0 ==> |c.cmd| > 0
    ensures r.prev != 0 ==> |r.cmd| > 0
  {
    if Shape(p) != 0 then EmitRun(c, Shape(p)) else Code(c.cmd + GeneralCode(|p.iir|, |p.fir|), 0)
  }

  function EmitAll(c: Code, ps: seq<Pair>): (r: Code)
    requires c.prev != 0 ==> |c.cmd| > 0
    decreases |ps|
  {
    if |ps| == 0 then c else EmitAll(Emit(c, ps[0]), ps[1..])
  }

  // --------------------------------------------------- the general case decodes well

  lemma {:induction false} RepeatAppends(ops: seq<Op>, n: nat, m: nat)
    ensures Repeat(ops, n) + Repeat(ops, m) == Repeat(ops, n + m)
    decreases n
  {
    if n == 0 {
      assert [] + Repeat(ops, m) == Repeat(ops, m);
    } else {
      RepeatAppends(ops, n - 1, m);
      Regroup(ops, Repeat(ops, n - 1), Repeat(ops, m));
    }
  }

  /** The tap a chunk is made of. */
  function TapOf(base: Byte): Op {
    if base == 0 then TapI else if base == 4 then TapF else TapB
  }

  lemma {:induction false} SmallRepeats(op: Op)
    ensures Repeat([op], 1) == [op]
    ensures Repeat([op], 2) == [op, op]
    ensures Repeat([op], 3) == [op, op, op]
    ensures Repeat([op], 4) == [op, op, op, op]
  {
    assert Repeat([op], 1) == [op] + Repeat([op], 0);
    assert Repeat([op], 2) == [op] + Repeat([op], 1);
    assert Repeat([op], 3) == [op] + Repeat([op], 2);
    assert Repeat([op], 4) == [op] + Repeat([op], 3);
  }

  lemma {:induction false} RepeatFour(op: Op, n: nat)
    ensures Repeat([op, op, op, op], n) == Repeat([op], 4 * n)
    decreases n
  {
    if n > 0 {
      RepeatFour(op, n - 1);
      SmallRepeats(op);
      RepeatAppends([op], 4, 4 * (n - 1));
    }
  }

  lemma {:induction false} ChunksDecode(base: Byte, n: nat)
    requires base == 0 || base == 4 || base == 8
    ensures Closed(Chunks(base, n)) && Ops(Chunks(base, n)) == Repeat([TapOf(base)], n)
    decreases n
  {
    var op := TapOf(base);
    if n >= 4 {
      var groups := if n / 4 > 255 then 255 else n / 4;
      var tail := Chunks(base, n - 4 * groups);
      var c := Chunks(base, n);
      assert c == [base + 4, groups] + tail && c[2..] == tail;
      ChunksDecode(base, n - 4 * groups);
      assert Unit(base + 4) == [op, op, op, op];
      RepeatFour(op, groups);
      RepeatAppends([op], 4 * groups, n - 4 * groups);
      assert HeadOps(c) == Repeat([op, op, op, op], groups);
    } else if n > 0 {
      SmallChunk(base, n);
    }
  }

  lemma {:induction false} SmallChunk(base: Byte, n: nat)
    requires (base == 0 || base == 4 || base == 8) && 0 < n < 4
    ensures Closed([base + n]) && Ops([base + n]) == Repeat([TapOf(base)], n)
  {
    var op, c := TapOf(base), [(base + n) as Byte];
    assert c[1..] == [];
    assert HeadOps(c) == Unit(base + n) + Repeat(Unit(base + n), 0) == Unit(base + n);
    SmallRepeats(op);
  }

  lemma {:induction false} OneCommand(ch: Byte)
    requires ch != 0 && !Counted(ch)
    ensures Closed([ch]) && Ops([ch]) == Unit(ch)
  {
    assert [ch][1..] == [];
    assert Repeat(Unit(ch), 1) == Unit(ch) + Repeat(Unit(ch), 0);
  }

  /** Taps k down to j + 1 of one kind, then the rest. */
  lemma {:induction false} TapsOfKind(k: nat, j: nat, ni: nat, nf: nat, op: Op)
    requires 1 <= j <= k && forall i :: j < i <= k ==> OpAt(i, ni, nf) == op
    ensures TapsFrom(k, ni, nf) == Repeat([op], k - j) + TapsFrom(j, ni, nf)
    decreases k
  {
    if k > j {
      TapsOfKind(k - 1, j, ni, nf, op);
      Regroup([op], Repeat([op], k - 1 - j), TapsFrom(j, ni, nf));
    }
  }

  /** How many leading taps a general pair has of each kind. */
  function OnlyI(ni: nat, nf: nat): nat {
    Gap(ni, Max(nf, 2))
  }

  function OnlyF(ni: nat, nf: nat): nat {
    Gap(nf, Max(ni, 2))
  }

  function Common(ni: nat, nf: nat): nat {
    if ni < nf then Gap(ni, 2) else Gap(nf, 2)
  }

  lemma {:induction false} TapsSplit(ni: nat, nf: nat)
    requires ni > 0 && nf > 0 && (ni > 1 || nf > 1)
    ensures TapsFrom(Max(ni, nf) - 1, ni, nf)
         == Repeat([TapI], OnlyI(ni, nf)) + (Repeat([TapF], OnlyF(ni, nf)) + (Repeat([TapB], Common(ni, nf)) + [OpAt(1, ni, nf)]))
  {
    hide TapsFrom, Repeat;
    var a, b, k := OnlyI(ni, nf), OnlyF(ni, nf), Max(ni, nf) - 1;
    TapsOfKind(k, k - a, ni, nf, TapI);
    TapsOfKind(k - a, k - a - b, ni, nf, TapF);
    TapsOfKind(k - a - b, 1, ni, nf, TapB);
    LastOp(ni, nf);
  }

  lemma {:induction false} LastOp(ni: nat, nf: nat)
    ensures TapsFrom(1, ni, nf) == [OpAt(1, ni, nf)]
  {
    assert TapsFrom(1, ni, nf) == [OpAt(1, ni, nf)] + TapsFrom(0, ni, nf);
  }

  lemma {:induction false} Kinds()
    ensures TapOf(0) == TapI && TapOf(4) == TapF && TapOf(8) == TapB
  {
  }

  lemma {:induction false} GeneralDecodes(ni: nat, nf: nat)
    requires ni > 0 && nf > 0 && (ni > 1 || nf > 1)
    ensures Closed(GeneralCode(ni, nf)) && Ops(GeneralCode(ni, nf)) == TapsFrom(Max(ni, nf) - 1, ni, nf)
  {
    hide Ops, Closed, Chunks, TapsFrom, Repeat, OnlyI, OnlyF, Common, TapOf;
    var ca, cb, cc := Chunks(0, OnlyI(ni, nf)), Chunks(4, OnlyF(ni, nf)), Chunks(8, Common(ni, nf));
    var last: Byte := if nf < 2 then 13 else if ni < 2 then 14 else 15;
    ChunksDecode(0, OnlyI(ni, nf));
    ChunksDecode(4, OnlyF(ni, nf));
    ChunksDecode(8, Common(ni, nf));
    Kinds();
    OneCommand(last);
    OpsConcat(cc, [last]);
    OpsConcat(cb, cc + [last]);
    OpsConcat(ca, cb + (cc + [last]));
    Regroup(ca + cb, cc, [last]);
    Regroup(ca, cb, cc + [last]);
    assert GeneralCode(ni, nf) == ca + (cb + (cc + [last]));
    TapsSplit(ni, nf);
  }

  // ------------------------------------------------------ runs of three-tap pairs

  /** What a pair should make the interpreter do. */
  function PairOps(p: Pair): seq<Op>
    requires IsPair(p)
  {
    StageOps(Lower(p))
  }

  function AllPairOps(ps: seq<Pair>): seq<Op>
    requires ArePairs(ps)
  {
    if |ps| == 0 then [] else PairOps(ps[0]) + AllPairOps(ps[1..])
  }

  predicate IsShape(s: Byte) {
    s == 16 || s == 17 || s == 18
  }

  /** The number of times the command for a run of n pairs is carried out: the count is a
      byte, and a count of zero still means once. */
  function Performed(n: nat): nat {
    if n == 0 then 0 else LoopTimes(n % 256)
  }

  /** What the code for the pairs ps really makes the interpreter do, with n pairs of the
      shape s still open before them. */
  function Executed(ps: seq<Pair>, s: Byte, n: nat): seq<Op>
    requires ArePairs(ps)
    decreases |ps|
  {
    if |ps| == 0 then Repeat(Unit(s), Performed(n))
    else if Shape(ps[0]) == 0 then Repeat(Unit(s), Performed(n)) + (PairOps(ps[0]) + Executed(ps[1..], 0, 0))
    else if Shape(ps[0]) == s then Executed(ps[1..], s, n + 1)
    else Repeat(Unit(s), Performed(n)) + Executed(ps[1..], Shape(ps[0]), 1)
  }

  /** No run of equal three-tap pairs is too long for its byte count. */
  predicate RunsFit(ps: seq<Pair>, s: Byte, n: nat)
    decreases |ps|
  {
    if |ps| == 0 then n <= 255
    else if Shape(ps[0]) == 0 then n <= 255 && RunsFit(ps[1..], 0, 0)
    else if Shape(ps[0]) == s then RunsFit(ps[1..], s, n + 1)
    else n <= 255 && RunsFit(ps[1..], Shape(ps[0]), 1)
  }

  /** The bytes of a run of n pairs. */
  function RunTail(s: Byte, n: nat): seq<Byte>
    requires n > 0 ==> IsShape(s)
  {
    if n == 0 then [] else if n == 1 then [s] else [s + 3, n % 256]
  }

  lemma {:induction false} TailDecodes(s: Byte, n: nat)
    requires n > 0 ==> IsShape(s)
    ensures Closed(RunTail(s, n)) && Ops(RunTail(s, n)) == Repeat(Unit(s), Performed(n))
  {
    var t := RunTail(s, n);
    if n == 1 {
      OneCommand(s);
      assert Repeat(Unit(s), 1) == Unit(s) + Repeat(Unit(s), 0) == Unit(s);
    } else if n > 1 {
      assert t[2..] == [] && HeadOps(t) == Repeat(Unit(s), Performed(n));
    }
  }

  /** The code emitted so far: closed code, then an open run of n pairs of shape s. */
  predicate Opened(c: Code, base: seq<Byte>, s: Byte, n: nat) {
    && Closed(base)
    && (if n == 0 then s == 0 else IsShape(s))
    && c.cmd == base + RunTail(s, n)
    && c.prev == (if n <= 1 then s else s + 3)
  }

  /** Closing an open run and adding whole commands. */
  lemma {:induction false} CloseRun(c: Code, base: seq<Byte>, s: Byte, n: nat, more: seq<Byte>)
    requires Opened(c, base, s, n) && Closed(more)
    ensures Closed(c.cmd + more) && Ops(c.cmd + more) == Ops(base) + (Repeat(Unit(s), Performed(n)) + Ops(more))
  {
    hide Ops, Closed, RunTail, Repeat, Unit, Performed;
    var t := RunTail(s, n);
    TailDecodes(s, n);
    OpsConcat(t, more);
    OpsConcat(base, t + more);
    Regroup(base, t, more);
  }

  lemma {:induction false} RunGrows(c: Code, base: seq<Byte>, s: Byte, n: nat)
    requires Opened(c, base, s, n) && n > 0
    ensures Opened(EmitRun(c, s), base, s, n + 1)
  {
    hide Closed, Increment;
    var l := |c.cmd| - 1;
    if n == 1 {
      assert c.cmd[..l] == base;
    } else {
      assert c.cmd[..l] == base + [s + 3] && c.cmd[l] == n % 256;
      CountGrows(n);
      assert base + [s + 3] + [(n + 1) % 256] == base + [s + 3, (n + 1) % 256];
    }
  }

  lemma {:induction false} CountGrows(n: nat)
    ensures Increment(n % 256) == (n + 1) % 256
  {
  }

  /** The emitted code decodes to the executed operations. */
  lemma {:induction false} EmitMeaning(c: Code, base: seq<Byte>, s: Byte, n: nat, ps: seq<Pair>)
    requires Opened(c, base, s, n) && ArePairs(ps)
    ensures Closed(EmitAll(c, ps).cmd) && Ops(EmitAll(c, ps).cmd) == Ops(base) + Executed(ps, s, n)
    decreases |ps|
  {
    hide Ops, Closed, Repeat, Unit, Performed, GeneralCode;
    if |ps| == 0 {
      NoCode();
      CloseRun(c, base, s, n, []);
      assert c.cmd + [] == c.cmd && Repeat(Unit(s), Performed(n)) + [] == Repeat(Unit(s), Performed(n));
    } else {
      var p, rest := ps[0], ps[1..];
      var e := Emit(c, p);
      if Shape(p) == 0 {
        var more := GeneralCode(|p.iir|, |p.fir|);
        GeneralDecodes(|p.iir|, |p.fir|);
        CloseRun(c, base, s, n, more);
        NothingOpen(e);
        EmitMeaning(e, e.cmd, 0, 0, rest);
        Regroup(Repeat(Unit(s), Performed(n)), Ops(more), Executed(rest, 0, 0));
        Regroup(Ops(base), Repeat(Unit(s), Performed(n)) + Ops(more), Executed(rest, 0, 0));
      } else if Shape(p) == s {
        RunGrows(c, base, s, n);
        EmitMeaning(e, base, s, n + 1, rest);
      } else {
        NoCode();
        CloseRun(c, base, s, n, []);
        assert c.cmd + [] == c.cmd && Repeat(Unit(s), Performed(n)) + [] == Repeat(Unit(s), Performed(n));
        EmitMeaning(e, c.cmd, Shape(p), 1, rest);
        Regroup(Ops(base), Repeat(Unit(s), Performed(n)), Executed(rest, Shape(p), 1));
      }
    }
  }

  lemma {:induction false} NoCode()
    ensures Closed([]) && Ops([]) == []
  {
  }

  lemma {:induction false} NothingOpen(e: Code)
    requires Closed(e.cmd) && e.prev == 0
    ensures Opened(e, e.cmd, 0, 0)
  {
    assert e.cmd + [] == e.cmd;
  }

  lemma {:induction false} ShapeOps(p: Pair)
    requires IsPair(p) && Shape(p) != 0
    ensures PairOps(p) == Unit(Shape(p))
  {
    var ni, nf := |p.iir|, |p.fir|;
    assert TapsFrom(2, ni, nf) == [OpAt(2, ni, nf)] + ([OpAt(1, ni, nf)] + TapsFrom(0, ni, nf));
  }

  /** If all runs fit, the code does what the pairs ask for. */
  lemma {:induction false} FittingRunsExecute(ps: seq<Pair>, s: Byte, n: nat)
    requires ArePairs(ps) && RunsFit(ps, s, n)
    ensures Executed(ps, s, n) == Repeat(Unit(s), n) + AllPairOps(ps)
    decreases |ps|
  {
    hide Unit, PairOps;
    if |ps| > 0 {
      var p, rest := ps[0], ps[1..];
      if Shape(p) == 0 {
        FittingRunsExecute(rest, 0, 0);
        assert Repeat(Unit(0), 0) + AllPairOps(rest) == AllPairOps(rest);
        FittingCount(rest, 0, 0);
      } else {
        ShapeOps(p);
        var u := Unit(Shape(p));
        assert Repeat(u, 1) == u + Repeat(u, 0) == u;
        if Shape(p) == s {
          FittingRunsExecute(rest, s, n + 1);
          RepeatAppends(u, n, 1);
          Regroup(Repeat(u, n), u, AllPairOps(rest));
        } else {
          FittingRunsExecute(rest, Shape(p), 1);
        }
      }
    } else {
      assert Repeat(Unit(s), n) + [] == Repeat(Unit(s), n);
    }
  }

  lemma {:induction false} FittingCount(ps: seq<Pair>, s: Byte, n: nat)
    requires RunsFit(ps, s, n)
    ensures n <= 255
    decreases |ps|
  {
    if |ps| > 0 && Shape(ps[0]) != 0 && Shape(ps[0]) == s { FittingCount(ps[1..], s, n + 1); }
  }

  /** The coefficients emitted for an open run. */
  function RunUse(s: Byte, n: nat): nat {
    n * CoefUse(Unit(s))
  }

  /** The buffer slots reserved for it. */
  function RunSlots(s: Byte, n: nat): nat {
    n * SlotUse(Unit(s))
  }

  lemma {:induction false} RunUseSteps(s: Byte, n: nat)
    ensures RunUse(s, 0) == 0 && RunUse(s, 1) == CoefUse(Unit(s))
    ensures RunUse(s, n + 1) == RunUse(s, n) + CoefUse(Unit(s))
    ensures RunSlots(s, 0) == 0 && RunSlots(s, 1) == SlotUse(Unit(s))
    ensures RunSlots(s, n + 1) == RunSlots(s, n) + SlotUse(Unit(s))
  {
    var u, v := CoefUse(Unit(s)), SlotUse(Unit(s));
    assert (n + 1) * u == n * u + u && (n + 1) * v == n * v + v;
  }

  /** The interpreter stays in step with the compiler, reading exactly the coefficients
      that were emitted, if and only if all runs fit. */
  lemma {:induction false} InStepIffRunsFit(ps: seq<Pair>, s: Byte, n: nat)
    requires ArePairs(ps) && (if n == 0 then s == 0 else IsShape(s))
    ensures CoefUse(Executed(ps, s, n)) <= RunUse(s, n) + CoefUse(AllPairOps(ps))
    ensures CoefUse(Executed(ps, s, n)) == RunUse(s, n) + CoefUse(AllPairOps(ps)) <==> RunsFit(ps, s, n)
    ensures SlotUse(Executed(ps, s, n)) <= RunSlots(s, n) + SlotUse(AllPairOps(ps))
    decreases |ps|
  {
    hide Unit, PairOps, RunUse, RunSlots, Performed, Repeat;
    PerformedUse(s, n);
    if |ps| > 0 {
      var p, rest := ps[0], ps[1..];
      var done := Repeat(Unit(s), Performed(n));
      UseConcat(PairOps(p), AllPairOps(rest));
      if Shape(p) == 0 {
        InStepIffRunsFit(rest, 0, 0);
        RunUseSteps(0, 0);
        UseConcat(done, PairOps(p) + Executed(rest, 0, 0));
        UseConcat(PairOps(p), Executed(rest, 0, 0));
      } else {
        ShapeOps(p);
        RunUseSteps(Shape(p), n);
        if Shape(p) == s {
          InStepIffRunsFit(rest, s, n + 1);
        } else {
          InStepIffRunsFit(rest, Shape(p), 1);
          UseConcat(done, Executed(rest, Shape(p), 1));
        }
      }
    }
  }

  lemma {:induction false} PerformedUse(s: Byte, n: nat)
    requires if n == 0 then s == 0 else IsShape(s)
    ensures CoefUse(Repeat(Unit(s), Performed(n))) <= RunUse(s, n)
    ensures CoefUse(Repeat(Unit(s), Performed(n))) == RunUse(s, n) <==> n <= 255
    ensures SlotUse(Repeat(Unit(s), Performed(n))) <= RunSlots(s, n)
  {
    hide Repeat, CoefUse, SlotUse, Performed;
    UseRepeat(Unit(s), Performed(n));
    PerformedBound(n);
    MultiplesCompare(Performed(n), n, SlotUse(Unit(s)));
    if n > 0 {
      UnitSizes();
      MultiplesCompare(Performed(n), n, CoefUse(Unit(s)));
    }
  }

  lemma {:induction false} PerformedBound(n: nat)
    ensures Performed(n) <= n && (Performed(n) == n <==> n <= 255)
  {
  }

  lemma {:induction false} MultiplesCompare(p: nat, n: nat, u: nat)
    requires p <= n
    ensures p * u <= n * u && (u > 0 ==> (p * u == n * u <==> p == n))
  {
    assert n * u == p * u + (n - p) * u;
    if p < n && u > 0 { assert (n - p) * u > 0; }
  }

  lemma {:induction false} UnitSizes()
    ensures CoefUse([TapI, EndI]) == 2 && CoefUse([TapF, EndF]) == 3 && CoefUse([TapB, EndB]) == 5
  {
    assert [TapI, EndI][1..] == [EndI] && [TapF, EndF][1..] == [EndF] && [TapB, EndB][1..] == [EndB];
    assert CoefUse([EndI]) == 1 && CoefUse([EndF]) == 2 && CoefUse([EndB]) == 3;
  }
}

/** The audio splitter: one source, any number of branches, and a block that is kept until
    every branch has had all of it. */
module Splitter {
  import opened Fifo

  /** The flushes of a branch: passed to its sink, and answered by it; of the flushes, those
      nobody waits for any longer, because of a write, a newer flush, or the branch being off;
      and of the answers, those that came when nobody waited. */
  datatype Tally = Tally(flushes: nat, answers: nat, cut: nat, ignored: nat)

  /** What is unanswered has been cut short, or is waited for. */
  predicate Fair(t: Tally, isFlushing: bool) {
    t.flushes - t.answers == t.cut - t.ignored + if isFlushing then 1 else 0
  }

  function CutShort(t: Tally, isFlushing: bool): Tally {
    t.(cut := t.cut + if isFlushing then 1 else 0)
  }

  /** A branch between calls: its position in the block, its flags, the samples its sink has
      accepted, for each sample of the stream that is behind it whether the sink got it,
      whether the sink took nothing when it was last asked, its flushes, how long the stream
      was when it joined, and whether it has never been switched off. */
  datatype Snapshot = Snapshot(pos: nat, isFlushed: bool, isEnabled: bool, isStopped: bool, isFlushing: bool,
                               got: seq<real>, heard: seq<bool>, refused: bool, tally: Tally,
                               joined: nat, steady: bool)

  class Branch {
    var currentBufPos: nat
    var isFlushed: bool
    var isEnabled: bool
    var isStopped: bool
    var isFlushing: bool
    ghost var got: seq<real>
    ghost var heard: seq<bool>
    ghost var refused: bool
    ghost var tally: Tally
    /** A sink that takes everything it is offered; if not, any sink. */
    const willing: bool
    /** How long the stream was when the branch joined. */
    ghost const joined: nat
    /** Never switched off. */
    ghost var steady: bool

    ghost function State(): Snapshot
      reads this
    {
      Snapshot(currentBufPos, isFlushed, isEnabled, isStopped, isFlushing, got, heard, refused, tally, joined, steady)
    }

    /** The branch has been switched off.  Its sink is flushed, unless it is flushing or flushed
        already; its answer is not waited for. */
    method GiveUp() returns (counts: bool)
      requires !isEnabled && !steady
      modifies this
      ensures State() == SwitchedOffState(old(State())) && counts == old(isFlushing)
    {
      counts := isFlushing;
      if isFlushing {
        isFlushing := false;
        tally := CutShort(tally, true);
      } else if !isFlushed {
        tally := CutShort(NewFlush(tally, false), true);
      }
    }

    lemma {:induction false} Flags()
      ensures State().isEnabled == isEnabled && State().isFlushing == isFlushing && State().steady == steady && State().isFlushed == isFlushed
    {
    }

    constructor (ghost before: nat, willing: bool)
      ensures State() == NewBranch(before) && this.willing == willing
    {
      currentBufPos, isFlushed, isEnabled, isStopped, isFlushing := 0, true, true, false, false;
      this.willing := willing;
      got, heard, refused, tally, joined, steady := [], All(false, before), false, Tally(0, 0, 0, 0), before, true;
    }

    /** An enabled branch offers the samples to its sink, unless that has stopped; a disabled
        one swallows them. */
    method SinkWriteSamples(samples: seq<real>) returns (n: nat)
      requires |samples| > 0 && (isEnabled && isStopped ==> refused)
      modifies this
      ensures n <= |samples|
      ensures State() == Written(old(State()), samples, n)
      ensures (old(isEnabled && isStopped) ==> n == 0) && (!old(isEnabled) ==> n == |samples|)
      ensures willing && !old(isStopped) ==> n == |samples|
    {
      isFlushed := false;
      tally := CutShort(tally, isFlushing);
      isFlushing := false;
      n := |samples|;
      if isEnabled {
        if isStopped {
          assert got + samples[..0] == got && heard + All(true, 0) == heard;
          return 0;
        }
        if !willing {
          n :| 0 <= n <= |samples|;
        }
        refused := n == 0;
        isStopped := n == 0;
        got := got + samples[..n];
      }
      heard := heard + All(isEnabled, n);
      currentBufPos := currentBufPos + n;
    }

    /** The sink has flushed.  Its answer counts if one is waited for. */
    method SinkFlushed() returns (counts: bool)
      modifies this
      ensures State() == Replied(old(State())) && counts == old(isEnabled && isFlushing)
    {
      var wasFlushing := isFlushing;
      isFlushing := false;
      isFlushed := true;
      tally := tally.(answers := tally.answers + 1, ignored := tally.ignored + if wasFlushing then 0 else 1);
      counts := isEnabled && wasFlushing;
    }
  }

  /** A branch that joins has been off for everything so far. */
  function NewBranch(before: nat): Snapshot {
    Snapshot(0, true, true, false, false, [], All(false, before), false, Tally(0, 0, 0, 0), before, true)
  }

  /** A branch that has never been switched off has been on for every sample since it joined. */
  predicate Loyal(b: Snapshot) {
    b.steady ==> b.isEnabled && b.joined <= |b.heard| && forall k :: 0 <= k < |b.heard| ==> b.heard[k] == (k >= b.joined)
  }

  /** A branch after a write of which n samples were taken. */
  function Written(b: Snapshot, samples: seq<real>, n: nat): Snapshot
    requires n <= |samples|
  {
    Snapshot(b.pos + n, false, b.isEnabled, if b.isEnabled then n == 0 else b.isStopped, false,
             b.got + if b.isEnabled then samples[..n] else [], b.heard + All(b.isEnabled, n), if b.isEnabled then n == 0 else b.refused,
             CutShort(b.tally, b.isFlushing),
             b.joined, b.steady)
  }

  /** What a branch has not had yet of a block. */
  function Left(b: Snapshot, block: seq<real>): seq<real> {
    if b.pos < |block| then block[b.pos..] else []
  }

  /** The samples behind a branch and what is left of the block are the whole stream; only a
      branch with samples left is stopped, and only an enabled one flushes. */
  ghost predicate Flows(b: Snapshot, block: seq<real>, accepted: seq<real>) {
    && (block != [] ==> b.pos <= |block|)
    && |b.heard| <= |accepted| && accepted[|b.heard|..] == Left(b, block)
    && b.got == Select(accepted, b.heard)
    && (b.isStopped ==> b.pos < |block| && b.isEnabled && b.refused)
    && (b.isFlushing ==> b.isEnabled)
    && Loyal(b) && Fair(b.tally, b.isFlushing)
  }

  /** A branch with samples left has stopped, so its sink owes a resume. */
  predicate Settled(b: Snapshot, block: seq<real>) {
    b.pos < |block| ==> b.isStopped && b.isEnabled
  }

  lemma {:induction false} WrittenFlows(b: Snapshot, block: seq<real>, accepted: seq<real>, n: nat)
    requires Flows(b, block, accepted) && b.pos < |block| && n <= |Left(b, block)|
    requires b.isEnabled && b.isStopped ==> n == 0
    ensures Flows(Written(b, Left(b, block), n), block, accepted)
  {
    SelectNext(accepted, b.heard, b.isEnabled, n);
    assert accepted[|b.heard| + n..] == accepted[|b.heard|..][n..];
    assert accepted[|b.heard|..|b.heard| + n] == accepted[|b.heard|..][..n];
  }

  /** A new block reaches a branch that has had all of the last one. */
  lemma {:induction false} NewBlock(b: Snapshot, accepted: seq<real>, block: seq<real>)
    requires Flows(b, [], accepted) && block != []
    ensures Flows(b.(pos := 0), block, accepted + block)
  {
    SelectMore(accepted, block, b.heard);
    assert (accepted + block)[|b.heard|..] == accepted[|b.heard|..] + block;
    assert block[0..] == block;
  }

  lemma {:induction false} BlockDone(b: Snapshot, block: seq<real>, accepted: seq<real>)
    requires Flows(b, block, accepted) && b.pos >= |block|
    ensures Flows(b, [], accepted) && Settled(b, [])
  {
  }

  function Remaining(bs: seq<Snapshot>, n: nat): nat {
    if |bs| == 0 then 0 else (if bs[0].pos < n then n - bs[0].pos else 0) + Remaining(bs[1..], n)
  }

  /** How many branches are flushing. */
  function Flushing(bs: seq<Snapshot>): (n: nat)
    ensures n <= |bs|
  {
    if |bs| == 0 then 0 else Flushing(bs[..|bs| - 1]) + if bs[|bs| - 1].isFlushing then 1 else 0
  }

  lemma {:induction false} NoneFlushing(bs: seq<Snapshot>)
    ensures Flushing(bs) == 0 <==> forall i :: 0 <= i < |bs| ==> !bs[i].isFlushing
    decreases |bs|
  {
    if |bs| > 0 {
      var front := bs[..|bs| - 1];
      NoneFlushing(front);
      if Flushing(bs) == 0 {
        forall i | 0 <= i < |bs| ensures !bs[i].isFlushing {
          if i < |front| { assert bs[i] == front[i]; }
        }
      } else if Flushing(front) > 0 {
        var i :| 0 <= i < |front| && front[i].isFlushing;
        assert bs[i].isFlushing;
      }
    }
  }

  lemma {:induction false} FlushingOneLess(bs: seq<Snapshot>, i: nat, b: Snapshot)
    requires i < |bs| && bs[i].isFlushing && !b.isFlushing
    ensures Flushing(bs[i := b]) == Flushing(bs) - 1
    decreases |bs|
  {
    var front := bs[..|bs| - 1];
    if i < |front| {
      FlushingOneLess(front, i, b);
      assert bs[i := b][..|bs| - 1] == front[i := b];
    } else {
      assert bs[i := b][..|bs| - 1] == front;
    }
  }

  lemma {:induction false} FlushingSame(bs: seq<Snapshot>, cs: seq<Snapshot>)
    requires |bs| == |cs| && forall i :: 0 <= i < |bs| ==> bs[i].isFlushing == cs[i].isFlushing
    ensures Flushing(bs) == Flushing(cs)
    decreases |bs|
  {
    if |bs| > 0 { FlushingSame(bs[..|bs| - 1], cs[..|bs| - 1]); }
  }

  lemma {:induction false} RemainingFalls(bs: seq<Snapshot>, cs: seq<Snapshot>, n: nat)
    requires |bs| == |cs| && forall i :: 0 <= i < |bs| ==> bs[i].pos <= cs[i].pos
    ensures Remaining(cs, n) <= Remaining(bs, n)
    ensures (exists i :: 0 <= i < |bs| && bs[i].pos < n && bs[i].pos < cs[i].pos) ==> Remaining(cs, n) < Remaining(bs, n)
    decreases |bs|
  {
    if |bs| > 0 {
      RemainingFalls(bs[1..], cs[1..], n);
      if i :| 0 < i < |bs| && bs[i].pos < n && bs[i].pos < cs[i].pos {
        assert bs[1..][i - 1] == bs[i] && cs[1..][i - 1] == cs[i];
      }
    }
  }

  class AudioSplitter {
    var branches: seq<Branch>
    var buf: array<real>
    var bufSize: nat
    var bufLen: nat
    var doFlush: bool
    var inputStopped: bool
    var flushedBranches: nat

    /** Every sample accepted. */
    ghost var accepted: seq<real>
    /** Resumes and acknowledgements passed to the source; flush rounds begun, and those that a
        later write or a new round has cut short. */
    ghost var resumes: nat
    ghost var acks: nat
    /** Times the source has been told to wait. */
    ghost var stops: nat
    ghost var rounds: nat
    ghost var cancelled: nat

    ghost predicate Distinct()
      reads this`branches
    {
      forall i, j :: 0 <= i < j < |branches| ==> branches[i] != branches[j]
    }

    ghost function View(): (v: seq<Snapshot>)
      reads this`branches, branches
      ensures |v| == |branches| && forall i :: 0 <= i < |v| ==> v[i] == branches[i].State()
    {
      var bs := branches;
      seq(|bs|, i requires 0 <= i < |bs| reads bs => bs[i].State())
    }

    /** The block that is kept. */
    ghost function Block(): seq<real>
      requires bufLen <= buf.Length
      reads this`buf, this`bufLen, buf
    {
      buf[..bufLen]
    }

    ghost predicate Shaped()
      reads this`branches, this`buf, this`bufSize, this`bufLen
    {
      Distinct() && |branches| > 0 && bufLen <= bufSize == buf.Length
    }

    /** While branches flush, the block has been drained, and those that have answered and
        those that have not are all the branches; every round begun has been acknowledged, cut
        short, or is under way. */
    ghost predicate FlushOk(v: seq<Snapshot>)
      reads this
    {
      var f := Flushing(v);
      && (f > 0 ==> bufLen == 0 && flushedBranches + f == |v|)
      && (doFlush && bufLen == 0 ==> f > 0)
      && (doFlush && bufLen > 0 ==> flushedBranches == 0)
      && rounds == acks + cancelled + (if f > 0 then 1 else 0)
    }

    /** Every time the source was told to wait, it has been woken, or waits still. */
    ghost predicate Woken()
      reads this`stops, this`resumes, this`inputStopped
    {
      stops == resumes + if inputStopped then 1 else 0
    }

    ghost predicate Valid()
      reads this, buf, branches
    {
      && Shaped() && FlushOk(View())
      && AllFlow(View(), Block(), accepted) && AllSettled(View(), Block())
      && (bufLen > 0 ==> Pending(View(), bufLen))
      && (inputStopped ==> bufLen > 0) && Woken()
    }

    /** A branch has answered, or had nothing to answer. */
    method BranchAllSamplesFlushed()
      modifies this`flushedBranches, this`doFlush, this`acks
      ensures flushedBranches == old(flushedBranches) + 1
      ensures if flushedBranches == |branches| then !doFlush && acks == old(acks) + 1 else doFlush == old(doFlush) && acks == old(acks)
    {
      flushedBranches := flushedBranches + 1;
      if flushedBranches == |branches| {
        doFlush := false;
        acks := acks + 1;
      }
    }

    /** The branches as they were, in part. */
    ghost predicate Are(was: seq<Snapshot>, from: nat, to: nat)
      requires |was| == |branches| && from <= to <= |was|
      reads this`branches, branches
    {
      forall i :: from <= i < to ==> branches[i].State() == was[i]
    }

    lemma {:induction false} NoneYet(was: seq<Snapshot>)
      requires |was| == |branches|
      ensures Are(was, 0, 0)
    {
    }

    lemma {:induction false} ViewIs(was: seq<Snapshot>)
      requires |was| == |branches| && Are(was, 0, |was|)
      ensures View() == was
    {
    }

    /** Asks one branch to flush; a disabled one has nothing to flush. */
    method SinkFlushSamples(i: nat)
      requires i < |branches|
      modifies this`flushedBranches, this`doFlush, this`acks, branches[i]
      ensures branches[i].State() == Asked(old(branches[i].State()))
      ensures flushedBranches == old(flushedBranches) + (if old(branches[i].State()).isEnabled then 0 else 1)
      ensures if flushedBranches > old(flushedBranches) && flushedBranches == |branches| then !doFlush && acks == old(acks) + 1
              else doFlush == old(doFlush) && acks == old(acks)
    {
      var b := branches[i];
      ghost var wasFlushing := b.isFlushing;
      if b.isEnabled {
        b.isFlushing := true;
        b.tally := NewFlush(b.tally, wasFlushing);
      } else {
        b.isFlushed := true;
        BranchAllSamplesFlushed();
      }
    }

    /** The turn of branch i, when all before it have been asked. */
    method AskNext(i: nat, ghost was: seq<Snapshot>, ghost asked: seq<Snapshot>)
      requires Distinct() && i < |was| == |branches| && asked == AllAsked(was)
      requires Are(asked, 0, i) && Are(was, i, |was|) && (was[i].isFlushing ==> was[i].isEnabled)
      modifies this`flushedBranches, this`doFlush, this`acks, branches[i]
      ensures Are(asked, 0, i + 1) && Are(was, i + 1, |was|)
      ensures flushedBranches == old(flushedBranches) + (if was[i].isEnabled then 0 else 1)
      ensures if flushedBranches > old(flushedBranches) && flushedBranches == |branches| then !doFlush && acks == old(acks) + 1
              else doFlush == old(doFlush) && acks == old(acks)
    {
      hide Branch.State, View, Flushing;
      SinkFlushSamples(i);
      assert branches[i].State() == asked[i];
    }

    /** Asks every branch to flush. */
    method FlushAllBranches(ghost was: seq<Snapshot>)
      requires Distinct() && |was| == |branches| > 0 && Are(was, 0, |was|) && flushedBranches == 0 && doFlush
      requires forall i :: 0 <= i < |was| ==> was[i].isFlushing ==> was[i].isEnabled
      requires rounds == acks + cancelled + (if Flushing(was) > 0 then 1 else 0)
      modifies this`flushedBranches, this`doFlush, this`acks, this`rounds, this`cancelled, branches
      ensures Are(AllAsked(was), 0, |was|) && flushedBranches + Flushing(AllAsked(was)) == |branches|
      ensures rounds == old(rounds) + 1 == acks + cancelled + (if Flushing(AllAsked(was)) > 0 then 1 else 0)
      ensures if Flushing(AllAsked(was)) == 0 then !doFlush && acks == old(acks) + 1 else doFlush && acks == old(acks)
    {
      hide Branch.State, Select, Flushing, Asked, View, AllAsked, Flows, Settled, Are;
      if Flushing(was) > 0 { cancelled := cancelled + 1; }
      rounds := rounds + 1;
      ghost var asked, cut := AllAsked(was), cancelled;
      var i := 0;
      NoBranches(asked);
      NoneYet(asked);
      while i < |branches|
        invariant 0 <= i <= |branches| && Are(asked, 0, i) && Are(was, i, |was|)
        invariant flushedBranches + Flushing(asked[..i]) == i && rounds == old(rounds) + 1 && cancelled == cut
        invariant if flushedBranches == |branches| then !doFlush && acks == old(acks) + 1 else doFlush && acks == old(acks)
      {
        AskedCount(was, asked, i);
        AskNext(i, was, asked);
        i := i + 1;
      }
      assert asked[..i] == asked;
    }

    /** Offers one branch what it has not had yet. */
    method Offer(i: nat, ghost block: seq<real>) returns (n: nat)
      requires Shaped() && i < |branches| && block == Block() && branches[i].currentBufPos < bufLen
      requires Flows(branches[i].State(), block, accepted)
      modifies branches[i]
      ensures n <= bufLen - old(branches[i].currentBufPos)
      ensures branches[i].State() == Written(old(branches[i].State()), Left(old(branches[i].State()), block), n)
      ensures Flows(branches[i].State(), block, accepted) && (n == 0 ==> Settled(branches[i].State(), block))
    {
      hide Select;
      ghost var was := branches[i].State();
      var rest := buf[branches[i].currentBufPos..bufLen];
      assert rest == Left(was, block);
      n := branches[i].SinkWriteSamples(rest);
      WrittenFlows(was, block, accepted, n);
    }

    /** The turn of one branch, if it has not had all of the block. */
    method Turn(i: nat, ghost b: Snapshot, ghost block: seq<real>) returns (some: bool, all: bool, ghost c: Snapshot)
      requires Shaped() && i < |branches| && block == Block() && branches[i].State() == b
      requires Flows(b, block, accepted) && !b.isFlushing
      modifies branches[i]
      ensures branches[i].State() == c && Served(b, c, block, accepted, some, all)
    {
      hide Select;
      some, all := false, true;
      if branches[i].currentBufPos < bufLen {
        var written := Offer(i, block);
        some := written > 0;
        all := branches[i].currentBufPos == bufLen;
      }
      c := branches[i].State();
    }

    /** One turn for every branch. */
    method Round(ghost was: seq<Snapshot>) returns (samplesWritten: bool, allWritten: bool, ghost now: seq<Snapshot>)
      requires Shaped() && |was| == |branches| && Are(was, 0, |was|)
      requires AllFlow(was, Block(), accepted) && Flushing(was) == 0
      modifies branches
      ensures |now| == |branches| && Are(now, 0, |now|) && AllFlow(now, Block(), accepted) && Flushing(now) == 0
      ensures if samplesWritten then Remaining(now, bufLen) < Remaining(was, bufLen) else AllSettled(now, Block())
      ensures !allWritten <==> Pending(now, bufLen)
      ensures forall i :: 0 <= i < |now| ==> Later(was[i], now[i])
      ensures AllUnasked(was, now)
    {
      hide Branch.State, Select, Flows, Settled, Written, Served, Left, View;
      ghost var block := Block();
      ghost var somes, alls: seq<bool> := [], [];
      samplesWritten, allWritten, now := false, true, was;
      var i := 0;
      NoneFlushing(was);
      while i < |branches|
        invariant 0 <= i <= |branches| && |now| == |was| && |somes| == |alls| == i && Are(now, 0, |now|)
        invariant forall j :: i <= j < |was| ==> now[j] == was[j]
        invariant forall j :: 0 <= j < i ==> Served(was[j], now[j], block, accepted, somes[j], alls[j])
        invariant samplesWritten <==> true in somes
        invariant allWritten <==> false !in alls
      {
        var some, all;
        ghost var c;
        some, all, c := Turn(i, was[i], block);
        now, somes, alls := now[i := c], somes + [some], alls + [all];
        if some { samplesWritten := true; }
        if !all { allWritten := false; }
        i := i + 1;
      }
      AllServed(was, now, block, accepted, somes, alls);
      ServedUnasked(was, now, block, accepted, somes, alls);
    }

    /** Every branch has had all of the block; a flush that waited for that begins. */
    method BlockFinished(ghost was: seq<Snapshot>) returns (ghost now: seq<Snapshot>)
      requires Shaped() && bufLen > 0 && |was| == |branches| && Are(was, 0, |was|)
      requires AllFlow(was, Block(), accepted) && FlushOk(was) && !Pending(was, bufLen)
      modifies this`bufLen, this`flushedBranches, this`doFlush, this`acks, this`rounds, this`cancelled, branches
      ensures Shaped() && bufLen == 0 && |now| == |branches| && Are(now, 0, |now|)
      ensures AllFlow(now, [], accepted) && AllSettled(now, []) && FlushOk(now)
      ensures now == (if old(doFlush) then AllAsked(was) else was) && (!old(doFlush) ==> rounds == old(rounds))
      ensures acks == old(acks) + (if old(doFlush) && Flushing(now) == 0 then 1 else 0)
      ensures doFlush == (old(doFlush) && Flushing(now) > 0)
    {
      hide Select, Settled, Flushing, View;
      AllDone(was, Block(), accepted);
      now := was;
      bufLen := 0;
      if doFlush {
        FlushAllBranches(was);
        now := AllAsked(was);
      }
    }

    /** Gives every branch its turns until all have had the block or none gets any further. */
    method WriteFromBuffer(ghost was: seq<Snapshot>) returns (ghost now: seq<Snapshot>)
      requires Shaped() && |was| == |branches| && Are(was, 0, |was|) && AllFlow(was, Block(), accepted) && FlushOk(was)
      modifies this`bufLen, this`flushedBranches, this`doFlush, this`acks, this`rounds, this`cancelled, branches
      ensures Shaped() && |now| == |branches| && Are(now, 0, |now|) && (bufLen == 0 || bufLen == old(bufLen))
      ensures AllFlow(now, Block(), accepted) && AllSettled(now, Block()) && FlushOk(now)
      ensures bufLen > 0 ==> Pending(now, bufLen)
      ensures forall i :: 0 <= i < |now| ==> Later(was[i], now[i])
      ensures FlushedOn(was, now, old(doFlush && bufLen > 0) && bufLen == 0) && (!old(doFlush) ==> rounds == old(rounds))
      ensures old(bufLen) == 0 ==> now == was && acks == old(acks) && doFlush == old(doFlush)
      ensures acks == old(acks) + (if old(doFlush && bufLen > 0) && bufLen == 0 && Flushing(now) == 0 then 1 else 0)
      ensures doFlush == (old(doFlush) && acks == old(acks))
    {
      hide Select, Flows, Settled, Flushing, View, Later, Remaining, AllBegun, AllUnasked;
      var samplesWritten, allWritten := true, bufLen == 0;
      now := was;
      AllLaterSame(was);
      AllUnaskedSame(was);
      if bufLen == 0 { AllPast(was); }
      while samplesWritten && !allWritten
        invariant Shaped() && |now| == |branches| && Are(now, 0, |now|) && (allWritten <==> bufLen == 0)
        invariant AllFlow(now, Block(), accepted) && FlushOk(now) && (bufLen == 0 || bufLen == old(bufLen))
        invariant !allWritten && !samplesWritten ==> AllSettled(now, Block()) && Pending(now, bufLen)
        invariant allWritten ==> AllSettled(now, [])
        invariant AllLater(was, now) && (!old(doFlush) ==> rounds == old(rounds))
        invariant if old(doFlush && bufLen > 0) && allWritten then AllBegun(was, now) else AllUnasked(was, now)
        invariant old(bufLen) == 0 ==> now == was && acks == old(acks) && doFlush == old(doFlush)
        invariant acks == old(acks) + (if old(doFlush && bufLen > 0) && bufLen == 0 && Flushing(now) == 0 then 1 else 0)
        invariant doFlush == (old(doFlush) && acks == old(acks))
        decreases !allWritten, samplesWritten, Remaining(now, bufLen)
      {
        ghost var next;
        samplesWritten, allWritten, next := Round(now);
        AllLaterOn(was, now, next);
        AllUnaskedOn(was, now, next);
        now := next;
        if allWritten {
          UnaskedBegun(was, now, Block(), accepted);
          next := BlockFinished(now);
          AllLaterAsked(was, now);
          now := next;
        }
      }
    }

    /** A splitter has its main branch from the start. */
    constructor (willing: bool)
      ensures Valid() && |branches| == 1 && fresh(branches[0]) && branches[0].State() == NewBranch(0) && fresh(buf)
      ensures branches[0].willing == willing && bufLen == 0
      ensures accepted == [] && acks == 0 && rounds == 0 && cancelled == 0 && resumes == 0 && !doFlush && !inputStopped
    {
      var main := new Branch(0, willing);
      branches := [main];
      buf := new real[0];
      bufSize, bufLen, flushedBranches := 0, 0, 0;
      doFlush, inputStopped := false, false;
      accepted, resumes, stops, acks, rounds, cancelled := [], 0, 0, 0, 0, 0;
      new;
      assert Select([], []) == [];
      NoneFlushing(View());
    }

    /** Connects another sink while no block is kept and no flush is under way. */
    method AddSink(willing: bool) returns (b: Branch)
      requires Valid() && bufLen == 0 && !doFlush && Flushing(View()) == 0
      modifies this`branches
      ensures Valid() && branches == old(branches) + [b] && fresh(b) && Flushing(View()) == 0
      ensures View() == old(View()) + [NewBranch(|accepted|)]
      ensures b.State() == NewBranch(|accepted|)
    {
      hide Select, Flushing, Flows, Settled, AllFlow, AllSettled;
      ghost var was := View();
      b := new Branch(|accepted|, willing);
      branches := branches + [b];
      assert View() == was + [b.State()];
      assert Block() == [];
      NewSink(was, accepted);
    }

    /** The first write of a new block to a branch. */
    method FirstWrite(i: nat, samples: seq<real>, ghost b: Snapshot, ghost before: seq<real>) returns (written: nat, ghost c: Snapshot)
      requires i < |branches| && branches[i].State() == b && samples != []
      requires Flows(b, [], before) && accepted == before + samples
      modifies branches[i]
      ensures branches[i].State() == c && Flows(c, samples, accepted) && !c.isFlushing && c.pos == written <= |samples|
      ensures Rewrote(b, c) && (branches[i].willing && !b.isStopped ==> written == |samples|)
    {
      hide Select;
      branches[i].currentBufPos := 0;
      NewBlock(b, before, samples);
      ghost var start := b.(pos := 0);
      assert Left(start, samples) == samples;
      written := branches[i].SinkWriteSamples(samples);
      WrittenFlows(start, samples, accepted, written);
      c := branches[i].State();
    }

    /** Keeps a copy of the block. */
    method Keep(samples: seq<real>)
      requires bufSize == buf.Length
      modifies this`buf, this`bufSize, this`bufLen, buf
      ensures bufSize == buf.Length && bufLen == |samples| <= bufSize && buf[..bufLen] == samples
      ensures buf == old(buf) || fresh(buf)
    {
      if bufSize < |samples| {
        bufSize := |samples|;
        buf := new real[bufSize];
      }
      forall k | 0 <= k < |samples| { buf[k] := samples[k]; }
      bufLen := |samples|;
    }

    predicate AllWilling()
      reads this`branches
    {
      forall i :: 0 <= i < |branches| ==> branches[i].willing
    }

    /** Writes a new block to every branch, and keeps it unless all took all of it. */
    method FirstPass(samples: seq<real>, ghost was: seq<Snapshot>, ghost before: seq<real>) returns (ghost now: seq<Snapshot>)
      requires Shaped() && bufLen == 0 && samples != [] && accepted == before + samples
      requires |was| == |branches| && Are(was, 0, |was|) && AllFlow(was, [], before)
      modifies this`buf, this`bufSize, this`bufLen, buf, branches
      ensures Shaped() && |now| == |branches| && Are(now, 0, |now|) && AllFlow(now, Block(), accepted) && Flushing(now) == 0
      ensures bufLen == 0 || Block() == samples
      ensures buf == old(buf) || fresh(buf)
      ensures forall i :: 0 <= i < |now| ==> Rewrote(was[i], now[i])
      ensures AllWilling() ==> bufLen == 0
    {
      hide Branch.State, Select, Flows, View, Flushing, Rewrote, Settled, Left;
      NoneStopped(was, before);
      now := was;
      var i := 0;
      while i < |branches|
        invariant 0 <= i <= |branches| && |now| == |was| && Are(now, 0, |now|) && Shaped()
        invariant forall j :: i <= j < |was| ==> now[j] == was[j]
        invariant forall j :: 0 <= j < i ==> Flows(now[j], samples, accepted) && !now[j].isFlushing && now[j].pos <= |samples| && Rewrote(was[j], now[j])
        invariant AllWilling() ==> bufLen == 0
        invariant bufLen == 0 || Block() == samples
        invariant bufLen == 0 ==> forall j :: 0 <= j < i ==> now[j].pos == |samples|
        invariant buf == old(buf) || fresh(buf)
      {
        var written;
        ghost var c;
        written, c := FirstWrite(i, samples, was[i], before);
        now := now[i := c];
        if written != |samples| {
          if bufLen == 0 {
            Keep(samples);
          }
        }
        i := i + 1;
      }
      NoneFlushing(now);
      if bufLen == 0 { AllDone(now, samples, accepted); }
    }

    /** Offers a block to every branch, and with that takes it. */
    method OfferAll(samples: seq<real>, ghost was: seq<Snapshot>) returns (ghost now: seq<Snapshot>)
      requires Valid() && bufLen == 0 && samples != [] && !doFlush && was == View()
      modifies this`accepted, this`cancelled, this`buf, this`bufSize, this`bufLen, buf, branches
      ensures Shaped() && accepted == old(accepted) + samples && (buf == old(buf) || fresh(buf))
      ensures |now| == |branches| && Are(now, 0, |now|) && AllFlow(now, Block(), accepted) && FlushOk(now)
      ensures forall i :: 0 <= i < |now| ==> Rewrote(was[i], now[i])
      ensures AllWilling() ==> bufLen == 0
    {
      hide Branch.State, Select, Flows, Flushing, Settled, View, Rewrote, Pending, AllFlow, AllSettled;
      assert Block() == [];
      ghost var before := accepted;
      accepted := accepted + samples;
      if Flushing(was) > 0 { cancelled := cancelled + 1; }
      now := FirstPass(samples, was, before);
    }

    /** Takes a block when none is kept. */
    method Accept(samples: seq<real>, ghost was: seq<Snapshot>)
      requires Valid() && bufLen == 0 && samples != [] && !doFlush && was == View()
      modifies this`accepted, this`cancelled, this`buf, this`bufSize, this`bufLen, this`flushedBranches, this`doFlush, this`acks, this`rounds, buf, branches
      ensures Valid() && !doFlush && accepted == old(accepted) + samples && acks == old(acks) && rounds == old(rounds)
      ensures buf == old(buf) || fresh(buf)
      ensures AllRewrote(was, View())
      ensures AllWilling() ==> bufLen == 0
    {
      hide Branch.State, Select, Flows, Flushing, Settled, View, Rewrote, AllRewrote, Later, Unasked, AllUnasked, Pending, AllFlow, AllSettled, Block, FlushOk;
      ghost var now := OfferAll(samples, was);
      ghost var last := WriteFromBuffer(now);
      ViewIs(last);
      RewroteOn(was, now, last);
    }

    /** Takes a block from the source: all of it, unless the last one is still kept, and then
        the source waits. */
    method WriteSamples(samples: seq<real>) returns (n: nat)
      requires Valid()
      modifies this, buf, branches
      ensures Valid() && !doFlush && branches == old(branches) && (buf == old(buf) || fresh(buf))
      ensures n == (if old(bufLen) > 0 then 0 else |samples|) && accepted == old(accepted) + samples[..n]
      ensures inputStopped == (old(inputStopped) || (|samples| > 0 && old(bufLen) > 0))
      ensures acks == old(acks) && resumes == old(resumes) && rounds == old(rounds)
      ensures |samples| > 0 && old(bufLen) == 0 ==> AllRewrote(old(View()), View())
      ensures |samples| == 0 || old(bufLen) > 0 ==> View() == old(View())
      ensures AllWilling() && old(bufLen) == 0 ==> bufLen == 0
      ensures n > 0 ==> forall i :: 0 <= i < |branches| ==> !branches[i].isFlushed && !branches[i].isFlushing
    {
      hide Select, Flows, Flushing, Settled, View, Rewrote, AllRewrote, Later, Pending;
      doFlush := false;
      ghost var was := View();
      assert accepted + samples[..0] == accepted;
      if |samples| <= 0 {
        return 0;
      }
      if bufLen > 0 {
        stops := stops + if inputStopped then 0 else 1;
        inputStopped := true;
        return 0;
      }
      Accept(samples, was);
      RewrittenFlags(was);
      n := |samples|;
      assert samples[..n] == samples;
    }

    /** The source asks for a flush.  The round begins now, or when the kept block has been
        drained; a second request in the meantime changes nothing. */
    method FlushSamples()
      requires Valid()
      modifies this`doFlush, this`flushedBranches, this`acks, this`rounds, this`cancelled, branches
      ensures Valid() && accepted == old(accepted)
      ensures old(doFlush) ==> rounds == old(rounds) && acks == old(acks) && doFlush
      ensures !old(doFlush) ==> rounds == old(rounds) + (if bufLen == 0 then 1 else 0)
      ensures !old(doFlush) ==> acks == old(acks) + (if bufLen == 0 && Flushing(View()) == 0 then 1 else 0)
      ensures doFlush == (acks == old(acks))
      ensures View() == if !old(doFlush) && bufLen == 0 then AllAsked(old(View())) else old(View())
      ensures !old(doFlush) && bufLen == 0 ==> forall i :: 0 <= i < |branches| ==> if branches[i].isEnabled then branches[i].isFlushing else branches[i].isFlushed
    {
      hide Branch.State, Select, Flows, Flushing, Settled, View, Pending;
      if doFlush {
        return;
      }
      doFlush := true;
      flushedBranches := 0;
      if bufLen == 0 {
        ghost var was := View();
        StartRound(was);
        AskedFlags(was);
      }
    }

    lemma {:induction false} AskedFlags(was: seq<Snapshot>)
      requires |was| == |branches| && View() == AllAsked(was)
      ensures forall i :: 0 <= i < |branches| ==> if branches[i].isEnabled then branches[i].isFlushing else branches[i].isFlushed
    {
      hide Branch.State, View;
      forall i | 0 <= i < |branches| ensures if branches[i].isEnabled then branches[i].isFlushing else branches[i].isFlushed {
        branches[i].Flags();
        assert View()[i] == Asked(was[i]);
      }
    }

    lemma {:induction false} RewrittenFlags(was: seq<Snapshot>)
      requires AllRewrote(was, View())
      ensures forall i :: 0 <= i < |branches| ==> !branches[i].isFlushed && !branches[i].isFlushing
    {
      hide Branch.State, View;
      forall i | 0 <= i < |branches| ensures !branches[i].isFlushed && !branches[i].isFlushing {
        branches[i].Flags();
        assert Rewrote(was[i], View()[i]);
      }
    }

    /** A round of flushing begins. */
    method StartRound(ghost was: seq<Snapshot>)
      requires Shaped() && bufLen == 0 && doFlush && flushedBranches == 0 && !inputStopped && Woken() && |was| == |branches| && Are(was, 0, |was|)
      requires AllFlow(was, [], accepted) && rounds == acks + cancelled + (if Flushing(was) > 0 then 1 else 0)
      modifies this`doFlush, this`flushedBranches, this`acks, this`rounds, this`cancelled, branches
      ensures Valid() && View() == AllAsked(was) && rounds == old(rounds) + 1
      ensures acks == old(acks) + (if Flushing(View()) == 0 then 1 else 0) && doFlush == (acks == old(acks))
    {
      hide Branch.State, Select, Flows, Flushing, Settled, View, Pending;
      assert Block() == [];
      FlushersEnabled(was, accepted);
      FlushAllBranches(was);
      ViewIs(AllAsked(was));
      NotPending(was);
      AllDone(was, [], accepted);
    }

    /** A branch can go on: the kept block moves, and the source may be woken. */
    method BranchResumeOutput(ghost was: seq<Snapshot>)
      requires Shaped() && |was| == |branches| && Are(was, 0, |was|) && AllFlow(was, Block(), accepted) && FlushOk(was)
      requires (inputStopped ==> bufLen > 0) && Woken()
      modifies this`bufLen, this`flushedBranches, this`doFlush, this`acks, this`rounds, this`cancelled, this`inputStopped, this`resumes, branches
      ensures Valid() && (bufLen == 0 || bufLen == old(bufLen))
      ensures resumes == old(resumes) + (if old(inputStopped) && bufLen == 0 then 1 else 0)
      ensures inputStopped == (old(inputStopped) && bufLen > 0)
      ensures acks == old(acks) + (if old(doFlush && bufLen > 0) && bufLen == 0 && Flushing(View()) == 0 then 1 else 0)
      ensures doFlush == (old(doFlush) && acks == old(acks))
      ensures forall i :: 0 <= i < |branches| ==> Later(was[i], View()[i])
      ensures FlushedOn(was, View(), old(doFlush && bufLen > 0) && bufLen == 0)
    {
      hide Select, Flows, Flushing, Settled, View, Later, Pending, AllFlow, AllSettled, FlushedOn;
      ghost var now := WriteFromBuffer(was);
      ViewIs(now);
      if inputStopped && bufLen == 0 {
        inputStopped := false;
        resumes := resumes + 1;
      }
    }

    /** What holds when the sink of branch i, whatever it did before, can take samples again. */
    ghost predicate Ready(i: nat)
      reads this, buf, branches
    {
      && Shaped() && FlushOk(View()) && i < |branches|
      && AllFlow(View()[i := View()[i].(refused := true)], Block(), accepted) && AllSettled(View(), Block())
      && (bufLen > 0 ==> Pending(View(), bufLen))
      && (inputStopped ==> bufLen > 0) && Woken()
    }

    lemma {:induction false} AnySinkMay(i: nat)
      requires Valid() && i < |branches|
      ensures Ready(i)
    {
      hide Select, Flushing, Settled, Pending;
      assert Flows(View()[i], Block(), accepted);
    }

    /** The sink of a branch can take samples again. */
    method ResumeOutput(i: nat)
      requires Ready(i)
      modifies this`bufLen, this`flushedBranches, this`doFlush, this`acks, this`rounds, this`cancelled, this`inputStopped, this`resumes, branches
      ensures Valid() && (bufLen == 0 || bufLen == old(bufLen))
      ensures resumes == old(resumes) + (if old(inputStopped) && bufLen == 0 then 1 else 0)
      ensures inputStopped == (old(inputStopped) && bufLen > 0)
      ensures acks == old(acks) + (if old(branches[i].isEnabled && doFlush && bufLen > 0) && bufLen == 0 && Flushing(View()) == 0 then 1 else 0)
      ensures doFlush == (old(doFlush) && acks == old(acks))
      ensures forall n :: 0 <= n < |branches| ==> Kept(old(View())[n], View()[n])
      ensures FlushedOn(old(View()), View(), old(branches[i].isEnabled && doFlush && bufLen > 0) && bufLen == 0)
    {
      hide Select, Flushing, Settled, Pending, View, Flows, AllFlow, AllSettled, Later, Kept, FlushedOn;
      ghost var was := View();
      branches[i].refused := false;
      branches[i].isStopped := false;
      ghost var now := was[i := was[i].(isStopped := false, refused := false)];
      ViewIs(now);
      Resumed(was, now, i, Block(), accepted);
      if branches[i].isEnabled {
        BranchResumeOutput(now);
        KeptWhenResumed(was, i, View());
        FlushedWhenResumed(was, i, View(), old(doFlush && bufLen > 0) && bufLen == 0);
      } else {
        NobodyElse(was, now, i, Block());
        StillPending(was, now, bufLen);
        AllLaterSame(now);
        AllUnaskedSame(now);
        KeptWhenResumed(was, i, View());
        FlushedWhenResumed(was, i, View(), false);
      }
    }

    /** The sink of a branch has flushed.  The answer counts if one is waited for. */
    method AllSamplesFlushed(i: nat)
      requires Valid() && i < |branches|
      modifies this`flushedBranches, this`doFlush, this`acks, branches[i]
      ensures Valid() && View() == old(View())[i := Replied(old(View())[i])]
      ensures acks == old(acks) + (if old(View())[i].isFlushing && Flushing(View()) == 0 then 1 else 0)
      ensures doFlush == (old(doFlush) && acks == old(acks))
      ensures branches[i].isFlushed && !branches[i].isFlushing
    {
      hide Branch.State, Select, Flushing, View, Flows, Settled, Pending, AllFlow, AllSettled;
      ghost var was := View();
      assert was[i].isEnabled == branches[i].isEnabled && was[i].isFlushing == branches[i].isFlushing by { branches[i].Flags(); }
      ghost var now := was[i := Replied(was[i])];
      Answered(was, i, Block(), accepted);
      StillPending(was, now, bufLen);
      var counts := branches[i].SinkFlushed();
      ViewIs(now);
      branches[i].Flags();
      if counts {
        BranchAllSamplesFlushed();
      }
    }

    /** A branch that has just been switched off gives up its stop. */
    method LetGo(i: nat, ghost was: seq<Snapshot>)
      requires Shaped() && i < |branches| && |was| == |branches| && was[i].isStopped
      requires Are(was[i := was[i].(isEnabled := false, steady := false)], 0, |was|)
      requires AllFlow(was, Block(), accepted) && FlushOk(was) && (inputStopped ==> bufLen > 0) && Woken()
      modifies this`bufLen, this`flushedBranches, this`doFlush, this`acks, this`rounds, this`cancelled, this`inputStopped, this`resumes, branches
      ensures Valid() && !View()[i].isEnabled && (bufLen == 0 || bufLen == old(bufLen))
      ensures resumes == old(resumes) + (if old(inputStopped) && bufLen == 0 then 1 else 0)
      ensures inputStopped == (old(inputStopped) && bufLen > 0)
      ensures acks == old(acks) + (if old(doFlush && bufLen > 0) && bufLen == 0 && Flushing(View()) == 0 then 1 else 0)
      ensures doFlush == (old(doFlush) && acks == old(acks))
      ensures OthersKept(was, View(), i)
      ensures FlushedOn(was[i := was[i].(isEnabled := false)], View(), old(doFlush && bufLen > 0) && bufLen == 0)
    {
      hide Select, Flushing, Settled, Pending, FlushedOn;
      branches[i].isStopped := false;
      ghost var now := was[i := was[i].(isEnabled := false, steady := false, isStopped := false)];
      assert Flows(was[i], Block(), accepted);
      NoneFlushing(was);
      FlushingSame(was, now);
      BranchResumeOutput(now);
      assert Later(now[i], View()[i]);
      FlushedWhenOff(was, i, View(), old(doFlush && bufLen > 0) && bufLen == 0);
    }

    /** And its answer to a flush is no longer waited for. */
    method GiveUp(i: nat, ghost was: seq<Snapshot>)
      requires Shaped() && i < |branches| && |was| == |branches| && !was[i].isStopped
      requires Are(was[i := was[i].(isEnabled := false, steady := false)], 0, |was|)
      requires FlushOk(was) && AllFlow(was, Block(), accepted) && AllSettled(was, Block())
      requires (bufLen > 0 ==> Pending(was, bufLen)) && (inputStopped ==> bufLen > 0) && Woken()
      modifies this`flushedBranches, this`doFlush, this`acks, branches[i]
      ensures Valid() && View() == was[i := SwitchedOffState(was[i])]
      ensures acks == old(acks) + (if was[i].isFlushing && Flushing(View()) == 0 then 1 else 0)
      ensures doFlush == (old(doFlush) && acks == old(acks))
    {
      hide Branch.State, Select, Flushing, View, Flows, Settled, Pending, AllFlow, AllSettled, SwitchedOffState;
      branches[i].Flags();
      ghost var now := was[i := SwitchedOffState(was[i])];
      SwitchedOff(was, i, Block(), accepted);
      SwitchedOffAgain(was[i]);
      StillPending(was, now, bufLen);
      var counts := branches[i].GiveUp();
      ViewIs(now);
      if counts {
        BranchAllSamplesFlushed();
      }
    }

    /** The rest of switching a stopped branch off. */
    method SwitchOffStopped(i: nat, ghost was: seq<Snapshot>)
      requires Shaped() && i < |branches| && |was| == |branches| && was[i].isStopped
      requires Are(was[i := was[i].(isEnabled := false, steady := false)], 0, |was|)
      requires FlushOk(was) && AllFlow(was, Block(), accepted) && AllSettled(was, Block())
      requires (bufLen > 0 ==> Pending(was, bufLen)) && (inputStopped ==> bufLen > 0) && Woken()
      modifies this`bufLen, this`flushedBranches, this`doFlush, this`acks, this`rounds, this`cancelled, this`inputStopped, this`resumes, branches
      ensures Valid() && !View()[i].isEnabled && !was[i].isFlushing && (bufLen == 0 || bufLen == old(bufLen))
      ensures resumes == old(resumes) + (if old(inputStopped) && bufLen == 0 then 1 else 0)
      ensures inputStopped == (old(inputStopped) && bufLen > 0)
      ensures acks == old(acks) + (if old(doFlush && bufLen > 0) && bufLen == 0 && Flushing(View()) == 0 then 1 else 0)
      ensures doFlush == (old(doFlush) && acks == old(acks))
      ensures OthersKept(was, View(), i)
      ensures Dismissed(was, i, View(), old(doFlush && bufLen > 0) && bufLen == 0)
    {
      hide Select, Flushing, Settled, Flows, Pending, View, AllFlow, AllSettled, SwitchedOffState, OthersKept, Branch.State, FlushedOn, Dismissed;
      StoppedIsNotFlushing(was, i, Block(), accepted);
      LetGo(i, was);
      ghost var now := View();
      NotStopped(now, i, Block(), accepted);
      assert now[i := now[i].(isEnabled := false, steady := false)] == now;
      GiveUp(i, now);
      SwitchedOffKept(now[i]);
      OthersKeptOn(was, now, i);
      DismissedSo(was, i, now, old(doFlush && bufLen > 0) && bufLen == 0);
      FlushingSame(now, View());
    }

    /** The rest of switching a branch off. */
    method SwitchOff(i: nat, ghost was: seq<Snapshot>)
      requires Shaped() && i < |branches| && |was| == |branches|
      requires Are(was[i := was[i].(isEnabled := false, steady := false)], 0, |was|)
      requires FlushOk(was) && AllFlow(was, Block(), accepted) && AllSettled(was, Block())
      requires (bufLen > 0 ==> Pending(was, bufLen)) && (inputStopped ==> bufLen > 0) && Woken()
      modifies this`bufLen, this`flushedBranches, this`doFlush, this`acks, this`rounds, this`cancelled, this`inputStopped, this`resumes, branches
      ensures Valid() && !View()[i].isEnabled && (bufLen == 0 || bufLen == old(bufLen))
      ensures if was[i].isStopped then Dismissed(was, i, View(), old(doFlush && bufLen > 0) && bufLen == 0)
              else View() == was[i := SwitchedOffState(was[i])]
      ensures resumes == old(resumes) + (if old(inputStopped) && bufLen == 0 then 1 else 0)
      ensures inputStopped == (old(inputStopped) && bufLen > 0)
      ensures acks == old(acks) + (if (was[i].isFlushing || old(doFlush && bufLen > 0)) && bufLen == 0 && Flushing(View()) == 0 then 1 else 0)
      ensures doFlush == (old(doFlush) && acks == old(acks))
      ensures OthersKept(was, View(), i)
    {
      hide Select, Flushing, Settled, Flows, Pending, View, AllFlow, AllSettled, SwitchedOffState, OthersKept, Dismissed;
      if branches[i].isStopped {
        SwitchOffStopped(i, was);
      } else {
        GiveUp(i, was);
        SwitchedOffKept(was[i]);
        OneSwitchedOff(was, i);
      }
    }

    method SwitchOn(i: nat)
      requires Valid() && i < |branches| && !branches[i].isEnabled
      modifies branches[i]
      ensures Valid() && View() == old(View())[i := old(View()[i]).(isEnabled := true)]
    {
      hide Select, Flushing, Settled, Flows, Pending, View, AllFlow, AllSettled;
      ghost var was := View();
      NotStopped(was, i, Block(), accepted);
      SwitchedOn(was, i, Block(), accepted);
      branches[i].isEnabled := true;
      ghost var now := was[i := was[i].(isEnabled := true)];
      ViewIs(now);
      StillPending(was, now, bufLen);
    }

    /** Switches a branch off. */
    method Disable(i: nat)
      requires Valid() && i < |branches| && branches[i].isEnabled
      modifies this`bufLen, this`flushedBranches, this`doFlush, this`acks, this`rounds, this`cancelled, this`inputStopped, this`resumes, branches
      ensures Valid() && !View()[i].isEnabled && (bufLen == 0 || bufLen == old(bufLen))
      ensures if old(View())[i].isStopped then Dismissed(old(View()), i, View(), old(doFlush && bufLen > 0) && bufLen == 0)
              else View() == old(View())[i := SwitchedOffState(old(View())[i])]
      ensures resumes == old(resumes) + (if old(inputStopped) && bufLen == 0 then 1 else 0)
      ensures inputStopped == (old(inputStopped) && bufLen > 0)
      ensures acks == old(acks) + (if (old(View())[i].isFlushing || old(doFlush && bufLen > 0)) && bufLen == 0 && Flushing(View()) == 0 then 1 else 0)
      ensures doFlush == (old(doFlush) && acks == old(acks))
      ensures OthersKept(old(View()), View(), i)
    {
      hide Select, Flushing, Settled, Flows, Pending, View, AllFlow, AllSettled, Dismissed, SwitchedOffState, OthersKept;
      ghost var was := View();
      branches[i].isEnabled := false;
      branches[i].steady := false;
      SwitchOff(i, was);
    }

    /** Switches a branch on, or off: then its sink keeps nobody waiting any longer, the kept
        block goes on without it, and a flush does not wait for it. */
    method SetEnabled(i: nat, enabled: bool)
      requires Valid() && i < |branches|
      modifies this`bufLen, this`flushedBranches, this`doFlush, this`acks, this`rounds, this`cancelled, this`inputStopped, this`resumes, branches
      ensures Valid() && branches[i].isEnabled == enabled && (bufLen == 0 || bufLen == old(bufLen))
      ensures enabled == old(branches[i].isEnabled) ==> View() == old(View())
      ensures enabled && !old(branches[i].isEnabled) ==> View() == old(View())[i := old(View()[i]).(isEnabled := true)]
      ensures !enabled && old(branches[i].isEnabled && !branches[i].isStopped) ==> View() == old(View())[i := SwitchedOffState(old(View()[i]))]
      ensures !enabled && old(branches[i].isEnabled && branches[i].isStopped) ==>
          Dismissed(old(View()), i, View(), old(doFlush && bufLen > 0) && bufLen == 0)
      ensures resumes == old(resumes) + (if old(inputStopped) && bufLen == 0 then 1 else 0)
      ensures inputStopped == (old(inputStopped) && bufLen > 0)
      ensures acks == old(acks) + (if old(branches[i].isEnabled && (branches[i].isFlushing || (doFlush && bufLen > 0))) && !enabled
                                      && bufLen == 0 && Flushing(View()) == 0 then 1 else 0)
      ensures doFlush == (old(doFlush) && acks == old(acks))
      ensures forall n :: 0 <= n < |branches| && n != i ==> Kept(old(View())[n], View()[n])
      ensures old(View()[i]).got <= View()[i].got && View()[i].steady == (old(View()[i]).steady && enabled)
    {
      hide Select, Flushing, Settled, Flows, Pending, View, AllFlow, AllSettled, Dismissed, SwitchedOffState, Kept;
      AllKept(View());
      if enabled == branches[i].isEnabled {
        if !enabled { NotStopped(View(), i, Block(), accepted); }
        return;
      }
      if enabled {
        SwitchOn(i);
      } else {
        Disable(i);
      }
    }

    /** After any run: a branch that has never been switched off has passed on exactly the
        stream since it joined, without what is left of the kept block; any other, the samples
        it was on for. */
    lemma {:induction false} Conservation(i: nat)
      requires Valid() && i < |branches|
      ensures branches[i].got == Select(accepted, branches[i].heard)
      ensures |accepted| == |branches[i].heard| + |Left(branches[i].State(), Block())|
      ensures branches[i].steady ==>
          && branches[i].isEnabled && branches[i].joined <= |accepted|
          && accepted[branches[i].joined..] == branches[i].got + Left(branches[i].State(), Block())
      ensures (forall k :: 0 <= k < |branches[i].heard| ==> branches[i].heard[k]) ==>
          accepted == branches[i].got + Left(branches[i].State(), Block())
    {
      hide Select, Settled, Flushing;
      var b := View()[i];
      assert Flows(b, Block(), accepted);
      if b.steady {
        OnSince(accepted, b.heard, b.joined);
        assert accepted[b.joined..|b.heard|] + accepted[|b.heard|..] == accepted[b.joined..];
      }
      if forall k :: 0 <= k < |b.heard| ==> b.heard[k] {
        assert b.heard == All(true, |b.heard|);
        SelectAll(accepted, |b.heard|);
        assert accepted[..|b.heard|] + accepted[|b.heard|..] == accepted;
      }
    }

    /** After any run: when the sinks answer in order and a branch is waited for, its next answer
        is that to its last flush if and only if no earlier flush is unanswered; that is, if
        and only if as many answers have been ignored as flushes cut short. */
    lemma {:induction false} OwnAnswer(i: nat)
      requires Valid() && i < |branches| && branches[i].isFlushing
      ensures var t := branches[i].tally;
        t.answers < t.flushes + t.ignored && (t.answers + 1 == t.flushes <==> t.cut == t.ignored)
    {
      hide Select, Flushing, Settled, Loyal;
      assert Flows(View()[i], Block(), accepted);
    }

    /** After any run: a branch that is not waited for has had all its flushes answered if and
        only if as many answers have been ignored as flushes cut short. */
    lemma {:induction false} AllAnswered(i: nat)
      requires Valid() && i < |branches| && !branches[i].isFlushing
      ensures var t := branches[i].tally; t.flushes - t.answers == t.cut - t.ignored
    {
      hide Select, Flushing, Settled, Loyal;
      assert Flows(View()[i], Block(), accepted);
    }

    /** After any run: a branch with something left waits for its own sink, which has stopped,
        and a source that waits does so for such a branch. */
    lemma {:induction false} NoLostWakeUp()
      requires Valid()
      ensures forall i :: 0 <= i < |branches| && branches[i].currentBufPos < bufLen ==>
          branches[i].isEnabled && branches[i].isStopped && branches[i].refused
      ensures inputStopped ==> exists i :: 0 <= i < |branches| && branches[i].currentBufPos < bufLen
      ensures stops == resumes + if inputStopped then 1 else 0
    {
      hide Select, Flushing;
      var v := View();
      forall i | 0 <= i < |branches| && v[i].pos < bufLen ensures branches[i].isEnabled && branches[i].isStopped && branches[i].refused {
        assert Settled(v[i], Block()) && Flows(v[i], Block(), accepted);
      }
    }
  }

  /** Off before n, on from then on. */
  lemma {:induction false} OnSince(xs: seq<real>, mask: seq<bool>, n: nat)
    requires n <= |mask| <= |xs| && forall k :: 0 <= k < |mask| ==> mask[k] == (k >= n)
    ensures Select(xs, mask) == xs[n..|mask|]
  {
    hide Select;
    assert mask == [] + All(false, n) + All(true, |mask| - n);
    SelectNext(xs, [], false, n);
    SelectNext(xs, [] + All(false, n), true, |mask| - n);
    SelectNone(xs);
  }

  lemma {:induction false} SelectNone(xs: seq<real>)
    ensures Select(xs, []) == []
  {
  }

  /** Still as enabled as before, and no sample unsent. */
  predicate Kept(b: Snapshot, c: Snapshot) {
    && c.isEnabled == b.isEnabled && c.steady == b.steady && c.joined == b.joined && b.got <= c.got && b.heard <= c.heard
    && forall k :: |b.heard| <= k < |c.heard| ==> c.heard[k] == b.isEnabled
  }

  lemma {:induction false} AllKept(v: seq<Snapshot>)
    ensures forall n :: 0 <= n < |v| ==> Kept(v[n], v[n])
  {
    forall n | 0 <= n < |v| ensures Kept(v[n], v[n]) {
      assert v[n].heard + [] == v[n].heard;
    }
  }

  /** Branch i, which is being switched off, gets no less, and the others are kept. */
  lemma {:induction false} KeptWhenResumed(v: seq<Snapshot>, i: nat, w: seq<Snapshot>)
    requires i < |v| == |w| && forall n :: 0 <= n < |w| ==> Later(v[i := v[i].(isStopped := false, refused := false)][n], w[n])
    ensures forall n :: 0 <= n < |w| ==> Kept(v[n], w[n])
  {
    forall n | 0 <= n < |w| ensures Kept(v[n], w[n]) {
      assert Later(v[i := v[i].(isStopped := false, refused := false)][n], w[n]);
    }
  }

  lemma {:induction false} FlushedWhenResumed(v: seq<Snapshot>, i: nat, w: seq<Snapshot>, begun: bool)
    requires i < |v| == |w|
    requires FlushedOn(v[i := v[i].(isStopped := false, refused := false)], w, begun) || (!begun && AllUnasked(v[i := v[i].(isStopped := false, refused := false)], w))
    ensures FlushedOn(v, w, begun)
  {
    var u := v[i := v[i].(isStopped := false, refused := false)];
    forall n | 0 <= n < |w| ensures if begun then Begun(v[n], w[n]) else Unasked(v[n], w[n]) {
      assert if begun then Begun(u[n], w[n]) else Unasked(u[n], w[n]);
    }
  }

  lemma {:induction false} FlushedWhenOff(v: seq<Snapshot>, i: nat, w: seq<Snapshot>, begun: bool)
    requires i < |v| == |w| && FlushedOn(v[i := v[i].(isEnabled := false, steady := false, isStopped := false)], w, begun)
    ensures FlushedOn(v[i := v[i].(isEnabled := false)], w, begun)
  {
    var u, o := v[i := v[i].(isEnabled := false, steady := false, isStopped := false)], v[i := v[i].(isEnabled := false)];
    forall n | 0 <= n < |w| ensures if begun then Begun(o[n], w[n]) else Unasked(o[n], w[n]) {
      assert if begun then Begun(u[n], w[n]) else Unasked(u[n], w[n]);
    }
  }

  /** What switching branch i off, which had stopped, has done about flushes: its sink has been
      asked, unless the branch is flushed; and a round that has begun is one for the others. */
  ghost predicate Dismissed(v: seq<Snapshot>, i: nat, w: seq<Snapshot>, begun: bool) {
    && i < |v| == |w| && !w[i].isFlushing
    && (if begun then w[i].isFlushed else w[i].isFlushed ==> v[i].isFlushed)
    && w[i].tally == (if w[i].isFlushed then v[i].tally else CutShort(NewFlush(v[i].tally, false), true))
    && forall n :: 0 <= n < |w| && n != i ==> if begun then Begun(v[n], w[n]) else Unasked(v[n], w[n])
  }

  lemma {:induction false} DismissedSo(v: seq<Snapshot>, i: nat, w: seq<Snapshot>, begun: bool)
    requires i < |v| == |w| && FlushedOn(v[i := v[i].(isEnabled := false)], w, begun) && !w[i].isFlushing
    ensures Dismissed(v, i, w[i := SwitchedOffState(w[i])], begun)
  {
    var o, u := v[i := v[i].(isEnabled := false)], w[i := SwitchedOffState(w[i])];
    assert if begun then Begun(o[i], w[i]) else Unasked(o[i], w[i]);
    forall n | 0 <= n < |w| && n != i ensures if begun then Begun(v[n], u[n]) else Unasked(v[n], u[n]) {
      assert if begun then Begun(o[n], w[n]) else Unasked(o[n], w[n]);
    }
  }

  predicate OthersKept(v: seq<Snapshot>, w: seq<Snapshot>, i: nat) {
    && |v| == |w| && i < |v| && v[i].got <= w[i].got && !w[i].steady
    && forall n :: 0 <= n < |v| && n != i ==> Kept(v[n], w[n])
  }

  lemma {:induction false} OthersKeptOn(v: seq<Snapshot>, w: seq<Snapshot>, i: nat)
    requires OthersKept(v, w, i)
    ensures OthersKept(v, w[i := SwitchedOffState(w[i])], i)
  {
    hide Kept;
  }

  lemma {:induction false} OneSwitchedOff(v: seq<Snapshot>, i: nat)
    requires i < |v|
    ensures OthersKept(v, v[i := SwitchedOffState(v[i])], i)
  {
    AllKept(v);
  }

  /** What a write of a new block does to a branch, a flush it had not answered included. */
  predicate Rewrote(b: Snapshot, c: Snapshot) {
    Kept(b, c) && c.tally == CutShort(b.tally, b.isFlushing) && !c.isFlushing && !c.isFlushed
  }

  /** No flush and no answer. */
  predicate Unasked(b: Snapshot, c: Snapshot) {
    c.tally == b.tally && c.isFlushing == b.isFlushing && (c.isFlushed ==> b.isFlushed)
  }

  ghost predicate AllRewrote(was: seq<Snapshot>, now: seq<Snapshot>) {
    |was| == |now| && forall i :: 0 <= i < |now| ==> Rewrote(was[i], now[i])
  }

  lemma {:induction false} RewroteOn(was: seq<Snapshot>, now: seq<Snapshot>, last: seq<Snapshot>)
    requires |was| == |now| == |last|
    requires forall i :: 0 <= i < |now| ==> Rewrote(was[i], now[i]) && Later(now[i], last[i])
    requires AllUnasked(now, last)
    ensures AllRewrote(was, last)
  {
    forall i | 0 <= i < |now| ensures Rewrote(was[i], last[i]) {
      assert Rewrote(was[i], now[i]) && Later(now[i], last[i]) && Unasked(now[i], last[i]);
    }
  }

  ghost predicate AllUnasked(was: seq<Snapshot>, now: seq<Snapshot>) {
    |was| == |now| && forall i :: 0 <= i < |now| ==> Unasked(was[i], now[i])
  }

  /** A round of flushes has begun: an enabled branch has been asked, another is flushed. */
  predicate Begun(b: Snapshot, c: Snapshot) {
    && c.isFlushing == b.isEnabled && c.tally == (if b.isEnabled then NewFlush(b.tally, b.isFlushing) else b.tally)
    && if b.isEnabled then c.isFlushed ==> b.isFlushed else c.isFlushed
  }

  ghost predicate AllBegun(was: seq<Snapshot>, now: seq<Snapshot>) {
    |was| == |now| && forall i :: 0 <= i < |now| ==> Begun(was[i], now[i])
  }

  /** A round has begun, or no flush and no answer has come. */
  ghost predicate FlushedOn(was: seq<Snapshot>, now: seq<Snapshot>, begun: bool) {
    if begun then AllBegun(was, now) else AllUnasked(was, now)
  }

  lemma {:induction false} UnaskedBegun(was: seq<Snapshot>, now: seq<Snapshot>, block: seq<real>, accepted: seq<real>)
    requires AllUnasked(was, now) && AllLater(was, now) && AllFlow(now, block, accepted)
    ensures AllBegun(was, AllAsked(now))
  {
    hide Select;
    forall i | 0 <= i < |now| ensures Begun(was[i], AllAsked(now)[i]) {
      assert Unasked(was[i], now[i]) && Later(was[i], now[i]) && Flows(now[i], block, accepted);
    }
  }

  lemma {:induction false} AllUnaskedSame(was: seq<Snapshot>)
    ensures AllUnasked(was, was)
  {
  }

  lemma {:induction false} AllUnaskedOn(was: seq<Snapshot>, now: seq<Snapshot>, next: seq<Snapshot>)
    requires AllUnasked(was, now) && AllUnasked(now, next)
    ensures AllUnasked(was, next)
  {
    forall i | 0 <= i < |next| ensures Unasked(was[i], next[i]) {
      assert Unasked(was[i], now[i]) && Unasked(now[i], next[i]);
    }
  }

  lemma {:induction false} NoneStopped(was: seq<Snapshot>, accepted: seq<real>)
    requires AllFlow(was, [], accepted)
    ensures forall i :: 0 <= i < |was| ==> !was[i].isStopped
  {
    hide Select;
    forall i | 0 <= i < |was| ensures !was[i].isStopped { assert Flows(was[i], [], accepted); }
  }

  ghost predicate AllFlow(v: seq<Snapshot>, block: seq<real>, accepted: seq<real>) {
    forall i :: 0 <= i < |v| ==> Flows(v[i], block, accepted)
  }

  predicate AllSettled(v: seq<Snapshot>, block: seq<real>) {
    forall i :: 0 <= i < |v| ==> Settled(v[i], block)
  }

  /** Somebody has not had all of the block. */
  predicate Pending(v: seq<Snapshot>, n: nat) {
    exists i :: 0 <= i < |v| && v[i].pos < n
  }

  /** A sink that joins has been off for everything so far. */
  lemma {:induction false} NewSink(v: seq<Snapshot>, accepted: seq<real>)
    requires AllFlow(v, [], accepted) && AllSettled(v, []) && Flushing(v) == 0
    ensures var w := v + [NewBranch(|accepted|)];
            AllFlow(w, [], accepted) && AllSettled(w, []) && Flushing(w) == 0
  {
    hide Flushing;
    var b := NewBranch(|accepted|);
    NoneFlushing(v);
    NoneFlushing(v + [b]);
    SelectNext(accepted, [], false, |accepted|);
    assert [] + All(false, |accepted|) == All(false, |accepted|) && Select(accepted, []) == [];
  }

  /** What a turn does to a branch. */
  ghost predicate Served(b: Snapshot, c: Snapshot, block: seq<real>, accepted: seq<real>, some: bool, all: bool) {
    && Flows(c, block, accepted) && Later(b, c) && !c.isFlushing && (c.isFlushed ==> b.isFlushed) && c.tally == b.tally
    && (if some then b.pos < |block| && b.pos < c.pos else Settled(c, block))
    && (all <==> c.pos >= |block|)
  }

  lemma {:induction false} AllDone(v: seq<Snapshot>, block: seq<real>, accepted: seq<real>)
    requires AllFlow(v, block, accepted) && !Pending(v, |block|)
    ensures AllFlow(v, [], accepted) && AllSettled(v, [])
    ensures AllFlow(AllAsked(v), [], accepted) && AllSettled(AllAsked(v), [])
  {
    hide Select;
    forall i | 0 <= i < |v| ensures Flows(v[i], [], accepted) && Flows(Asked(v[i]), [], accepted) {
      BlockDone(v[i], block, accepted);
    }
  }

  lemma {:induction false} FlushersEnabled(v: seq<Snapshot>, accepted: seq<real>)
    requires AllFlow(v, [], accepted)
    ensures forall i :: 0 <= i < |v| ==> v[i].isFlushing ==> v[i].isEnabled
  {
    hide Select;
    forall i | 0 <= i < |v| ensures v[i].isFlushing ==> v[i].isEnabled {
      assert Flows(v[i], [], accepted);
    }
  }

  lemma {:induction false} StillPending(v: seq<Snapshot>, w: seq<Snapshot>, n: nat)
    requires |v| == |w| && forall i :: 0 <= i < |v| ==> v[i].pos == w[i].pos
    ensures Pending(v, n) <==> Pending(w, n)
  {
    if i :| 0 <= i < |v| && v[i].pos < n { assert w[i].pos < n; }
    if i :| 0 <= i < |w| && w[i].pos < n { assert v[i].pos < n; }
  }

  lemma {:induction false} SwitchedOn(v: seq<Snapshot>, i: nat, block: seq<real>, accepted: seq<real>)
    requires i < |v| && AllFlow(v, block, accepted) && AllSettled(v, block) && !v[i].steady
    ensures var w := v[i := v[i].(isEnabled := true)];
      AllFlow(w, block, accepted) && AllSettled(w, block) && Flushing(w) == Flushing(v)
  {
    hide Select;
    assert Flows(v[i], block, accepted) && Settled(v[i], block);
    FlushingSame(v, v[i := v[i].(isEnabled := true)]);
  }

  /** A branch after switching it off: its sink is flushed unless it is flushing or flushed
      already. */
  function SwitchedOffState(b: Snapshot): Snapshot {
    b.(isEnabled := false, steady := false, isFlushing := false,
       tally := if b.isFlushing || b.isFlushed then CutShort(b.tally, b.isFlushing) else CutShort(NewFlush(b.tally, false), true))
  }

  lemma {:induction false} SwitchedOffAgain(b: Snapshot)
    ensures SwitchedOffState(b.(isEnabled := false, steady := false)) == SwitchedOffState(b) && SwitchedOffState(b).pos == b.pos
  {
  }

  /** What that means: its sink is flushed unless it is flushing or flushed already, and nothing
      else happens to the branch. */
  lemma {:induction false} SwitchedOffKept(b: Snapshot)
    ensures var c := SwitchedOffState(b);
      && !c.isEnabled && !c.isFlushing && !c.steady && c.isFlushed == b.isFlushed && c.isStopped == b.isStopped
      && c.pos == b.pos && c.got == b.got && c.heard == b.heard && c.joined == b.joined
      && c.tally.answers == b.tally.answers
      && c.tally.flushes == b.tally.flushes + (if b.isFlushing || b.isFlushed then 0 else 1)
  {
  }

  lemma {:induction false} SwitchedOff(v: seq<Snapshot>, i: nat, block: seq<real>, accepted: seq<real>)
    requires i < |v| && AllFlow(v, block, accepted) && AllSettled(v, block) && !v[i].isStopped
    ensures var w := v[i := SwitchedOffState(v[i])];
      AllFlow(w, block, accepted) && AllSettled(w, block) && Flushing(w) == Flushing(v) - (if v[i].isFlushing then 1 else 0)
  {
    hide Select, Flushing;
    var w := v[i := SwitchedOffState(v[i])];
    assert Flows(v[i], block, accepted) && Settled(v[i], block);
    if v[i].isFlushing { FlushingOneLess(v, i, w[i]); } else { FlushingSame(v, w); }
  }

  /** A branch after its sink has answered. */
  function Replied(b: Snapshot): Snapshot {
    b.(isFlushing := false, isFlushed := true,
       tally := b.tally.(answers := b.tally.answers + 1, ignored := b.tally.ignored + if b.isFlushing then 0 else 1))
  }

  lemma {:induction false} Answered(v: seq<Snapshot>, i: nat, block: seq<real>, accepted: seq<real>)
    requires i < |v| && AllFlow(v, block, accepted) && AllSettled(v, block)
    ensures var w := v[i := Replied(v[i])];
      AllFlow(w, block, accepted) && AllSettled(w, block) && Flushing(w) == Flushing(v) - (if v[i].isFlushing then 1 else 0)
    ensures v[i].isFlushing ==> v[i].isEnabled
  {
    hide Select, Flushing;
    var w := v[i := Replied(v[i])];
    assert Flows(v[i], block, accepted) && Settled(v[i], block);
    if v[i].isFlushing { FlushingOneLess(v, i, w[i]); } else { FlushingSame(v, w); }
  }

  lemma {:induction false} Resumed(v: seq<Snapshot>, w: seq<Snapshot>, i: nat, block: seq<real>, accepted: seq<real>)
    requires i < |v| && AllFlow(v[i := v[i].(refused := true)], block, accepted) && w == v[i := v[i].(isStopped := false, refused := false)]
    ensures AllFlow(w, block, accepted) && Flushing(w) == Flushing(v)
  {
    hide Select, Flushing;
    var u := v[i := v[i].(refused := true)];
    assert Flows(u[i], block, accepted);
    forall j | 0 <= j < |w| ensures Flows(w[j], block, accepted) {
      assert Flows(u[j], block, accepted);
    }
    FlushingSame(v, w);
  }

  lemma {:induction false} NobodyElse(v: seq<Snapshot>, w: seq<Snapshot>, i: nat, block: seq<real>)
    requires i < |v| && !v[i].isEnabled && AllSettled(v, block)
    requires w == v[i := v[i].(isStopped := false, refused := false)]
    ensures AllSettled(w, block)
  {
    assert Settled(v[i], block);
  }

  lemma {:induction false} NotStopped(v: seq<Snapshot>, i: nat, block: seq<real>, accepted: seq<real>)
    requires i < |v| && AllFlow(v, block, accepted) && !v[i].isEnabled
    ensures !v[i].isStopped && !v[i].steady && !v[i].isFlushing
  {
    hide Select;
    assert Flows(v[i], block, accepted);
  }

  lemma {:induction false} StoppedIsNotFlushing(v: seq<Snapshot>, i: nat, block: seq<real>, accepted: seq<real>)
    requires i < |v| && AllFlow(v, block, accepted) && v[i].isStopped && (Flushing(v) > 0 ==> block == [])
    ensures !v[i].isFlushing
  {
    hide Select;
    assert Flows(v[i], block, accepted);
    NoneFlushing(v);
  }

  lemma {:induction false} NotPending(v: seq<Snapshot>)
    ensures !Pending(v, 0)
  {
  }

  lemma {:induction false} AllPast(v: seq<Snapshot>)
    ensures AllSettled(v, [])
  {
  }

  ghost predicate AllLater(was: seq<Snapshot>, now: seq<Snapshot>) {
    |was| == |now| && forall i :: 0 <= i < |now| ==> Later(was[i], now[i])
  }

  lemma {:induction false} AllLaterSame(was: seq<Snapshot>)
    ensures AllLater(was, was)
  {
  }

  lemma {:induction false} AllLaterOn(was: seq<Snapshot>, now: seq<Snapshot>, next: seq<Snapshot>)
    requires AllLater(was, now) && |next| == |now| && forall i :: 0 <= i < |now| ==> Later(now[i], next[i])
    ensures AllLater(was, next)
  {
    forall i | 0 <= i < |next| ensures Later(was[i], next[i]) {
      assert Later(was[i], now[i]) && Later(now[i], next[i]);
    }
  }

  lemma {:induction false} AllLaterAsked(was: seq<Snapshot>, now: seq<Snapshot>)
    requires AllLater(was, now)
    ensures AllLater(was, AllAsked(now))
  {
    forall i | 0 <= i < |now| ensures Later(was[i], AllAsked(now)[i]) {
      assert Later(was[i], now[i]);
    }
  }

  lemma {:induction false} ServedUnasked(was: seq<Snapshot>, now: seq<Snapshot>, block: seq<real>, accepted: seq<real>, somes: seq<bool>, alls: seq<bool>)
    requires |was| == |now| == |somes| == |alls| && Flushing(was) == 0
    requires forall j :: 0 <= j < |was| ==> Served(was[j], now[j], block, accepted, somes[j], alls[j])
    ensures AllUnasked(was, now)
  {
    hide Flows, Settled, Later;
    NoneFlushing(was);
    forall j | 0 <= j < |was| ensures Unasked(was[j], now[j]) {
      assert Served(was[j], now[j], block, accepted, somes[j], alls[j]);
    }
  }

  lemma {:induction false} AllServed(was: seq<Snapshot>, now: seq<Snapshot>, block: seq<real>, accepted: seq<real>, somes: seq<bool>, alls: seq<bool>)
    requires |was| == |now| == |somes| == |alls|
    requires forall j :: 0 <= j < |was| ==> Served(was[j], now[j], block, accepted, somes[j], alls[j])
    ensures AllFlow(now, block, accepted) && Flushing(now) == 0
    ensures if true in somes then Remaining(now, |block|) < Remaining(was, |block|) else AllSettled(now, block)
    ensures false in alls <==> Pending(now, |block|)
    ensures forall i :: 0 <= i < |now| ==> Later(was[i], now[i])
  {
    hide Flows, Settled;
    NoneFlushing(now);
    RemainingFalls(was, now, |block|);
    if true in somes {
      var j :| 0 <= j < |somes| && somes[j];
      assert Served(was[j], now[j], block, accepted, somes[j], alls[j]);
    }
  }

  /** Further on in the same block. */
  predicate Later(b: Snapshot, c: Snapshot) {
    && b.pos <= c.pos && c.isEnabled == b.isEnabled && c.steady == b.steady && c.joined == b.joined && b.got <= c.got && b.heard <= c.heard
    && forall k :: |b.heard| <= k < |c.heard| ==> c.heard[k] == b.isEnabled
  }

  lemma {:induction false} NoBranches(bs: seq<Snapshot>)
    ensures Flushing(bs[..0]) == 0
  {
  }

  lemma {:induction false} AskedCount(was: seq<Snapshot>, asked: seq<Snapshot>, i: nat)
    requires i < |was| && asked == AllAsked(was) && (was[i].isFlushing ==> was[i].isEnabled)
    ensures Flushing(asked[..i + 1]) == Flushing(asked[..i]) + (if was[i].isEnabled then 1 else 0)
    ensures Asked(was[i]).isEnabled == was[i].isEnabled
  {
    assert asked[..i + 1][..i] == asked[..i];
  }

  /** One more flush; one that is still waited for is not waited for any longer. */
  function NewFlush(t: Tally, isFlushing: bool): Tally {
    CutShort(t, isFlushing).(flushes := t.flushes + 1)
  }

  /** A branch that has been asked to flush. */
  function Asked(b: Snapshot): Snapshot {
    if b.isEnabled then b.(isFlushing := true, tally := NewFlush(b.tally, b.isFlushing)) else b.(isFlushed := true)
  }

  function AllAsked(bs: seq<Snapshot>): (cs: seq<Snapshot>)
    ensures |cs| == |bs| && forall i :: 0 <= i < |bs| ==> cs[i] == Asked(bs[i])
  {
    seq(|bs|, i requires 0 <= i < |bs| => Asked(bs[i]))
  }

  // ---------------------------------------------------------------- a run that falls short

  /** The source of a splitter with one idle branch flushes, writes a sample and flushes again;
      then the sink answers once. */
  method FlushWriteFlush(s: AudioSplitter)
    requires Single(s) && !s.doFlush && !s.branches[0].isFlushing
    modifies s, s.buf, s.branches
    ensures Single(s) && s.branches == old(s.branches) && |s.accepted| == |old(s.accepted)| + 1
    ensures s.rounds == old(s.rounds) + 2 && s.acks == old(s.acks) + 1
    ensures s.branches[0].tally == TwoFlushes(old(s.branches[0].tally))
  {
    hide AudioSplitter.Valid, AudioSplitter.AllWilling, NewFlush, CutShort, TwoFlushes;
    AskOne(s);
    WriteOne(s);
    AskOne(s);
    AnswerOne(s);
    Counted(old(s.branches[0].tally));
  }

  /** What is known of a splitter with one idle or flushing branch and no kept block. */
  ghost predicate Single(s: AudioSplitter)
    reads s, s.buf, s.branches
  {
    s.Valid() && |s.branches| == 1 && s.AllWilling() && s.bufLen == 0 && s.branches[0].isEnabled
  }

  method AskOne(s: AudioSplitter)
    requires Single(s) && !s.doFlush
    modifies s, s.branches
    ensures Single(s) && s.doFlush && s.branches == old(s.branches) && s.accepted == old(s.accepted) && s.buf == old(s.buf)
    ensures s.rounds == old(s.rounds) + 1 && s.acks == old(s.acks) && s.branches[0].isFlushing
    ensures s.branches[0].tally == NewFlush(old(s.branches[0].tally), old(s.branches[0].isFlushing))
  {
    hide Select, Flows, Settled, Pending, AudioSplitter.View, AudioSplitter.FlushOk, AllFlow, AllSettled, Flushing, NewFlush, AllAsked;
    OnlyOne(s.View());
    s.FlushSamples();
    OnlyOne(s.View());
  }

  method WriteOne(s: AudioSplitter)
    requires Single(s)
    modifies s, s.buf, s.branches
    ensures Single(s) && !s.doFlush && s.branches == old(s.branches) && |s.accepted| == |old(s.accepted)| + 1
    ensures s.buf == old(s.buf) || fresh(s.buf)
    ensures s.rounds == old(s.rounds) && s.acks == old(s.acks) && !s.branches[0].isFlushing
    ensures s.branches[0].tally == CutShort(old(s.branches[0].tally), old(s.branches[0].isFlushing))
  {
    hide Select, Flows, Settled, Pending, AudioSplitter.View, AudioSplitter.FlushOk, AllFlow, AllSettled, Flushing, Rewrote, CutShort;
    ghost var b := s.View()[0];
    var n := s.WriteSamples([1.0]);
    WasRewritten(b, s.View()[0]);
  }

  method AnswerOne(s: AudioSplitter)
    requires Single(s) && s.branches[0].isFlushing
    modifies s, s.branches
    ensures Single(s) && s.branches == old(s.branches) && s.accepted == old(s.accepted) && s.buf == old(s.buf)
    ensures s.rounds == old(s.rounds) && s.acks == old(s.acks) + 1
    ensures s.branches[0].tally == old(s.branches[0].tally).(answers := old(s.branches[0].tally).answers + 1)
  {
    hide Select, Flows, Settled, Pending, AudioSplitter.View, AudioSplitter.FlushOk, AllFlow, AllSettled, Flushing;
    OnlyOne(s.View());
    s.AllSamplesFlushed(0);
    OnlyOne(s.View());
  }

  lemma {:induction false} Counted(t: Tally)
    ensures var u := NewFlush(CutShort(NewFlush(t, false), true), false); u.(answers := u.answers + 1) == TwoFlushes(t)
  {
  }

  function TwoFlushes(t: Tally): Tally {
    t.(flushes := t.flushes + 2, answers := t.answers + 1, cut := t.cut + 1)
  }

  lemma {:induction false} WasRewritten(b: Snapshot, c: Snapshot)
    requires Rewrote(b, c)
    ensures c.isEnabled == b.isEnabled && !c.isFlushing && c.tally == CutShort(b.tally, b.isFlushing)
  {
  }

  lemma {:induction false} OnlyOne(v: seq<Snapshot>)
    requires |v| == 1
    ensures Flushing(v) == if v[0].isFlushing then 1 else 0
    ensures AllAsked(v) == [Asked(v[0])]
  {
    assert v[..0] == [] && Flushing([]) == 0;
  }

  /** The sink of a new splitter answers its first flush when it has been asked for a second
      one; the second is acknowledged, although the sink has not answered it. */
  method LateAnswerCounts() returns (s: AudioSplitter)
    ensures s.Valid() && |s.branches| == 1 && |s.accepted| == 1 && s.bufLen == 0
    ensures s.rounds == 2 && s.acks == 1
    ensures var t := s.branches[0].tally; t.flushes == 2 && t.answers == 1 && t.cut == 1 && t.ignored == 0
  {
    hide Select, Flows, Settled, Pending, AudioSplitter.View, Rewrote;
    s := new AudioSplitter(true);
    FlushWriteFlush(s);
  }
}

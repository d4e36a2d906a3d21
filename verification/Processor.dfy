/** The audio processor: any of the sample processors between a source and a sink, with
    partial input blocks and undelivered output carried from call to call. */
module Processor {
  import opened Blocks
  import opened Signals
  import opened FilterRun
  import opened Multirate
  import opened FilterPipe

  const BUFSIZE: nat := 256

  /** The processor behind the virtual call. */
  datatype Kind = Decimate(d: Decimator) | Interpolate(i: Interpolator) | Filtering(f: AudioFilter)

  /** The objects a processor changes. */
  function Parts(k: Kind): (r: set<object>) {
    match k
    case Decimate(d) => {d, d.z}
    case Interpolate(i) => {i, i.z}
    case Filtering(f) => {f, f.run, f.run.buf}
  }

  ghost predicate Ready(k: Kind)
    reads Parts(k)
  {
    match k
    case Decimate(d) => d.Valid()
    case Interpolate(i) => i.Valid()
    case Filtering(f) => f.Valid()
  }

  /** All samples processed so far. */
  ghost function Fed(k: Kind): seq<real>
    reads Parts(k)
  {
    match k
    case Decimate(d) => d.fed
    case Interpolate(i) => i.fed
    case Filtering(f) => f.run.inputs
  }

  function InRate(k: Kind): (r: nat) {
    match k
    case Decimate(d) => d.m
    case _ => 1
  }

  function OutRate(k: Kind): (r: nat) {
    match k
    case Interpolate(i) => i.l
    case _ => 1
  }

  ghost predicate Sound(k: Kind) {
    InRate(k) > 0 && OutRate(k) > 0 && (k.Filtering? ==> Safe(k.f.run.run))
  }

  /** What a stream should become, whatever its division into blocks. */
  ghost function Expected(k: Kind, s: seq<real>): seq<real>
    requires Sound(k)
  {
    match k
    case Decimate(d) => Decimated(d.h, d.m, s)
    case Interpolate(i) => Interpolated(Used(i.h, i.l), i.l, s)
    case Filtering(f) => Filtered(f.run.run, f.gain, s)
  }

  /** Whole input blocks in, whole output blocks out. */
  function Ratio(k: Kind, n: nat): (r: nat)
    requires InRate(k) > 0
  {
    match k
    case Decimate(d) => n / d.m
    case Interpolate(i) => By(i.l, n)
    case Filtering(_) => n
  }

  lemma {:induction false} RatioIs(k: Kind, n: nat)
    requires InRate(k) > 0 && OutRate(k) > 0
    ensures n * OutRate(k) / InRate(k) == Ratio(k, n)
    ensures Ratio(k, InRate(k)) == OutRate(k)
  {
    assert n * OutRate(k) == By(OutRate(k), n);
    ByNext(InRate(k), 1);
    ByNext(OutRate(k), 1);
    hide By;
    Divides(InRate(k), InRate(k), 1, 0);
    Divides(n, 1, n, 0) by { ByNext(1, n); }
    Divides(By(OutRate(k), n), 1, By(OutRate(k), n), 0) by { ByNext(1, By(OutRate(k), n)); }
  }

  /** As many input samples as the free output slots have room for. */
  function Room(k: Kind, free: nat): (r: nat)
    requires OutRate(k) > 0
  {
    free * InRate(k) / OutRate(k)
  }

  lemma {:induction false} RoomFits(k: Kind, free: nat, n: nat)
    requires InRate(k) > 0 && OutRate(k) > 0 && n <= Room(k, free) && n % InRate(k) == 0
    ensures Ratio(k, n) <= free
  {
    var a, b := InRate(k), OutRate(k);
    assert free * a == By(a, free);
    ByNext(1, n);
    ByNext(1, free);
    hide By;
    if k.Decimate? {
      Divides(By(a, free), 1, By(a, free), 0) by { ByNext(1, By(a, free)); }
      ByNext(a, free);
      Below(n, a, free + 1);
    } else if k.Interpolate? {
      ByMonotone(b, n, free / b);
      Euclid(free, b);
    } else {
      Divides(free, 1, free, 0);
    }
  }

  lemma {:induction false} RoomShape(k: Kind, free: nat)
    requires InRate(k) > 0 && OutRate(k) > 0
    ensures Room(k, free) % InRate(k) == 0
    ensures Room(k, free) == 0 <==> free < OutRate(k)
    ensures k.Decimate? && free > 0 ==> Room(k, free) >= InRate(k) && (free == BUFSIZE ==> Room(k, free) >= 2 * InRate(k))
  {
    var a, b := InRate(k), OutRate(k);
    assert free * a == By(a, free);
    ByNext(1, free);
    hide By;
    Divides(By(a, free), 1, By(a, free), 0) by { ByNext(1, By(a, free)); }
    Divides(By(a, free), a, free, 0);
    ByNext(b, 0);
    ByNext(b, 1);
    Below(free, b, 1);
    ByNext(a, 1);
    if free > 0 { ByMonotone(a, 1, free); }
    if free > 1 { ByMonotone(a, 2, free); }
    Divides(free, 1, free, 0);
  }

  /** What has become of the flushes asked for, besides those passed to the sink: made while
      another was still kept back; withdrawn by a write; or forgotten, when the sink's answer to
      an earlier one came. */
  datatype Ledger = Ledger(asked: nat, joined: nat, withdrawn: nat, forgotten: nat)

  /** Flushes that will never be passed on. */
  function Unsent(l: Ledger): nat {
    l.joined + l.withdrawn + l.forgotten
  }

  /** One more flush is asked for, with or without another kept back. */
  function Asking(l: Ledger, keptBack: bool): (m: Ledger)
    ensures m.asked == l.asked + 1 && Unsent(m) == Unsent(l) + (if keptBack then 1 else 0)
  {
    l.(asked := l.asked + 1, joined := l.joined + if keptBack then 1 else 0)
  }

  /** The flush kept back, if there is one, is withdrawn. */
  function Withdrawing(l: Ledger, keptBack: bool): (m: Ledger)
    ensures m.asked == l.asked && Unsent(m) == Unsent(l) + (if keptBack then 1 else 0)
  {
    l.(withdrawn := l.withdrawn + if keptBack then 1 else 0)
  }

  /** It is forgotten. */
  function Forgetting(l: Ledger, keptBack: bool): (m: Ledger)
    ensures m.asked == l.asked && Unsent(m) == Unsent(l) + (if keptBack then 1 else 0)
  {
    l.(forgotten := l.forgotten + if keptBack then 1 else 0)
  }

  class AudioProcessor {
    const kind: Kind
    const buf: array<real>
    var bufCnt: nat
    var doFlush: bool
    var inputStopped: bool
    var outputStopped: bool
    const inputRate: nat
    const outputRate: nat
    const inputBuf: array<real>
    var inputBufCnt: nat
    const inputBufSize: nat

    /** Every sample taken from the source, and every zero added by a flush. */
    ghost var stream: seq<real>
    /** Every sample the sink has accepted. */
    ghost var delivered: seq<real>
    /** Deferred calls that have been scheduled: flushes of the sink, and resumes of the source. */
    var flushTasks: nat
    var resumeTasks: nat
    /** Flushes passed to the sink, resumes and acknowledgements passed to the source. */
    ghost var flushes: nat
    ghost var resumes: nat
    ghost var acks: nat
    ghost var ledger: Ledger
    /** How many samples the sink had been given when it was last asked to flush. */
    ghost var flushedAt: nat
    /** The sink took nothing when it was last asked, and has not resumed since. */
    ghost var refused: bool

    ghost predicate Shaped()
      reads this`bufCnt, this`inputBufCnt
    {
      && buf.Length == BUFSIZE && buf != inputBuf && {this, buf, inputBuf} !! Parts(kind)
      && Sound(kind) && inputRate == InRate(kind) > 0 && outputRate == OutRate(kind) > 0
      && inputBuf.Length == inputBufSize == (if inputRate > outputRate then inputRate else 0)
      && bufCnt <= BUFSIZE
      && (inputBufCnt == 0 || inputBufCnt < inputBufSize)
    }

    /** No sample is lost, doubled or reordered: what the sink has, followed by what waits in
        the buffer, is the image of what has been processed, and what came in is that
        followed by the incomplete block. */
    ghost predicate Conserving()
      requires Shaped()
      reads this`bufCnt, this`inputBufCnt, this`stream, this`delivered, buf, inputBuf, Parts(kind)
    {
      && Ready(kind) && |Fed(kind)| % inputRate == 0
      && stream == Fed(kind) + inputBuf[..inputBufCnt]
      && delivered + buf[..bufCnt] == Expected(kind, Fed(kind))
    }

    /** Flushes that have been passed on, are scheduled, or wait for the buffer to drain. */
    ghost function FlushesDue(): nat
      reads this
    {
      flushes + flushTasks + if doFlush then 1 else 0
    }

    /** No flush is unaccounted for. */
    ghost predicate Accounted()
      reads this
    {
      ledger.asked == FlushesDue() + Unsent(ledger) && flushedAt <= |delivered|
    }

    ghost predicate Valid()
      reads this, buf, inputBuf, Parts(kind)
    {
      && Shaped() && Conserving()
      && Accounted()
      && (doFlush ==> bufCnt > 0)
      && (outputStopped ==> bufCnt > 0 && refused)
      && (inputStopped ==> BUFSIZE - bufCnt < outputRate)
      && (inputStopped && outputRate <= BUFSIZE ==> outputStopped)
    }

    /** Samples wait for the sink, but the sink has not stopped, so it owes no resume. */
    ghost predicate Stalled()
      reads this
    {
      bufCnt > 0 && !outputStopped
    }

    constructor (kind: Kind)
      requires Ready(kind) && Fed(kind) == []
      ensures Valid() && this.kind == kind && stream == [] && delivered == []
      ensures !doFlush && !inputStopped && !Stalled() && !refused
      ensures flushes == 0 && resumes == 0 && acks == 0 && flushTasks == 0 && resumeTasks == 0 && flushedAt == 0
      ensures ledger.asked == 0
      ensures fresh(buf) && fresh(inputBuf)
    {
      this.kind := kind;
      bufCnt, inputBufCnt := 0, 0;
      doFlush, inputStopped, outputStopped := false, false, false;
      stream, delivered := [], [];
      flushTasks, resumeTasks := 0, 0;
      flushes, resumes, acks, refused := 0, 0, 0, false;
      ledger, flushedAt := Ledger(0, 0, 0, 0), 0;
      buf := new real[BUFSIZE](_ => 0.0);
      var inRate, outRate := InRate(kind), OutRate(kind);
      inputRate, outputRate := inRate, outRate;
      var size := if inRate > outRate then inRate else 0;
      inputBufSize := size;
      inputBuf := new real[size](_ => 0.0);
      new;
      assert Fed(kind) == [];
      EmptyStream(kind);
    }

    /** The virtual call: src becomes samples from position at of the buffer on. */
    method ProcessSamples(at: nat, src: seq<real>)
      requires Shaped() && Ready(kind) && |Fed(kind)| % inputRate == 0
      requires |src| % inputRate == 0 && at + Ratio(kind, |src|) <= BUFSIZE
      modifies buf, Parts(kind)
      ensures Shaped() && Ready(kind) && Fed(kind) == old(Fed(kind)) + src
      ensures |Fed(kind)| % inputRate == 0
      ensures buf[..at] == old(buf[..at])
      ensures Expected(kind, Fed(kind)) == Expected(kind, old(Fed(kind))) + buf[at..at + Ratio(kind, |src|)]
    {
      hide By, Decimated, Interpolated, Used, Filtered, Safe, Memory;
      MoreBlocks(|Fed(kind)|, |src|, inputRate);
      ghost var before := buf[..];
      match kind {
        case Decimate(d) => d.ProcessSamples(buf, at, src);
        case Interpolate(i) => i.ProcessSamples(buf, at, src);
        case Filtering(f) => f.ProcessSamples(buf, at, src);
      }
      assert forall k :: 0 <= k < at ==> buf[k] == before[k];
      assert buf[..at] == before[..at];
    }

    /** As Conserving, with all of the input block filled. */
    ghost predicate BlockFull()
      requires Shaped()
      reads this`bufCnt, this`inputBufCnt, this`stream, this`delivered, buf, inputBuf, Parts(kind)
    {
      && Ready(kind) && |Fed(kind)| % inputRate == 0
      && stream == Fed(kind) + inputBuf[..]
      && delivered + buf[..bufCnt] == Expected(kind, Fed(kind))
    }

    /** Processes a completed block. */
    method ProcessBlock()
      requires Shaped() && inputBufSize > 0 && BlockFull() && bufCnt < BUFSIZE
      modifies this`bufCnt, this`inputBufCnt, buf, Parts(kind)
      ensures Shaped() && Conserving() && bufCnt == old(bufCnt) + 1 && inputBufCnt == 0
    {
      hide Expected, Sound, Safe, By;
      ghost var fed, waiting := Fed(kind), buf[..bufCnt];
      OneBlock(kind);
      var block := inputBuf[..];
      assert |block| == InRate(kind);
      ProcessSamples(bufCnt, block);
      ghost var made := buf[bufCnt..bufCnt + 1];
      bufCnt := bufCnt + 1;
      inputBufCnt := 0;
      Extended(delivered, waiting, Expected(kind, fed), Expected(kind, Fed(kind)), buf[..bufCnt], made);
      assert Fed(kind) + inputBuf[..0] == Fed(kind);
    }

    /** Fills the incomplete block with zeros and processes it into an empty buffer. */
    method ProcessPadded()
      requires Shaped() && Conserving() && bufCnt == 0 && inputBufCnt > 0
      modifies this`bufCnt, this`inputBufCnt, this`stream, buf, inputBuf, Parts(kind)
      ensures Shaped() && Conserving() && bufCnt == 1 && inputBufCnt == 0
      ensures stream == old(stream) + Zeros(inputBufSize - old(inputBufCnt))
    {
      hide Expected, Sound, Safe, By;
      ghost var held, pad := inputBuf[..inputBufCnt], Zeros(inputBufSize - inputBufCnt);
      forall k | inputBufCnt <= k < inputBufSize { inputBuf[k] := 0.0; }
      assert inputBuf[..] == held + pad;
      assert Fed(kind) + held + pad == Fed(kind) + (held + pad);
      stream := stream + pad;
      ProcessBlock();
    }

    /** The sink takes some of what it is offered, the first of it. */
    method SinkWriteSamples(samples: seq<real>) returns (written: nat)
      modifies this`refused, this`delivered
      ensures written <= |samples| && refused == (written == 0) && delivered == old(delivered) + samples[..written]
    {
      written :| 0 <= written <= |samples|;
      refused := written == 0;
      delivered := delivered + samples[..written];
    }

    /** Everything in Valid but the promise that a stopped source will be woken. */
    ghost predicate Loose()
      reads this, buf, inputBuf, Parts(kind)
    {
      && Shaped() && Conserving()
      && Accounted()
      && (doFlush ==> bufCnt > 0)
      && (outputStopped ==> bufCnt > 0 && refused)
      && (inputStopped ==> BUFSIZE - bufCnt < outputRate)
    }

    /** Hands one portion to the sink. */
    method Offer() returns (written: nat)
      requires Shaped() && Conserving()
      modifies this`bufCnt, this`delivered, this`refused, buf
      ensures Shaped() && Conserving() && refused == (written == 0)
      ensures written <= old(bufCnt) && bufCnt == old(bufCnt) - written && delivered == old(delivered) + old(buf[..bufCnt])[..written]
      ensures Fed(kind) == old(Fed(kind))
    {
      hide Expected, Sound, Ready, Fed, InRate, OutRate, Safe, By, Conserving, Unsent;
      ghost var fed, held, waiting, sent := Fed(kind), inputBuf[..inputBufCnt], buf[..bufCnt], delivered;
      Held(fed, held);
      written := SinkWriteSamples(buf[..bufCnt]);
      Rejoin(sent, waiting, written);
      DropFront(written);
      assert inputBuf[..inputBufCnt] == held && Fed(kind) == fed && Ready(kind);
      Conserves(fed, held);
    }

    lemma {:induction false} Held(fed: seq<real>, held: seq<real>)
      requires Shaped() && Conserving() && fed == Fed(kind) && held == inputBuf[..inputBufCnt]
      ensures Ready(kind) && |fed| % inputRate == 0 && stream == fed + held && delivered + buf[..bufCnt] == Expected(kind, fed)
    {
      hide Expected, Sound, Ready, Fed, InRate, OutRate, Safe, By;
    }

    lemma {:induction false} Conserves(fed: seq<real>, held: seq<real>)
      requires Shaped() && Ready(kind) && fed == Fed(kind) && held == inputBuf[..inputBufCnt]
      requires |fed| % inputRate == 0 && stream == fed + held && delivered + buf[..bufCnt] == Expected(kind, fed)
      ensures Conserving()
    {
      hide Expected, Sound, Ready, Fed, InRate, OutRate, Safe, By;
    }

    /** The first n buffered samples are gone. */
    method DropFront(n: nat)
      requires n <= bufCnt <= buf.Length
      modifies this`bufCnt, buf
      ensures bufCnt == old(bufCnt) - n && buf[..bufCnt] == old(buf[..bufCnt])[n..]
    {
      assert buf[..bufCnt][0..] == buf[..bufCnt];
      if n > 0 {
        bufCnt := bufCnt - n;
        MoveUp(buf, 0, n, bufCnt);
      }
    }

    lemma {:induction false} Drained()
      requires Shaped() && Conserving() && bufCnt == 0 && inputBufCnt == 0
      ensures stream == Fed(kind) && delivered == Expected(kind, stream)
    {
      hide Expected, Sound, Ready, Fed, InRate, OutRate, Safe, By;
      assert inputBuf[..0] == [] && Fed(kind) + [] == Fed(kind) && delivered + [] == delivered;
    }

    /** One portion to the sink; when that was the last one, a waiting flush completes the
        held block or is scheduled. */
    method Round() returns (written: nat)
      requires Shaped() && Conserving() && bufCnt > 0
      modifies this`bufCnt, this`inputBufCnt, this`stream, this`delivered, this`doFlush, this`flushTasks, this`refused, buf, inputBuf, Parts(kind)
      ensures Shaped() && Conserving() && (doFlush ==> bufCnt > 0 && old(doFlush)) && refused == (written == 0)
      ensures FlushesDue() == old(FlushesDue()) && old(delivered) <= delivered
      ensures flushTasks > old(flushTasks) ==> bufCnt == 0 && inputBufCnt == 0
      ensures if written == 0 then bufCnt == old(bufCnt) else bufCnt < old(bufCnt) || inputBufCnt < old(inputBufCnt)
      ensures inputBufCnt <= old(inputBufCnt) && Padded(old(doFlush), old(stream), old(inputBufCnt))
      ensures inputBufCnt > 0 ==> inputBufCnt == old(inputBufCnt) && stream == old(stream)
      ensures !old(doFlush) ==> Untouched(old(stream), old(inputBufCnt), old(Fed(kind)), old(inputBuf[..])) && bufCnt <= old(bufCnt)
    {
      hide Expected, Sound, Ready, Fed, InRate, OutRate, Safe, By, Unsent;
      written := Offer();
      if doFlush && bufCnt == 0 {
        if inputBufCnt > 0 {
          ProcessPadded();
        } else {
          doFlush := false;
          flushTasks := flushTasks + 1;
        }
      }
    }

    /** The input side is as it was. */
    ghost predicate Untouched(before: seq<real>, held: nat, fed: seq<real>, block: seq<real>)
      reads this, inputBuf, Parts(kind)
    {
      stream == before && inputBufCnt == held && Fed(kind) == fed && inputBuf[..] == block
    }

    /** Writes to the sink until it stops or nothing is left. */
    method Drain() returns (written: nat)
      requires Shaped() && Conserving() && bufCnt > 0
      modifies this`bufCnt, this`inputBufCnt, this`stream, this`delivered, this`doFlush, this`flushTasks, this`refused, buf, inputBuf, Parts(kind)
      ensures Shaped() && Conserving() && (doFlush ==> bufCnt > 0 && old(doFlush)) && (written == 0 <==> bufCnt > 0)
      ensures refused == (written == 0)
      ensures FlushesDue() == old(FlushesDue()) && old(delivered) <= delivered
      ensures flushTasks > old(flushTasks) ==> bufCnt == 0 && inputBufCnt == 0
      ensures Padded(old(doFlush), old(stream), old(inputBufCnt))
      ensures !old(doFlush) ==> Untouched(old(stream), old(inputBufCnt), old(Fed(kind)), old(inputBuf[..])) && bufCnt <= old(bufCnt)
    {
      hide Expected, Sound, Ready, Fed, InRate, OutRate, Safe, By, Unsent;
      var going := true;
      written := 0;
      while going
        invariant Shaped() && Conserving() && (doFlush ==> bufCnt > 0 && old(doFlush))
        invariant if going then bufCnt > 0 else (written == 0 <==> bufCnt > 0) && refused == (written == 0)
        invariant FlushesDue() == old(FlushesDue()) && old(delivered) <= delivered
        invariant flushTasks > old(flushTasks) ==> bufCnt == 0 && inputBufCnt == 0
        invariant Padded(old(doFlush), old(stream), old(inputBufCnt))
        invariant inputBufCnt > 0 ==> inputBufCnt == old(inputBufCnt) && stream == old(stream)
        invariant !old(doFlush) ==> Untouched(old(stream), old(inputBufCnt), old(Fed(kind)), old(inputBuf[..])) && bufCnt <= old(bufCnt)
        decreases going, inputBufCnt, bufCnt
      {
        written := Round();
        going := written > 0 && bufCnt > 0;
      }
    }

    /** Writes what is buffered.  A waiting flush is scheduled once everything has been
        delivered, and so is the resume of a source that had to stop. */
    method WriteFromBuf()
      requires Loose()
      modifies this`bufCnt, this`inputBufCnt, this`stream, this`delivered, this`doFlush, this`outputStopped, this`inputStopped,
               this`flushTasks, this`resumeTasks, this`refused, buf, inputBuf, Parts(kind)
      ensures Valid() && !Stalled()
      ensures FlushesDue() == old(FlushesDue()) && old(delivered) <= delivered
      ensures flushTasks > old(flushTasks) ==> bufCnt == 0 && inputBufCnt == 0 && delivered == Expected(kind, stream)
      ensures (inputStopped ==> old(inputStopped)) && (doFlush ==> old(doFlush))
      ensures resumeTasks == old(resumeTasks) + if old(inputStopped) && !inputStopped then 1 else 0
      ensures inputStopped == (old(inputStopped) && (old(bufCnt == 0 || outputStopped) || bufCnt == BUFSIZE))
      ensures Padded(old(doFlush), old(stream), old(inputBufCnt))
      ensures !old(doFlush) ==> Untouched(old(stream), old(inputBufCnt), old(Fed(kind)), old(inputBuf[..])) && bufCnt <= old(bufCnt)
      ensures old(outputStopped) ==> outputStopped && bufCnt == old(bufCnt)
      ensures old(bufCnt) == 0 ==> bufCnt == 0 && !outputStopped && delivered == old(delivered)
      ensures old(bufCnt == 0 || outputStopped) ==> refused == old(refused) && delivered == old(delivered)
    {
      hide Expected, Sound, Ready, Fed, InRate, OutRate, Safe, By, Unsent, Conserving;
      if bufCnt == 0 || outputStopped {
        return;
      }
      var written := Drain();
      if bufCnt == 0 && inputBufCnt == 0 { Drained(); }
      outputStopped := written == 0;
      if inputStopped && bufCnt < BUFSIZE {
        inputStopped := false;
        resumeTasks := resumeTasks + 1;
      }
    }

    /** What a flush adds to the stream: nothing, or the zeros that complete a block. */
    ghost predicate Padded(flushing: bool, before: seq<real>, held: nat)
      reads this
    {
      || (stream == before && inputBufCnt == held)
      || (flushing && 0 < held <= inputBufSize && inputBufCnt == 0 && stream == before + Zeros(inputBufSize - held))
    }

    /** Completes the block that is held, as far as the samples go. */
    method TopUp(part: seq<real>)
      requires Shaped() && Conserving() && inputBufCnt > 0 && inputBufCnt + |part| <= inputBufSize && bufCnt < BUFSIZE
      modifies this`bufCnt, this`inputBufCnt, this`stream, buf, inputBuf, Parts(kind)
      ensures Shaped() && Conserving() && stream == old(stream) + part
      ensures var full := old(inputBufCnt) + |part| == inputBufSize;
        && inputBufCnt == (if full then 0 else old(inputBufCnt) + |part|)
        && bufCnt == old(bufCnt) + (if full then 1 else 0)
    {
      hide Expected, Sound, Ready, Fed, InRate, OutRate, Safe, By, Unsent, Conserving;
      ghost var fed, held := Fed(kind), inputBuf[..inputBufCnt];
      Held(fed, held);
      forall k | 0 <= k < |part| { inputBuf[inputBufCnt + k] := part[k]; }
      assert inputBuf[..inputBufCnt + |part|] == held + part;
      assert fed + held + part == fed + (held + part);
      stream := stream + part;
      if inputBufCnt + |part| == inputBufSize {
        assert inputBuf[..] == inputBuf[..inputBufCnt + |part|];
        ProcessBlock();
      } else {
        inputBufCnt := inputBufCnt + |part|;
        Conserves(fed, held + part);
      }
    }

    /** Processes whole blocks straight from the source. */
    method Consume(part: seq<real>)
      requires Shaped() && Conserving() && inputBufCnt == 0
      requires |part| % inputRate == 0 && bufCnt + Ratio(kind, |part|) <= BUFSIZE
      modifies this`bufCnt, this`stream, buf, Parts(kind)
      ensures Shaped() && Conserving() && stream == old(stream) + part
      ensures bufCnt == old(bufCnt) + Ratio(kind, |part|)
    {
      hide Expected, Sound, Safe, By, Unsent;
      ghost var fed, waiting := Fed(kind), buf[..bufCnt];
      assert fed + inputBuf[..0] == fed;
      ProcessSamples(bufCnt, part);
      ghost var made := buf[bufCnt..bufCnt + Ratio(kind, |part|)];
      RatioIs(kind, |part|);
      bufCnt := bufCnt + |part| * outputRate / inputRate;
      stream := stream + part;
      Extended(delivered, waiting, Expected(kind, fed), Expected(kind, Fed(kind)), buf[..bufCnt], made);
      assert Fed(kind) + inputBuf[..0] == Fed(kind);
    }

    /** Keeps the samples that do not fill a block. */
    method Hold(part: seq<real>)
      requires Shaped() && Conserving() && inputBufCnt == 0 && |part| < inputBufSize
      modifies this`inputBufCnt, this`stream, inputBuf
      ensures Shaped() && Conserving() && stream == old(stream) + part && inputBufCnt == |part|
    {
      hide Expected, Sound, Safe, By, Unsent;
      forall k | 0 <= k < |part| { inputBuf[k] := part[k]; }
      assert inputBuf[..|part|] == part && Fed(kind) + inputBuf[..0] == Fed(kind);
      inputBufCnt := |part|;
      stream := stream + part;
    }

    /** The held block first. */
    method FillHeld(samples: seq<real>, maxProc: nat) returns (pos: nat, left: nat)
      requires Shaped() && Conserving() && bufCnt < BUFSIZE && |samples| > 0
      requires maxProc == Room(kind, BUFSIZE - bufCnt) > 0
      modifies this`bufCnt, this`inputBufCnt, this`stream, buf, inputBuf, Parts(kind)
      ensures Shaped() && Conserving()
      ensures pos <= |samples| && stream == old(stream) + samples[..pos]
      ensures left == Room(kind, BUFSIZE - bufCnt) == maxProc - (if 0 < old(inputBufCnt) && inputBufCnt == 0 then inputRate else 0)
      ensures old(inputBufCnt) == 0 ==> pos == 0 && bufCnt == old(bufCnt)
      ensures inputBufCnt > 0 ==> pos == |samples|
      ensures old(inputBufCnt) > 0 ==> pos > 0
      ensures old(inputBufCnt) > 0 ==>
          var full := inputRate <= old(inputBufCnt) + |samples|;
          && (if full then inputBufCnt == 0 && pos == inputRate - old(inputBufCnt) else inputBufCnt > 0)
          && bufCnt == old(bufCnt) + (if full then 1 else 0)
    {
      hide Expected, Sound, Safe, By, Ready, Fed, Ratio, Unsent;
      pos, left := 0, maxProc;
      assert stream + [] == stream;
      if inputBufCnt > 0 {
        pos := if inputBufSize - inputBufCnt < |samples| then inputBufSize - inputBufCnt else |samples|;
        TopUp(samples[..pos]);
        if inputBufCnt == 0 {
          LessRoom(kind, BUFSIZE - bufCnt);
          left := left - inputBufSize;
        }
      }
    }

    /** A flush that is kept back is withdrawn, and the sink gets what waits for it. */
    method MakeRoom()
      requires Valid()
      modifies this`bufCnt, this`inputBufCnt, this`stream, this`delivered, this`doFlush, this`outputStopped, this`inputStopped,
               this`flushTasks, this`resumeTasks, this`refused, this`ledger, buf, inputBuf, Parts(kind)
      ensures Valid() && !doFlush && !Stalled() && ledger == old(Withdrawing(ledger, doFlush))
      ensures stream == old(stream) && inputBufCnt == old(inputBufCnt) && flushTasks == old(flushTasks) && old(delivered) <= delivered
      ensures resumeTasks == old(resumeTasks) + if old(inputStopped) && !inputStopped then 1 else 0
      ensures (inputStopped ==> old(inputStopped)) && (old(outputStopped) ==> outputStopped && bufCnt == old(bufCnt)) && bufCnt <= old(bufCnt)
      ensures !old(Stalled()) ==> outputStopped == old(outputStopped) && delivered == old(delivered) && refused == old(refused)
    {
      hide Expected, Sound, Safe, By, Ready, Fed, Ratio, Room, Unsent, Withdrawing, Conserving;
      ledger := Withdrawing(ledger, doFlush);
      doFlush := false;
      WriteFromBuf();
    }

    /** Takes samples from the source: none, and then the source has to wait, only if the output
        left waiting once the sink has had its turn leaves no room for a block; all, if the whole
        blocks among them and those held have room; and otherwise as many whole blocks as have.
        On a processor that is not stalled, samples are left waiting for a sink that has not
        stopped exactly when it had not stopped before and the call completes the held block and
        has no whole block besides. */
    method WriteSamples(samples: seq<real>) returns (ret: nat, ghost waiting: nat)
      requires Valid() && |samples| > 0
      modifies this`bufCnt, this`inputBufCnt, this`stream, this`delivered, this`doFlush, this`outputStopped, this`inputStopped,
               this`flushTasks, this`resumeTasks, this`refused, this`ledger, buf, inputBuf, Parts(kind)
      ensures Valid() && !doFlush
      ensures ledger == old(Withdrawing(ledger, doFlush))
      ensures ret <= |samples| && stream == old(stream) + samples[..ret]
      ensures ret == 0 <==> inputStopped
      ensures waiting <= old(bufCnt) && (old(outputStopped) ==> waiting == old(bufCnt))
      ensures var room := Room(kind, BUFSIZE - waiting);
        ret == if room == 0 then 0 else Taken(inputRate, old(inputBufCnt), |samples|, room)
      ensures old(bufCnt) == 0 && |samples| <= Room(kind, BUFSIZE) ==> ret == |samples|
      ensures flushTasks == old(flushTasks) && old(delivered) <= delivered
      ensures old(inputStopped) && !inputStopped ==> resumeTasks > old(resumeTasks)
      ensures resumeTasks == old(resumeTasks) || (old(inputStopped) && resumeTasks == old(resumeTasks) + 1)
      ensures Stalled() <==> !outputStopped && 0 < old(inputBufCnt) && inputRate <= old(inputBufCnt) + |samples| < 2 * inputRate
      ensures !old(Stalled()) ==> (Stalled() <==> !old(outputStopped) && 0 < old(inputBufCnt) && inputRate <= old(inputBufCnt) + |samples| < 2 * inputRate)
      ensures !old(Stalled()) && old(inputBufCnt) + |samples| < (if old(inputBufCnt) > 0 then 2 * inputRate else inputRate) ==>
          delivered == old(delivered) && refused == old(refused)
    {
      hide Expected, Sound, Safe, By, Ready, Fed, Ratio, Room, Unsent, Withdrawing, Conserving, Taken;
      MakeRoom();
      waiting := bufCnt;
      var maxProc := (BUFSIZE - bufCnt) * inputRate / outputRate;
      RoomIs(kind, BUFSIZE - bufCnt);
      RoomShape(kind, BUFSIZE - bufCnt);
      if maxProc == 0 {
        inputStopped := true;
        return 0, waiting;
      }
      Rates();
      if waiting == 0 && |samples| <= maxProc { FitsAll(inputRate, inputBufCnt, |samples|, maxProc); }
      ret := TakeSamples(samples, maxProc);
    }

    lemma {:induction false} Rates()
      requires Shaped()
      ensures inputRate == InRate(kind) > 0 && outputRate == OutRate(kind) > 0
      ensures inputBufSize == if inputRate > outputRate then inputRate else 0
      ensures bufCnt <= BUFSIZE && (inputBufSize == (if inputRate > 1 then inputRate else 0))
    {
      hide Sound, Safe;
    }

    /** How much of n samples is whole blocks that fit. */
    method WholeCount(n: nat, left: nat) returns (procCnt: nat)
      requires Shaped() && left == Room(kind, BUFSIZE - bufCnt)
      ensures procCnt <= n && procCnt % inputRate == 0 && bufCnt + Ratio(kind, procCnt) <= BUFSIZE
      ensures procCnt == Least(left, WholeOf(n, inputBufSize))
      ensures left > 0 && n > 0 && inputBufSize == 0 ==> procCnt > 0
      ensures left >= inputRate && n >= inputRate ==> procCnt > 0
      ensures procCnt > 0 ==> n >= inputRate
    {
      hide *;
      Rates();
      var whole := WholeOf(n, inputBufSize);
      procCnt := Least(left, whole);
      WholeTaken(kind, n, left, BUFSIZE - bufCnt, whole, procCnt);
    }

    /** As many whole blocks as there are and fit, and then a turn for the sink. */
    method TakeBlocks(rest: seq<real>, left: nat) returns (procCnt: nat)
      requires Valid() && !doFlush && !inputStopped && (|rest| > 0 ==> inputBufCnt == 0)
      requires left == Room(kind, BUFSIZE - bufCnt)
      modifies this`bufCnt, this`inputBufCnt, this`stream, this`delivered, this`doFlush, this`outputStopped, this`inputStopped,
               this`flushTasks, this`resumeTasks, this`refused, buf, inputBuf, Parts(kind)
      ensures Valid() && !doFlush && !inputStopped && inputBufCnt == old(inputBufCnt)
      ensures procCnt <= |rest| && stream == old(stream) + rest[..procCnt]
      ensures procCnt == Least(left, WholeOf(|rest|, inputBufSize))
      ensures flushTasks == old(flushTasks) && resumeTasks == old(resumeTasks) && old(delivered) <= delivered
      ensures left > 0 && |rest| > 0 && inputBufSize == 0 ==> procCnt > 0
      ensures left >= inputRate && |rest| >= inputRate ==> procCnt > 0
      ensures procCnt > 0 ==> |rest| >= inputRate && !Stalled()
      ensures procCnt == 0 ==> bufCnt == old(bufCnt) && outputStopped == old(outputStopped) && delivered == old(delivered) && refused == old(refused)
      ensures old(outputStopped) ==> outputStopped
    {
      hide Expected, Sound, Safe, By, Ready, Fed, Ratio, Room, Conserving, Unsent, WholeOf, Least;
      procCnt := WholeCount(|rest|, left);
      assert stream + [] == stream && rest[..0] == [];
      if procCnt > 0 {
        Consume(rest[..procCnt]);
        WriteFromBuf();
      }
    }

    /** What is left and does not fill a block is held. */
    method KeepRest(samples: seq<real>, pos: nat, ghost before: seq<real>) returns (end: nat)
      requires Valid() && pos <= |samples| && (pos < |samples| ==> inputBufCnt == 0) && stream == before + samples[..pos]
      modifies this`inputBufCnt, this`stream, inputBuf
      ensures Valid() && pos <= end <= |samples| && stream == before + samples[..end]
      ensures end == if 0 < |samples| - pos < inputBufSize then |samples| else pos
    {
      hide Expected, Sound, Safe, By, Ready, Fed, Ratio, Conserving, Unsent;
      end := pos;
      if 0 < |samples| - pos < inputBufSize {
        Further(before, samples, pos, |samples|);
        Hold(samples[pos..]);
        end := |samples|;
      }
    }

    /** The same once there is room for output. */
    method TakeSamples(samples: seq<real>, maxProc: nat) returns (pos: nat)
      requires Valid() && |samples| > 0 && !doFlush && !inputStopped && !Stalled()
      requires maxProc == Room(kind, BUFSIZE - bufCnt) > 0
      modifies this`bufCnt, this`inputBufCnt, this`stream, this`delivered, this`doFlush, this`outputStopped, this`inputStopped,
               this`flushTasks, this`resumeTasks, this`refused, buf, inputBuf, Parts(kind)
      ensures Valid() && !doFlush && !inputStopped
      ensures 0 < pos <= |samples| && stream == old(stream) + samples[..pos]
      ensures pos == Taken(inputRate, old(inputBufCnt), |samples|, maxProc)
      ensures flushTasks == old(flushTasks) && resumeTasks == old(resumeTasks) && old(delivered) <= delivered
      ensures Stalled() <==> !outputStopped && 0 < old(inputBufCnt) && inputRate <= old(inputBufCnt) + |samples| < 2 * inputRate
      ensures old(inputBufCnt) + |samples| < (if old(inputBufCnt) > 0 then 2 * inputRate else inputRate) ==>
          outputStopped == old(outputStopped) && delivered == old(delivered) && refused == old(refused)
      ensures old(outputStopped) ==> outputStopped
    {
      hide Expected, Sound, Safe, By, Ready, Fed, Ratio, Room, Conserving, Unsent, Taken, WholeOf, Least;
      RoomShape(kind, BUFSIZE - bufCnt);
      var left;
      pos, left := FillHeld(samples, maxProc);
      RoomShape(kind, BUFSIZE - bufCnt);
      Rates();
      TakenInAll(inputRate, inputBufSize, old(inputBufCnt), |samples|, maxProc, pos, left);
      var procCnt := TakeBlocks(samples[pos..], left);
      Further(old(stream), samples, pos, pos + procCnt);
      pos := KeepRest(samples, pos + procCnt, old(stream));
    }

    /** A flush with nothing but an incomplete block to send. */
    method FlushHeld()
      requires Shaped() && Conserving() && Accounted() && bufCnt == 0 && inputBufCnt > 0 && doFlush && !inputStopped && !outputStopped
      modifies this`bufCnt, this`inputBufCnt, this`stream, this`delivered, this`doFlush, this`outputStopped, this`inputStopped,
               this`flushTasks, this`resumeTasks, this`refused, buf, inputBuf, Parts(kind)
      ensures Valid() && !inputStopped && !Stalled() && resumeTasks == old(resumeTasks) && FlushesDue() == old(FlushesDue())
      ensures flushTasks > old(flushTasks) ==> bufCnt == 0 && inputBufCnt == 0 && delivered == Expected(kind, stream)
      ensures old(delivered) <= delivered && inputBufCnt == 0 && stream == old(stream) + Zeros(inputBufSize - old(inputBufCnt))
    {
      hide Expected, Sound, Safe, By, Ready, Fed, Unsent, Conserving;
      ProcessPadded();
      WriteFromBuf();
    }

    /** The source has no more samples for now.  The flush is passed on at once, or after the
        buffer has drained; on an undrained buffer this does nothing but note it. */
    method FlushSamples()
      requires Valid()
      modifies this`bufCnt, this`inputBufCnt, this`stream, this`delivered, this`doFlush, this`outputStopped, this`inputStopped,
               this`flushTasks, this`resumeTasks, this`refused, this`ledger, this`flushes, this`flushedAt, buf, inputBuf, Parts(kind)
      ensures Valid() && !inputStopped && resumeTasks == old(resumeTasks)
      ensures ledger == old(Asking(ledger, doFlush)) && FlushesDue() == old(flushes + flushTasks) + 1
      ensures flushes + flushTasks > old(flushes + flushTasks) ==> bufCnt == 0 && inputBufCnt == 0 && delivered == Expected(kind, stream)
      ensures flushes == old(flushes) + (if old(bufCnt == 0 && inputBufCnt == 0) then 1 else 0)
      ensures flushedAt == (if flushes > old(flushes) then |delivered| else old(flushedAt))
      ensures old(delivered) <= delivered && Padded(true, old(stream), old(inputBufCnt))
      ensures old(bufCnt == 0 && inputBufCnt > 0) ==> inputBufCnt == 0 && stream == old(stream) + Zeros(inputBufSize - old(inputBufCnt))
      ensures old(bufCnt) > 0 ==> doFlush && bufCnt == old(bufCnt) && delivered == old(delivered) && outputStopped == old(outputStopped) && refused == old(refused)
      ensures Stalled() <==> old(Stalled())
    {
      hide Expected, Sound, Safe, By, Ready, Fed, Unsent, Asking, Conserving;
      ledger := Asking(ledger, doFlush);
      doFlush := true;
      inputStopped := false;
      if bufCnt == 0 {
        if inputBufCnt > 0 {
          FlushHeld();
        } else {
          Drained();
          doFlush := false;
          flushes, flushedAt := flushes + 1, |delivered|;
        }
      }
    }

    /** The sink, whatever it did before, can take samples again. */
    method ResumeOutput()
      requires Shaped() && Conserving() && Accounted() && (doFlush || outputStopped ==> bufCnt > 0)
      requires inputStopped ==> BUFSIZE - bufCnt < outputRate && (outputRate <= BUFSIZE ==> outputStopped)
      modifies this`bufCnt, this`inputBufCnt, this`stream, this`delivered, this`doFlush, this`outputStopped, this`inputStopped,
               this`flushTasks, this`resumeTasks, this`refused, buf, inputBuf, Parts(kind)
      ensures Valid() && !Stalled()
      ensures FlushesDue() == old(FlushesDue())
      ensures flushTasks > old(flushTasks) ==> bufCnt == 0 && inputBufCnt == 0 && delivered == Expected(kind, stream)
      ensures old(delivered) <= delivered && Padded(old(doFlush), old(stream), old(inputBufCnt))
      ensures inputStopped == (old(inputStopped) && (old(bufCnt) == 0 || bufCnt == BUFSIZE))
      ensures resumeTasks == old(resumeTasks) + if old(inputStopped) && !inputStopped then 1 else 0
    {
      hide Expected, Sound, Safe, By, Ready, Fed, Unsent;
      refused := false;
      outputStopped := false;
      WriteFromBuf();
    }

    /** A scheduled flush is passed on, whatever the source has done since. */
    method RunFlushTask()
      requires Valid() && flushTasks > 0
      modifies this`flushTasks, this`flushes, this`flushedAt
      ensures Valid() && flushTasks == old(flushTasks) - 1 && flushes == old(flushes) + 1 && flushedAt == |delivered|
    {
      hide Expected, Sound, Safe, By, Ready, Fed, Unsent;
      flushTasks := flushTasks - 1;
      flushes, flushedAt := flushes + 1, |delivered|;
    }

    /** A scheduled resume is passed on. */
    method RunResumeTask()
      requires Valid() && resumeTasks > 0
      modifies this`resumeTasks, this`resumes
      ensures Valid() && resumeTasks == old(resumeTasks) - 1 && resumes == old(resumes) + 1
    {
      hide Expected, Sound, Safe, By, Ready, Fed, Unsent;
      resumeTasks := resumeTasks - 1;
      resumes := resumes + 1;
    }

    /** The sink has flushed everything.  The source is told whatever it was that the sink has
        flushed, and a flush that is still kept back is forgotten. */
    method AllSamplesFlushed()
      requires Valid()
      modifies this`doFlush, this`acks, this`ledger
      ensures Valid() && !doFlush && acks == old(acks) + 1
      ensures ledger == old(Forgetting(ledger, doFlush))
    {
      hide Expected, Sound, Safe, By, Ready, Fed, Unsent;
      ledger := Forgetting(ledger, doFlush);
      doFlush := false;
      acks := acks + 1;
    }

    /** After any run: every flush asked for has been passed on, is scheduled or kept back, or
        has joined another, been withdrawn by a write, or been forgotten.  So the flushes that
        the source still counts on are passed on, sooner or later, if and only if none was
        forgotten: no answer of the sink has come while one was kept back. */
    lemma {:induction false} FlushesAccounted()
      requires Valid()
      ensures ledger.asked == flushes + flushTasks + (if doFlush then 1 else 0) + ledger.joined + ledger.withdrawn + ledger.forgotten
      ensures FlushesDue() == ledger.asked - ledger.joined - ledger.withdrawn <==> ledger.forgotten == 0
    {
      hide Expected, Sound, Safe, By, Ready, Fed;
    }

    /** After any run: a flush is kept back only while samples wait for the sink; a sink counts as
        stopped only if it took nothing when last asked; and a source waits only while there is
        no room for the output of a block, and then for a sink that will resume. */
    lemma {:induction false} WhatIsAwaited()
      requires Valid()
      ensures doFlush ==> bufCnt > 0
      ensures outputStopped ==> bufCnt > 0 && refused
      ensures inputStopped ==> BUFSIZE - bufCnt < outputRate && (outputRate <= BUFSIZE ==> outputStopped)
    {
      hide Expected, Sound, Safe, By, Ready, Fed, Conserving, Accounted;
    }

    /** The sink had been given all there is to hear of the source's samples when it was last
        asked to flush. */
    ghost predicate AllFlushed()
      requires Sound(kind) && inputRate > 0
      reads this
    {
      |stream| % inputRate == 0 && flushedAt == |Expected(kind, stream)|
    }

    /** After any run, and so when the sink answers: it has been asked to flush everything that
        the source has handed over if and only if nothing is held or buffered and it has been
        given nothing since. */
    lemma {:induction false} AnswerCovers()
      requires Valid()
      ensures |stream| % inputRate == 0 && flushedAt == |Expected(kind, stream)| <==> bufCnt == 0 && inputBufCnt == 0 && flushedAt == |delivered|
      ensures AllFlushed() <==> bufCnt == 0 && inputBufCnt == 0 && flushedAt == |delivered|
      ensures inputBufCnt == |stream| % inputRate
    {
      hide Expected, Ready, Safe, Fed;
      Conservation();
      assert |inputBuf[..inputBufCnt]| == inputBufCnt && |delivered + buf[..bufCnt]| == |delivered| + bufCnt;
    }

    /** After any run: what the sink has, followed by what waits, depends on the whole input
        stream only, not on how it was divided or when the sink took it; and the held
        samples are exactly the last ones that do not fill a block. */
    lemma {:induction false} Conservation()
      requires Valid()
      ensures delivered + buf[..bufCnt] == Expected(kind, stream)
      ensures inputBuf[..inputBufCnt] == stream[|stream| - |stream| % inputRate..]
    {
      hide By, Ready, Fed, Safe, Decimated, Interpolated, Filtered;
      var fed, held := Fed(kind), inputBuf[..inputBufCnt];
      assert stream == fed + held;
      WithinBlock(|held|, inputRate);
      MoreThanBlocks(|held|, |fed|, inputRate);
      if kind.Decimate? {
        DecimatedHeld(kind.d.h, kind.d.m, fed, held);
      } else {
        assert inputBufCnt == 0 && fed + [] == fed;
      }
    }
  }

  lemma {:induction false} WithinBlock(n: nat, m: nat)
    requires m > 0 && (n == 0 || n < m)
    ensures n % m == n && n / m == 0
  {
    ByNext(m, 0);
    Divides(n, m, 0, n);
  }

  lemma {:induction false} MoreThanBlocks(n: nat, blocks: nat, m: nat)
    requires m > 0 && blocks % m == 0 && n % m == n && n / m == 0
    ensures (blocks + n) % m == n && (blocks + n) / m == blocks / m
  {
    MoreBlocks(n, blocks, m);
  }

  /** An incomplete block makes no output. */
  lemma {:induction false} DecimatedHeld(h: seq<real>, m: nat, fed: seq<real>, held: seq<real>)
    requires m > 0 && |fed| % m == 0 && |held| < m
    ensures Decimated(h, m, fed + held) == Decimated(h, m, fed)
  {
    hide By, FirAt;
    WithinBlock(|held|, m);
    MoreThanBlocks(|held|, |fed|, m);
    Euclid(|fed|, m);
    forall j | 0 <= j < |fed| / m ensures Decimated(h, m, fed + held)[j] == Decimated(h, m, fed)[j] {
      ByMonotone(m, j + 1, |fed| / m);
      FirPrefix(h, fed + held, fed, By(m, j + 1) - 1);
    }
  }

  /** A lost wake-up: two single samples complete a block of two, the sink has not been asked
      yet, and the flush that follows is neither passed on nor will anything resume it. */
  method LostWakeUp(h: seq<real>) returns (p: AudioProcessor)
    requires |h| >= 2
    ensures fresh(p) && p.Valid() && p.Stalled() && p.doFlush && p.flushes == 0 && p.flushTasks == 0 && p.resumeTasks == 0 && p.delivered == [] && !p.refused
  {
    var d := new Decimator(2, h);
    p := new AudioProcessor(Decimate(d));
    var n, waiting := p.WriteSamples([1.0]);
    p.Conservation();
    n, waiting := p.WriteSamples([1.0]);
    p.FlushSamples();
  }

  /** For every decimator that holds nothing: when a sample comes before the sink answers, the
      source is acknowledged with its sample still held. */
  method HeldWhenAnswered(p: AudioProcessor, x: real)
    requires p.Valid() && p.kind.Decimate? && p.inputRate > 1 && p.bufCnt == 0 == p.inputBufCnt
    modifies p, p.buf, p.inputBuf, Parts(p.kind)
    ensures p.Valid() && p.acks == old(p.acks) + 1 && p.flushes == old(p.flushes) && p.ledger.asked == old(p.ledger.asked)
    ensures p.stream == old(p.stream) + [x] && p.inputBufCnt == 1 && p.delivered == old(p.delivered) && !p.AllFlushed()
  {
    p.AnswerCovers();
    WithinBlock(1, p.inputRate);
    MoreThanBlocks(1, |p.stream|, p.inputRate);
    var n, waiting := p.WriteSamples([x]);
    p.AllSamplesFlushed();
    p.AnswerCovers();
  }

  /** A late answer: the source flushes, a sample comes and is held for the rest of its block,
      and then the sink answers. */
  method AnsweredLate(h: seq<real>) returns (p: AudioProcessor)
    requires |h| >= 2
    ensures fresh(p) && p.Valid() && p.flushes == 1 && p.acks == 1 && p.ledger.asked == 1
    ensures |p.stream| == 1 && p.inputBufCnt == 1 && p.delivered == [] && !p.AllFlushed()
  {
    var d := new Decimator(2, h);
    p := new AudioProcessor(Decimate(d));
    p.FlushSamples();
    HeldWhenAnswered(p, 1.0);
  }

  /** For every decimator with a scheduled flush: when a sample is held before the task runs,
      the sink is asked to flush without it. */
  method FlushOvertakes(p: AudioProcessor, x: real)
    requires p.Valid() && p.kind.Decimate? && p.inputRate > 1 && p.bufCnt == 0 == p.inputBufCnt && p.flushTasks > 0
    modifies p, p.buf, p.inputBuf, Parts(p.kind)
    ensures p.Valid() && p.flushes == old(p.flushes) + 1 && p.stream == old(p.stream) + [x] && !p.AllFlushed()
  {
    var n, waiting := p.WriteSamples([x]);
    p.RunFlushTask();
    p.AnswerCovers();
  }

  lemma {:induction false} Further(before: seq<real>, s: seq<real>, a: nat, b: nat)
    requires a <= b <= |s|
    ensures before + s[..a] + s[a..][..b - a] == before + s[..b]
    ensures b == |s| ==> s[..b] == s && s[a..][..b - a] == s[a..]
  {
    assert s[a..][..b - a] == s[a..b];
    assert s[..a] + s[a..b] == s[..b];
    assert before + s[..a] + s[a..b] == before + (s[..a] + s[a..b]);
  }

  lemma {:induction false} RoomIs(k: Kind, free: nat)
    requires OutRate(k) > 0
    ensures Room(k, free) == free * InRate(k) / OutRate(k)
  {
  }

  /** One output slot less is one block of input less. */
  lemma {:induction false} LessRoom(k: Kind, free: nat)
    requires InRate(k) > 1 && OutRate(k) == 1
    ensures Room(k, free + 1) == Room(k, free) + InRate(k)
  {
  }

  /** What is taken at once is whole blocks, as many as there are or as fit. */
  lemma {:induction false} WholeBlocks(k: Kind, n: nat, room: nat, free: nat)
    requires InRate(k) > 0 && OutRate(k) > 0 && room == Room(k, free)
    ensures var whole := n - (if InRate(k) > OutRate(k) then n % InRate(k) else 0);
      && 0 <= whole <= n && whole % InRate(k) == 0 && room % InRate(k) == 0
      && (whole == 0 <==> if InRate(k) > OutRate(k) then n < InRate(k) else n == 0)
      && (room < whole ==> n - room >= InRate(k) && Ratio(k, room) <= free)
      && (room >= whole ==> Ratio(k, whole) <= free)
  {
    var a := InRate(k);
    RoomShape(k, free);
    RoomFits(k, free, room);
    hide Room, Ratio, By;
    Euclid(n, a);
    ByNext(a, n / a);
    ByNext(a, 0);
    ByNext(1, n);
    Below(n, a, 1);
    ByNext(a, 1);
    var whole := n - (if a > OutRate(k) then n % a else 0);
    if a > OutRate(k) { Divides(whole, a, n / a, 0); } else { Divides(whole, 1, whole, 0); }
    if room < whole {
      Euclid(room, a);
      Euclid(whole, a);
      if whole / a <= room / a { ByMonotone(a, whole / a, room / a); }
      ByNext(a, room / a);
      ByMonotone(a, room / a + 1, whole / a);
    } else {
      RoomFits(k, free, whole);
    }
  }

  function Least(a: nat, b: nat): nat {
    if a < b then a else b
  }

  /** How many of n samples are taken when so many are held and whole blocks have so much room. */
  function Taken(m: nat, held: nat, n: nat, room: nat): int
    requires m > 0
  {
    var total := held + n;
    if total - total % m <= room then n else room - held
  }

  /** All n samples are taken, or those held and those taken make whole blocks whose outputs
      leave no room for the outputs of one more block. */
  lemma {:induction false} TakesWhatFits(k: Kind, free: nat, held: nat, n: nat)
    requires InRate(k) > 0 && OutRate(k) > 0 && (held == 0 || held < InRate(k)) && Room(k, free) > 0
    ensures var t := Taken(InRate(k), held, n, Room(k, free));
      t <= n && (n > 0 ==> t > 0)
    ensures var t := Taken(InRate(k), held, n, Room(k, free));
      t < n ==> (held + t) % InRate(k) == 0 && Ratio(k, held + t) <= free < Ratio(k, held + t) + OutRate(k)
  {
    var m, room := InRate(k), Room(k, free);
    RoomShape(k, free);
    RoomFits(k, free, room);
    RoomFills(k, free);
    hide Room, Ratio, By;
    if held + n - (held + n) % m > room {
      MoreThanRoom(m, held + n, room);
      AtLeastOne(room, m);
    }
  }

  lemma {:induction false} RoomFills(k: Kind, free: nat)
    requires InRate(k) > 0 && OutRate(k) > 0
    ensures free < Ratio(k, Room(k, free)) + OutRate(k)
  {
    var a, b := InRate(k), OutRate(k);
    RoomShape(k, free);
    assert free * a == By(a, free);
    ByNext(1, free);
    hide By;
    if k.Decimate? {
      Divides(By(a, free), 1, By(a, free), 0) by { ByNext(1, By(a, free)); }
      Divides(By(a, free), a, free, 0);
    } else if k.Interpolate? {
      Euclid(free, b);
    } else {
      Divides(free, 1, free, 0);
    }
  }

  /** What is taken when cnt samples of n have gone to the held block, or none is held, and room
      is left for so many: the whole blocks of what remains, and then the rest if it does not
      fill a block. */
  lemma {:induction false} TakenInAll(m: nat, size: nat, held: nat, n: nat, room: nat, cnt: nat, left: nat)
    requires m > 0 && size == (if m > 1 then m else 0) && room % m == 0 && cnt <= n && (held == 0 || held < m)
    requires if held == 0 then cnt == 0 && left == room
             else if held + n < m then cnt == n && left == room
             else cnt == m - held && left == room - m
    ensures var pos := cnt + Least(left, WholeOf(n - cnt, size));
      (if 0 < n - pos < size then n else pos) == Taken(m, held, n, room)
  {
    var rest, total := n - cnt, held + n;
    hide By;
    Euclid(room, m);
    Euclid(rest, m);
    if held > 0 && held + n < m {
      WithinBlock(total, m);
    } else if held > 0 {
      assert total == rest + m;
      MoreBlocks(rest, m, m) by { OneMore(0, m) by { WithinBlock(0, m); } }
    }
    if total - total % m > room {
      MoreThanRoom(m, total, room);
    }
  }

  /** Beyond room, which is whole blocks, there is at least one more block. */
  lemma {:induction false} MoreThanRoom(m: nat, total: nat, room: nat)
    requires m > 0 && room % m == 0 && total - total % m > room
    ensures total >= room + m
  {
    hide By;
    Euclid(total, m);
    Euclid(room, m);
    if total / m <= room / m { ByMonotone(m, total / m, room / m); }
    ByNext(m, room / m);
    ByMonotone(m, room / m + 1, total / m);
  }

  /** With an empty buffer everything fits that a full one holds, next to an incomplete block. */
  lemma {:induction false} FitsAll(m: nat, held: nat, n: nat, room: nat)
    requires m > 0 && room % m == 0 && (held == 0 || held < m) && n <= room
    ensures Taken(m, held, n, room) == n
  {
    if held + n - (held + n) % m > room { MoreThanRoom(m, held + n, room); }
  }

  /** What is left of n when the samples that do not fill a block are held back. */
  function WholeOf(n: nat, block: nat): (whole: nat)
    ensures whole <= n
  {
    var reminder := if block > 0 then n % block else 0;
    n - reminder
  }

  lemma {:induction false} WholeTaken(k: Kind, n: nat, room: nat, free: nat, whole: nat, cnt: nat)
    requires InRate(k) > 0 && OutRate(k) > 0 && room == Room(k, free)
    requires whole == WholeOf(n, if InRate(k) > OutRate(k) then InRate(k) else 0) && cnt == Least(room, whole)
    ensures cnt <= n && cnt % InRate(k) == 0 && Ratio(k, cnt) <= free
    ensures room > 0 && n > 0 && InRate(k) <= OutRate(k) ==> cnt > 0
    ensures room >= InRate(k) && n >= InRate(k) ==> cnt > 0
    ensures cnt > 0 ==> n >= InRate(k)
  {
    hide By, Room, Ratio;
    WholeBlocks(k, n, room, free);
    if cnt > 0 { AtLeastOne(cnt, InRate(k)); }
  }

  lemma {:induction false} AtLeastOne(n: nat, m: nat)
    requires m > 0 && n % m == 0 && n > 0
    ensures n >= m
  {
  }

  lemma {:induction false} OneBlock(k: Kind)
    requires InRate(k) > 1
    ensures InRate(k) % InRate(k) == 0 && Ratio(k, InRate(k)) == 1
  {
    ByNext(InRate(k), 1);
    Divides(InRate(k), InRate(k), 1, 0);
  }

  /** New results go to the end of what waits. */
  lemma {:induction false} Extended(sent: seq<real>, waiting: seq<real>, done: seq<real>, now: seq<real>, after: seq<real>, made: seq<real>)
    requires sent + waiting == done && now == done + made && after == waiting + made
    ensures sent + after == now
  {
    assert sent + (waiting + made) == sent + waiting + made;
  }

  lemma {:induction false} Rejoin(a: seq<real>, b: seq<real>, n: nat)
    requires n <= |b|
    ensures a + b == a + b[..n] + b[n..]
  {
    assert b == b[..n] + b[n..];
  }

  function Zeros(n: int): (z: seq<real>)
    ensures |z| == if n < 0 then 0 else n
    ensures forall k :: 0 <= k < |z| ==> z[k] == 0.0
  {
    if n < 0 then [] else seq(n, _ => 0.0)
  }

  lemma {:induction false} EmptyStream(k: Kind)
    requires Sound(k)
    ensures Expected(k, []) == []
  {
    ByNext(OutRate(k), 0);
    hide By;
    ByNext(InRate(k), 0);
    Divides(0, InRate(k), 0, 0);
  }
}

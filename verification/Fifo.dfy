/** The audio FIFO, a ring buffer between a source and a sink that may stop at any time, and
    the audio reader, the sink that takes samples only while it is being read. */
module Fifo {

  const MAX_WRITE_SIZE: nat := 800

  function Least(a: nat, b: nat): nat {
    if a < b then a else b
  }

  // ---------------------------------------------------------------------- the ring

  function Next(i: nat, size: nat): (n: nat)
    requires i < size
    ensures n < size
  {
    if i < size - 1 then i + 1 else 0
  }

  predicate RingShape(size: nat, head: nat, tail: nat, full: bool) {
    head < size && tail < size && (full ==> head == tail)
  }

  /** The samples in a ring, oldest first. */
  function Ring(a: seq<real>, head: nat, tail: nat, full: bool): seq<real>
    requires RingShape(|a|, head, tail, full)
  {
    if full || head < tail then a[tail..] + a[..head] else a[tail..head]
  }

  lemma {:induction false} RingLength(a: seq<real>, head: nat, tail: nat, full: bool)
    requires RingShape(|a|, head, tail, full)
    ensures |Ring(a, head, tail, full)| == if full then |a| else (head - tail + |a|) % |a|
    ensures Ring(a, head, tail, full) == [] <==> !full && head == tail
    ensures !full ==> |Ring(a, head, tail, full)| < |a|
  {
    if head < tail && !full {
      Small(head - tail + |a|, |a|);
    } else if !full {
      Wrapped(head - tail, |a|);
    }
  }

  lemma {:induction false} Small(n: nat, m: nat)
    requires n < m
    ensures n % m == n
  {
  }

  lemma {:induction false} Wrapped(n: nat, m: nat)
    requires n < m
    ensures (n + m) % m == n
  {
    assert (n + m) / m == 1;
  }

  /** Putting a sample at the head of a ring that is not full. */
  lemma {:induction false} RingPut(a: seq<real>, head: nat, tail: nat, x: real, b: seq<real>)
    requires RingShape(|a|, head, tail, false) && b == a[head := x]
    ensures var h := Next(head, |a|);
      && (h != tail ==> Ring(b, h, tail, false) == Ring(a, head, tail, false) + [x])
      && (h == tail ==> Ring(b, h, tail, true) == Ring(a, head, tail, false) + [x]
                        && Ring(b, h, Next(tail, |a|), false) == (Ring(a, head, tail, false) + [x])[1..])
  {
    if Next(head, |a|) != tail {
      PutShort(a, head, tail, x, b);
    } else {
      PutLast(a, head, tail, x, b);
    }
  }

  /** One slot is free when the next place after the head is the tail. */
  lemma {:induction false} LastSlot(a: seq<real>, head: nat, tail: nat)
    requires RingShape(|a|, head, tail, false)
    ensures Next(head, |a|) == tail <==> |Ring(a, head, tail, false)| == |a| - 1
  {
  }

  lemma {:induction false} PutShort(a: seq<real>, head: nat, tail: nat, x: real, b: seq<real>)
    requires RingShape(|a|, head, tail, false) && b == a[head := x] && Next(head, |a|) != tail
    ensures Ring(b, Next(head, |a|), tail, false) == Ring(a, head, tail, false) + [x]
  {
    var h := Next(head, |a|);
    if h == 0 {
      assert b[tail..] + b[..0] == a[tail..head] + [x];
    } else if h < tail {
      assert b[tail..] == a[tail..] && b[..h] == a[..head] + [x];
      assert a[tail..] + (a[..head] + [x]) == a[tail..] + a[..head] + [x];
    } else {
      assert b[tail..h] == a[tail..head] + [x];
    }
  }

  lemma {:induction false} PutLast(a: seq<real>, head: nat, tail: nat, x: real, b: seq<real>)
    requires RingShape(|a|, head, tail, false) && b == a[head := x] && Next(head, |a|) == tail
    ensures Ring(b, tail, tail, true) == Ring(a, head, tail, false) + [x]
    ensures Ring(b, tail, Next(tail, |a|), false) == (Ring(a, head, tail, false) + [x])[1..]
  {
    var r := Ring(a, head, tail, false) + [x];
    var f := Ring(b, tail, tail, true);
    assert |f| == |r|;
    assert forall k :: 0 <= k < |f| ==> f[k] == r[k];
    var s := Ring(b, tail, Next(tail, |a|), false);
    assert |s| == |f| - 1;
    assert forall k :: 0 <= k < |s| ==> s[k] == f[k + 1];
  }

  /** Taking the n oldest samples of a ring, up to the end of the array. */
  lemma {:induction false} RingTake(a: seq<real>, head: nat, tail: nat, full: bool, n: nat)
    requires RingShape(|a|, head, tail, full) && n <= |Ring(a, head, tail, full)| && n <= |a| - tail
    ensures var t := (tail + n) % |a|;
      && RingShape(|a|, head, t, full && n == 0)
      && a[tail..tail + n] == Ring(a, head, tail, full)[..n]
      && Ring(a, head, t, full && n == 0) == Ring(a, head, tail, full)[n..]
  {
    hide Ring;
    if tail + n < |a| {
      Small(tail + n, |a|);
      RingRest(a, head, tail, full, n, tail + n);
    } else {
      Wrapped(0, |a|);
      RingRest(a, head, tail, full, n, 0);
    }
  }

  lemma {:induction false} RingRest(a: seq<real>, head: nat, tail: nat, full: bool, n: nat, t: nat)
    requires RingShape(|a|, head, tail, full) && n <= |Ring(a, head, tail, full)| && n <= |a| - tail
    requires t == if tail + n < |a| then tail + n else 0
    ensures RingShape(|a|, head, t, full && n == 0)
    ensures a[tail..tail + n] == Ring(a, head, tail, full)[..n]
    ensures Ring(a, head, t, full && n == 0) == Ring(a, head, tail, full)[n..]
  {
  }

  // ------------------------------------------------------------ what has become of a stream

  /** The samples at the marked places. */
  function Select(xs: seq<real>, mask: seq<bool>): (ys: seq<real>)
    requires |mask| <= |xs|
    ensures |ys| <= |mask|
  {
    if |mask| == 0 then []
    else
      var n := |mask| - 1;
      Select(xs, mask[..n]) + if mask[n] then [xs[n]] else []
  }

  lemma {:induction false} SelectMore(xs: seq<real>, more: seq<real>, mask: seq<bool>)
    requires |mask| <= |xs|
    ensures Select(xs + more, mask) == Select(xs, mask)
    decreases |mask|
  {
    if |mask| > 0 { SelectMore(xs, more, mask[..|mask| - 1]); }
  }

  function All(b: bool, n: nat): (m: seq<bool>)
    ensures |m| == n
  {
    seq(n, _ => b)
  }

  /** The next n samples are all taken, or all left out. */
  lemma {:induction false} SelectNext(xs: seq<real>, mask: seq<bool>, b: bool, n: nat)
    requires |mask| + n <= |xs|
    ensures Select(xs, mask + All(b, n)) == Select(xs, mask) + if b then xs[|mask|..|mask| + n] else []
    decreases n
  {
    hide Select;
    var m := mask + All(b, n);
    if n == 0 {
      assert m == mask;
      assert xs[|mask|..|mask|] == [];
    } else {
      SelectNext(xs, mask, b, n - 1);
      assert m[..|m| - 1] == mask + All(b, n - 1) && m[|m| - 1] == b;
      SelectLast(xs, m);
      var k := |mask| + n - 1;
      assert xs[|mask|..k + 1] == xs[|mask|..k] + [xs[k]];
      assert Select(xs, mask) + xs[|mask|..k] + [xs[k]] == Select(xs, mask) + (xs[|mask|..k] + [xs[k]]);
    }
  }

  lemma {:induction false} SelectLast(xs: seq<real>, mask: seq<bool>)
    requires 0 < |mask| <= |xs|
    ensures Select(xs, mask) == Select(xs, mask[..|mask| - 1]) + if mask[|mask| - 1] then [xs[|mask| - 1]] else []
  {
  }

  /** Nothing left out. */
  lemma {:induction false} SelectAll(xs: seq<real>, n: nat)
    requires n <= |xs|
    ensures Select(xs, All(true, n)) == xs[..n]
  {
    SelectNext(xs, [], true, n);
    assert [] + All(true, n) == All(true, n);
  }

  // ---------------------------------------------------------------------- the reader

  class AudioReader {
    var buf: array?<real>
    var bufSize: nat
    var inputStopped: bool
    var samplesInBuf: nat

    ghost predicate Valid()
      reads this
    {
      buf != null ==> samplesInBuf <= bufSize <= buf.Length
    }

    ghost function Frame(): (r: set<object>)
      reads this
    {
      if buf == null then {this} else {this, buf}
    }

    /** How many samples it would take now. */
    ghost function Room(): nat
      reads this
      requires Valid()
    {
      if buf == null then 0 else bufSize - samplesInBuf
    }

    /** The samples read so far. */
    ghost function Got(): seq<real>
      reads this, Frame()
      requires Valid()
    {
      if buf == null then [] else buf[..samplesInBuf]
    }

    constructor ()
      ensures Valid() && buf == null && !inputStopped
    {
      buf, bufSize, inputStopped, samplesInBuf := null, 0, false, 0;
    }

    method WriteSamples(samples: seq<real>) returns (n: nat)
      requires Valid()
      modifies this`inputStopped, this`samplesInBuf, Frame() - {this}
      ensures Valid() && n == (if |samples| < old(Room()) then |samples| else old(Room()))
      ensures inputStopped == (n == 0) && Room() == old(Room()) - n
      ensures Got() == old(Got()) + samples[..n]
    {
      n := 0;
      ghost var got := Got();
      if buf != null {
        n := if |samples| < bufSize - samplesInBuf then |samples| else bufSize - samplesInBuf;
        forall i | 0 <= i < n { buf[samplesInBuf + i] := samples[i]; }
        assert buf[..samplesInBuf] == got && buf[samplesInBuf..samplesInBuf + n] == samples[..n];
        samplesInBuf := samplesInBuf + n;
        assert buf[..samplesInBuf] == got + samples[..n];
      }
      inputStopped := n == 0;
    }

    /** Wakes the source, which then writes straight into the buffer. */
    method Pull(source: AudioFifo) returns (ghost n: nat)
      requires source.sink == this && source.Valid() && buf != null && samplesInBuf == 0
      modifies this, source, buf
      ensures source.Valid() && buf == old(buf) && bufSize == old(bufSize) && samplesInBuf == n <= bufSize
      ensures source.Moved(n, old(source.fate), old(source.delivered), old(source.Contents()))
      ensures buf[..n] == old(source.Contents())[..n]
      ensures source.accepted == old(source.accepted) && source.doOverwrite == old(source.doOverwrite)
      ensures source.prebuf == old(source.prebuf) && source.prebufSamples == old(source.prebufSamples)
      ensures !source.prebuf ==> n == if bufSize < |old(source.Contents())| then bufSize else |old(source.Contents())|
      ensures old(source.SourceWillWake()) ==> source.SourceWillWake()
      ensures source.flushes == old(source.flushes) + (if old(source.isFlushing) && n > 0 && source.Contents() == [] then 1 else 0)
      ensures source.acks == old(source.acks) + source.flushes - old(source.flushes)
      ensures source.isFlushing == (old(source.isFlushing) && source.acks == old(source.acks))
      ensures inputStopped == source.outputStopped
    {
      hide Ring, Select, AudioFifo.Conserving, AudioFifo.SamplesInFifo;
      n := 0;
      NothingMoved(source.fate, source.delivered, source.Contents(), Got());
      source.Counted();
      if inputStopped {
        inputStopped := false;
        n := source.ResumeOutput();
      }
    }

    /** Reads from the FIFO this reader is the sink of: its oldest samples, as many as asked
        for or as there are. */
    method ReadSamples(source: AudioFifo, samples: array<real>, count: nat) returns (n: nat)
      requires source.sink == this && source.Valid() && buf == null
      requires 0 < count <= samples.Length && samples != source.fifo
      modifies this, source, samples
      ensures source.Valid() && buf == null && n <= count
      ensures source.Moved(n, old(source.fate), old(source.delivered), old(source.Contents()))
      ensures samples[..n] == old(source.Contents())[..n]
      ensures source.accepted == old(source.accepted) && source.doOverwrite == old(source.doOverwrite)
      ensures source.prebuf == old(source.prebuf) && source.prebufSamples == old(source.prebufSamples)
      ensures !source.prebuf ==> n == if count < |old(source.Contents())| then count else |old(source.Contents())|
      ensures old(source.SourceWillWake()) ==> source.SourceWillWake()
      ensures source.flushes == old(source.flushes) + (if old(source.isFlushing) && n > 0 && source.Contents() == [] then 1 else 0)
      ensures source.acks == old(source.acks) + source.flushes - old(source.flushes)
      ensures source.isFlushing == (old(source.isFlushing) && source.acks == old(source.acks))
      ensures inputStopped == source.outputStopped
    {
      hide Ring, Select, AudioFifo.Conserving, AudioFifo.SamplesInFifo;
      buf := samples;
      bufSize := count;
      samplesInBuf := 0;
      ghost var moved := Pull(source);
      buf := null;
      bufSize := 0;
      n := samplesInBuf;
    }
  }

  // ---------------------------------------------------------------------- the FIFO

  /** What a source has done about flushes: asked for one, asked again while one waited, or
      withdrawn one by writing. */
  datatype Requests = Requests(asked: nat, joined: nat, withdrawn: nat)

  /** How many flushes are or will be acknowledged. */
  function Standing(r: Requests): int {
    r.asked - r.joined - r.withdrawn
  }

  /** One more, with or without another waiting. */
  function Asking(r: Requests, waiting: bool): (s: Requests)
    ensures Standing(s) == Standing(r) + if waiting then 0 else 1
  {
    r.(asked := r.asked + 1, joined := r.joined + if waiting then 1 else 0)
  }

  /** The one that waits, if there is one, is withdrawn. */
  function Withdrawing(r: Requests, waiting: bool): (s: Requests)
    ensures Standing(s) == Standing(r) - if waiting then 1 else 0
  {
    r.(withdrawn := r.withdrawn + if waiting then 1 else 0)
  }

  class AudioFifo {
    const fifo: array<real>
    var head: nat
    var tail: nat
    var doOverwrite: bool
    var outputStopped: bool
    var prebufSamples: nat
    var prebuf: bool
    var isFlushing: bool
    var isFull: bool
    var inputStopped: bool

    /** A reader, or null for some other sink. */
    const sink: AudioReader?
    /** Whether some other sink takes everything it is offered; if not, what it likes. */
    const willing: bool

    /** Every sample accepted; for each that has left, whether the sink got it; and what the
        sink got. */
    ghost var accepted: seq<real>
    ghost var fate: seq<bool>
    ghost var delivered: seq<real>
    ghost var flushes: nat
    ghost var resumes: nat
    ghost var acks: nat
    ghost var requests: Requests
    /** The sink took nothing when it was last asked. */
    ghost var refused: bool

    ghost function Outside(): (r: set<object>)
      reads sink
    {
      if sink == null then {} else sink.Frame()
    }

    ghost predicate RingOk()
      reads this`head, this`tail, this`isFull, this`prebufSamples
    {
      RingShape(fifo.Length, head, tail, isFull) && prebufSamples < fifo.Length
    }

    ghost predicate Shaped()
      reads this`head, this`tail, this`isFull, this`prebufSamples, sink
    {
      && RingOk()
      && (sink != null ==> sink.Valid() && sink.buf != fifo)
    }

    ghost function Contents(): seq<real>
      requires RingOk()
      reads this`head, this`tail, this`isFull, this`prebufSamples, fifo
    {
      Ring(fifo[..], head, tail, isFull)
    }

    /** Every accepted sample has been delivered, has been overwritten or cleared, or is in the
        ring, in this order. */
    ghost predicate Conserving()
      requires RingOk()
      reads this`head, this`tail, this`isFull, this`prebufSamples, this`fate, this`accepted, this`delivered, fifo
    {
      && |fate| <= |accepted|
      && accepted[|fate|..] == Contents()
      && delivered == Select(accepted, fate)
    }

    /** A stopped sink has samples to come back for; a reader knows that it is stopped. */
    ghost predicate Linked()
      requires Shaped()
      reads this`head, this`tail, this`isFull, this`prebufSamples, this`outputStopped, this`refused, sink, fifo
    {
      outputStopped ==> Contents() != [] && refused && if sink != null then sink.inputStopped else !willing
    }

    /** A sample the sink could have had by now waits only for a sink that has stopped. */
    ghost predicate Awake()
      requires RingOk()
      reads this`head, this`tail, this`isFull, this`prebufSamples, this`prebuf, this`isFlushing, this`outputStopped
    {
      SamplesInFifo(false) > 0 ==> outputStopped
    }

    /** Every flush asked for has been acknowledged, joined or withdrawn, or waits. */
    ghost predicate Accounted()
      reads this`requests, this`acks, this`isFlushing
    {
      Standing(requests) == acks + if isFlushing then 1 else 0
    }

    ghost predicate Valid()
      reads this, sink, fifo
    {
      Shaped() && Conserving() && Linked() && Awake() && Accounted()
    }

    /** A source that has been told to wait will be woken. */
    ghost predicate SourceWillWake()
      reads this`inputStopped, this`isFull
    {
      inputStopped ==> isFull
    }

    function Empty(): bool
      reads this`head, this`tail, this`isFull
    {
      !isFull && tail == head
    }

    /** With pre-buffering, nothing until there is enough. */
    function SamplesInFifo(ignorePrebuf: bool): nat
      requires RingOk()
      reads this`head, this`tail, this`isFull, this`prebufSamples, this`prebuf, this`isFlushing
    {
      var samplesInBuffer := if isFull then fifo.Length else (head - tail + fifo.Length) % fifo.Length;
      if !ignorePrebuf && prebuf && !isFlushing && samplesInBuffer < prebufSamples then 0 else samplesInBuffer
    }

    /** The counter is right about the contents. */
    lemma {:induction false} Counted()
      requires RingOk()
      ensures SamplesInFifo(true) == |Contents()|
      ensures SamplesInFifo(false) == if prebuf && !isFlushing && |Contents()| < prebufSamples then 0 else |Contents()|
      ensures Empty() <==> Contents() == []
      ensures |Contents()| <= fifo.Length && (isFull <==> |Contents()| == fifo.Length)
    {
      RingLength(fifo[..], head, tail, isFull);
    }

    /** As long as nothing has been overwritten or cleared, the sink has the accepted samples
        in order, and the rest of them is in the ring. */
    lemma {:induction false} Lossless()
      requires RingOk() && Conserving() && forall i :: 0 <= i < |fate| ==> fate[i]
      ensures delivered + Contents() == accepted
    {
      hide Ring, Select;
      assert fate == All(true, |fate|);
      SelectAll(accepted, |fate|);
      assert accepted[..|fate|] + accepted[|fate|..] == accepted;
    }

    /** A ring that is not full, as it never is when overwriting, holds the newest accepted
        samples, and at least one slot is free. */
    lemma {:induction false} NewestKept()
      requires Shaped() && Conserving() && !isFull
      ensures |Contents()| < fifo.Length && |Contents()| <= |accepted|
      ensures Contents() == accepted[|accepted| - |Contents()|..]
    {
      hide Ring, Select;
      Counted();
    }

    constructor (size: nat, sink: AudioReader?, willing: bool)
      requires size > 0 && (sink != null ==> sink.Valid())
      ensures Valid() && Contents() == [] && accepted == [] && delivered == [] && fate == []
      ensures fifo.Length == size && this.sink == sink && this.willing == willing && fresh(fifo)
      ensures !inputStopped && !outputStopped && !isFlushing && !prebuf && !doOverwrite && prebufSamples == 0
      ensures flushes == 0 && acks == 0 && resumes == 0 && requests == Requests(0, 0, 0)
    {
      fifo := new real[size](_ => 0.0);
      this.sink, this.willing := sink, willing;
      head, tail, prebufSamples := 0, 0, 0;
      doOverwrite, outputStopped, prebuf, isFlushing, isFull, inputStopped := false, false, false, false, false, false;
      accepted, fate, delivered := [], [], [];
      flushes, resumes, acks, refused := 0, 0, 0, false;
      requests := Requests(0, 0, 0);
      new;
      RingLength(fifo[..], head, tail, isFull);
    }

    /** Offers samples to the sink: a reader takes what it has room for, any other sink takes
        all of them, or some or none if it is not willing. */
    method SinkWriteSamples(samples: seq<real>) returns (n: nat)
      requires Shaped()
      modifies this`refused, this`delivered, Outside()
      ensures Shaped() && n <= |samples| && refused == (n == 0) && delivered == old(delivered) + samples[..n]
      ensures sink == null && willing ==> n == |samples|
      ensures sink != null ==>
          && n == (if |samples| < old(sink.Room()) then |samples| else old(sink.Room()))
          && sink.Room() == old(sink.Room()) - n
          && sink.inputStopped == (n == 0)
          && sink.buf == old(sink.buf) && sink.bufSize == old(sink.bufSize)
          && sink.Got() == old(sink.Got()) + samples[..n]
    {
      if sink != null {
        n := sink.WriteSamples(samples);
      } else {
        n := |samples|;
        if !willing {
          n :| 0 <= n <= |samples|;
        }
      }
      refused := n == 0;
      delivered := delivered + samples[..n];
    }

    /** The sink, or its reader at once, acknowledges a flush. */
    method AllSamplesFlushed()
      requires Valid()
      modifies this`isFlushing, this`acks
      ensures Valid() && isFlushing == (old(isFlushing) && Contents() != [])
      ensures acks == old(acks) + (if old(isFlushing) && Contents() == [] then 1 else 0)
    {
      RingLength(fifo[..], head, tail, isFull);
      if Empty() {
        if isFlushing {
          isFlushing := false;
          acks := acks + 1;
        }
      }
    }

    /** Passes a flush on. */
    method SinkFlushSamples()
      requires Valid() && Contents() == [] && isFlushing
      modifies this`isFlushing, this`acks, this`flushes
      ensures Valid() && flushes == old(flushes) + 1
      ensures if sink == null then isFlushing && acks == old(acks) else !isFlushing && acks == old(acks) + 1
    {
      flushes := flushes + 1;
      if sink != null {
        AllSamplesFlushed();
      }
    }

    /** One write from the ring to the sink. */
    method WritePortion() returns (written: nat)
      requires Shaped() && Conserving() && Contents() != []
      modifies this`tail, this`isFull, this`fate, this`delivered, this`refused, Outside()
      ensures Shaped() && Conserving() && written <= |old(Contents())| && Contents() == old(Contents())[written..]
      ensures refused == (written == 0)
      ensures fate == old(fate) + All(true, written)
      ensures delivered == old(delivered) + old(Contents())[..written]
      ensures if written == 0 then isFull == old(isFull) else !isFull
      ensures sink != null ==> SinkAfter(old(sink.Room()), old(sink.Got()), old(sink.buf), old(sink.bufSize), old(Contents()), written)
      ensures sink != null ==> (written == 0 <==> old(sink.Room()) == 0) && sink.inputStopped == (written == 0)
      ensures sink == null && willing ==> written > 0
    {
      hide SamplesInFifo, Select, Ring, Conserving;
      ghost var before := Contents();
      InOrder();
      var samples := NextPortion();
      written := SinkWriteSamples(samples);
      assert samples[..written] == before[..written];
      Advance(written);
    }

    lemma {:induction false} InOrder()
      requires RingOk() && Conserving()
      ensures |fate| <= |accepted| && accepted[|fate|..] == Contents() && delivered == Select(accepted, fate)
    {
      hide Ring, Select;
    }

    /** What is offered at once: the oldest samples up to the end of the array. */
    method NextPortion() returns (samples: seq<real>)
      requires RingOk() && Contents() != []
      ensures 0 < |samples| == Least(Least(MAX_WRITE_SIZE, |Contents()|), fifo.Length - tail) && samples == Contents()[..|samples|]
    {
      hide SamplesInFifo, Ring;
      Counted();
      var available := SamplesInFifo(true);
      var samplesToWrite := Least(MAX_WRITE_SIZE, available);
      var toEndOfFifo := fifo.Length - tail;
      samplesToWrite := Least(samplesToWrite, toEndOfFifo);
      RingTake(fifo[..], head, tail, isFull, samplesToWrite);
      samples := fifo[tail..tail + samplesToWrite];
    }

    static lemma {:induction false} Forwarded(accepted: seq<real>, fate: seq<bool>, contents: seq<real>, n: nat)
      requires |fate| <= |accepted| && accepted[|fate|..] == contents && n <= |contents|
      ensures var later := fate + All(true, n);
              |later| <= |accepted| && accepted[|later|..] == contents[n..] && Select(accepted, later) == Select(accepted, fate) + contents[..n]
    {
      hide Select;
      SelectNext(accepted, fate, true, n);
      assert accepted[|fate|..][n..] == accepted[|fate| + n..] && accepted[|fate|..][..n] == accepted[|fate|..|fate| + n];
    }

    /** n samples that the sink has taken leave the ring. */
    method Advance(n: nat)
      requires Shaped() && n <= |Contents()| && n <= fifo.Length - tail
      requires |fate| <= |accepted| && accepted[|fate|..] == Contents() && delivered == Select(accepted, fate) + Contents()[..n]
      modifies this`tail, this`isFull, this`fate
      ensures Shaped() && Conserving() && Contents() == old(Contents())[n..]
      ensures fate == old(fate) + All(true, n)
      ensures if n == 0 then isFull == old(isFull) else !isFull
    {
      hide SamplesInFifo, Select, Ring, All;
      RingTake(fifo[..], head, tail, isFull, n);
      Forwarded(accepted, fate, Contents(), n);
      fate := fate + All(true, n);
      if n > 0 { isFull := false; }
      tail := (tail + n) % fifo.Length;
      assert Contents() == old(Contents())[n..];
    }

    /** What a reader has after taking n of some samples. */
    ghost predicate SinkAfter(room: nat, got: seq<real>, buf: array?<real>, bufSize: nat, samples: seq<real>, n: nat)
      requires sink != null && n <= |samples|
      reads sink, Outside()
    {
      && sink.Valid() && sink.buf == buf && sink.bufSize == bufSize
      && n <= room && sink.Room() == room - n && sink.Got() == got + samples[..n]
    }

    lemma {:induction false} NothingMovedYet(fate0: seq<bool>, delivered0: seq<real>, contents0: seq<real>, got0: seq<real>)
      requires Shaped() && fate == fate0 && delivered == delivered0 && Contents() == contents0
      requires sink != null ==> sink.Got() == got0
      ensures Moved(0, fate0, delivered0, contents0)
      ensures sink != null ==> SinkAfter(sink.Room(), got0, sink.buf, sink.bufSize, contents0, 0)
    {
      hide SamplesInFifo, Select, Ring, Conserving;
      NothingMoved(fate0, delivered0, contents0, got0);
    }

    /** n samples have gone from the ring to the sink since the state described. */
    ghost predicate Moved(n: nat, fate0: seq<bool>, delivered0: seq<real>, contents0: seq<real>)
      requires RingOk()
      reads this`head, this`tail, this`isFull, this`prebufSamples, this`fate, this`delivered, fifo
    {
      && n <= |contents0| && Contents() == contents0[n..]
      && fate == fate0 + All(true, n) && delivered == delivered0 + contents0[..n]
    }

    /** One more write, after n samples since the state described. */
    method FurtherPortion(ghost n: nat, ghost fate0: seq<bool>, ghost delivered0: seq<real>, ghost contents0: seq<real>,
                          ghost room0: nat, ghost got0: seq<real>, ghost buf0: array?<real>, ghost size0: nat) returns (written: nat)
      requires Shaped() && Conserving() && Contents() != [] && Moved(n, fate0, delivered0, contents0)
      requires sink != null ==> SinkAfter(room0, got0, buf0, size0, contents0, n)
      modifies this`tail, this`isFull, this`fate, this`delivered, this`refused, Outside()
      ensures Shaped() && Conserving() && written <= |old(Contents())| && |Contents()| == |old(Contents())| - written
      ensures n + written <= |contents0| && Moved(n + written, fate0, delivered0, contents0)
      ensures sink != null ==> SinkAfter(room0, got0, buf0, size0, contents0, n + written)
      ensures (if written == 0 then isFull == old(isFull) else !isFull) && refused == (written == 0)
      ensures sink != null ==> sink.inputStopped == (written == 0) && (written == 0 ==> sink.Room() == 0)
      ensures sink == null && willing ==> written > 0
    {
      hide SamplesInFifo, Select, Ring, Conserving, All, Contents;
      written := WritePortion();
      MovedOn(fate0, delivered0, got0, contents0, n, written);
      assert Contents() == contents0[n + written..] && fate == fate0 + All(true, n + written);
    }

    /** Writes from the ring until the sink stops or nothing is left. */
    method Drain() returns (written: nat, ghost n: nat)
      requires Shaped() && Conserving() && Contents() != []
      modifies this`tail, this`isFull, this`fate, this`delivered, this`refused, Outside()
      ensures Shaped() && Conserving() && Moved(n, old(fate), old(delivered), old(Contents()))
      ensures (written == 0 <==> Contents() != []) && refused == (written == 0)
      ensures if n == 0 then isFull == old(isFull) else !isFull
      ensures sink != null ==> SinkAfter(old(sink.Room()), old(sink.Got()), old(sink.buf), old(sink.bufSize), old(Contents()), n)
      ensures sink != null ==> sink.inputStopped == (written == 0) && (written == 0 ==> sink.Room() == 0)
      ensures sink == null && willing ==> written > 0
    {
      hide SamplesInFifo, Select, Ring, Conserving, Moved;
      ghost var fate0, delivered0, contents0 := fate, delivered, Contents();
      ghost var room0, got0 := if sink == null then 0 else sink.Room(), if sink == null then [] else sink.Got();
      var going := true;
      written, n := 0, 0;
      NothingMovedYet(fate0, delivered0, contents0, got0);
      while going
        invariant Shaped() && Conserving() && n <= |contents0| && Moved(n, fate0, delivered0, contents0)
        invariant if going then Contents() != [] else (written == 0 <==> Contents() != []) && refused == (written == 0)
        invariant if n == 0 then isFull == old(isFull) else !isFull
        invariant sink != null ==> SinkAfter(room0, got0, old(sink.buf), old(sink.bufSize), contents0, n)
        invariant sink == null && willing && !going ==> written > 0
        invariant sink != null && !going ==> sink.inputStopped == (written == 0) && (written == 0 ==> sink.Room() == 0)
        decreases going, |Contents()|
      {
        written := FurtherPortion(n, fate0, delivered0, contents0, room0, got0,
                                  if sink == null then null else old(sink.buf), if sink == null then 0 else old(sink.bufSize));
        n := n + written;
        Counted();
        going := written > 0 && !Empty();
      }
    }

    /** Writes to the sink what it should have by now.  A source that had to stop is woken when
        there is room again, and a flush that waited is passed on once the ring is empty. */
    method WriteSamplesFromFifo() returns (ghost n: nat)
      requires Shaped() && Conserving() && Linked() && Accounted()
      modifies this`tail, this`isFull, this`fate, this`delivered, this`outputStopped, this`inputStopped, this`isFlushing,
               this`resumes, this`acks, this`flushes, this`refused, Outside()
      ensures Valid() && Moved(n, old(fate), old(delivered), old(Contents()))
      ensures sink != null ==> SinkAfter(old(sink.Room()), old(sink.Got()), old(sink.buf), old(sink.bufSize), old(Contents()), n)
      ensures sink != null && !old(outputStopped) && n < |Contents()| + n && old(SamplesInFifo(false)) > 0 ==> sink.Room() == 0
      ensures sink != null && old(sink.inputStopped == outputStopped) ==> sink.inputStopped == outputStopped
      ensures n > 0 ==> !isFull && !old(outputStopped)
      ensures old(SamplesInFifo(false)) == 0 ==> n == 0 && outputStopped == old(outputStopped)
      ensures n == 0 ==> isFull == old(isFull)
      ensures old(SourceWillWake()) ==> SourceWillWake()
      ensures inputStopped == (old(inputStopped) && (isFull || old(outputStopped || SamplesInFifo(false) == 0)))
      ensures resumes == old(resumes) + (if old(inputStopped) && !inputStopped then 1 else 0)
      ensures flushes == old(flushes) + (if old(isFlushing) && n > 0 && Contents() == [] then 1 else 0)
      ensures acks == old(acks) + (if sink != null then flushes - old(flushes) else 0)
      ensures isFlushing == (old(isFlushing) && acks == old(acks))
    {
      hide SamplesInFifo, Select, Ring, Conserving;
      n := 0;
      NothingMoved(fate, delivered, Contents(), if sink == null then [] else sink.Got());
      Counted();
      if outputStopped || SamplesInFifo(false) == 0 {
        return;
      }
      var written;
      written, n := Drain();
      Settle(written);
    }

    /** After a round of writes, of which the last took so many samples. */
    method Settle(written: nat)
      requires Shaped() && Conserving() && Accounted() && !outputStopped && (written == 0 <==> Contents() != []) && refused == (written == 0)
      requires if sink != null then sink.inputStopped == (written == 0) else willing ==> written > 0
      modifies this`outputStopped, this`inputStopped, this`isFlushing, this`resumes, this`acks, this`flushes
      ensures Valid() && outputStopped == (written == 0)
      ensures inputStopped == (old(inputStopped) && isFull) && resumes == old(resumes) + (if old(inputStopped) && !inputStopped then 1 else 0)
      ensures flushes == old(flushes) + (if old(isFlushing) && Contents() == [] then 1 else 0)
      ensures acks == old(acks) + (if sink != null then flushes - old(flushes) else 0)
      ensures isFlushing == (old(isFlushing) && acks == old(acks))
    {
      hide SamplesInFifo, Select, Ring;
      if written == 0 { outputStopped := true; }
      if inputStopped && !isFull {
        inputStopped := false;
        resumes := resumes + 1;
      }
      Counted();
      if isFlushing && Empty() {
        SinkFlushSamples();
      }
    }

    static lemma {:induction false} OneMore(accepted: seq<real>, fate: seq<bool>, x: real)
      requires |fate| <= |accepted|
      ensures (accepted + [x])[|fate|..] == accepted[|fate|..] + [x] && Select(accepted + [x], fate) == Select(accepted, fate)
    {
      SelectMore(accepted, [x], fate);
    }

    static lemma {:induction false} OneLess(accepted: seq<real>, fate: seq<bool>)
      requires |fate| < |accepted|
      ensures |fate + All(false, 1)| == |fate| + 1 && accepted[|fate| + 1..] == accepted[|fate|..][1..]
      ensures Select(accepted, fate + All(false, 1)) == Select(accepted, fate)
    {
      hide Select;
      SelectNext(accepted, fate, false, 1);
    }

    /** Puts one sample into a ring that is not full. */
    method Put(x: real)
      requires Shaped() && Conserving() && !isFull
      modifies this`head, this`tail, this`isFull, this`accepted, this`fate, fifo
      ensures Shaped() && Conserving() && accepted == old(accepted) + [x]
      ensures var loses := doOverwrite && |old(Contents())| == fifo.Length - 1;
        && Contents() == (if loses then (old(Contents()) + [x])[1..] else old(Contents()) + [x])
        && fate == (if loses then old(fate) + All(false, 1) else old(fate))
      ensures isFull <==> !doOverwrite && |old(Contents())| == fifo.Length - 1
    {
      hide SamplesInFifo, Select, Ring, All;
      LastSlot(fifo[..], head, tail);
      ghost var a, contents := fifo[..], Contents();
      RingPut(a, head, tail, x, a[head := x]);
      OneMore(accepted, fate, x);
      fifo[head] := x;
      accepted := accepted + [x];
      assert fifo[..] == a[old(head) := x];
      head := if head < fifo.Length - 1 then head + 1 else 0;
      if head == tail {
        if doOverwrite {
          tail := if tail < fifo.Length - 1 then tail + 1 else 0;
          OneLess(accepted, fate);
          fate := fate + All(false, 1);
        } else {
          isFull := true;
        }
      }
    }

    /** Fills the ring as far as it goes. */
    method Fill(samples: seq<real>) returns (n: nat)
      requires Shaped() && Conserving() && !isFull && |samples| > 0
      modifies this`head, this`tail, this`isFull, this`accepted, this`fate, fifo
      ensures Shaped() && Conserving() && 0 < n <= |samples| && accepted == old(accepted) + samples[..n]
      ensures n == |samples| || isFull
      ensures old(fate) <= fate && (old(Contents()) != [] ==> Contents() != [])
      ensures !doOverwrite ==> fate == old(fate) && Contents() == old(Contents()) + samples[..n]
      ensures doOverwrite ==> !isFull
      ensures |Contents()| == Least(|old(Contents())| + |samples|, if doOverwrite then fifo.Length - 1 else fifo.Length)
      ensures |old(Contents())| + |samples| < fifo.Length ==> fate == old(fate) && Contents() == old(Contents()) + samples
    {
      hide Conserving, Ring, SamplesInFifo, All, Select;
      Counted();
      n := 0;
      ghost var accepted0, contents0 := accepted, Contents();
      assert samples[..0] == [] && accepted0 + [] == accepted0 && contents0 + [] == contents0;
      while !isFull && n < |samples|
        invariant Shaped() && Conserving() && n <= |samples| && accepted == accepted0 + samples[..n]
        invariant (isFull ==> n > 0 && !doOverwrite) && doOverwrite == old(doOverwrite)
        invariant old(fate) <= fate && (contents0 != [] ==> Contents() != [])
        invariant !doOverwrite || |contents0| + n < fifo.Length ==> fate == old(fate) && Contents() == contents0 + samples[..n]
        invariant |Contents()| == Least(|contents0| + n, if doOverwrite then fifo.Length - 1 else fifo.Length)
      {
        Put(samples[n]);
        OneLonger(accepted0, samples, n);
        OneLonger(contents0, samples, n);
        Counted();
        n := n + 1;
      }
      Counted();
    }

    static lemma {:induction false} Straight(accepted: seq<real>, fate: seq<bool>, taken: seq<real>)
      requires |fate| <= |accepted| && accepted[|fate|..] == []
      ensures var now, later := accepted + taken, fate + All(true, |taken|);
              |later| == |now| && now[|later|..] == [] && Select(now, later) == Select(accepted, fate) + taken
    {
      hide Select;
      SelectMore(accepted, taken, fate);
      SelectNext(accepted + taken, fate, true, |taken|);
      assert |accepted| == |fate| + |accepted[|fate|..]|;
      assert (accepted + taken)[|accepted|..] == taken;
    }

    /** With nothing buffered, the sink is asked first. */
    method PassOn(samples: seq<real>) returns (n: nat)
      requires Valid() && Contents() == [] && !outputStopped
      modifies this`accepted, this`fate, this`delivered, this`refused, Outside()
      ensures Valid() && Contents() == [] && n <= |samples| && accepted == old(accepted) + samples[..n]
      ensures fate == old(fate) + All(true, n) && delivered == old(delivered) + samples[..n]
      ensures sink != null ==> sink.buf == old(sink.buf) && sink.Room() == old(sink.Room()) - n
      ensures n == |samples| || if sink == null then !willing else n == old(sink.Room())
    {
      hide SamplesInFifo, Select, Ring;
      n := SinkWriteSamples(samples);
      ghost var taken := samples[..n];
      Straight(accepted, fate, taken);
      accepted := accepted + taken;
      fate := fate + All(true, n);
      Counted();
    }

    /** An overwriting ring of one slot keeps nothing. */
    ghost predicate Losing()
      reads this`doOverwrite
    {
      doOverwrite && fifo.Length == 1
    }

    /** With n samples more there would still be too few to start with. */
    ghost predicate HoldsBack(n: nat)
      requires RingOk()
      reads this`head, this`tail, this`isFull, this`prebufSamples, this`prebuf, this`doOverwrite, fifo
    {
      prebuf && (Losing() || |Contents()| + n < prebufSamples)
    }

    /** Fills the ring, which may end the pre-buffering. */
    method Stock(samples: seq<real>) returns (n: nat)
      requires Shaped() && Conserving() && Linked() && !isFull && !isFlushing && |samples| > 0
      modifies this`head, this`tail, this`isFull, this`accepted, this`fate, this`prebuf, fifo
      ensures Shaped() && Conserving() && Linked() && 0 < n <= |samples| && accepted == old(accepted) + samples[..n]
      ensures (n == |samples| || isFull) && (doOverwrite ==> !isFull)
      ensures old(fate) <= fate && (!doOverwrite ==> fate == old(fate) && Contents() == old(Contents()) + samples[..n])
      ensures prebuf == old(HoldsBack(|samples|)) && (prebuf || Losing() <==> SamplesInFifo(false) == 0)
      ensures prebuf && !Losing() ==> n == |samples| && fate == old(fate) && Contents() == old(Contents()) + samples
      ensures doOverwrite ==> n == |samples| && |Contents()| == Least(|old(Contents())| + n, fifo.Length - 1)
    {
      hide SamplesInFifo, Select, Ring, Conserving;
      n := Fill(samples);
      Counted();
      if prebuf && SamplesInFifo(false) > 0 {
        prebuf := false;
      }
      Counted();
    }

    /** One round of filling the ring and serving the sink. */
    method Buffer(samples: seq<real>) returns (n: nat)
      requires Valid() && !isFull && !isFlushing && |samples| > 0
      modifies this`head, this`tail, this`isFull, this`accepted, this`fate, this`delivered, this`prebuf, this`outputStopped, this`inputStopped,
               this`isFlushing, this`resumes, this`acks, this`flushes, this`refused, fifo, Outside()
      ensures Valid() && !isFlushing && 0 < n <= |samples| && accepted == old(accepted) + samples[..n]
      ensures (n == |samples| || old(!doOverwrite)) && doOverwrite == old(doOverwrite) && prebufSamples == old(prebufSamples)
      ensures old(fate) <= fate && (!doOverwrite ==> |fate| >= |old(fate)| && fate == old(fate) + All(true, |fate| - |old(fate)|))
      ensures old(delivered) <= delivered && (doOverwrite ==> !isFull)
      ensures flushes == old(flushes) && acks == old(acks)
      ensures sink != null ==> sink.buf == old(sink.buf)
      ensures sink != null && old(sink.Room()) == 0 ==> delivered == old(delivered) && sink.Room() == 0
      ensures sink != null && old(sink.Room()) == 0 && !doOverwrite ==> Contents() == old(Contents()) + samples[..n]
      ensures sink != null && old(sink.Room() == 0) && doOverwrite ==> |Contents()| == Least(|old(Contents())| + |samples|, fifo.Length - 1)
      ensures prebuf == old(HoldsBack(|samples|))
      ensures prebuf && !Losing() ==> n == |samples| && outputStopped == old(outputStopped) && fate == old(fate) && Contents() == old(Contents()) + samples
      ensures (inputStopped ==> old(inputStopped)) && resumes == old(resumes) + (if old(inputStopped) && !inputStopped then 1 else 0)
    {
      hide SamplesInFifo, Select, Ring, Conserving, Awake;
      n := Stock(samples);
      ghost var m := WriteSamplesFromFifo();
    }

    /** Buffers samples until there are no more or the ring is full. */
    method BufferAll(samples: seq<real>) returns (n: nat)
      requires Valid() && !isFull && !isFlushing
      modifies this`head, this`tail, this`isFull, this`accepted, this`fate, this`delivered, this`prebuf, this`outputStopped, this`inputStopped,
               this`isFlushing, this`resumes, this`acks, this`flushes, this`refused, fifo, Outside()
      ensures Valid() && !isFlushing && n <= |samples| && accepted == old(accepted) + samples[..n]
      ensures if n < |samples| then isFull && n > 0 else isFull ==> n > 0
      ensures doOverwrite == old(doOverwrite) && prebufSamples == old(prebufSamples)
      ensures old(fate) <= fate && old(delivered) <= delivered && (doOverwrite ==> !isFull)
      ensures !doOverwrite ==> |fate| >= |old(fate)| && fate == old(fate) + All(true, |fate| - |old(fate)|)
      ensures flushes == old(flushes) && acks == old(acks)
      ensures sink != null ==> sink.buf == old(sink.buf)
      ensures sink != null && old(sink.Room()) == 0 ==> delivered == old(delivered) && sink.Room() == 0
      ensures sink != null && old(sink.Room()) == 0 && !doOverwrite ==> Contents() == old(Contents()) + samples[..n]
      ensures sink != null && old(sink.Room() == 0) && doOverwrite && |samples| > 0 ==> |Contents()| == Least(|old(Contents())| + |samples|, fifo.Length - 1)
      ensures if |samples| > 0 then prebuf == old(HoldsBack(|samples|)) else prebuf == old(prebuf)
      ensures prebuf && !Losing() ==> n == |samples| && outputStopped == old(outputStopped) && fate == old(fate) && Contents() == old(Contents()) + samples
      ensures |samples| == 0 ==> Contents() == old(Contents()) && delivered == old(delivered)
      ensures (inputStopped ==> old(inputStopped)) && resumes == old(resumes) + (if old(inputStopped) && !inputStopped then 1 else 0)
    {
      hide SamplesInFifo, Select, Ring, Conserving, Linked, Awake;
      n := 0;
      ghost var accepted0, contents0 := accepted, Contents();
      assert accepted0 + samples[..0] == accepted0 && contents0 + samples[..0] == contents0;
      assert fate + All(true, 0) == fate;
      while !isFull && n < |samples|
        invariant Valid() && !isFlushing && n <= |samples| && accepted == accepted0 + samples[..n]
        invariant isFull ==> n > 0 && !doOverwrite
        invariant doOverwrite == old(doOverwrite) && prebufSamples == old(prebufSamples)
        invariant old(fate) <= fate && old(delivered) <= delivered
        invariant !doOverwrite ==> fate == old(fate) + All(true, |fate| - |old(fate)|)
        invariant flushes == old(flushes) && acks == old(acks)
        invariant (inputStopped ==> old(inputStopped)) && resumes == old(resumes) + (if old(inputStopped) && !inputStopped then 1 else 0)
        invariant sink != null ==> sink.buf == old(sink.buf)
        invariant sink != null && old(sink.Room()) == 0 ==> delivered == old(delivered) && sink.Room() == 0
        invariant sink != null && old(sink.Room()) == 0 && !doOverwrite ==> Contents() == contents0 + samples[..n]
        invariant sink != null && old(sink.Room()) == 0 && doOverwrite && n > 0 ==> n == |samples| && |Contents()| == Least(|contents0| + n, fifo.Length - 1)
        invariant if n > 0 then prebuf == old(HoldsBack(|samples|)) else prebuf == old(prebuf) && Contents() == contents0 && delivered == old(delivered)
        invariant prebuf && !Losing() ==> outputStopped == old(outputStopped) && fate == old(fate) && Contents() == contents0 + samples[..n]
        invariant prebuf && n > 0 ==> n == |samples|
      {
        var more := Buffer(samples[n..]);
        Longer(accepted0, samples, n, more);
        Longer(contents0, samples, n, more);
        n := n + more;
      }
    }

    /** Straight to the sink if nothing is buffered, and the rest into the ring. */
    method Take(samples: seq<real>) returns (written: nat)
      requires Valid() && !isFull && !isFlushing && |samples| > 0
      modifies this`head, this`tail, this`isFull, this`accepted, this`fate, this`delivered, this`prebuf, this`outputStopped, this`inputStopped,
               this`isFlushing, this`resumes, this`acks, this`flushes, this`refused, fifo, Outside()
      ensures Valid() && !isFlushing && 0 < written <= |samples| && accepted == old(accepted) + samples[..written]
      ensures (written < |samples| ==> isFull) && (doOverwrite ==> !isFull)
      ensures doOverwrite == old(doOverwrite) && prebufSamples == old(prebufSamples)
      ensures old(fate) <= fate && old(delivered) <= delivered && flushes == old(flushes) && acks == old(acks)
      ensures !doOverwrite ==> |fate| >= |old(fate)| && fate == old(fate) + All(true, |fate| - |old(fate)|)
      ensures sink != null ==> sink.buf == old(sink.buf)
      ensures sink != null && old(sink.Room()) == 0 ==> delivered == old(delivered) && sink.Room() == 0
      ensures sink != null && old(sink.Room()) == 0 && !doOverwrite ==> Contents() == old(Contents()) + samples[..written]
      ensures sink != null && old(sink.Room() == 0) && doOverwrite ==> |Contents()| == Least(|old(Contents())| + |samples|, fifo.Length - 1)
      ensures prebuf == old(HoldsBack(|samples|))
      ensures prebuf && !Losing() ==> written == |samples| && outputStopped == old(outputStopped) && fate == old(fate) && Contents() == old(Contents()) + samples
      ensures old(Contents() == [] && !prebuf) && sink != null ==>
          delivered == old(delivered) + samples[..Least(|samples|, old(sink.Room()))]
      ensures old(Contents() == [] && !prebuf) && sink == null && willing ==>
          written == |samples| && Contents() == [] && delivered == old(delivered) + samples
      ensures (inputStopped ==> old(inputStopped)) && resumes == old(resumes) + (if old(inputStopped) && !inputStopped then 1 else 0)
    {
      hide SamplesInFifo, Select, Ring, Conserving, Linked, Awake;
      Counted();
      written := 0;
      if Empty() && !prebuf {
        NotStopped();
        written := PassOn(samples);
      }
      var more := BufferAll(samples[written..]);
      Longer(old(accepted), samples, written, more);
      if written == 0 { assert samples[0..] == samples; }
      written := written + more;
    }

    /** A flush that waits is withdrawn. */
    method NoFlush()
      requires Valid()
      modifies this`requests, this`isFlushing
      ensures Valid() && !isFlushing && requests == old(Withdrawing(requests, isFlushing))
      ensures Contents() == [] <==> Empty()
    {
      hide SamplesInFifo, Select, Ring, Conserving, Linked, Standing, Withdrawing;
      Counted();
      requests := Withdrawing(requests, isFlushing);
      isFlushing := false;
      Counted();
    }

    /** Takes samples from the source.  All of them, unless the ring fills up; none only when
        it is full, and then the source waits until there is room. */
    method WriteSamples(samples: seq<real>) returns (written: nat)
      requires Valid() && |samples| > 0
      modifies this`head, this`tail, this`isFull, this`accepted, this`fate, this`delivered, this`prebuf, this`outputStopped, this`inputStopped,
               this`isFlushing, this`resumes, this`acks, this`flushes, this`refused, this`requests, fifo, Outside()
      ensures Valid() && !isFlushing
      ensures written <= |samples| && accepted == old(accepted) + samples[..written]
      ensures (written == 0 <==> old(isFull)) && inputStopped == (written == 0) && (written < |samples| ==> isFull)
      ensures SourceWillWake()
      ensures old(fate) <= fate && old(delivered) <= delivered
      ensures !doOverwrite ==> |fate| >= |old(fate)| && fate == old(fate) + All(true, |fate| - |old(fate)|)
      ensures doOverwrite && !old(isFull) ==> !isFull
      ensures doOverwrite == old(doOverwrite) && prebufSamples == old(prebufSamples)
      ensures flushes == old(flushes) && acks == old(acks)
      ensures requests == old(Withdrawing(requests, isFlushing))
      ensures sink != null ==> sink.buf == old(sink.buf)
      ensures sink != null && old(sink.Room()) == 0 ==> delivered == old(delivered) && sink.Room() == 0
      ensures sink != null && old(sink.Room()) == 0 && !doOverwrite ==> Contents() == old(Contents()) + samples[..written]
      ensures sink != null && old(sink.Room() == 0 && !isFull) && doOverwrite ==> |Contents()| == Least(|old(Contents())| + |samples|, fifo.Length - 1)
      ensures prebuf == old(if isFull then prebuf else HoldsBack(|samples|))
      ensures old(!isFull && !Losing() && |Contents()| + |samples| >= prebufSamples) || old(!prebuf) ==> !prebuf
      ensures prebuf && !Losing() ==> outputStopped == old(outputStopped) && fate == old(fate) && Contents() == old(Contents()) + samples[..written]
      ensures old(Contents() == [] && !prebuf) && sink != null ==>
          delivered == old(delivered) + samples[..Least(|samples|, old(sink.Room()))]
      ensures old(Contents() == [] && !prebuf) && sink == null && willing ==>
          written == |samples| && Contents() == [] && delivered == old(delivered) + samples
      ensures resumes == old(resumes) || (old(inputStopped && !isFull) && resumes == old(resumes) + 1)
    {
      hide SamplesInFifo, Select, Ring, Conserving, Linked, Standing, Asking, Withdrawing, All, Awake, Accounted;
      NoFlush();
      if isFull {
        inputStopped := true;
        assert accepted + samples[..0] == accepted && Contents() + samples[..0] == Contents() && fate + All(true, 0) == fate;
        return 0;
      }
      written := Take(samples);
      inputStopped := written == 0;
    }

    lemma {:induction false} NotStopped()
      requires Valid() && Contents() == []
      ensures !outputStopped
    {
      hide Ring, SamplesInFifo, Conserving;
    }

    /** From now on a flush waits. */
    method AskForFlush()
      requires Valid()
      modifies this`requests, this`isFlushing, this`prebuf
      ensures Shaped() && Conserving() && Linked() && Accounted() && (Contents() == [] ==> Valid())
      ensures isFlushing && prebuf == (prebufSamples > 0) && requests == old(Asking(requests, isFlushing))
      ensures SamplesInFifo(false) == |Contents()|
    {
      hide SamplesInFifo, Select, Ring, Conserving, Linked, Standing, Asking;
      if Contents() == [] { NotStopped(); }
      requests := Asking(requests, isFlushing);
      isFlushing := true;
      prebuf := prebufSamples > 0;
      Counted();
    }

    /** The source asks for a flush: it is passed on at once if the ring is or becomes empty,
        and otherwise by the round of writes that empties it. */
    method FlushSamples() returns (ghost n: nat)
      requires Valid()
      modifies this`tail, this`isFull, this`fate, this`delivered, this`outputStopped, this`inputStopped, this`isFlushing,
               this`resumes, this`acks, this`flushes, this`prebuf, this`refused, this`requests, Outside()
      ensures Valid() && Moved(n, old(fate), old(delivered), old(Contents()))
      ensures old(SourceWillWake()) ==> SourceWillWake()
      ensures flushes == old(flushes) + (if Contents() == [] then 1 else 0)
      ensures acks == old(acks) + (if sink != null then flushes - old(flushes) else 0)
      ensures requests == old(Asking(requests, isFlushing))
      ensures (inputStopped ==> old(inputStopped)) && resumes == old(resumes) + (if old(inputStopped) && !inputStopped then 1 else 0)
      ensures isFlushing == (acks == old(acks)) && prebuf == (prebufSamples > 0)
      ensures sink != null ==> sink.buf == old(sink.buf) && n <= old(sink.Room())
    {
      hide SamplesInFifo, Select, Ring, Conserving, Linked, Standing, Asking, Withdrawing, All, Awake, Accounted;
      n := 0;
      NothingMoved(fate, delivered, Contents(), if sink == null then [] else sink.Got());
      AskForFlush();
      Counted();
      if Empty() {
        SinkFlushSamples();
      } else {
        n := WriteSamplesFromFifo();
      }
    }

    /** The sink can take samples again. */
    method ResumeOutput() returns (ghost n: nat)
      requires Shaped() && Conserving() && Awake() && Accounted() && (outputStopped ==> Contents() != [])
      modifies this`tail, this`isFull, this`fate, this`delivered, this`outputStopped, this`inputStopped, this`isFlushing,
               this`resumes, this`acks, this`flushes, this`refused, Outside()
      ensures Valid() && Moved(n, old(fate), old(delivered), old(Contents()))
      ensures sink != null ==> SinkAfter(old(sink.Room()), old(sink.Got()), old(sink.buf), old(sink.bufSize), old(Contents()), n)
      ensures sink != null && old(outputStopped) && old(SamplesInFifo(false)) > 0 && Contents() != [] ==> sink.Room() == 0
      ensures sink != null && !old(sink.inputStopped) ==> sink.inputStopped == outputStopped
      ensures old(SourceWillWake()) ==> SourceWillWake()
      ensures (inputStopped ==> old(inputStopped)) && resumes == old(resumes) + (if old(inputStopped) && !inputStopped then 1 else 0)
      ensures flushes == old(flushes) + (if old(isFlushing) && n > 0 && Contents() == [] then 1 else 0)
      ensures acks == old(acks) + (if sink != null then flushes - old(flushes) else 0)
      ensures isFlushing == (old(isFlushing) && acks == old(acks))
    {
      hide SamplesInFifo, Select, Ring, Conserving;
      n := 0;
      NothingMoved(fate, delivered, Contents(), if sink == null then [] else sink.Got());
      refused := false;
      if outputStopped {
        outputStopped := false;
        n := WriteSamplesFromFifo();
      }
    }

    /** Throws everything in the ring away.  A waiting flush is passed on; a source that had to
        stop is forgotten, which is what breaks its promise of being woken. */
    method Clear()
      requires Valid()
      modifies this`head, this`tail, this`isFull, this`fate, this`prebuf, this`outputStopped, this`isFlushing, this`acks, this`flushes
      ensures Valid() && Contents() == [] && delivered == old(delivered) && |fate| == |accepted|
      ensures fate == old(fate) + All(false, |old(Contents())|)
      ensures SourceWillWake() <==> !inputStopped
      ensures flushes == old(flushes) + (if old(isFlushing) && old(Contents()) != [] then 1 else 0)
      ensures acks == old(acks) + (if sink != null then flushes - old(flushes) else 0)
      ensures prebuf == (prebufSamples > 0) && !outputStopped
      ensures isFlushing == (old(isFlushing) && acks == old(acks))
    {
      hide SamplesInFifo, Select, Ring;
      Counted();
      ghost var lost := |Contents()|;
      var wasEmpty := Empty();
      isFull := false;
      tail, head := 0, 0;
      prebuf := prebufSamples > 0;
      outputStopped := false;
      SelectNext(accepted, fate, false, lost);
      fate := fate + All(false, lost);
      Counted();
      assert Empty();
      if isFlushing && !wasEmpty {
        SinkFlushSamples();
      }
    }

    /** After any run: the acknowledgements are the flushes asked for, without those that joined
        another, were withdrawn by a write, or wait. */
    lemma {:induction false} FlushesAccounted()
      requires Valid()
      ensures acks + requests.joined + requests.withdrawn + (if isFlushing then 1 else 0) == requests.asked
      ensures acks == requests.asked - requests.joined - requests.withdrawn <==> !isFlushing
    {
      hide Shaped, Conserving, Linked, Awake;
    }

    /** Samples wait only for a sink that has taken none of what it was offered, and has not
        asked for more since, or, as long as there are too few, for pre-buffering. */
    lemma {:induction false} ServedAtOnce()
      requires Valid() && Contents() != []
      ensures (outputStopped && refused) || (prebuf && !isFlushing && |Contents()| < prebufSamples)
      ensures sink == null && willing ==> !outputStopped
      ensures sink != null && outputStopped ==> sink.inputStopped
    {
      hide Ring, Select, Conserving, SamplesInFifo;
      Counted();
    }

    /** Sets the pre-buffering threshold.  Lowering it while samples are held back leaves them
        waiting for a sink that was never asked: every promise but Awake is kept, and that one
        exactly unless enough samples are held back. */
    method SetPrebufSamples(samples: nat)
      requires Valid()
      modifies this`prebufSamples, this`prebuf
      ensures Shaped() && Conserving() && Linked() && Accounted() && Contents() == old(Contents())
      ensures prebufSamples == if samples < fifo.Length - 1 then samples else fifo.Length - 1
      ensures !Awake() <==> old(prebuf) && !isFlushing && !outputStopped && |Contents()| > 0 && |Contents()| >= prebufSamples
      ensures prebuf == if Contents() == [] then samples > 0 else old(prebuf)
    {
      hide Select, Ring;
      Counted();
      prebufSamples := if samples < fifo.Length - 1 then samples else fifo.Length - 1;
      if Empty() {
        prebuf := samples > 0;
      }
      Counted();
    }

    method SetOverwrite(overwrite: bool)
      requires Valid()
      modifies this`doOverwrite
      ensures Valid() && doOverwrite == overwrite
    {
      doOverwrite := overwrite;
    }
  }

  lemma {:induction false} Longer(before: seq<real>, s: seq<real>, a: nat, n: nat)
    requires a + n <= |s|
    ensures before + s[..a] + s[a..][..n] == before + s[..a + n]
  {
    assert s[..a] + s[a..][..n] == s[..a + n];
    assert before + s[..a] + s[a..][..n] == before + (s[..a] + s[a..][..n]);
  }

  lemma {:induction false} OneLonger(before: seq<real>, s: seq<real>, n: nat)
    requires n < |s|
    ensures before + s[..n] + [s[n]] == before + s[..n + 1]
  {
    assert s[..n + 1] == s[..n] + [s[n]];
  }

  lemma {:induction false} NothingMoved(fate: seq<bool>, delivered: seq<real>, contents: seq<real>, got: seq<real>)
    ensures fate + All(true, 0) == fate && delivered + contents[..0] == delivered && contents[0..] == contents && got + contents[..0] == got
  {
  }

  lemma {:induction false} MovedOn(fate: seq<bool>, delivered: seq<real>, got: seq<real>, contents: seq<real>, n: nat, more: nat)
    requires n + more <= |contents|
    ensures fate + All(true, n) + All(true, more) == fate + All(true, n + more)
    ensures delivered + contents[..n] + contents[n..][..more] == delivered + contents[..n + more]
    ensures got + contents[..n] + contents[n..][..more] == got + contents[..n + more]
    ensures contents[n..][more..] == contents[n + more..]
  {
    assert contents[..n] + contents[n..][..more] == contents[..n + more];
    assert delivered + contents[..n] + contents[n..][..more] == delivered + (contents[..n] + contents[n..][..more]);
    assert got + contents[..n] + contents[n..][..more] == got + (contents[..n] + contents[n..][..more]);
  }

  // ---------------------------------------------------------------- runs that fall short

  /** The source fills a FIFO, is told to wait, and is forgotten when the FIFO is cleared. */
  method ClearForgets() returns (f: AudioFifo)
    ensures f.Valid() && f.Contents() == [] && f.inputStopped && !f.SourceWillWake() && f.acks == 0
  {
    hide Ring, Select, AudioFifo.Conserving, AudioFifo.SamplesInFifo, AudioFifo.Linked, AudioFifo.Awake;
    var r := new AudioReader();
    f := new AudioFifo(1, r, false);
    var n := f.WriteSamples([1.0, 2.0]);
    f.Counted();
    n := f.WriteSamples([2.0]);
    f.Clear();
  }

  /** Two samples are asked for before the first is sent, one comes, and then one is enough:
      nobody asks the sink. */
  method PrebufStrands() returns (f: AudioFifo)
    ensures f.Shaped() && f.Conserving() && |f.Contents()| == 1 && f.SamplesInFifo(false) == 1 && !f.outputStopped && !f.Awake()
  {
    hide Ring, Select, AudioFifo.Conserving, AudioFifo.SamplesInFifo;
    var r := new AudioReader();
    f := new AudioFifo(4, r, false);
    f.SetPrebufSamples(2);
    var n := f.WriteSamples([1.0]);
    f.Counted();
    f.SetPrebufSamples(1);
    f.Counted();
  }

  /** Whenever a FIFO has passed a flush on and its sink has yet to answer: if the source writes
      and flushes again, and the sink takes the sample, then the answer to the first flush
      acknowledges the second, which the sink has not answered. */
  method LateAnswerCounts(f: AudioFifo, x: real)
    requires f.Valid() && f.sink == null && f.isFlushing && f.Contents() == []
    modifies f, f.fifo
    ensures f.Valid() && f.requests == Asking(Withdrawing(old(f.requests), true), false)
    ensures if f.Contents() == [] then f.flushes == old(f.flushes) + 1 && f.acks == old(f.acks) + 1 && !f.isFlushing
            else f.flushes == old(f.flushes) && f.acks == old(f.acks) && f.isFlushing
  {
    hide Ring, Select, AudioFifo.Conserving, AudioFifo.SamplesInFifo, AudioFifo.Linked, AudioFifo.Awake, AudioFifo.Accounted, AudioFifo.Moved, AudioFifo.HoldsBack, Asking, Withdrawing, Standing, All;
    f.Counted();
    var n := f.WriteSamples([x]);
    ghost var m := f.FlushSamples();
    f.AllSamplesFlushed();
  }
}

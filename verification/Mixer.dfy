/** The audio mixer: the sum of any number of sources, each behind its own FIFO. */
module Mixer {
  import opened Signals
  import opened Fifo

  const OUTBUF_SIZE: nat := 256

  /** What has become of the flushes a source has asked for.  `idle`: acknowledged at once, the
      source being idle; `answered`: acknowledged by the mixer's own flush; `early`: acknowledged
      by the FIFO running empty, the mixer's answer having come before that; `withdrawn`: cut
      short by a write; `joined`: made while another was still waiting, and answered with it. */
  datatype Ledger = Ledger(asked: nat, idle: nat, answered: nat, early: nat, withdrawn: nat, joined: nat)

  function Acks(l: Ledger): nat {
    l.idle + l.answered + l.early
  }

  /** The flushes that wait: for the mixer's flush, or for the FIFO to run empty. */
  function Waiting(doFlush: bool, owed: bool): nat {
    (if doFlush then 1 else 0) + (if owed then 1 else 0)
  }

  /** Every flush asked for has been acknowledged, withdrawn or joined, or waits; those that
      found the source idle have been acknowledged once besides. */
  predicate Accounted(l: Ledger, acks: nat, waiting: nat) {
    acks - l.idle == l.answered + l.early && l.asked - waiting - l.withdrawn - l.joined == l.answered + l.early
  }

  /** No flush has been asked for yet. */
  predicate Blank(l: Ledger) {
    l.asked == 0 && l.idle == 0 && l.answered == 0 && l.early == 0 && l.withdrawn == 0 && l.joined == 0
  }

  /** What a sink does with samples: what it likes, take them all, or refuse them. */
  datatype Mood = Any | Willing | Closed

  /** The sink of a mixer. */
  class Sink {
    var mood: Mood

    constructor (mood: Mood)
      ensures this.mood == mood
    {
      this.mood := mood;
    }

    method WriteSamples(count: nat) returns (n: nat)
      ensures n <= count && (mood == Willing ==> n == count) && (mood == Closed ==> n == 0)
    {
      n := if mood == Willing then count else 0;
      if mood == Any {
        n :| 0 <= n <= count;
      }
    }
  }

  /** One source of a mixer. */
  class MixerSrc {
    const fifo: AudioFifo
    const reader: AudioReader
    var isFlushed: bool
    var doFlush: bool
    ghost var ledger: Ledger

    function Repr(): (r: set<object>) {
      {this, fifo, fifo.fifo, reader}
    }

    /** Apart from the flushes. */
    ghost predicate Sound()
      reads Repr()
    {
      && fifo.sink == reader && reader.buf == null && fifo.Valid() && fifo.SourceWillWake()
      && fifo.fifo.Length == OUTBUF_SIZE && fifo.prebufSamples == 0 && !fifo.prebuf && !fifo.doOverwrite
      && fifo.fate == All(true, |fifo.fate|)
    }

    ghost predicate Valid()
      reads Repr()
    {
      && Sound()
      && (doFlush ==> isFlushed)
      && (fifo.isFlushing ==> isFlushed && fifo.Contents() != [])
      && Accounted(ledger, fifo.acks, Waiting(doFlush, fifo.isFlushing))
    }

    ghost function State(): Snapshot
      requires Valid()
      reads Repr()
    {
      Snapshot(Contents(), fifo.delivered, isFlushed, doFlush, fifo.isFlushing, ledger)
    }

    ghost function Contents(): seq<real>
      requires Valid()
      reads Repr()
    {
      fifo.Contents()
    }

    predicate IsActive()
      reads this, fifo
    {
      !isFlushed || !fifo.Empty()
    }

    lemma {:induction false} SoundAtFirst()
      requires fifo.sink == reader && reader.buf == null && fifo.Valid() && fifo.fate == [] && !fifo.inputStopped
      requires fifo.fifo.Length == OUTBUF_SIZE && fifo.prebufSamples == 0 && !fifo.prebuf && !fifo.doOverwrite
      ensures Sound()
    {
      hide Ring, Select, AudioFifo.Conserving, AudioFifo.SamplesInFifo, AudioFifo.Linked, AudioFifo.Awake;
    }

    lemma {:induction false} ValidAtFirst()
      requires Sound() && !fifo.isFlushing && fifo.acks == 0 && !doFlush && Blank(ledger)
      ensures Valid()
    {
      hide Ring, Select, Sound;
    }

    lemma {:induction false} IdleAtFirst()
      requires Valid() && fifo.Contents() == [] && fifo.delivered == [] && isFlushed && !doFlush && Blank(ledger)
      ensures IsNew(State()) && !IsActive()
    {
      hide Ring, Select, AudioFifo.Conserving, Accounted;
      fifo.Counted();
    }

    constructor ()
      ensures Valid() && fresh(Repr()) && IsNew(State()) && fifo.accepted == [] && !IsActive()
    {
      hide Ring, Select, AudioFifo.Conserving, AudioFifo.SamplesInFifo, AudioFifo.Linked, AudioFifo.Awake, Accounted, Valid, Sound;
      var r := new AudioReader();
      var f := new AudioFifo(OUTBUF_SIZE, r, false);
      reader, fifo := r, f;
      isFlushed, doFlush := true, false;
      ledger := Ledger(0, 0, 0, 0, 0, 0);
      new;
      SoundAtFirst();
      ValidAtFirst();
      IdleAtFirst();
    }

    /** Active is: not flushed, or with something left.  A flushing source with nothing left is
        not active. */
    lemma {:induction false} ActiveIff()
      requires Valid()
      ensures IsActive() <==> !isFlushed || Contents() != []
      ensures doFlush && Contents() == [] ==> !IsActive()
      ensures |Contents()| <= OUTBUF_SIZE && fifo.SamplesInFifo(false) == |Contents()|
    {
      hide Ring, AudioFifo.Conserving;
      fifo.Counted();
    }

    /** What was accepted has been taken by the mixer or waits, in order. */
    lemma {:induction false} NothingLost()
      requires Valid()
      ensures fifo.accepted == fifo.delivered + Contents()
    {
      hide Ring, AudioFifo.Conserving;
      fifo.Lossless();
    }

    method WriteSamples(samples: seq<real>) returns (written: nat)
      requires Valid() && |samples| > 0
      modifies Repr()
      ensures Valid() && written <= |samples| && State() == Wrote(old(State()), samples[..written])
      ensures fifo.accepted == old(fifo.accepted) + samples[..written] && fifo.acks == old(fifo.acks)
      ensures written < |samples| ==> |Contents()| == OUTBUF_SIZE
      ensures !isFlushed && !doFlush
    {
      hide Ring, Select, AudioFifo.Conserving, AudioFifo.SamplesInFifo, AudioFifo.Linked;
      ledger := ledger.(withdrawn := ledger.withdrawn + Waiting(doFlush, fifo.isFlushing));
      isFlushed := false;
      doFlush := false;
      ghost var f := fifo.fate;
      written := fifo.WriteSamples(samples);
      AllTrue(f, |fifo.fate| - |f|);
      fifo.Counted();
    }

    /** A source that was idle already is acknowledged here, and again when the mixer's own
        flush comes back. */
    method FlushSamples()
      requires Valid()
      modifies Repr() - {fifo.fifo}
      ensures Valid() && State() == Asked(old(State())) && fifo.accepted == old(fifo.accepted)
      ensures fifo.acks == old(fifo.acks) + (if old(isFlushed && !doFlush && Contents() == []) then 1 else 0)
      ensures isFlushed && doFlush
    {
      hide Ring, Select, AudioFifo.Conserving, AudioFifo.SamplesInFifo, AudioFifo.Linked;
      fifo.Counted();
      ghost var idle := isFlushed && !doFlush && fifo.Empty();
      if isFlushed && !doFlush && fifo.Empty() {
        Flush();
      }
      ledger := ledger.(asked := ledger.asked + 1, idle := ledger.idle + (if idle then 1 else 0), joined := ledger.joined + (if doFlush then 1 else 0));
      isFlushed := true;
      doFlush := true;
    }

    /** Flushes the FIFO, whose reader takes nothing now. */
    method Flush()
      requires Sound()
      modifies fifo, reader
      ensures Sound() && fifo.Contents() == old(fifo.Contents()) && fifo.accepted == old(fifo.accepted) && fifo.delivered == old(fifo.delivered)
      ensures fifo.acks == old(fifo.acks) + (if fifo.Contents() == [] then 1 else 0)
      ensures fifo.isFlushing == (fifo.Contents() != [])
    {
      hide Ring, Select, AudioFifo.Conserving, AudioFifo.SamplesInFifo, AudioFifo.Linked;
      NothingMoved(fifo.fate, fifo.delivered, fifo.Contents(), []);
      ghost var n := fifo.FlushSamples();
    }

    /** The mixer's sink has flushed. */
    method MixerFlushedAllSamples()
      requires Valid()
      modifies this, fifo, reader
      ensures Valid() && State() == Answer(old(State())) && fifo.accepted == old(fifo.accepted)
      ensures fifo.acks == old(fifo.acks) + (if old(doFlush) && Contents() == [] then 1 else 0)
      ensures isFlushed == old(isFlushed) && !doFlush
    {
      hide Ring, Select, AudioFifo.Conserving, AudioFifo.SamplesInFifo, AudioFifo.Linked, AudioFifo.Awake;
      if doFlush {
        doFlush := false;
        ledger := if fifo.Contents() == [] then ledger.(answered := ledger.answered + 1)
                  else ledger.(joined := ledger.joined + (if fifo.isFlushing then 1 else 0));
        Flush();
      }
    }

    /** The oldest samples are read.  A FIFO that was flushing and runs empty acknowledges. */
    method ReadSamples(samples: array<real>, count: nat) returns (n: nat)
      requires Valid() && 0 < count <= samples.Length && samples != fifo.fifo
      modifies this`ledger, fifo, reader, samples
      ensures Valid() && n == if count < |old(Contents())| then count else |old(Contents())|
      ensures samples[..n] == old(Contents())[..n] && State() == Given(old(State()), n) && fifo.accepted == old(fifo.accepted)
      ensures fifo.acks == old(fifo.acks) + (if old(fifo.isFlushing) && Contents() == [] then 1 else 0)
    {
      hide Ring, Select, AudioFifo.Conserving, AudioFifo.SamplesInFifo, AudioFifo.Linked, AudioFifo.Awake;
      ghost var f, owed := fifo.fate, fifo.isFlushing;
      n := reader.ReadSamples(fifo, samples, count);
      ledger := ledger.(early := ledger.early + (if owed && fifo.Contents() == [] then 1 else 0));
      AllTrue(f, n);
    }
  }

  lemma {:induction false} AllTrue(f: seq<bool>, n: nat)
    requires f == All(true, |f|)
    ensures f + All(true, n) == All(true, |f| + n)
  {
  }

  // ---------------------------------------------------------------- mixing on values

  /** The sum of the first n parts at time t. */
  function SumTo(parts: seq<seq<real>>, n: nat, t: nat): real
    requires n <= |parts|
  {
    if n == 0 then 0.0 else SumTo(parts, n - 1, t) + At(parts[n - 1], t)
  }

  /** The state of a source when a sample was mixed: how many samples it had been accepted, and
      whether it had flushed since its last write. */
  datatype Moment = Moment(heard: nat, flushed: bool)

  function Now(s: Snapshot): Moment {
    Moment(|s.taken| + |s.contents|, s.isFlushed)
  }

  /** Every mixed sample is the sum of the parts, a part being the next sample taken from a
      source in its turns, and zero otherwise. */
  ghost predicate Aligned(parts: seq<seq<real>>, turns: seq<seq<bool>>, logs: seq<seq<Moment>>, taken: seq<seq<real>>, mixed: seq<real>) {
    && |parts| == |turns| == |taken| == |logs|
    && (forall i :: 0 <= i < |parts| ==> PartOk(parts[i], turns[i], logs[i], taken[i], |mixed|))
    && (forall t :: 0 <= t < |mixed| ==> mixed[t] == SumTo(parts, |parts|, t))
  }

  /** An acknowledgement that a FIFO gave on running empty: how many samples the sink had taken
      then, and how many had been mixed with those just read. */
  datatype Early = Early(sent: nat, mixed: nat)

  /** For every source, its acknowledgements of this kind. */
  ghost predicate Acknowledged(earlies: seq<seq<Early>>, parts: seq<seq<real>>, turns: seq<seq<bool>>, logs: seq<seq<Moment>>, counts: seq<nat>) {
    && |earlies| == |parts| == |turns| == |logs| == |counts|
    && forall i :: 0 <= i < |counts| ==> AcksOk(earlies[i], parts[i], turns[i], logs[i], counts[i])
  }

  ghost predicate AcksOk(early: seq<Early>, part: seq<real>, turn: seq<bool>, log: seq<Moment>, n: nat) {
    |early| == n && |part| == |turn| == |log| && forall j :: 0 <= j < n ==> AckOk(early[j], part, turn, log)
  }

  /** It was given in the turn in which the source gave the last sample it had been accepted,
      and the sink had not been given that sample. */
  ghost predicate AckOk(e: Early, part: seq<real>, turn: seq<bool>, log: seq<Moment>)
    requires |part| == |turn| == |log|
  {
    e.sent < e.mixed <= |turn| && turn[e.mixed - 1] && |Select(part, turn[..e.mixed])| == log[e.mixed - 1].heard
  }

  ghost predicate PartOk(part: seq<real>, turn: seq<bool>, log: seq<Moment>, taken: seq<real>, n: nat) {
    && |part| == n == |turn| == |log| && taken == Select(part, turn)
    && forall t :: 0 <= t < n ==> TurnOk(part, turn, log, t)
  }

  /** A source had a turn exactly when it had a sample that it had not given yet.  One without
      a turn had flushed. */
  ghost predicate TurnOk(part: seq<real>, turn: seq<bool>, log: seq<Moment>, t: nat)
    requires t < |turn| == |part| == |log|
  {
    var before := |Select(part, turn[..t])|;
    if turn[t] then before < log[t].heard else before == log[t].heard && log[t].flushed && part[t] == 0.0
  }

  /** What a source adds to a block of k samples. */
  function Share(waiting: seq<real>, act: bool, k: nat): (b: seq<real>)
    requires act ==> k <= |waiting|
    ensures |b| == k
  {
    if act then waiting[..k] else seq(k, _ => 0.0)
  }

  function Same(m: Moment, k: nat): (ms: seq<Moment>)
    ensures |ms| == k
  {
    seq(k, _ => m)
  }

  lemma {:induction false} PartGrows(part: seq<real>, turn: seq<bool>, log: seq<Moment>, n: nat, s: Snapshot, k: nat)
    requires PartOk(part, turn, log, s.taken, n) && (IsOn(s) ==> k <= |s.contents|)
    ensures PartOk(part + Share(s.contents, IsOn(s), k), turn + All(IsOn(s), k), log + Same(Now(s), k), ReadOne(s, k).taken, n + k)
  {
    hide Select;
    var b, act := Share(s.contents, IsOn(s), k), IsOn(s);
    var part', turn', log' := part + b, turn + All(act, k), log + Same(Now(s), k);
    SelectMore(part, b, turn);
    SelectNext(part', turn, act, k);
    assert act ==> part'[n..n + k] == s.contents[..k];
    assert s.taken + [] == s.taken;
    forall t | 0 <= t < n + k ensures TurnOk(part', turn', log', t) {
      if t < n {
        assert TurnOk(part, turn, log, t);
        assert turn'[..t] == turn[..t];
        SelectMore(part, b, turn[..t]);
      } else {
        assert turn'[..t] == turn + All(act, t - n);
        SelectNext(part', turn, act, t - n);
      }
    }
  }

  /** A block of k samples: the acknowledgements there were, and one more if one was owed and
      this was all the source had. */
  lemma {:induction false} AcksGrow(early: seq<Early>, part: seq<real>, turn: seq<bool>, log: seq<Moment>, n: nat, s: Snapshot, k: nat, sent: nat)
    requires AcksOk(early, part, turn, log, s.ledger.early) && PartOk(part, turn, log, s.taken, n)
    requires (IsOn(s) ==> k <= |s.contents|) && sent <= n && k > 0
    ensures AcksOk(early + (if Emptied(s, k) then [Early(sent, n + k)] else []), part + Share(s.contents, IsOn(s), k),
                   turn + All(IsOn(s), k), log + Same(Now(s), k), ReadOne(s, k).ledger.early)
  {
    hide Select;
    PartGrows(part, turn, log, n, s, k);
    var early', part' := early + (if Emptied(s, k) then [Early(sent, n + k)] else []), part + Share(s.contents, IsOn(s), k);
    var turn', log' := turn + All(IsOn(s), k), log + Same(Now(s), k);
    forall j | 0 <= j < |early'| ensures AckOk(early'[j], part', turn', log') {
      if j < |early| {
        assert early'[j] == early[j] && AckOk(early[j], part, turn, log);
        assert turn'[..early[j].mixed] == turn[..early[j].mixed];
        SelectMore(part, Share(s.contents, IsOn(s), k), turn[..early[j].mixed]);
      } else {
        assert turn'[..n + k] == turn';
      }
    }
  }

  lemma {:induction false} SumsGrow(parts: seq<seq<real>>, blocks: seq<seq<real>>, longer: seq<seq<real>>, n: nat, m: nat, t: nat)
    requires n <= |parts| == |blocks| == |longer|
    requires forall i :: 0 <= i < |parts| ==> |parts[i]| == m && longer[i] == parts[i] + blocks[i]
    ensures t < m ==> SumTo(longer, n, t) == SumTo(parts, n, t)
    ensures t >= m ==> SumTo(longer, n, t) == SumTo(blocks, n, t - m)
    decreases n
  {
    if n > 0 { SumsGrow(parts, blocks, longer, n - 1, m, t); }
  }

  /** One more block. */
  lemma {:induction false} MixBlock(parts: seq<seq<real>>, turns: seq<seq<bool>>, logs: seq<seq<Moment>>, taken: seq<seq<real>>, mixed: seq<real>,
                                    was: seq<Snapshot>, k: nat, block: seq<real>)
    requires Aligned(parts, turns, logs, taken, mixed) && Deep(was, k)
    requires |parts| == |was| && |block| == k && taken == Takens(was)
    requires forall t :: 0 <= t < k ==> block[t] == SumTo(Shares(was, k), |was|, t)
    ensures Aligned(Appended(parts, Shares(was, k)), Turned(turns, was, k), Logged(logs, was, k), Takens(Read(was, k)), mixed + block)
  {
    hide Select, PartOk, ReadOne;
    var m, blocks, now := |mixed|, Shares(was, k), Read(was, k);
    var parts', turns', logs' := Appended(parts, blocks), Turned(turns, was, k), Logged(logs, was, k);
    forall i | 0 <= i < |parts|
      ensures |parts[i]| == m && PartOk(parts'[i], turns'[i], logs'[i], now[i].taken, m + k)
    {
      assert PartOk(parts[i], turns[i], logs[i], taken[i], m);
      PartLength(parts[i], turns[i], logs[i], taken[i], m);
      PartGrows(parts[i], turns[i], logs[i], m, was[i], k);
    }
    forall t | 0 <= t < m + k ensures (mixed + block)[t] == SumTo(parts', |parts|, t) {
      SumsGrow(parts, blocks, parts', |parts|, m, t);
      if t >= m { assert (mixed + block)[t] == block[t - m]; }
    }
  }

  lemma {:induction false} MixAcks(earlies: seq<seq<Early>>, parts: seq<seq<real>>, turns: seq<seq<bool>>, logs: seq<seq<Moment>>, mixed: seq<real>,
                                   was: seq<Snapshot>, k: nat, sent: nat)
    requires Aligned(parts, turns, logs, Takens(was), mixed) && Acknowledged(earlies, parts, turns, logs, EarlyCounts(was))
    requires Deep(was, k) && sent <= |mixed| && k > 0
    ensures Acknowledged(Noted(earlies, was, k, Early(sent, |mixed| + k)), Appended(parts, Shares(was, k)), Turned(turns, was, k),
                         Logged(logs, was, k), EarlyCounts(Read(was, k)))
  {
    hide Select, PartOk, ReadOne, AcksOk, Share, Emptied;
    var taken, counts := Takens(was), EarlyCounts(was);
    var earlies', parts', turns', logs' := Noted(earlies, was, k, Early(sent, |mixed| + k)), Appended(parts, Shares(was, k)), Turned(turns, was, k), Logged(logs, was, k);
    var counts' := EarlyCounts(Read(was, k));
    forall i | 0 <= i < |was| ensures AcksOk(earlies'[i], parts'[i], turns'[i], logs'[i], counts'[i]) {
      assert PartOk(parts[i], turns[i], logs[i], taken[i], |mixed|);
      assert AcksOk(earlies[i], parts[i], turns[i], logs[i], counts[i]);
      AcksGrow(earlies[i], parts[i], turns[i], logs[i], |mixed|, was[i], k, sent);
    }
  }

  lemma {:induction false} PartLength(part: seq<real>, turn: seq<bool>, log: seq<Moment>, taken: seq<real>, n: nat)
    requires PartOk(part, turn, log, taken, n)
    ensures |part| == |turn| == n
  {
  }

  /** A source that joins late had no turns before. */
  lemma {:induction false} Joins(parts: seq<seq<real>>, turns: seq<seq<bool>>, logs: seq<seq<Moment>>, taken: seq<seq<real>>, mixed: seq<real>, idle: Snapshot)
    requires Aligned(parts, turns, logs, taken, mixed) && IsNew(idle)
    ensures Aligned(parts + [Share([], false, |mixed|)], turns + [All(false, |mixed|)], logs + [Same(Moment(0, true), |mixed|)], taken + [[]], mixed)
  {
    hide Select, PartOk, Share;
    var n := |mixed|;
    var zeros := Share([], false, n);
    NewPart(idle, n);
    var more := parts + [zeros];
    forall t | 0 <= t < n ensures mixed[t] == SumTo(more, |more|, t) {
      ZeroAdds(parts, n, t);
    }
  }

  lemma {:induction false} NewPart(idle: Snapshot, n: nat)
    requires IsNew(idle)
    ensures PartOk(Share([], false, n), All(false, n), Same(Moment(0, true), n), [], n)
  {
    hide Select;
    assert PartOk([], [], [], [], 0) by { SelectNothing([]); }
    PartGrows([], [], [], 0, idle, n);
    assert [] + All(false, n) == All(false, n) && [] + Share([], false, n) == Share([], false, n) && [] + Same(Moment(0, true), n) == Same(Moment(0, true), n);
  }

  lemma {:induction false} ZeroAdds(parts: seq<seq<real>>, n: nat, t: nat)
    requires t < n
    ensures var more := parts + [Share([], false, n)]; SumTo(more, |more|, t) == SumTo(parts, |parts|, t)
  {
    SumPrefix(parts, [Share([], false, n)], |parts|, t);
  }

  lemma {:induction false} JoinsAcks(earlies: seq<seq<Early>>, parts: seq<seq<real>>, turns: seq<seq<bool>>, logs: seq<seq<Moment>>, counts: seq<nat>, n: nat)
    requires Acknowledged(earlies, parts, turns, logs, counts)
    ensures Acknowledged(earlies + [[]], parts + [Share([], false, n)], turns + [All(false, n)], logs + [Same(Moment(0, true), n)], counts + [0])
  {
    hide AckOk, Share;
  }

  lemma {:induction false} SelectNothing(xs: seq<real>)
    ensures Select(xs, []) == []
  {
  }

  lemma {:induction false} SumPrefix(parts: seq<seq<real>>, more: seq<seq<real>>, n: nat, t: nat)
    requires n <= |parts|
    ensures SumTo(parts + more, n, t) == SumTo(parts, n, t)
    decreases n
  {
    if n > 0 { SumPrefix(parts, more, n - 1, t); }
  }

  /** How much waits in all. */
  function Total(was: seq<Snapshot>): nat {
    if |was| == 0 then 0 else |was[0].contents| + Total(was[1..])
  }

  lemma {:induction false} TotalFalls(was: seq<Snapshot>, k: nat)
    requires Ready(was) && Deep(was, k) && k > 0
    ensures Total(Read(was, k)) < Total(was)
  {
    var i :| 0 <= i < |was| && IsOn(was[i]);
    TotalLess(was, Read(was, k), i);
  }

  lemma {:induction false} TotalLess(before: seq<Snapshot>, after: seq<Snapshot>, i: nat)
    requires |before| == |after| && i < |before|
    requires forall j :: 0 <= j < |before| ==> |after[j].contents| <= |before[j].contents|
    requires |after[i].contents| < |before[i].contents|
    ensures Total(after) < Total(before)
    decreases |before|
  {
    if i == 0 { TotalNoMore(before[1..], after[1..]); } else { TotalLess(before[1..], after[1..], i - 1); }
  }

  lemma {:induction false} TotalNoMore(before: seq<Snapshot>, after: seq<Snapshot>)
    requires |before| == |after| && forall j :: 0 <= j < |before| ==> |after[j].contents| <= |before[j].contents|
    ensures Total(after) <= Total(before)
    decreases |before|
  {
    if |before| > 0 { TotalNoMore(before[1..], after[1..]); }
  }

  class AudioMixer {
    var sources: seq<MixerSrc>
    const outbuf: array<real>
    var outbufPos: nat
    var outbufCnt: nat
    var isFlushed: bool
    var outputStopped: bool
    /** The timer that will run the output handler. */
    var timer: bool

    const sink: Sink

    /** Every sample mixed, and every one the sink has accepted. */
    ghost var mixed: seq<real>
    ghost var delivered: seq<real>
    /** For every source and every mixed sample: what the source added, whether it was its turn,
        and the state it was in. */
    ghost var parts: seq<seq<real>>
    ghost var turns: seq<seq<bool>>
    ghost var logs: seq<seq<Moment>>
    /** For every source, the acknowledgements its FIFO gave on running empty. */
    ghost var earlies: seq<seq<Early>>
    /** Flushes passed to the sink, and how many samples it had been given at the last one. */
    ghost var flushes: nat
    ghost var flushedAt: nat
    /** The sink took nothing when it was last asked. */
    ghost var refused: bool

    /** All objects of the sources; no two of them share one. */
    ghost var repr: set<object>

    ghost predicate Separate()
      reads this`sources, this`repr
    {
      && (forall i :: 0 <= i < |sources| ==> sources[i].Repr() <= repr)
      && (forall i, j :: 0 <= i < j < |sources| ==> sources[i].Repr() !! sources[j].Repr())
      && {this, outbuf, sink} !! repr
    }

    ghost predicate SourcesValid()
      requires Separate()
      reads this`sources, this`repr, repr
    {
      forall i :: 0 <= i < |sources| ==> sources[i].Valid()
    }

    /** The sources as they are now. */
    ghost function View(): (w: seq<Snapshot>)
      requires Separate() && SourcesValid()
      reads this`sources, this`repr, repr
      ensures |w| == |sources| && forall i :: 0 <= i < |w| ==> Is(sources[i], w[i])
    {
      var ss, r := sources, repr;
      seq(|ss|, i requires 0 <= i < |ss| && ss[i].Repr() <= r && ss[i].Valid() reads r =>
        ss[i].State())
    }

    /** All that has been mixed. */
    ghost function Tape(): Record
      reads this`parts, this`turns, this`logs, this`earlies, this`mixed
    {
      Record(parts, turns, logs, earlies, mixed)
    }

    /** The only one there is. */
    lemma {:induction false} ViewIs(was: seq<Snapshot>)
      requires Separate() && |was| == |sources| && Are(was, 0, |was|)
      ensures SourcesValid() && View() == was
    {
      forall i | 0 <= i < |sources| ensures sources[i].Valid() && View()[i] == was[i] {
        assert Is(sources[i], was[i]);
      }
    }

    ghost predicate Shaped()
      reads this`sources, this`repr, this`outbufPos, this`outbufCnt, repr
    {
      outbuf.Length == OUTBUF_SIZE && outbufPos <= outbufCnt <= OUTBUF_SIZE && Separate() && SourcesValid()
    }

    /** Nothing is lost between the FIFOs and the sink, and every acknowledgement by a FIFO is
        on record. */
    ghost predicate Conserving()
      requires Shaped()
      reads this`sources, this`repr, this`outbufPos, this`outbufCnt, this`parts, this`turns, this`logs, this`earlies, this`mixed, this`delivered, outbuf, repr
    {
      Holds(View())
    }

    /** What has been mixed is what the sources have given. */
    ghost predicate Recorded(was: seq<Snapshot>)
      reads this`parts, this`turns, this`logs, this`earlies, this`mixed
    {
      && Aligned(parts, turns, logs, Takens(was), mixed)
      && Acknowledged(earlies, parts, turns, logs, EarlyCounts(was))
    }

    /** What is conserved, for the sources as they are. */
    ghost predicate Holds(was: seq<Snapshot>)
      requires outbuf.Length == OUTBUF_SIZE && outbufPos <= outbufCnt <= OUTBUF_SIZE
      reads this`outbufPos, this`outbufCnt, this`parts, this`turns, this`logs, this`earlies, this`mixed, this`delivered, outbuf
    {
      Recorded(was) && mixed == delivered + outbuf[outbufPos..outbufCnt]
    }

    /** Whatever can be mixed or flushed waits only for the timer or for a stopped sink, and the
        sink has samples to come back for. */
    ghost predicate Settled()
      requires Shaped()
      reads this, repr
    {
      && (outputStopped ==> outbufPos < outbufCnt && refused)
      && (!timer && !outputStopped ==>
            outbufPos == outbufCnt && !Ready(View()) && (Quiet(View()) ==> isFlushed))
    }

    /** A flushed sink had been given everything mixed when it was flushed. */
    ghost predicate Marked()
      reads this`outbufPos, this`outbufCnt, this`isFlushed, this`flushedAt, this`mixed, this`delivered
    {
      && flushedAt <= |delivered|
      && (isFlushed && outbufPos == outbufCnt ==> flushedAt == |mixed|)
    }

    ghost predicate Valid()
      reads this, outbuf, repr
    {
      Shaped() && Conserving() && Settled() && Marked() && (isFlushed ==> outbufPos == outbufCnt)
    }

    /** The most that every active source has; nothing if there is none. */
    method MaxRead(ghost was: seq<Snapshot>) returns (k: nat)
      requires Separate() && |was| == |sources| && Are(was, 0, |was|)
      ensures (k == 0 <==> !Ready(was)) && k <= OUTBUF_SIZE && Deep(was, k)
      ensures k > 0 ==> exists i :: 0 <= i < |was| && IsOn(was[i]) && |was[i].contents| == k
    {
      hide Ring, MixerSrc.Valid, Is, MixerSrc.IsActive;
      k := OUTBUF_SIZE + 1;
      var i := 0;
      while i < |sources|
        invariant 0 <= i <= |sources|
        invariant k <= OUTBUF_SIZE + 1 && forall j :: 0 <= j < i && IsOn(was[j]) ==> k <= |was[j].contents| <= OUTBUF_SIZE
        invariant k <= OUTBUF_SIZE ==> exists j :: 0 <= j < i && IsOn(was[j]) && |was[j].contents| == k
      {
        var s := sources[i];
        OnIff(s, was[i]);
        if s.IsActive() {
          SourceShape(s, was[i]);
          var n := s.fifo.SamplesInFifo(false);
          if n < k { k := n; }
        }
        i := i + 1;
      }
      if k == OUTBUF_SIZE + 1 { k := 0; }
    }

    /** Reads one source and adds it to the output buffer. */
    method MixOne(i: nat, k: nat, tmp: array<real>, ghost was: Snapshot)
      requires Separate() && i < |sources| && Is(sources[i], was) && 0 < k <= |was.contents| && k <= OUTBUF_SIZE
      requires outbuf.Length == OUTBUF_SIZE == tmp.Length && tmp != outbuf && tmp !in repr
      modifies sources[i].Repr(), tmp, outbuf
      ensures Is(sources[i], Given(was, k))
      ensures forall t :: 0 <= t < k ==> outbuf[t] == old(outbuf[t]) + was.contents[t]
    {
      hide Ring, MixerSrc.Valid;
      ghost var contents, before := sources[i].Contents(), outbuf[..];
      var samplesRead := sources[i].ReadSamples(tmp, k);
      assert samplesRead == k;
      assert forall t :: 0 <= t < k ==> tmp[t] == tmp[..k][t] == contents[t];
      var t := 0;
      while t < k
        invariant 0 <= t <= k
        invariant forall u :: 0 <= u < k ==> outbuf[u] == before[u] + (if u < t then contents[u] else 0.0)
        modifies outbuf
      {
        outbuf[t] := outbuf[t] + tmp[t];
        t := t + 1;
      }
    }

    /** The sources as they are. */
    ghost predicate Are(was: seq<Snapshot>, from: nat, to: nat)
      requires Separate() && |was| == |sources| && from <= to <= |was|
      reads this`sources, this`repr, repr
    {
      forall n :: from <= n < to ==> Is(sources[n], was[n])
    }

    /** The output buffer becomes the sum of the next k samples of every active source. */
    method ReadAll(k: nat, ghost was: seq<Snapshot>)
      requires outbuf.Length == OUTBUF_SIZE && Separate() && 0 < k <= OUTBUF_SIZE
      requires |was| == |sources| && Are(was, 0, |was|) && Deep(was, k)
      modifies outbuf, repr
      ensures Are(Read(was, k), 0, |was|)
      ensures forall t :: 0 <= t < k ==> outbuf[t] == SumTo(Shares(was, k), |was|, t)
    {
      hide Ring, MixerSrc.Valid, SumTo, Share, Is, MixerSrc.IsActive, Shares, Read, MixerSrc.Repr;
      forall j | 0 <= j < OUTBUF_SIZE { outbuf[j] := 0.0; }
      var tmp := new real[OUTBUF_SIZE];
      ghost var now, blocks := Read(was, k), Shares(was, k);
      var i := 0;
      SumsOfNone(blocks);
      while i < |sources|
        invariant 0 <= i <= |sources| && Are(now, 0, i) && Are(was, i, |was|)
        invariant forall t :: 0 <= t < k ==> outbuf[t] == SumTo(blocks, i, t)
      {
        SumsNext(blocks, i, k);
        ShareOf(was[i].contents, IsOn(was[i]), k);
        OnIff(sources[i], was[i]);
        if sources[i].IsActive() {
          MixOne(i, k, tmp, was[i]);
        }
        i := i + 1;
      }
    }

    /** Puts the block in the output buffer on record. */
    ghost method NoteBlock(k: nat, was: seq<Snapshot>)
      requires outbuf.Length == OUTBUF_SIZE && outbufPos == 0 && outbufCnt == k && 0 < k <= OUTBUF_SIZE && Deep(was, k)
      requires Aligned(parts, turns, logs, Takens(was), mixed) && Acknowledged(earlies, parts, turns, logs, EarlyCounts(was)) && delivered == mixed
      requires forall t :: 0 <= t < k ==> outbuf[t] == SumTo(Shares(was, k), |was|, t)
      modifies this`mixed, this`parts, this`turns, this`logs, this`earlies
      ensures Holds(Read(was, k)) && mixed == old(mixed) + outbuf[..k]
      ensures |old(parts)| == |old(turns)| == |old(logs)| == |old(earlies)| == |was|
      ensures parts == Appended(old(parts), Shares(was, k)) && turns == Turned(old(turns), was, k) && logs == Logged(old(logs), was, k)
      ensures earlies == Noted(old(earlies), was, k, Early(|delivered|, |mixed|))
    {
      hide Aligned, Acknowledged, SumTo, Share, IsOn, Given;
      AlignedSizes(parts, turns, logs, Takens(was), mixed);
      AckSizes(earlies, parts, turns, logs, EarlyCounts(was));
      ghost var block := outbuf[..k];
      MixBlock(parts, turns, logs, Takens(was), mixed, was, k, block);
      MixAcks(earlies, parts, turns, logs, mixed, was, k, |delivered|);
      earlies := Noted(earlies, was, k, Early(|delivered|, |mixed| + k));
      parts, turns, logs, mixed := Appended(parts, Shares(was, k)), Turned(turns, was, k), Logged(logs, was, k), mixed + block;
      assert outbuf[0..k] == block;
    }

    /** Fills the output buffer with k samples from every active source.  A FIFO that owes an
        acknowledgement and runs empty gives it here, and the sink has yet to get the samples
        just read. */
    method Fill(k: nat, ghost was: seq<Snapshot>)
      requires Shaped() && Conserving() && outbufPos == outbufCnt && 0 < k <= OUTBUF_SIZE
      requires |was| == |sources| && Are(was, 0, |was|) && Deep(was, k)
      modifies this`outbufPos, this`outbufCnt, this`mixed, this`parts, this`turns, this`logs, this`earlies, outbuf, repr
      ensures Shaped() && Conserving() && outbufPos == 0 && outbufCnt == k && mixed == old(mixed) + outbuf[..k]
      ensures forall t :: 0 <= t < k ==> outbuf[t] == SumTo(Shares(was, k), |was|, t)
      ensures |old(parts)| == |old(turns)| == |old(logs)| == |was|
      ensures parts == Appended(old(parts), Shares(was, k)) && turns == Turned(old(turns), was, k) && logs == Logged(old(logs), was, k)
      ensures |old(earlies)| == |was| && earlies == Noted(old(earlies), was, k, Early(|delivered|, |mixed|)) && |delivered| < |mixed|
      ensures Are(Read(was, k), 0, |was|)
    {
      hide Ring, MixerSrc.Valid, Aligned, Acknowledged, SumTo, Share, MixerSrc.Repr, View, Is, IsOn, Given, Deep;
      ViewIs(was);
      AllSent();
      ReadAll(k, was);
      outbufPos := 0;
      outbufCnt := k;
      NoteBlock(k, was);
      ViewIs(Read(was, k));
    }

    /** The sink takes some of what it is offered, the first of it. */
    method SinkWriteSamples(samples: seq<real>) returns (n: nat)
      modifies this`delivered, this`refused
      ensures n <= |samples| && refused == (n == 0) && delivered == old(delivered) + samples[..n]
      ensures (sink.mood == Willing ==> n == |samples|) && (sink.mood == Closed ==> n == 0)
    {
      n := sink.WriteSamples(|samples|);
      refused := n == 0;
      delivered := delivered + samples[..n];
    }

    /** Offers the sink what is in the output buffer. */
    method WritePortion() returns (n: nat)
      requires Shaped() && Conserving()
      modifies this`outbufPos, this`delivered, this`refused
      ensures Shaped() && Conserving() && n <= outbufCnt - old(outbufPos) && outbufPos == old(outbufPos) + n
      ensures refused == (n == 0) && (sink.mood == Willing ==> outbufPos == outbufCnt) && (sink.mood == Closed ==> n == 0)
      ensures old(delivered) <= delivered && (n == 0 ==> delivered == old(delivered))
    {
      hide Ring, MixerSrc.Valid, MixerSrc.Repr, Aligned, Acknowledged, View, Takens, EarlyCounts, SourcesValid;
      ghost var sent, rest := delivered, outbuf[outbufPos..outbufCnt];
      n := SinkWriteSamples(outbuf[outbufPos..outbufCnt]);
      Regroup(sent, rest[..n], rest[n..]);
      assert rest == rest[..n] + rest[n..];
      assert rest[n..] == outbuf[outbufPos + n..outbufCnt];
      Advance(n);
    }

    /** n samples that the sink has taken are done with. */
    method Advance(n: nat)
      requires Shaped() && outbufPos + n <= outbufCnt
      requires Recorded(View()) && mixed == delivered + outbuf[outbufPos + n..outbufCnt]
      modifies this`outbufPos
      ensures Shaped() && Conserving() && outbufPos == old(outbufPos) + n
    {
      hide Ring, MixerSrc.Valid, MixerSrc.Repr, Recorded, View, SourcesValid;
      outbufPos := outbufPos + n;
    }

    /** Empties the output buffer as far as the sink goes. */
    method WriteOut() returns (samplesWritten: nat)
      requires Shaped() && Conserving()
      modifies this`isFlushed, this`outbufPos, this`delivered, this`refused
      ensures Shaped() && Conserving() && old(delivered) <= delivered && old(outbufPos) <= outbufPos
      ensures (samplesWritten == 0 <==> outbufPos < outbufCnt) && (samplesWritten == 0 ==> refused && sink.mood != Willing)
      ensures isFlushed == old(isFlushed && outbufPos == outbufCnt)
      ensures old(outbufPos) == outbufCnt || sink.mood == Closed ==> delivered == old(delivered)
    {
      hide Ring, MixerSrc.Valid, MixerSrc.Repr, Aligned, View, Takens, Conserving;
      samplesWritten := 1;
      while outbufPos < outbufCnt && samplesWritten > 0
        invariant Shaped() && Conserving() && old(delivered) <= delivered && old(outbufPos) <= outbufPos
        invariant samplesWritten == 0 ==> outbufPos < outbufCnt && !isFlushed && refused && sink.mood != Willing
        invariant isFlushed == (old(isFlushed) && outbufPos == old(outbufPos)) || (samplesWritten == 0 && !isFlushed)
        invariant outbufPos == old(outbufPos) || sink.mood == Closed ==> delivered == old(delivered)
        decreases outbufCnt - outbufPos, samplesWritten
      {
        isFlushed := false;
        samplesWritten := WritePortion();
      }
    }

    /** Flushes the sink if no active source could still send.  Asked when nothing can be
        mixed, that is exactly when no source is active at all. */
    method CheckFlush(ghost was: seq<Snapshot>)
      requires Separate() && |was| == |sources| && Are(was, 0, |was|) && !Ready(was)
      modifies this`isFlushed, this`flushes, this`flushedAt
      ensures flushes == old(flushes) + (if !old(isFlushed) && Quiet(was) then 1 else 0)
      ensures flushedAt == if !old(isFlushed) && Quiet(was) then |delivered| else old(flushedAt)
      ensures isFlushed == (old(isFlushed) || Quiet(was))
    {
      hide Ring, MixerSrc.IsActive;
      if isFlushed {
        return;
      }
      var i := 0;
      while i < |sources|
        invariant 0 <= i <= |sources| && !isFlushed && flushes == old(flushes) && flushedAt == old(flushedAt)
        invariant forall j :: 0 <= j < i && IsOn(was[j]) ==> was[j].contents != []
      {
        OnIff(sources[i], was[i]);
        if sources[i].IsActive() && !sources[i].doFlush {
          assert IsOn(was[i]);
          return;
        }
        i := i + 1;
      }
      NoneOn(was);
      isFlushed := true;
      flushes := flushes + 1;
      flushedAt := |delivered|;
    }

    /** The output buffer is filled again, if there is anything to fill it with. */
    method Refill(ghost was: seq<Snapshot>) returns (going: bool, ghost now: seq<Snapshot>)
      requires Shaped() && Conserving() && Marked() && outbufPos == outbufCnt && |was| == |sources| && Are(was, 0, |was|)
      modifies this`isFlushed, this`outbufPos, this`outbufCnt, this`mixed, this`parts, this`turns, this`logs, this`earlies,
               this`flushes, this`flushedAt, outbuf, repr
      ensures Shaped() && Conserving() && Marked() && |now| == |sources| && Are(now, 0, |now|)
      ensures Grew(old(Tape()), was, Tape(), now)
      ensures if going then Total(now) < Total(was) && flushes == old(flushes) && isFlushed == old(isFlushed)
              else outbufPos == outbufCnt && !Ready(now) && flushes == old(flushes) + (if !old(isFlushed) && Quiet(now) then 1 else 0)
                   && isFlushed == (old(isFlushed) || Quiet(now))
      ensures flushes == old(flushes) ==> flushedAt == old(flushedAt)
    {
      hide Ring, MixerSrc.Valid, MixerSrc.Repr, Aligned, Is, IsOn, Ready, Quiet, Takens, View, Total, Given, Shares, Turned, Appended, Now, Grew;
      SourcesCounted();
      OwersWait(was);
      GrewNot(Tape(), was);
      now, going := was, false;
      AllSent();
      var samplesToRead := MaxRead(was);
      if samplesToRead == 0 {
        CheckFlush(was);
      } else {
        ghost var tape := Tape();
        Fill(samplesToRead, was);
        TotalFalls(was, samplesToRead);
        GrewBy(tape, was, samplesToRead, outbuf[..samplesToRead], Early(|delivered|, |mixed|));
        now := Read(was, samplesToRead);
        going := true;
      }
    }

    /** One turn: what is in the output buffer goes to the sink, and if that was all of it the
        buffer is filled again, or there is nothing more to do. */
    method Turn(ghost was: seq<Snapshot>) returns (samplesWritten: nat, going: bool, ghost now: seq<Snapshot>)
      requires Shaped() && Conserving() && Marked() && |was| == |sources| && Are(was, 0, |was|)
      modifies this`isFlushed, this`outbufPos, this`outbufCnt, this`delivered, this`mixed, this`parts, this`turns, this`logs, this`earlies,
               this`flushes, this`flushedAt, this`refused, outbuf, repr
      ensures Shaped() && Conserving() && Marked() && |now| == |sources| && Are(now, 0, |now|) && old(delivered) <= delivered
      ensures flushes == old(flushes) || (flushes == old(flushes) + 1 && !going && outbufPos == outbufCnt && Quiet(now))
      ensures isFlushed ==> flushes > old(flushes) || (old(isFlushed) && delivered == old(delivered))
      ensures !going && isFlushed ==> outbufPos == outbufCnt
      ensures flushes == old(flushes) ==> flushedAt == old(flushedAt)
      ensures !going && samplesWritten == 0 ==> refused && sink.mood != Willing
      ensures if going then samplesWritten > 0 && Total(now) < Total(was) else (samplesWritten == 0 <==> outbufPos < outbufCnt)
      ensures !going && samplesWritten > 0 ==> !Ready(now) && (Quiet(now) ==> isFlushed)
      ensures sink.mood == Closed ==> delivered == old(delivered)
      ensures Grew(old(Tape()), was, Tape(), now)
    {
      hide Ring, MixerSrc.Valid, MixerSrc.Repr, Aligned, Is, IsOn, Ready, Quiet, Takens, View, Total, Grew, Conserving;
      SourcesCounted();
      OwersWait(was);
      GrewNot(Tape(), was);
      samplesWritten := WriteOut();
      now, going := was, false;
      if outbufPos >= outbufCnt {
        going, now := Refill(was);
      }
    }

    /** Sends, mixes and sends again, until the sink stops or nothing more can be mixed. */
    method OutputHandler()
      requires Shaped() && Conserving() && Marked() && (outputStopped ==> outbufPos < outbufCnt && refused && !isFlushed)
      modifies this, outbuf, repr
      ensures Valid() && !timer && sources == old(sources) && repr == old(repr) && old(delivered) <= delivered
      ensures flushes == old(flushes) || (flushes == old(flushes) + 1 && delivered == mixed && Quiet(View()))
      ensures isFlushed ==> flushes > old(flushes) || (old(isFlushed) && delivered == old(delivered))
      ensures flushes == old(flushes) ==> flushedAt == old(flushedAt)
      ensures sink.mood == Willing && !old(outputStopped) ==> !outputStopped
      ensures sink.mood == Closed ==> delivered == old(delivered)
      ensures old(outputStopped) ==> outputStopped && mixed == old(mixed) && delivered == old(delivered) && flushes == old(flushes)
      ensures Grew(old(Tape()), old(View()), Tape(), View())
      ensures flushes > old(flushes) ==> delivered == mixed && forall i :: 0 <= i < |sources| ==> sources[i].isFlushed && sources[i].Contents() == []
    {
      hide Ring, MixerSrc.Valid, MixerSrc.Repr, Aligned, Is, IsOn, Ready, Quiet, Takens, View, Total, Conserving, Grew;
      timer := false;
      ghost var before, tape := View(), Tape();
      SourcesCounted();
      OwersWait(before);
      GrewNot(tape, before);
      if outputStopped {
        return;
      }
      ghost var was := before;
      var samplesWritten, going := 1, true;
      while going
        invariant Shaped() && Conserving() && Marked() && |was| == |sources| && Are(was, 0, |was|)
        invariant sources == old(sources) && repr == old(repr) && !timer && old(delivered) <= delivered
        invariant sink.mood == Closed ==> delivered == old(delivered)
        invariant flushes == old(flushes) || (flushes == old(flushes) + 1 && !going && outbufPos == outbufCnt && Quiet(was))
        invariant isFlushed ==> flushes > old(flushes) || (old(isFlushed) && delivered == old(delivered))
        invariant !going && samplesWritten == 0 ==> refused && sink.mood != Willing
        invariant !going && isFlushed ==> outbufPos == outbufCnt
        invariant flushes == old(flushes) ==> flushedAt == old(flushedAt)
        invariant !going ==> (samplesWritten == 0 <==> outbufPos < outbufCnt)
        invariant !going && samplesWritten > 0 ==> !Ready(was) && (Quiet(was) ==> isFlushed)
        invariant Grew(tape, before, Tape(), was)
        decreases going, Total(was)
      {
        ghost var mid, midTape := was, Tape();
        samplesWritten, going, was := Turn(was);
        GrewOn(tape, before, midTape, mid, Tape(), was);
      }
      outputStopped := samplesWritten == 0;
      Ends(was);
      if flushes > old(flushes) { QuietSources(was); }
    }

    /** What makes the state after the last turn a valid one. */
    lemma {:induction false} Ends(was: seq<Snapshot>)
      requires Shaped() && Conserving() && Marked() && |was| == |sources| && Are(was, 0, |was|)
      requires if outputStopped then outbufPos < outbufCnt && refused else outbufPos == outbufCnt && !Ready(was) && (Quiet(was) ==> isFlushed)
      requires isFlushed ==> outbufPos == outbufCnt
      ensures Valid() && View() == was && (outbufPos == outbufCnt ==> delivered == mixed)
    {
      hide Ring, MixerSrc.Valid, Is, Conserving, View, Ready, Quiet;
      ViewIs(was);
      if outbufPos == outbufCnt { AllSent(); }
    }

    /** A FIFO that owes an acknowledgement is not empty. */
    lemma {:induction false} OwersWait(was: seq<Snapshot>)
      requires Separate() && |was| == |sources| && Are(was, 0, |was|)
      ensures forall i :: 0 <= i < |was| ==> was[i].owed ==> was[i].contents != []
    {
      hide Ring;
      forall i | 0 <= i < |was| ensures was[i].owed ==> was[i].contents != [] {
        assert Is(sources[i], was[i]);
      }
    }

    lemma {:induction false} SourcesCounted()
      requires Shaped() && Conserving()
      ensures |logs| == |turns| == |parts| == |sources|
    {
      hide MixerSrc.Valid, MixerSrc.Repr, Takens;
    }

    lemma {:induction false} AllSent()
      requires Shaped() && Conserving() && outbufPos == outbufCnt
      ensures delivered == mixed
    {
      hide Aligned;
      assert delivered + outbuf[outbufPos..outbufCnt] == delivered;
    }

    constructor (sink: Sink)
      ensures Valid() && sources == [] && repr == {} && mixed == [] && delivered == [] && flushes == 0 && flushedAt == 0
      ensures fresh(outbuf) && this.sink == sink && !outputStopped && isFlushed && !timer
    {
      this.sink := sink;
      sources, repr := [], {};
      outbuf := new real[OUTBUF_SIZE](_ => 0.0);
      outbufPos, outbufCnt := 0, 0;
      isFlushed, outputStopped, timer := true, false, false;
      mixed, delivered, parts, turns, logs, earlies := [], [], [], [], [], [];
      flushes, flushedAt, refused := 0, 0, false;
    }

    method AddSource() returns (s: MixerSrc, ghost idle: Snapshot)
      requires Valid()
      modifies this`sources, this`repr, this`parts, this`turns, this`logs, this`earlies
      ensures Valid() && sources == old(sources) + [s] && fresh(s.Repr()) && repr == old(repr) + s.Repr()
      ensures View() == old(View()) + [idle] && IsNew(idle)
    {
      hide Ring, MixerSrc.Valid, MixerSrc.Repr, Aligned, Acknowledged, Is, Takens, EarlyCounts, View, Ready, Quiet, SourcesValid;
      ghost var was := View();
      s, idle := Attach();
      Joins(parts, turns, logs, Takens(was), mixed, idle);
      JoinsAcks(earlies, parts, turns, logs, EarlyCounts(was), |mixed|);
      parts, turns, logs := parts + [Share([], false, |mixed|)], turns + [All(false, |mixed|)], logs + [Same(Moment(0, true), |mixed|)];
      earlies := earlies + [[]];
      IdleJoins(was, idle);
    }

    /** The new source is one more, and shares nothing with the others. */
    method Attach() returns (s: MixerSrc, ghost idle: Snapshot)
      requires Shaped()
      modifies this`sources, this`repr
      ensures Shaped() && sources == old(sources) + [s] && fresh(s.Repr()) && repr == old(repr) + s.Repr()
      ensures View() == old(View()) + [idle] && IsNew(idle)
    {
      hide Ring, MixerSrc.Valid, MixerSrc.Repr, Is, View;
      ghost var was := View();
      s := new MixerSrc();
      idle := s.State();
      NewSource(s);
      sources := sources + [s];
      repr := repr + s.Repr();
      ghost var now := was + [idle];
      assert Are(now, 0, |now|);
      ViewIs(now);
    }

    /** A source writes; the handler will run later, when every source has had its turn. */
    method SourceWrites(i: nat, samples: seq<real>) returns (written: nat)
      requires Valid() && i < |sources| && |samples| > 0
      modifies this`timer, repr
      ensures Valid() && timer && written <= |samples| && sources[i].fifo.accepted == old(sources[i].fifo.accepted) + samples[..written]
      ensures written < |samples| ==> |sources[i].Contents()| == OUTBUF_SIZE
      ensures View() == old(View())[i := Wrote(old(View()[i]), samples[..written])]
      ensures !sources[i].isFlushed && !sources[i].doFlush
    {
      hide Ring, MixerSrc.Valid, Aligned, Acknowledged, MixerSrc.Repr, Takens, EarlyCounts, View;
      ghost var was := View();
      timer := true;
      written := sources[i].WriteSamples(samples);
      ghost var now := was[i := Wrote(was[i], samples[..written])];
      ViewIs(now);
      SameTakens(was, now);
    }

    /** A single sample always goes into an empty FIFO. */
    method SourceWritesOne(i: nat, x: real)
      requires Valid() && i < |sources| && View()[i].contents == []
      modifies this`timer, repr
      ensures Valid() && timer && View() == old(View())[i := Wrote(old(View()[i]), [x])]
    {
      hide Ring, MixerSrc.Valid, Aligned, View, Settled, Conserving;
      var n := SourceWrites(i, [x]);
      assert View()[i].contents == [x][..n];
      assert n == 1 && [x][..1] == [x];
    }

    /** A source flushes.  With an empty FIFO the handler has to look whether that was the last
        one. */
    method SourceFlushes(i: nat)
      requires Valid() && i < |sources|
      modifies this`timer, repr
      ensures Valid() && View() == old(View())[i := Asked(old(View()[i]))]
      ensures timer == (old(timer) || View()[i].contents == [])
      ensures sources[i].fifo.acks == old(sources[i].fifo.acks) + (if IsIdle(old(View()[i])) then 1 else 0)
      ensures sources[i].isFlushed && sources[i].doFlush
    {
      hide Ring, MixerSrc.Valid, Aligned, Acknowledged, MixerSrc.Repr, Takens, EarlyCounts, View, Ready, Quiet;
      ghost var was := View();
      FlushOne(i, was[i]);
      ghost var now := was[i := Asked(was[i])];
      ViewIs(now);
      EmptyIff(sources[i], now[i]);
      if sources[i].fifo.Empty() { timer := true; }
      ViewIs(now);
      SameTakens(was, now);
      if now[i].contents != [] { StillBusy(was, now, i); }
    }

    method FlushOne(i: nat, ghost was: Snapshot)
      requires Separate() && i < |sources| && Is(sources[i], was)
      modifies sources[i].Repr()
      ensures Is(sources[i], Asked(was))
      ensures sources[i].fifo.acks == old(sources[i].fifo.acks) + (if IsIdle(was) then 1 else 0)
    {
      hide Ring, MixerSrc.Valid;
      OnIff(sources[i], was);
      sources[i].FlushSamples();
    }

    /** The sink, whatever it did before, can take samples again. */
    method ResumeOutput()
      requires Shaped() && Conserving() && Marked()
      modifies this, outbuf, repr
      ensures sink.mood == Willing ==> !outputStopped
      ensures Valid() && sources == old(sources) && repr == old(repr) && old(delivered) <= delivered
      ensures flushes == old(flushes) || (flushes == old(flushes) + 1 && delivered == mixed && Quiet(View()))
      ensures isFlushed ==> flushes > old(flushes) || (old(isFlushed) && delivered == old(delivered))
      ensures Grew(old(Tape()), old(View()), Tape(), View())
      ensures flushes > old(flushes) ==> delivered == mixed && forall i :: 0 <= i < |sources| ==> sources[i].isFlushed && sources[i].Contents() == []
    {
      hide Ring, MixerSrc.Valid, Aligned, Grew, View;
      refused := false;
      outputStopped := false;
      OutputHandler();
    }

    /** After a run of the handler the mixer waits for the sink, or nothing can be mixed. */
    lemma {:induction false} StoppedOrDone()
      requires Valid() && !timer
      ensures if outputStopped then |delivered| < |mixed| else delivered == mixed && !Ready(View()) && (Quiet(View()) ==> isFlushed)
    {
      hide Ring, MixerSrc.Valid, Aligned, Acknowledged, View, Ready, Quiet;
      if !outputStopped { AllSent(); }
    }

    /** After any run: once the timer has run out, the mixer waits for the sink to take what has
        been mixed, or for a source that has given everything but has not flushed, or everything
        has been delivered and flushed. */
    lemma {:induction false} WhatIsAwaited()
      requires Valid() && !timer
      ensures if outputStopped then |delivered| < |mixed| && refused
              else delivered == mixed
                   && ((exists i :: 0 <= i < |sources| && !sources[i].isFlushed && sources[i].Contents() == [])
                       || (isFlushed && forall i :: 0 <= i < |sources| ==> sources[i].isFlushed && sources[i].Contents() == []))
    {
      hide Ring, MixerSrc.Valid, Aligned, Acknowledged, View;
      StoppedOrDone();
      var was := View();
      if !outputStopped && !Quiet(was) {
        var i :| 0 <= i < |was| && IsOn(was[i]);
        var j :| 0 <= j < |was| && IsOn(was[j]) && was[j].contents == [];
        assert Is(sources[j], was[j]);
      }
      forall i | 0 <= i < |sources| && !IsOn(was[i]) ensures sources[i].isFlushed && sources[i].Contents() == [] {
        assert Is(sources[i], was[i]);
      }
    }

    lemma {:induction false} QuietSources(was: seq<Snapshot>)
      requires Separate() && |was| == |sources| && Are(was, 0, |was|) && Quiet(was)
      ensures forall i :: 0 <= i < |sources| ==> sources[i].Valid() && sources[i].isFlushed && sources[i].Contents() == []
    {
      hide Ring, MixerSrc.Valid;
      forall i | 0 <= i < |sources| ensures sources[i].Valid() && sources[i].isFlushed && sources[i].Contents() == [] {
        assert Is(sources[i], was[i]) && !IsOn(was[i]);
      }
    }

    lemma {:induction false} NotMore()
      requires Shaped() && Conserving()
      ensures |delivered| <= |mixed|
    {
      hide Aligned;
    }

    /** The sink has flushed: every source whose flush waits for that is acknowledged, if its
        FIFO is empty; otherwise its FIFO will acknowledge it when it has been read. */
    method AllSamplesFlushed()
      requires Valid()
      modifies repr
      ensures Valid() && View() == Answers(old(View()))
      ensures forall i :: 0 <= i < |sources| ==>
          sources[i].fifo.acks == old(sources[i].fifo.acks) + (if old(View()[i]).doFlush && old(View()[i]).contents == [] then 1 else 0)
    {
      hide Ring, MixerSrc.Valid, Aligned, Is, View, AckCounts, Takens, Ready, Quiet, Answers;
      ghost var was, acks := View(), AckCounts();
      ghost var done := Answers(was);
      var i := 0;
      while i < |sources|
        invariant 0 <= i <= |sources| && Are(done, 0, i) && Are(was, i, |was|)
        invariant forall n :: 0 <= n < i ==> sources[n].fifo.acks == acks[n] + (if was[n].doFlush && was[n].contents == [] then 1 else 0)
        invariant forall n :: i <= n < |sources| ==> sources[n].fifo.acks == acks[n]
      {
        AnswerOne(i, was[i]);
        i := i + 1;
      }
      ViewIs(done);
      SameTakens(was, done);
      Alike(was, done);
    }

    method AnswerOne(i: nat, ghost was: Snapshot)
      requires Separate() && i < |sources| && Is(sources[i], was)
      modifies sources[i].Repr()
      ensures Is(sources[i], Answer(was))
      ensures sources[i].fifo.acks == old(sources[i].fifo.acks) + (if was.doFlush && was.contents == [] then 1 else 0)
    {
      hide Ring, MixerSrc.Valid;
      sources[i].MixerFlushedAllSamples();
    }

    lemma {:induction false} AcksOf(i: nat)
      requires Shaped() && i < |sources|
      ensures var s := View()[i];
        sources[i].fifo.acks == Acks(s.ledger) && sources[i].doFlush == s.doFlush && sources[i].fifo.isFlushing == s.owed
    {
      hide Ring;
    }

    /** For every mixer and source: a flush and the mixer's answer to it give one
        acknowledgement, now or when the FIFO has been read, unless the source was idle. */
    method FlushAnswered(i: nat)
      requires Valid() && i < |sources|
      modifies this`timer, repr
      ensures Valid() && View() == Answers(old(View())[i := Asked(old(View()[i]))])
      ensures var given := sources[i].fifo.acks - old(sources[i].fifo.acks) + Waiting(sources[i].doFlush, sources[i].fifo.isFlushing);
        && given == (if IsIdle(old(View()[i])) then 2 else 1)
        && (sources[i].fifo.isFlushing <==> old(View()[i]).contents != [])
    {
      hide Ring, MixerSrc.Valid, Aligned, View, Asked;
      ghost var was := View()[i];
      OwersWait(View());
      AcksOf(i);
      SourceFlushes(i);
      AllSamplesFlushed();
      AcksOf(i);
      AskedAndAnswered(was);
    }

    ghost function AckCounts(): (a: seq<nat>)
      requires Separate()
      reads this`sources, this`repr, repr
      ensures |a| == |sources| && forall i :: 0 <= i < |a| ==> a[i] == sources[i].fifo.acks
    {
      var ss, r := sources, repr;
      seq(|ss|, i requires 0 <= i < |ss| && ss[i].Repr() <= r reads r => ss[i].fifo.acks)
    }

    /** After any run: every sample the sink has or will get is the sum of the next unread
        sample of each active source.  A source had a turn exactly when it had been accepted a
        sample it had not given yet; one without a turn had flushed. */
    lemma {:induction false} Mixing()
      requires Valid()
      ensures |parts| == |turns| == |logs| == |sources| && delivered + outbuf[outbufPos..outbufCnt] == mixed
      ensures forall t :: 0 <= t < |mixed| ==> mixed[t] == SumTo(parts, |parts|, t)
      ensures forall i, t :: 0 <= i < |sources| && 0 <= t < |mixed| ==>
          |turns[i]| == |parts[i]| == |logs[i]| == |mixed|
          && var before := |Select(parts[i], turns[i][..t])|;
             && (turns[i][t] <==> before < logs[i][t].heard)
             && (if turns[i][t] then before < |sources[i].fifo.accepted| && parts[i][t] == sources[i].fifo.accepted[before]
                 else parts[i][t] == 0.0 && before == logs[i][t].heard && logs[i][t].flushed)
      ensures forall i :: 0 <= i < |sources| ==>
          sources[i].fifo.accepted == sources[i].fifo.delivered + sources[i].Contents()
          && sources[i].fifo.delivered == Select(parts[i], turns[i])
    {
      hide Ring, MixerSrc.Valid, Select;
      var was := View();
      forall i | 0 <= i < |sources|
        ensures sources[i].fifo.accepted == was[i].taken + was[i].contents
        ensures PartOk(parts[i], turns[i], logs[i], was[i].taken, |mixed|)
      {
        sources[i].NothingLost();
        assert PartOk(parts[i], turns[i], logs[i], Takens(was)[i], |mixed|);
      }
      forall i, t | 0 <= i < |sources| && 0 <= t < |mixed|
        ensures TurnOk(parts[i], turns[i], logs[i], t)
        ensures turns[i][t] ==>
          var before := |Select(parts[i], turns[i][..t])|; before < |was[i].taken| && parts[i][t] == was[i].taken[before]
      {
        assert PartOk(parts[i], turns[i], logs[i], was[i].taken, |mixed|);
        if turns[i][t] { NextSample(parts[i], turns[i], t); }
      }
    }

    /** After any run: acknowledgements, withdrawn, joined and waiting flushes are the flushes
        asked for, with one acknowledgement too many for each that found the source idle. */
    lemma {:induction false} FlushesAccounted(i: nat)
      requires Valid() && i < |sources|
      ensures var s := View()[i];
        && sources[i].fifo.acks == Acks(s.ledger)
        && sources[i].fifo.acks + s.ledger.withdrawn + s.ledger.joined + Waiting(s.doFlush, s.owed) == s.ledger.asked + s.ledger.idle
        && (sources[i].fifo.acks + s.ledger.withdrawn + s.ledger.joined + Waiting(s.doFlush, s.owed) == s.ledger.asked <==> s.ledger.idle == 0)
    {
      hide Ring, Select, Aligned;
    }

    /** At all times: an acknowledgement was given to an idle source, or by the mixer, or by the
        FIFO when it ran empty.  The last kind is given when the mixer has read the last sample
        that the source had been accepted, and before it gives the sink that sample. */
    lemma {:induction false} EarlyAcks(i: nat)
      requires Shaped() && Conserving() && i < |sources|
      ensures |earlies| == |parts| == |turns| == |logs| == |sources| && |parts[i]| == |turns[i]| == |logs[i]| == |mixed|
      ensures sources[i].fifo.acks == View()[i].ledger.idle + View()[i].ledger.answered + |earlies[i]|
      ensures forall j :: 0 <= j < |earlies[i]| ==> var e := earlies[i][j];
        && e.sent < e.mixed <= |mixed| && turns[i][e.mixed - 1]
        && |Select(parts[i], turns[i][..e.mixed])| == logs[i][e.mixed - 1].heard
    {
      hide Ring, MixerSrc.Valid, Select, Takens, EarlyCounts;
      var counts, taken := EarlyCounts(View()), Takens(View());
      AcksOf(i);
      assert PartOk(parts[i], turns[i], logs[i], taken[i], |mixed|);
      assert AcksOk(earlies[i], parts[i], turns[i], logs[i], counts[i]);
      forall j | 0 <= j < |earlies[i]| ensures AckOk(earlies[i][j], parts[i], turns[i], logs[i]) {
      }
    }

    /** The samples of a source that went to the sink before it was last flushed. */
    ghost function FlushedOf(i: nat): nat
      requires Valid() && i < |sources|
      reads this, outbuf, repr
    {
      PartSize(i);
      |Select(parts[i], turns[i][..flushedAt])|
    }

    lemma {:induction false} PartSize(i: nat)
      requires Valid() && i < |sources|
      ensures |parts| == |turns| == |sources| && |parts[i]| == |turns[i]| == |mixed| && flushedAt <= |mixed|
      ensures PartOk(parts[i], turns[i], logs[i], View()[i].taken, |mixed|)
    {
      hide Ring, MixerSrc.Valid, Select, PartOk;
      var taken := Takens(View());
      assert PartOk(parts[i], turns[i], logs[i], taken[i], |mixed|);
      PartLength(parts[i], turns[i], logs[i], taken[i], |mixed|);
    }

    lemma {:induction false} Accepted(i: nat)
      requires Valid() && i < |sources|
      ensures sources[i].fifo.accepted == View()[i].taken + View()[i].contents
    {
      hide Ring, Aligned, MixerSrc.Valid;
      sources[i].NothingLost();
    }

    lemma {:induction false} FlushedThen(i: nat, tape: Record)
      requires Valid() && i < |sources| && Extends(tape.parts, parts) && Extends(tape.turns, turns)
      requires |parts| == |turns| == |sources| && |tape.turns[i]| == |tape.parts[i]| == flushedAt
      ensures FlushedOf(i) == |Select(tape.parts[i], tape.turns[i])|
    {
      hide Ring, MixerSrc.Valid, Select, Aligned, PartOk;
      PartSize(i);
      SelectMore(tape.parts[i], parts[i][flushedAt..], tape.turns[i]);
      assert parts[i] == tape.parts[i] + parts[i][flushedAt..] && turns[i][..flushedAt] == tape.turns[i];
    }

    /** Between calls of the handler, so when the sink answers: the sink has been asked to flush
        everything accepted from a source if and only if its FIFO is empty and it has had no
        turn since the sink was last flushed.  With an empty FIFO that is so while the mixer
        counts as flushed.  What a FIFO acknowledges within the handler is told by EarlyAcks. */
    lemma {:induction false} AnswerCovers(i: nat)
      requires Valid() && i < |sources|
      ensures FlushedOf(i) <= |sources[i].fifo.accepted| && |parts| == |turns| == |sources| && flushedAt <= |turns[i]|
      ensures FlushedOf(i) == |sources[i].fifo.accepted| <==> View()[i].contents == [] && true !in turns[i][flushedAt..]
      ensures isFlushed && View()[i].contents == [] ==> FlushedOf(i) == |sources[i].fifo.accepted|
    {
      hide Ring, MixerSrc.Valid, Select, Aligned;
      sources[i].NothingLost();
      PartSize(i);
      SelectedBeyond(parts[i], turns[i], flushedAt);
    }
  }

  /** A flush that is answered leads to one acknowledgement if and only if the source was not
      idle: if its FIFO is not empty then, not before that has been read. */
  lemma {:induction false} AskedAndAnswered(s: Snapshot)
    requires s.owed ==> s.contents != []
    ensures var f := Answer(Asked(s));
      && !f.doFlush && (f.owed <==> s.contents != [])
      && (Acks(f.ledger) - Acks(s.ledger) + Waiting(f.doFlush, f.owed) == 1 <==> !IsIdle(s))
      && (IsIdle(s) ==> Acks(f.ledger) == Acks(s.ledger) + 2)
      && Acks(Given(f, |f.contents|).ledger) == Acks(s.ledger) + (if IsIdle(s) then 2 else 1)
  {
  }

  /** The sample at t is the next of those selected. */
  lemma {:induction false} NextSample(xs: seq<real>, mask: seq<bool>, t: nat)
    requires t < |mask| <= |xs| && mask[t]
    ensures var before := |Select(xs, mask[..t])|; before < |Select(xs, mask)| && Select(xs, mask)[before] == xs[t]
    decreases |mask|
  {
    var n := |mask| - 1;
    if t < n {
      NextSample(xs, mask[..n], t);
      assert mask[..n][..t] == mask[..t];
    }
  }

  /** Nothing is selected beyond n if and only if nothing there is marked. */
  lemma {:induction false} SelectedBeyond(xs: seq<real>, mask: seq<bool>, n: nat)
    requires n <= |mask| <= |xs|
    ensures |Select(xs, mask[..n])| <= |Select(xs, mask)|
    ensures |Select(xs, mask[..n])| == |Select(xs, mask)| <==> true !in mask[n..]
    decreases |mask|
  {
    if n == |mask| {
      assert mask[..n] == mask && mask[n..] == [];
    } else {
      var front, last := mask[..|mask| - 1], mask[|mask| - 1];
      SelectedBeyond(xs, front, n);
      assert front[..n] == mask[..n] && mask[n..] == front[n..] + [last];
    }
  }

  /** The sources once the sink has flushed. */
  function Answers(was: seq<Snapshot>): (now: seq<Snapshot>)
    ensures |now| == |was| && forall i :: 0 <= i < |now| ==> now[i] == Answer(was[i])
  {
    seq(|was|, i requires 0 <= i < |was| => Answer(was[i]))
  }

  /** What can be done depends on who is active and what waits only. */
  lemma {:induction false} Alike(was: seq<Snapshot>, now: seq<Snapshot>)
    requires |was| == |now|
    requires forall i :: 0 <= i < |was| ==> IsOn(now[i]) == IsOn(was[i]) && now[i].contents == was[i].contents
    ensures (Ready(now) <==> Ready(was)) && (Quiet(now) <==> Quiet(was))
  {
    if Ready(was) {
      var i :| 0 <= i < |was| && IsOn(was[i]);
      assert IsOn(now[i]);
    }
    if Ready(now) {
      var i :| 0 <= i < |was| && IsOn(now[i]);
      assert IsOn(was[i]);
    }
  }

  lemma {:induction false} AlignedSizes(parts: seq<seq<real>>, turns: seq<seq<bool>>, logs: seq<seq<Moment>>, taken: seq<seq<real>>, mixed: seq<real>)
    requires Aligned(parts, turns, logs, taken, mixed)
    ensures |parts| == |turns| == |taken| == |logs|
  {
  }

  lemma {:induction false} AckSizes(earlies: seq<seq<Early>>, parts: seq<seq<real>>, turns: seq<seq<bool>>, logs: seq<seq<Moment>>, counts: seq<nat>)
    requires Acknowledged(earlies, parts, turns, logs, counts)
    ensures |earlies| == |counts|
  {
  }

  /** What there is to know about a source between calls: what waits in its FIFO, what the
      mixer has taken, its flags, and whether the FIFO owes an acknowledgement. */
  datatype Snapshot = Snapshot(contents: seq<real>, taken: seq<real>, isFlushed: bool, doFlush: bool, owed: bool, ledger: Ledger)

  /** A source that has just been added. */
  predicate IsNew(s: Snapshot) {
    s.contents == [] && s.taken == [] && s.isFlushed && !s.doFlush && !s.owed && Blank(s.ledger)
  }

  /** A source after a write: a flush that waited is withdrawn. */
  function Wrote(s: Snapshot, samples: seq<real>): Snapshot {
    Snapshot(s.contents + samples, s.taken, false, false, false,
             s.ledger.(withdrawn := s.ledger.withdrawn + Waiting(s.doFlush, s.owed)))
  }

  /** Not active, and no flush waits. */
  predicate IsIdle(s: Snapshot) {
    !IsOn(s) && !s.doFlush
  }

  /** A source after it has asked for a flush. */
  function Asked(s: Snapshot): Snapshot {
    var l := s.ledger;
    s.(isFlushed := true, doFlush := true,
       ledger := l.(asked := l.asked + 1, idle := l.idle + (if IsIdle(s) then 1 else 0), joined := l.joined + (if s.doFlush then 1 else 0)))
  }

  /** A source after the mixer's sink has flushed. */
  function Answer(s: Snapshot): Snapshot {
    var l := s.ledger;
    if !s.doFlush then s
    else if s.contents == [] then s.(doFlush := false, owed := false, ledger := l.(answered := l.answered + 1))
    else s.(doFlush := false, owed := true, ledger := l.(joined := l.joined + (if s.owed then 1 else 0)))
  }

  /** A source after k of its samples have been read. */
  function Given(s: Snapshot, k: nat): (g: Snapshot)
    requires k <= |s.contents|
  {
    var l := s.ledger;
    s.(contents := s.contents[k..], taken := s.taken + s.contents[..k], owed := s.owed && k < |s.contents|,
       ledger := l.(early := l.early + (if s.owed && k == |s.contents| then 1 else 0)))
  }

  ghost predicate Is(s: MixerSrc, was: Snapshot)
    reads s.Repr()
  {
    s.Valid() && s.State() == was
  }

  predicate IsOn(s: Snapshot) {
    !s.isFlushed || s.contents != []
  }

  lemma {:induction false} OnIff(s: MixerSrc, was: Snapshot)
    requires Is(s, was)
    ensures s.IsActive() <==> IsOn(was)
    ensures |was.contents| <= OUTBUF_SIZE
  {
    hide MixerSrc.Valid;
    s.ActiveIff();
  }

  /** Every active source has k samples. */
  ghost predicate Deep(was: seq<Snapshot>, k: nat) {
    forall i :: 0 <= i < |was| && IsOn(was[i]) ==> k <= |was[i].contents|
  }

  /** What is left when a source, if it is active, has given k samples. */
  function ReadOne(s: Snapshot, k: nat): Snapshot
    requires IsOn(s) ==> k <= |s.contents|
  {
    if IsOn(s) then Given(s, k) else s
  }

  function Read(was: seq<Snapshot>, k: nat): (now: seq<Snapshot>)
    requires Deep(was, k)
    ensures |now| == |was| && forall i :: 0 <= i < |now| ==> now[i] == ReadOne(was[i], k)
  {
    seq(|was|, i requires 0 <= i < |was| => ReadOne(was[i], k))
  }

  /** What a source does while n samples are mixed: it gives all n if it is still active then;
      if not, all it had. */
  ghost predicate Gave(was: Snapshot, now: Snapshot, n: nat) {
    exists m: nat :: m <= n && m <= |was.contents| && now == Given(was, m)
      && (IsOn(now) ==> m == n) && (!IsOn(now) ==> m == |was.contents|)
  }

  ghost predicate AllGave(was: seq<Snapshot>, now: seq<Snapshot>, n: nat) {
    |was| == |now| && forall i :: 0 <= i < |was| ==> Gave(was[i], now[i], n)
  }

  lemma {:induction false} NoneGave(was: seq<Snapshot>)
    requires forall i :: 0 <= i < |was| ==> was[i].owed ==> was[i].contents != []
    ensures AllGave(was, was, 0)
  {
    forall i | 0 <= i < |was| ensures Gave(was[i], was[i], 0) {
      assert was[i].taken + [] == was[i].taken;
      assert was[i] == Given(was[i], 0);
    }
  }

  lemma {:induction false} GaveK(s: Snapshot, k: nat)
    requires IsOn(s) ==> k <= |s.contents|
    requires s.owed ==> s.contents != []
    ensures Gave(s, ReadOne(s, k), k)
  {
    assert s.taken + [] == s.taken;
    if IsOn(s) && !IsOn(Given(s, k)) {
      assert Given(s, k).contents == [];
    } else if !IsOn(s) {
      assert s == Given(s, 0);
    }
  }

  lemma {:induction false} GaveOn(was: Snapshot, mid: Snapshot, now: Snapshot, n: nat, k: nat)
    requires Gave(was, mid, n) && Gave(mid, now, k)
    ensures Gave(was, now, n + k)
  {
    var m: nat :| m <= n && m <= |was.contents| && mid == Given(was, m)
      && (IsOn(mid) ==> m == n) && (!IsOn(mid) ==> m == |was.contents|);
    var l: nat :| l <= k && l <= |mid.contents| && now == Given(mid, l)
      && (IsOn(now) ==> l == k) && (!IsOn(now) ==> l == |mid.contents|);
    GivenTwice(was, m, l);
  }

  lemma {:induction false} GivenTwice(s: Snapshot, m: nat, k: nat)
    requires m + k <= |s.contents|
    ensures Given(Given(s, m), k) == Given(s, m + k)
  {
    TakenTwice(s.taken, s.contents, m, k);
  }

  lemma {:induction false} TakenTwice(taken: seq<real>, contents: seq<real>, m: nat, k: nat)
    requires m + k <= |contents|
    ensures contents[m..][k..] == contents[m + k..]
    ensures taken + contents[..m] + contents[m..][..k] == taken + contents[..m + k]
  {
    assert contents[..m] + contents[m..][..k] == contents[..m + k];
    Regroup(taken, contents[..m], contents[m..][..k]);
  }

  /** The state of every source, noted for k samples. */
  function Logged(logs: seq<seq<Moment>>, was: seq<Snapshot>, k: nat): (l: seq<seq<Moment>>)
    requires |logs| == |was|
    ensures |l| == |logs| && forall i :: 0 <= i < |l| ==> l[i] == logs[i] + Same(Now(was[i]), k)
  {
    seq(|logs|, i requires 0 <= i < |logs| => logs[i] + Same(Now(was[i]), k))
  }

  /** A source that owes an acknowledgement gives the last of its samples in a block of k. */
  predicate Emptied(s: Snapshot, k: nat) {
    IsOn(s) && s.owed && k == |s.contents|
  }

  function Noted(earlies: seq<seq<Early>>, was: seq<Snapshot>, k: nat, e: Early): (l: seq<seq<Early>>)
    requires |earlies| == |was|
    ensures |l| == |was| && forall i :: 0 <= i < |l| ==> l[i] == earlies[i] + (if Emptied(was[i], k) then [e] else [])
  {
    seq(|was|, i requires 0 <= i < |was| => earlies[i] + (if Emptied(was[i], k) then [e] else []))
  }

  /** What has been mixed. */
  datatype Record = Record(parts: seq<seq<real>>, turns: seq<seq<bool>>, logs: seq<seq<Moment>>, earlies: seq<seq<Early>>, mixed: seq<real>)

  ghost predicate Extends<T(!new)>(before: seq<seq<T>>, after: seq<seq<T>>) {
    |before| == |after| && forall i :: 0 <= i < |before| ==> before[i] <= after[i]
  }

  /** Between two states with no writes and no flushes of a source: the record has grown by
      what the sources have given, and notes for every new sample the state they were in. */
  ghost predicate Grew(tape: Record, was: seq<Snapshot>, longer: Record, now: seq<Snapshot>) {
    && tape.mixed <= longer.mixed && |tape.logs| == |was|
    && (var n := |longer.mixed| - |tape.mixed|; AllGave(was, now, n) && longer.logs == Logged(tape.logs, was, n))
    && Extends(tape.parts, longer.parts) && Extends(tape.turns, longer.turns) && Extends(tape.earlies, longer.earlies)
  }

  lemma {:induction false} GrewNot(tape: Record, was: seq<Snapshot>)
    requires |tape.logs| == |was| && forall i :: 0 <= i < |was| ==> was[i].owed ==> was[i].contents != []
    ensures Grew(tape, was, tape, was)
  {
    NoneGave(was);
    forall i | 0 <= i < |was| ensures tape.logs[i] + Same(Now(was[i]), 0) == tape.logs[i] {
    }
  }

  lemma {:induction false} GrewBy(tape: Record, was: seq<Snapshot>, k: nat, block: seq<real>, e: Early)
    requires |tape.parts| == |tape.turns| == |tape.logs| == |tape.earlies| == |was| && Deep(was, k) && |block| == k
    requires forall i :: 0 <= i < |was| ==> was[i].owed ==> was[i].contents != []
    ensures Grew(tape, was, Record(Appended(tape.parts, Shares(was, k)), Turned(tape.turns, was, k), Logged(tape.logs, was, k),
                                  Noted(tape.earlies, was, k, e), tape.mixed + block), Read(was, k))
  {
    forall i | 0 <= i < |was| ensures Gave(was[i], Read(was, k)[i], k) {
      GaveK(was[i], k);
    }
  }

  lemma {:induction false} GrewOn(tape: Record, was: seq<Snapshot>, midTape: Record, mid: seq<Snapshot>, longer: Record, now: seq<Snapshot>)
    requires Grew(tape, was, midTape, mid) && Grew(midTape, mid, longer, now)
    ensures Grew(tape, was, longer, now)
  {
    hide Gave;
    var n, k := |midTape.mixed| - |tape.mixed|, |longer.mixed| - |midTape.mixed|;
    forall i | 0 <= i < |was|
      ensures Gave(was[i], now[i], n + k)
      ensures tape.logs[i] + Same(Now(was[i]), n) + Same(Now(mid[i]), k) == tape.logs[i] + Same(Now(was[i]), n + k)
    {
      GaveOn(was[i], mid[i], now[i], n, k);
      SameNow(was[i], mid[i], n);
      assert Same(Now(was[i]), n) + Same(Now(was[i]), k) == Same(Now(was[i]), n + k);
    }
    assert longer.logs == Logged(tape.logs, was, n + k);
  }

  /** Reading changes neither what a source has been accepted nor whether it has flushed. */
  lemma {:induction false} SameNow(was: Snapshot, now: Snapshot, n: nat)
    requires Gave(was, now, n)
    ensures Now(was) == Now(now)
  {
  }

  function Shares(was: seq<Snapshot>, k: nat): (b: seq<seq<real>>)
    requires Deep(was, k)
    ensures |b| == |was| && forall i :: 0 <= i < |b| ==> b[i] == Share(was[i].contents, IsOn(was[i]), k)
  {
    seq(|was|, i requires 0 <= i < |was| => Share(was[i].contents, IsOn(was[i]), k))
  }

  function Appended(parts: seq<seq<real>>, blocks: seq<seq<real>>): (p: seq<seq<real>>)
    requires |parts| == |blocks|
    ensures |p| == |parts| && forall i :: 0 <= i < |p| ==> p[i] == parts[i] + blocks[i]
  {
    seq(|parts|, i requires 0 <= i < |parts| => parts[i] + blocks[i])
  }

  function Turned(turns: seq<seq<bool>>, was: seq<Snapshot>, k: nat): (p: seq<seq<bool>>)
    requires |turns| == |was|
    ensures |p| == |turns| && forall i :: 0 <= i < |p| ==> p[i] == turns[i] + All(IsOn(was[i]), k)
  {
    seq(|turns|, i requires 0 <= i < |turns| => turns[i] + All(IsOn(was[i]), k))
  }

  lemma {:induction false} SumsOfNone(blocks: seq<seq<real>>)
    ensures forall t :: 0 <= t ==> SumTo(blocks, 0, t) == 0.0
  {
  }

  lemma {:induction false} SumsNext(blocks: seq<seq<real>>, i: nat, k: nat)
    requires i < |blocks| && |blocks[i]| == k
    ensures forall t :: 0 <= t < k ==> SumTo(blocks, i + 1, t) == SumTo(blocks, i, t) + blocks[i][t]
  {
  }

  lemma {:induction false} ShareOf(waiting: seq<real>, act: bool, k: nat)
    requires act ==> k <= |waiting|
    ensures forall t :: 0 <= t < k ==> Share(waiting, act, k)[t] == if act then waiting[t] else 0.0
  {
  }

  lemma {:induction false} SourceShape(s: MixerSrc, was: Snapshot)
    requires Is(s, was)
    ensures s.fifo.RingOk() && s.fifo.SamplesInFifo(false) == |was.contents|
  {
    hide Ring, AudioFifo.Conserving;
    s.fifo.Counted();
  }

  lemma {:induction false} EmptyIff(s: MixerSrc, was: Snapshot)
    requires Is(s, was)
    ensures s.fifo.Empty() <==> was.contents == []
  {
    hide Ring, AudioFifo.Conserving;
    s.fifo.Counted();
  }

  /** Something can be mixed: some source is active, and every active source has samples. */
  ghost predicate Ready(was: seq<Snapshot>) {
    && (exists i :: 0 <= i < |was| && IsOn(was[i]))
    && (forall i :: 0 <= i < |was| && IsOn(was[i]) ==> was[i].contents != [])
  }

  /** No source is active: every FIFO is empty and every source has flushed since its last
      write. */
  ghost predicate Quiet(was: seq<Snapshot>) {
    forall i :: 0 <= i < |was| ==> !IsOn(was[i])
  }

  lemma {:induction false} NewSource(s: MixerSrc)
    requires s.Valid()
    ensures Is(s, s.State())
  {
  }

  /** An idle source changes nothing about what can be done. */
  lemma {:induction false} IdleJoins(was: seq<Snapshot>, idle: Snapshot)
    requires !IsOn(idle) && idle.taken == [] && idle.ledger.early == 0
    ensures Takens(was + [idle]) == Takens(was) + [[]] && EarlyCounts(was + [idle]) == EarlyCounts(was) + [0]
    ensures Ready(was + [idle]) <==> Ready(was)
    ensures Quiet(was + [idle]) <==> Quiet(was)
  {
    var now := was + [idle];
    assert forall i :: 0 <= i < |was| ==> now[i] == was[i];
    if Ready(was) {
      var i :| 0 <= i < |was| && IsOn(was[i]);
      assert IsOn(now[i]);
    }
  }

  lemma {:induction false} SameTakens(was: seq<Snapshot>, now: seq<Snapshot>)
    requires |was| == |now| && forall i :: 0 <= i < |was| ==> was[i].taken == now[i].taken && was[i].ledger.early == now[i].ledger.early
    ensures Takens(was) == Takens(now) && EarlyCounts(was) == EarlyCounts(now)
  {
  }

  /** A source that flushes with samples left changes nothing about what can be done. */
  lemma {:induction false} StillBusy(was: seq<Snapshot>, now: seq<Snapshot>, i: nat)
    requires i < |was| && was[i].contents != [] && now == was[i := Asked(was[i])]
    ensures (Ready(now) <==> Ready(was)) && !Quiet(now)
  {
    assert IsOn(was[i]) && IsOn(now[i]);
    Alike(was, now);
  }

  lemma {:induction false} Regroup(a: seq<real>, b: seq<real>, c: seq<real>)
    ensures a + (b + c) == a + b + c
  {
  }

  lemma {:induction false} NoneOn(was: seq<Snapshot>)
    requires !Ready(was) && forall j :: 0 <= j < |was| && IsOn(was[j]) ==> was[j].contents != []
    ensures Quiet(was)
  {
    forall i | 0 <= i < |was| ensures !IsOn(was[i]) {
    }
  }

  function Takens(was: seq<Snapshot>): (t: seq<seq<real>>)
    ensures |t| == |was| && forall i :: 0 <= i < |t| ==> t[i] == was[i].taken
  {
    seq(|was|, i requires 0 <= i < |was| => was[i].taken)
  }

  function EarlyCounts(was: seq<Snapshot>): (t: seq<nat>)
    ensures |t| == |was| && forall i :: 0 <= i < |t| ==> t[i] == was[i].ledger.early
  {
    seq(|was|, i requires 0 <= i < |was| => was[i].ledger.early)
  }

  // ---------------------------------------------------------------- runs that fall short

  /** When one source is active and everything has been mixed, it has given all it had. */
  lemma {:induction false} AllRead(was: seq<Snapshot>, now: seq<Snapshot>, i: nat, n: nat)
    requires AllGave(was, now, n) && !Ready(now) && i < |was|
    requires forall j :: 0 <= j < |was| && j != i ==> !IsOn(was[j])
    requires forall j :: 0 <= j < |was| ==> was[j].owed ==> was[j].contents != []
    ensures now == was[i := Given(was[i], |was[i].contents|)] && |was[i].contents| <= n
    ensures Quiet(now) <==> was[i].isFlushed
  {
    hide Gave, Given, IsOn;
    forall j | 0 <= j < |was| ensures if j == i then now[i] == Given(was[i], |was[i].contents|) || IsOn(now[i]) else now[j] == was[j] {
      assert Gave(was[j], now[j], n);
      if j == i { GaveAll(was[i], now[i], n); } else { GaveNothing(was[j], now[j], n); }
    }
    GaveAll(was[i], now[i], n);
  }

  lemma {:induction false} GaveNothing(was: Snapshot, now: Snapshot, n: nat)
    requires Gave(was, now, n) && !IsOn(was) && (was.owed ==> was.contents != [])
    ensures now == was && !IsOn(now)
  {
    assert was.taken + [] == was.taken;
  }

  /** A source that is not active, or has nothing left, has given all. */
  lemma {:induction false} GaveAll(was: Snapshot, now: Snapshot, n: nat)
    requires Gave(was, now, n)
    ensures !IsOn(now) || now.contents == [] ==> now == Given(was, |was.contents|) && |was.contents| <= n
    ensures now == Given(was, |was.contents|) ==> (IsOn(now) <==> !was.isFlushed)
  {
  }

  /** A source with one sample to give, before and after it asks for a flush. */
  lemma {:induction false} OneSample(s: Snapshot, x: real)
    requires IsIdle(s) && !s.owed
    ensures s.contents == []
    ensures var w := Wrote(s, [x]);
      IsOn(w) && w.contents == [x] && !w.isFlushed && !w.doFlush && !w.owed && w.ledger == s.ledger
    ensures var f := Asked(Wrote(s, [x]));
      IsOn(f) && f.contents == [x] && f.isFlushed && f.doFlush && !f.owed && Acks(f.ledger) == Acks(s.ledger) && f.ledger.asked == s.ledger.asked + 1 && f.ledger.early == s.ledger.early && f.taken == s.taken
  {
    assert s.ledger.(withdrawn := s.ledger.withdrawn + 0) == s.ledger;
  }

  lemma {:induction false} IdleAsks(s: Snapshot)
    requires IsIdle(s) && !s.owed
    ensures var f := Asked(s);
      !IsOn(f) && f.contents == [] && f.doFlush && !f.owed && Acks(f.ledger) == Acks(s.ledger) + 1 && f.ledger.asked == s.ledger.asked + 1
  {
  }

  lemma {:induction false} AnswerTo(s: Snapshot)
    requires s.doFlush && !s.owed
    ensures var f := Answer(Given(s, |s.contents|));
      Acks(f.ledger) == Acks(s.ledger) + 1 && f.ledger.asked == s.ledger.asked && f.contents == [] && !f.doFlush && !f.owed
    ensures s.contents == [] ==> Given(s, 0) == s
    ensures var g := Given(s, |s.contents|);
      g.contents == [] && g.taken == s.taken + s.contents && g.doFlush && !g.owed && g.isFlushed == s.isFlushed && g.ledger == s.ledger
  {
    assert s.taken + [] == s.taken;
  }

  /** What becomes of a source that is waiting for an answer to a flush when it writes and
      flushes again first. */
  lemma {:induction false} WroteAgain(c: Snapshot, x: real)
    requires c.isFlushed && c.doFlush && !c.owed && c.contents == []
    ensures var w := Wrote(c, [x]);
      && IsOn(w) && w.contents == [x] && !w.isFlushed && !w.owed
      && var s := Answer(Asked(Given(w, 1)));
        && s.ledger.asked == c.ledger.asked + 1 && Acks(s.ledger) == Acks(c.ledger) + 1 && s.ledger.idle == c.ledger.idle
        && !s.doFlush && !s.owed && s.contents == [] && |s.taken| == |c.taken| + 1
  {
  }

  /** A source with one sample left: it is read, unless nothing is mixed at all. */
  lemma {:induction false} LastRead(s: Snapshot, now: seq<Snapshot>, n: nat)
    requires AllGave([s], now, n) && |s.contents| == 1 && s.owed && s.isFlushed
    ensures n > 0 ==> now == [Given(s, 1)]
    ensures n == 0 ==> Ready(now)
    ensures Given(s, 1).contents == [] && Given(s, 1).taken == s.taken + s.contents
    ensures var l := Given(s, 1).ledger;
      l.asked == s.ledger.asked && Acks(l) == Acks(s.ledger) + 1 && l.early == s.ledger.early + 1
  {
    assert Gave([s][0], now[0], n);
    var m: nat :| m <= n && m <= |s.contents| && now[0] == Given(s, m) && (IsOn(now[0]) ==> m == n) && (!IsOn(now[0]) ==> m == |s.contents|);
    if n == 0 {
      assert IsOn(now[0]);
    }
  }

  lemma {:induction false} WroteAndAnswered(c: Snapshot, x: real)
    requires c.isFlushed && c.doFlush && !c.owed && c.contents == []
    ensures var s := Answer(Asked(Wrote(c, [x])));
      && s.ledger.asked == c.ledger.asked + 1 && Acks(s.ledger) == Acks(c.ledger) && s.ledger.early == c.ledger.early && s.taken == c.taken
      && s.contents == [x] && s.isFlushed && s.owed && !s.doFlush
  {
  }

  /** Idle, and never acknowledged. */
  predicate Untouched(s: Snapshot) {
    IsIdle(s) && !s.owed && s.taken == [] && s.ledger.asked == 0 && s.ledger.early == 0 && Acks(s.ledger) == 0
  }

  lemma {:induction false} NewIsIdle(s: Snapshot)
    requires IsNew(s)
    ensures Untouched(s)
  {
  }

  /** With a willing sink and one source that has something to give, the handler mixes and
      delivers all of it, and flushes the sink if the source has flushed. */
  method MixAll(m: AudioMixer, i: nat, ghost was: seq<Snapshot>)
    requires m.Valid() && m.sink.mood == Willing && !m.outputStopped && was == m.View() && i < |was| && was[i].contents != []
    requires forall j :: 0 <= j < |was| && j != i ==> !IsOn(was[j])
    modifies m, m.outbuf, m.repr
    ensures m.Valid() && m.sink.mood == Willing && !m.outputStopped && m.sources == old(m.sources) && m.repr == old(m.repr)
    ensures m.View() == was[i := Given(was[i], |was[i].contents|)] && m.delivered == m.mixed
    ensures |m.mixed| > |old(m.mixed)| && Extends(old(m.parts), m.parts) && Extends(old(m.turns), m.turns)
    ensures if was[i].isFlushed then m.flushes == old(m.flushes) + 1 && m.flushedAt == |m.mixed| else m.flushes == old(m.flushes) && m.flushedAt == old(m.flushedAt)
  {
    hide Ring, MixerSrc.Valid, MixerSrc.Repr, Aligned, Acknowledged, Is, IsOn, Ready, Quiet, Takens, AudioMixer.View, Given, AllGave, Logged;
    m.OwersWait(was);
    m.NotMore();
    m.OutputHandler();
    m.AllSent();
    AllRead(was, m.View(), i, |m.mixed| - |old(m.mixed)|);
  }

  /** Of two idle sources the first writes a sample, both ask for a flush, the sample is mixed,
      and the sink flushes: the second source is acknowledged twice. */
  method FlushBoth(m: AudioMixer, ghost a: Snapshot, ghost b: Snapshot)
    requires m.Valid() && m.sink.mood == Willing && !m.outputStopped && |m.sources| == 2 && m.View() == [a, b]
    requires IsIdle(a) && IsIdle(b) && !a.owed && !b.owed
    modifies m, m.outbuf, m.repr
    ensures m.Valid() && m.sources == old(m.sources) && m.flushes == old(m.flushes) + 1
    ensures var v := m.View();
      && v[0].ledger.asked == a.ledger.asked + 1 && Acks(v[0].ledger) == Acks(a.ledger) + 1
      && v[1].ledger.asked == b.ledger.asked + 1 && Acks(v[1].ledger) == Acks(b.ledger) + 2
  {
    hide Ring, Select, MixerSrc.Valid, MixerSrc.Repr, AudioMixer.Conserving, AudioMixer.Settled, AudioMixer.Marked, AudioMixer.View, Given, Wrote, Asked, Answer, IsOn, Acks;
    OneSample(a, 1.0);
    IdleAsks(b);
    m.SourceWritesOne(0, 1.0);
    m.SourceFlushes(1);
    m.SourceFlushes(0);
    ghost var c, d := Asked(Wrote(a, [1.0])), Asked(b);
    assert c.isFlushed && m.flushes == old(m.flushes);
    MixAll(m, 0, [c, d]);
    assert m.flushes == old(m.flushes) + 1;
    m.AllSamplesFlushed();
    AnswerTo(c);
    AnswerTo(d);
  }

  /** The only source writes and flushes, and the sample is mixed and delivered. */
  method FirstFlush(m: AudioMixer, ghost a: Snapshot)
    requires m.Valid() && m.sink.mood == Willing && !m.outputStopped && |m.sources| == 1 && m.View() == [a]
    requires IsIdle(a) && !a.owed
    modifies m, m.outbuf, m.repr
    ensures m.Valid() && m.sink.mood == Willing && !m.outputStopped && m.sources == old(m.sources) && m.repr == old(m.repr)
    ensures m.flushes == old(m.flushes) + 1 && m.flushedAt == |m.mixed| && m.delivered == m.mixed
    ensures var c := m.View()[0];
      && c.ledger.asked == a.ledger.asked + 1 && Acks(c.ledger) == Acks(a.ledger) && c.ledger.early == a.ledger.early && |c.taken| == |a.taken| + 1
      && c.isFlushed && c.doFlush && !c.owed && c.contents == []
  {
    hide Ring, Select, MixerSrc.Valid, MixerSrc.Repr, AudioMixer.Conserving, AudioMixer.Settled, AudioMixer.Marked, AudioMixer.View, Given, Wrote, Asked, Answer, IsOn, Acks;
    OneSample(a, 1.0);
    m.SourceWritesOne(0, 1.0);
    m.SourceFlushes(0);
    ghost var c := Asked(Wrote(a, [1.0]));
    MixAll(m, 0, [c]);
    AnswerTo(c);
  }

  /** After a flush of its only source, the source writes, the sample is mixed, the source
      flushes, and the sink answers its first flush. */
  method Again(m: AudioMixer, ghost c: Snapshot)
    requires m.Valid() && m.sink.mood == Willing && !m.outputStopped && |m.sources| == 1 && m.View() == [c]
    requires c.isFlushed && c.doFlush && !c.owed && c.contents == []
    modifies m, m.outbuf, m.repr
    ensures m.Valid() && m.sources == old(m.sources) && m.flushes == old(m.flushes) && m.flushedAt == old(m.flushedAt)
    ensures Extends(old(m.parts), m.parts) && Extends(old(m.turns), m.turns)
    ensures var s := m.View()[0];
      && s.ledger.asked == c.ledger.asked + 1 && Acks(s.ledger) == Acks(c.ledger) + 1 && s.ledger.idle == c.ledger.idle
      && !s.doFlush && !s.owed && s.contents == [] && |s.taken| == |c.taken| + 1
  {
    hide Ring, Select, MixerSrc.Valid, MixerSrc.Repr, AudioMixer.Conserving, AudioMixer.Settled, AudioMixer.Marked, AudioMixer.View, Given, Wrote, Asked, Answer, IsOn;
    WroteAgain(c, 2.0);
    m.SourceWritesOne(0, 2.0);
    ghost var w := Wrote(c, [2.0]);
    assert m.View() == [w];
    MixAll(m, 0, [w]);
    m.SourceFlushes(0);
    m.AllSamplesFlushed();
  }

  /** While its only source waits for the sink's answer to a flush, it writes and flushes again,
      and then the answer comes: the FIFO owes the acknowledgement. */
  method AnsweredWhileWriting(m: AudioMixer, ghost c: Snapshot)
    requires m.Valid() && |m.sources| == 1 && m.View() == [c] && c.isFlushed && c.doFlush && !c.owed && c.contents == []
    modifies m`timer, m.repr
    ensures m.Valid()
    ensures var s := m.View()[0];
      && s.ledger.asked == c.ledger.asked + 1 && Acks(s.ledger) == Acks(c.ledger) && s.ledger.early == c.ledger.early && s.taken == c.taken
      && s.contents == [2.0] && s.isFlushed && s.owed && !s.doFlush
  {
    hide Ring, Select, MixerSrc.Valid, MixerSrc.Repr, AudioMixer.Conserving, AudioMixer.Settled, AudioMixer.Marked, AudioMixer.View, Wrote, Asked, Answer, IsOn;
    WroteAndAnswered(c, 2.0);
    m.SourceWritesOne(0, 2.0);
    m.SourceFlushes(0);
    m.AllSamplesFlushed();
  }

  /** With a sink that takes nothing, the handler reads the sample of the only source, and
      that is all; an acknowledgement that its FIFO owes is given then. */
  method ReadLast(m: AudioMixer, ghost s: Snapshot)
    requires m.Valid() && m.sink.mood == Closed && !m.outputStopped && |m.sources| == 1 && m.delivered == m.mixed
    requires m.View() == [s] && |s.contents| == 1 && s.isFlushed && s.owed
    modifies m, m.outbuf, m.repr
    ensures m.Valid() && m.sources == old(m.sources) && m.flushes == old(m.flushes) && m.delivered == old(m.delivered)
    ensures |m.mixed| > |m.delivered|
    ensures var v := m.View()[0];
      && v.ledger.asked == s.ledger.asked && Acks(v.ledger) == Acks(s.ledger) + 1 && v.ledger.early == s.ledger.early + 1
      && v.taken == s.taken + s.contents && v.contents == []
  {
    hide Ring, Select, MixerSrc.Valid, MixerSrc.Repr, AudioMixer.Conserving, AudioMixer.Settled, AudioMixer.Marked, AudioMixer.View, Given, Wrote, Asked, Answer, Ready, Quiet, Acks;
    m.OwersWait([s]);
    m.OutputHandler();
    m.StoppedOrDone();
    LastRead(s, m.View(), |m.mixed| - |old(m.mixed)|);
  }

  /** A mixer with a willing sink and one new source. */
  method OneSource() returns (m: AudioMixer, ghost a: Snapshot)
    ensures m.Valid() && fresh(m) && fresh(m.outbuf) && fresh(m.repr) && fresh(m.sink)
    ensures m.sink.mood == Willing && !m.outputStopped && |m.sources| == 1 && m.flushes == 0
    ensures m.View() == [a] && Untouched(a)
  {
    hide Ring, Select, MixerSrc.Valid, MixerSrc.Repr, AudioMixer.Conserving, AudioMixer.Settled, AudioMixer.Marked, AudioMixer.View, Untouched;
    var sink := new Sink(Willing);
    m := new AudioMixer(sink);
    var s;
    s, a := m.AddSource();
    NewIsIdle(a);
  }

  /** A second one. */
  method TwoSources() returns (m: AudioMixer, ghost a: Snapshot, ghost b: Snapshot)
    ensures m.Valid() && fresh(m) && fresh(m.outbuf) && fresh(m.repr) && fresh(m.sink)
    ensures m.sink.mood == Willing && !m.outputStopped && |m.sources| == 2 && m.flushes == 0
    ensures m.View() == [a, b] && Untouched(a) && Untouched(b)
  {
    hide Ring, Select, MixerSrc.Valid, MixerSrc.Repr, AudioMixer.Conserving, AudioMixer.Settled, AudioMixer.Marked, AudioMixer.View, Untouched;
    m, a := OneSource();
    var s;
    s, b := m.AddSource();
    NewIsIdle(b);
  }

  /** A source that is idle asks for a flush once and is acknowledged twice: at once, and again
      when the mixer's own flush, which another source has asked for, comes back. */
  method AcknowledgedTwice() returns (m: AudioMixer)
    ensures m.Valid() && |m.sources| == 2 && m.flushes == 1
    ensures m.View()[0].ledger.asked == 1 && m.sources[0].fifo.acks == 1
    ensures m.View()[1].ledger.asked == 1 && m.sources[1].fifo.acks == 2
  {
    hide Ring, Select, MixerSrc.Valid, MixerSrc.Repr, AudioMixer.Conserving, AudioMixer.Settled, AudioMixer.Marked, AudioMixer.View, IsIdle, Acks;
    ghost var a, b;
    m, a, b := TwoSources();
    FlushBoth(m, a, b);
    m.AcksOf(0);
    m.AcksOf(1);
  }

  /** The sink's answer to one flush comes when a source has written and flushed again, and
      acknowledges samples that the sink has not been asked to flush. */
  method AnsweredEarly() returns (m: AudioMixer)
    ensures m.Valid() && |m.sources| == 1 && m.flushes == 1
    ensures m.View()[0].ledger.asked == 2 && m.sources[0].fifo.acks == 1 && !m.View()[0].doFlush
    ensures m.FlushedOf(0) < |m.sources[0].fifo.accepted| == 2
  {
    hide Ring, Select, MixerSrc.Valid, MixerSrc.Repr, AudioMixer.Conserving, AudioMixer.Settled, AudioMixer.Marked, AudioMixer.View, IsIdle, Acks, Extends;
    ghost var a;
    m, a := OneSource();
    FirstFlush(m, a);
    ghost var tape := m.Tape();
    m.PartSize(0);
    Again(m, m.View()[0]);
    m.AcksOf(0);
    m.PartSize(0);
    m.FlushedThen(0, tape);
    m.Accepted(0);
  }

  /** A mixer whose sink has answered the only flush it has been given, and whose only source
      has written and flushed again before that. */
  method AnsweredMeanwhile() returns (m: AudioMixer)
    ensures m.Valid() && fresh(m) && fresh(m.outbuf) && fresh(m.repr) && fresh(m.sink)
    ensures |m.sources| == 1 && m.flushes == 1 && !m.outputStopped && m.delivered == m.mixed
    ensures var s := m.View()[0];
      && s.ledger.asked == 2 && Acks(s.ledger) == 0 == s.ledger.early && |s.taken| == 1
      && s.contents == [2.0] && s.isFlushed && s.owed && !s.doFlush
  {
    hide Ring, Select, MixerSrc.Valid, MixerSrc.Repr, AudioMixer.Conserving, AudioMixer.Settled, AudioMixer.Marked, AudioMixer.View, IsIdle, Acks;
    ghost var a;
    m, a := OneSource();
    FirstFlush(m, a);
    AnsweredWhileWriting(m, m.View()[0]);
  }

  /** The sink's answer to one flush comes when a source has written and flushed again; then the
      sink takes nothing more.  The FIFO acknowledges the second flush when the mixer reads its
      last sample, which the sink has not been given. */
  method AcknowledgedUndelivered() returns (m: AudioMixer)
    ensures m.Valid() && |m.sources| == 1 && m.flushes == 1
    ensures m.View()[0].ledger.asked == 2 && m.sources[0].fifo.acks == 1 == m.View()[0].ledger.early
    ensures |m.sources[0].fifo.accepted| == 2 && |m.delivered| < |m.mixed|
  {
    hide Ring, Select, MixerSrc.Valid, MixerSrc.Repr, AudioMixer.Conserving, AudioMixer.Settled, AudioMixer.Marked, AudioMixer.View, IsIdle, Acks;
    m := AnsweredMeanwhile();
    m.sink.mood := Closed;
    ReadLast(m, m.View()[0]);
    m.AcksOf(0);
    m.Accepted(0);
  }
}

/** The audio selector: one of many sources is passed on, the samples of the others are thrown
    away, and selection moves with priority, flushes and explicit choice. */
module Selector {

  datatype StreamState = IDLE | WRITING | STOPPED | FLUSHING

  class Branch {
    var autoSelect: bool
    var prio: int
    var streamState: StreamState
    var flushWait: bool

    /** Flushes asked for by the source, those answered, and those a later write took back. */
    ghost var requests: nat
    ghost var acks: nat
    ghost var withdrawn: nat
    /** Times the source was told to wait, was woken, and went on by itself. */
    ghost var stops: nat
    ghost var resumes: nat
    ghost var overruns: nat

    /** Every flush is answered once, or taken back, or still waits; every stop ends once. */
    ghost predicate Balanced()
      reads this
    {
      && requests == acks + withdrawn + (if streamState == FLUSHING then 1 else 0)
      && stops == resumes + overruns + (if streamState == STOPPED then 1 else 0)
    }

    ghost predicate Resting()
      reads this`streamState
    {
      streamState == IDLE || streamState == WRITING
    }

    constructor ()
      ensures Balanced() && streamState == IDLE && !autoSelect && prio == 0 && flushWait
      ensures requests == 0 && acks == 0 && withdrawn == 0 && stops == 0 && resumes == 0 && overruns == 0
    {
      autoSelect, prio, streamState, flushWait := false, 0, IDLE, true;
      requests, acks, withdrawn, stops, resumes, overruns := 0, 0, 0, 0, 0, 0;
    }

    method ResumeOutput()
      requires Balanced()
      modifies this`streamState, this`resumes
      ensures Balanced() && streamState == if old(streamState) == STOPPED then WRITING else old(streamState)
      ensures resumes == old(resumes) + if old(streamState) == STOPPED then 1 else 0
    {
      if streamState == STOPPED {
        streamState := WRITING;
        resumes := resumes + 1;
      }
    }

    /** The branch is not selected any longer: nobody waits for it now. */
    method Unselect()
      requires Balanced()
      modifies this`streamState, this`resumes, this`acks
      ensures Balanced() && Resting()
      ensures streamState == AfterUnselect(old(streamState))
      ensures streamState == if old(streamState) == STOPPED then WRITING else if old(streamState) == FLUSHING then IDLE else old(streamState)
      ensures acks == old(acks) + (if old(streamState) == FLUSHING then 1 else 0)
      ensures resumes == old(resumes) + (if old(streamState) == STOPPED then 1 else 0)
    {
      match streamState {
        case IDLE =>
        case WRITING =>
        case STOPPED =>
          streamState := WRITING;
          resumes := resumes + 1;
        case FLUSHING =>
          streamState := IDLE;
          acks := acks + 1;
      }
    }
  }

  /** What another branch or the sink does to this one: it may be woken or answered, and no
      more. */
  twostate predicate OnlyServed(b: Branch)
    reads b
  {
    && b.requests == old(b.requests) && b.withdrawn == old(b.withdrawn) && b.stops == old(b.stops) && b.overruns == old(b.overruns)
    && b.autoSelect == old(b.autoSelect) && b.prio == old(b.prio) && b.flushWait == old(b.flushWait)
  }

  /** A flushing branch has been answered. */
  twostate predicate Answered(b: Branch)
    reads b
  {
    b.streamState == IDLE && b.acks == old(b.acks) + 1
  }

  function AfterUnselect(s: StreamState): StreamState {
    match s
    case IDLE => IDLE
    case WRITING => WRITING
    case STOPPED => WRITING
    case FLUSHING => IDLE
  }

  /** What has happened, in order: selections, and samples passed to the sink. */
  datatype Event = Chosen(b: Branch?) | Sent(from: Branch, x: real)

  /** The branch selected after the events. */
  ghost function Current(trace: seq<Event>): Branch? {
    if |trace| == 0 then null
    else
      match trace[|trace| - 1]
      case Chosen(b) => b
      case Sent(_, _) => Current(trace[..|trace| - 1])
  }

  /** Every sample passed on came from the branch selected at that moment. */
  ghost predicate OnlySelected(trace: seq<Event>) {
    forall n :: 0 <= n < |trace| && trace[n].Sent? ==> trace[n].from == Current(trace[..n])
  }

  ghost function AllSent(b: Branch, xs: seq<real>): (t: seq<Event>)
    ensures |t| == |xs|
  {
    seq(|xs|, i requires 0 <= i < |xs| => Sent(b, xs[i]))
  }

  lemma {:induction false} ChosenNext(trace: seq<Event>, b: Branch?)
    requires OnlySelected(trace)
    ensures OnlySelected(trace + [Chosen(b)]) && Current(trace + [Chosen(b)]) == b
  {
    var t := trace + [Chosen(b)];
    forall n | 0 <= n < |t| && t[n].Sent? ensures t[n].from == Current(t[..n]) {
      assert t[..n] == trace[..n];
    }
  }

  lemma {:induction false} SentNext(trace: seq<Event>, b: Branch, xs: seq<real>)
    requires OnlySelected(trace) && Current(trace) == b
    ensures OnlySelected(trace + AllSent(b, xs)) && Current(trace + AllSent(b, xs)) == b
    decreases |xs|
  {
    var t := trace + AllSent(b, xs);
    if |xs| == 0 {
      assert t == trace;
    } else {
      var front := trace + AllSent(b, xs[..|xs| - 1]);
      SentNext(trace, b, xs[..|xs| - 1]);
      assert t[..|t| - 1] == front;
      forall n | 0 <= n < |t| && t[n].Sent? ensures t[n].from == Current(t[..n]) {
        if n < |front| { assert t[..n] == front[..n] && t[n] == front[n]; }
      }
    }
  }

  class AudioSelector {
    /** The branches in the order of the map. */
    var branches: seq<Branch>
    var selected: Branch?
    var streamState: StreamState
    /** A sink that takes everything it is offered; if not, any sink. */
    const willing: bool

    ghost var trace: seq<Event>
    /** Flushes of the sink: asked for, answered, and taken back by a later write. */
    ghost var sinkFlushes: nat
    ghost var sinkAnswers: nat
    ghost var sinkWithdrawn: nat
    /** The sink took nothing when it was last asked, and has not resumed since. */
    ghost var refused: bool

    ghost predicate Members()
      reads this`branches
    {
      forall i, j :: 0 <= i < j < |branches| ==> branches[i] != branches[j]
    }

    ghost function Focus(): (s: set<object>)
      reads this`selected
    {
      if selected == null then {} else {selected}
    }

    /** What holds even while a branch is changing its state. */
    ghost predicate Loose()
      reads this, branches, Focus()
    {
      Turning() && (streamState == WRITING || streamState == STOPPED ==> selected != null)
    }

    /** What holds even while the selection moves. */
    ghost predicate Turning()
      reads this, branches, Focus()
    {
      && Members()
      && (forall i :: 0 <= i < |branches| ==> branches[i].Balanced() && (branches[i] != selected ==> branches[i].Resting()))
      && (selected != null ==> selected.Balanced())
      && OnlySelected(trace) && Current(trace) == selected
      && sinkFlushes == sinkAnswers + sinkWithdrawn + (if streamState == FLUSHING then 1 else 0)
      && (streamState == STOPPED ==> refused)
    }

    /** A stopped or flushing branch is the selected one, with the sink stopped or flushing. */
    ghost predicate InStep()
      reads this, Focus()
    {
      && (selected != null ==>
            && (selected.streamState == STOPPED ==> streamState == STOPPED)
            && (selected.streamState == FLUSHING ==> streamState == FLUSHING))
      && (streamState == WRITING || streamState == STOPPED ==>
            selected != null && (selected.streamState == WRITING || selected.streamState == STOPPED))
    }

    ghost predicate Valid()
      reads this, branches, Focus()
    {
      Loose() && InStep() && (selected != null ==> selected in branches)
    }

    constructor (willing: bool)
      ensures Valid() && branches == [] && selected == null && streamState == IDLE && trace == [] && this.willing == willing
    {
      this.willing := willing;
      branches, selected, streamState := [], null, IDLE;
      trace, sinkFlushes, sinkAnswers, sinkWithdrawn, refused := [], 0, 0, 0, false;
    }

    /** Moves the selection.  The branch selected before is let go; the sink is flushed if the
        new one has nothing to send. */
    method SelectBranch(branch: Branch?)
      requires Loose() && (branch != null ==> branch in branches)
      modifies this`selected, this`streamState, this`trace, this`sinkFlushes, Focus()
      ensures Loose() && selected == branch && sinkAnswers == old(sinkAnswers)
      ensures branch == old(selected) ==>
          streamState == old(streamState) && trace == old(trace) && sinkFlushes == old(sinkFlushes)
          && (selected != null ==> selected.streamState == old(selected.streamState) && OnlyServed(selected))
      ensures branch != old(selected) ==> InStep() && trace == old(trace) + [Chosen(branch)]
      ensures branch != old(selected) && old(selected) != null ==>
          && old(selected).Balanced() && OnlyServed(old(selected))
          && old(selected).streamState == AfterUnselect(old(selected.streamState))
          && old(selected).acks == old(selected.acks) + (if old(selected.streamState) == FLUSHING then 1 else 0)
      ensures branch != old(selected) ==> streamState == (if old(streamState) == IDLE then IDLE else
                 if branch == null || branch.streamState == IDLE then FLUSHING else old(streamState))
      ensures sinkFlushes == old(sinkFlushes) + (if streamState == FLUSHING && old(streamState) != FLUSHING then 1 else 0)
    {
      hide OnlySelected, Current;
      if branch == selected {
        return;
      }
      var prev := selected;
      selected := branch;
      ChosenNext(trace, branch);
      trace := trace + [Chosen(branch)];
      if prev != null {
        prev.Unselect();
      }
      assert selected == null || selected.streamState == IDLE || selected.streamState == WRITING;
      SwitchSink();
    }

    /** A sink in use is flushed if there is nothing to send. */
    method SwitchSink()
      requires Turning() && (selected != null ==> selected.Resting())
      modifies this`streamState, this`sinkFlushes
      ensures Loose() && InStep()
      ensures streamState == if old(streamState) == IDLE then IDLE else
                 if selected == null || selected.streamState == IDLE then FLUSHING else old(streamState)
      ensures sinkFlushes == old(sinkFlushes) + (if streamState == FLUSHING && old(streamState) != FLUSHING then 1 else 0)
    {
      hide OnlySelected, Current;
      match streamState {
        case IDLE =>
        case FLUSHING =>
        case WRITING =>
          if selected == null || selected.streamState == IDLE {
            streamState := FLUSHING;
            sinkFlushes := sinkFlushes + 1;
          }
        case STOPPED =>
          if selected == null || selected.streamState == IDLE {
            streamState := FLUSHING;
            sinkFlushes := sinkFlushes + 1;
          }
      }
    }

    /** Selects the active automatic branch of the highest priority, the first of several; or
        none, if that is asked for. */
    method SelectHighestPrioActiveBranch(clearIfNoActive: bool) returns (ghost k: nat)
      requires Loose() && (!clearIfNoActive ==> selected != null && !Eligible(selected))
      modifies this`selected, this`streamState, this`trace, this`sinkFlushes, Focus()
      ensures Loose() && sinkAnswers == old(sinkAnswers) && k <= |branches|
      ensures if k == |branches| then old(NoneEligible(k)) && selected == (if clearIfNoActive then null else old(selected))
              else old(k < |branches| && Best(k)) && selected == branches[k]
      ensures selected != old(selected) ==> InStep()
      ensures selected != old(selected) ==> streamState == (if old(streamState) == IDLE then IDLE else
                 if selected == null || selected.streamState == IDLE then FLUSHING else old(streamState))
      ensures selected != old(selected) && old(selected) != null ==>
          && old(selected).Balanced() && OnlyServed(old(selected))
          && old(selected).streamState == AfterUnselect(old(selected.streamState))
          && old(selected).acks == old(selected.acks) + (if old(selected.streamState) == FLUSHING then 1 else 0)
      ensures selected == old(selected) ==>
          && streamState == old(streamState) && trace == old(trace)
          && (selected != null ==> selected.streamState == old(selected.streamState) && OnlyServed(selected))
      ensures trace == old(trace) + (if selected == old(selected) then [] else [Chosen(selected)])
      ensures sinkFlushes == old(sinkFlushes) + (if streamState == FLUSHING && old(streamState) != FLUSHING then 1 else 0)
    {
      hide OnlySelected, Current;
      assert trace + [] == trace;
      var newBranch: Branch? := null;
      k := |branches|;
      var i := 0;
      while i < |branches|
        invariant 0 <= i <= |branches|
        invariant if newBranch == null then k == |branches| && NoneEligible(i)
                  else k < i && newBranch == branches[k] && BestOf(k, i)
      {
        var branch := branches[i];
        if branch.autoSelect {
          if (branch.streamState == WRITING || branch.streamState == STOPPED)
             && (newBranch == null || branch.prio > newBranch.prio) {
            newBranch := branch;
            k := i;
          }
        }
        i := i + 1;
      }
      if newBranch != null || clearIfNoActive {
        SelectBranch(newBranch);
      }
    }

    static ghost predicate Eligible(b: Branch)
      reads b
    {
      b.autoSelect && (b.streamState == WRITING || b.streamState == STOPPED)
    }

    ghost predicate NoneEligible(n: nat)
      requires n <= |branches|
      reads this`branches, branches
    {
      forall j :: 0 <= j < n ==> !Eligible(branches[j])
    }

    /** The first of the highest priority among the first n branches. */
    ghost predicate BestOf(k: nat, n: nat)
      requires k < n <= |branches|
      reads this`branches, branches
    {
      Eligible(branches[k])
        && (forall j :: 0 <= j < n && Eligible(branches[j]) ==> branches[j].prio <= branches[k].prio)
        && (forall j :: 0 <= j < k && Eligible(branches[j]) ==> branches[j].prio < branches[k].prio)
    }

    ghost predicate Best(k: nat)
      requires k < |branches|
      reads this`branches, branches
    {
      BestOf(k, |branches|)
    }

    /** What being the best means: to be active and automatic, of a higher priority than every
        other active automatic branch before it, and of no lower one than any after it. */
    lemma {:induction false} BestMeans(k: nat)
      requires k < |branches|
      ensures Best(k) <==>
          && branches[k].autoSelect && (branches[k].streamState == WRITING || branches[k].streamState == STOPPED)
          && forall j :: 0 <= j < |branches| && j != k && branches[j].autoSelect && (branches[j].streamState == WRITING || branches[j].streamState == STOPPED) ==>
               branches[j].prio < branches[k].prio || (branches[j].prio == branches[k].prio && k < j)
    {
    }

    /** The sink takes some of what it is offered, the first of it. */
    method SinkWriteSamples(samples: seq<real>) returns (n: nat)
      requires selected != null
      modifies this`trace, this`refused
      ensures n <= |samples| && refused == (n == 0) && trace == old(trace) + AllSent(selected, samples[..n]) && (willing ==> n == |samples|)
    {
      n := |samples|;
      if !willing {
        n :| 0 <= n <= |samples|;
      }
      refused := n == 0;
      trace := trace + AllSent(selected, samples[..n]);
    }

    /** Passes samples of the selected branch on to the sink. */
    method BranchWriteSamples(samples: seq<real>) returns (ret: nat)
      requires Loose() && selected != null && selected.streamState == WRITING && |samples| > 0
      modifies this`streamState, this`trace, this`sinkWithdrawn, this`refused
      ensures Loose() && InStep() && ret <= |samples| && streamState == (if ret == 0 then STOPPED else WRITING)
      ensures trace == old(trace) + AllSent(selected, samples[..ret])
      ensures sinkWithdrawn == old(sinkWithdrawn) + (if old(streamState) == FLUSHING then 1 else 0)
      ensures willing ==> ret == |samples|
    {
      if streamState == FLUSHING { sinkWithdrawn := sinkWithdrawn + 1; }
      streamState := WRITING;
      ghost var before := trace;
      ret := SinkWriteSamples(samples);
      SentNext(before, selected, samples[..ret]);
      if ret == 0 {
        streamState := STOPPED;
      }
    }

    /** A branch starts or goes on writing; an automatic one takes the selection from one of
        lower priority. */
    method Claim(b: Branch)
      requires Valid() && b in branches
      modifies this`selected, this`streamState, this`trace, this`sinkFlushes, b, Focus()
      ensures Valid() && b.streamState == WRITING
      ensures selected == if b.autoSelect && (old(selected) == null || old(selected.prio) < b.prio) then b else old(selected)
      ensures trace == old(trace) + if selected == old(selected) then [] else [Chosen(b)]
      ensures streamState == old(streamState) && sinkFlushes == old(sinkFlushes)
      ensures selected != old(selected) && old(selected) != null ==>
          && OnlyServed(old(selected)) && old(selected).streamState == AfterUnselect(old(selected.streamState))
          && old(selected).acks == old(selected.acks) + (if old(selected.streamState) == FLUSHING then 1 else 0)
      ensures b.acks == old(b.acks) && b.requests == old(b.requests) && b.autoSelect == old(b.autoSelect) && b.prio == old(b.prio) && b.flushWait == old(b.flushWait)
      ensures b.withdrawn == old(b.withdrawn) + (if old(b.streamState) == FLUSHING then 1 else 0)
    {
      hide OnlySelected, Current;
      if b.streamState == FLUSHING { b.withdrawn := b.withdrawn + 1; }
      if b.streamState == STOPPED { b.overruns := b.overruns + 1; }
      b.streamState := WRITING;
      assert trace + [] == trace;
      if b.autoSelect && selected != b {
        if selected == null || selected.prio < b.prio {
          SelectBranch(b);
        }
      }
    }

    /** The selected branch writes, and has to wait if the sink takes nothing. */
    method WriteSelected(samples: seq<real>) returns (ret: nat)
      requires Valid() && selected != null && selected.streamState == WRITING && |samples| > 0
      modifies this`streamState, this`trace, this`sinkWithdrawn, this`refused, selected`streamState, selected`stops
      ensures Valid() && ret <= |samples| && selected.streamState == streamState == (if ret == 0 then STOPPED else WRITING)
      ensures trace == old(trace) + AllSent(selected, samples[..ret])
      ensures sinkWithdrawn == old(sinkWithdrawn) + (if old(streamState) == FLUSHING then 1 else 0)
      ensures willing ==> ret == |samples|
    {
      hide OnlySelected, Current;
      ret := BranchWriteSamples(samples);
      if ret == 0 {
        selected.streamState := STOPPED;
        selected.stops := selected.stops + 1;
      }
    }

    /** A source writes.  The samples of a branch that is not selected are thrown away. */
    method WriteSamples(b: Branch, samples: seq<real>) returns (ret: nat)
      requires Valid() && b in branches && |samples| > 0
      modifies this`selected, this`streamState, this`trace, this`sinkFlushes, this`sinkWithdrawn, this`refused, b, Focus()
      ensures Valid() && ret <= |samples| && (willing ==> ret == |samples|)
      ensures selected == if b.autoSelect && (old(selected) == null || old(selected.prio) < b.prio) then b else old(selected)
      ensures trace == old(trace) + (if selected == old(selected) then [] else [Chosen(b)])
                       + (if selected == b then AllSent(b, samples[..ret]) else [])
      ensures if selected == b then b.streamState == (if ret == 0 then STOPPED else WRITING)
              else ret == |samples| && b.streamState == WRITING
      ensures selected == b ==> streamState == b.streamState
      ensures sinkFlushes == old(sinkFlushes)
      ensures sinkWithdrawn == old(sinkWithdrawn) + (if selected == b && old(streamState) == FLUSHING then 1 else 0)
      ensures selected != b ==> streamState == old(streamState)
      ensures selected != old(selected) && old(selected) != null ==>
          && OnlyServed(old(selected)) && old(selected).streamState == AfterUnselect(old(selected.streamState))
          && old(selected).acks == old(selected.acks) + (if old(selected.streamState) == FLUSHING then 1 else 0)
      ensures b.acks == old(b.acks) && b.requests == old(b.requests)
      ensures b.withdrawn == old(b.withdrawn) + (if old(b.streamState) == FLUSHING then 1 else 0)
      ensures b.autoSelect == old(b.autoSelect) && b.prio == old(b.prio) && b.flushWait == old(b.flushWait)
    {
      hide OnlySelected, Current;
      Claim(b);
      ret := |samples|;
      if selected == b {
        ret := WriteSelected(samples);
      } else {
        assert trace + [] == trace;
      }
    }

    /** The sink has nothing left of what the selected branch sent. */
    method BranchAllSamplesFlushed()
      requires Loose() && selected != null && selected in branches && streamState == IDLE
      modifies this`selected, this`trace, this`streamState, this`sinkFlushes, Focus()
      ensures Loose() && streamState == IDLE && old(selected).Balanced() && OnlyServed(old(selected))
      ensures old(selected.streamState) == FLUSHING ==>
          old(selected).streamState == IDLE && old(selected).acks == old(selected.acks) + 1
          && selected == if old(selected.autoSelect) then null else old(selected)
      ensures old(selected.streamState) != FLUSHING ==> selected == old(selected) && selected.streamState == old(selected.streamState)
      ensures sinkAnswers == old(sinkAnswers) && sinkFlushes == old(sinkFlushes)
      ensures trace == old(trace) + (if selected == old(selected) then [] else [Chosen(selected)])
    {
      hide OnlySelected, Current;
      assert trace + [] == trace;
      var b := selected;
      if b.streamState == FLUSHING {
        b.streamState := IDLE;
        b.acks := b.acks + 1;
        if b.autoSelect {
          SelectBranch(null);
        }
      }
    }

    /** The branch does not wait for the sink to flush, and there is another to take over. */
    ghost predicate HandsOver(b: Branch)
      reads this`branches, branches, b
    {
      !b.flushWait && !NoneEligible(|branches|)
    }

    /** The selected branch flushes.  Another branch takes over if there is one and this one
        does not wait; otherwise the sink has to flush, unless it has nothing. */
    method BranchFlushSamples() returns (ghost k: nat)
      requires Loose() && selected != null && selected in branches && selected.streamState == FLUSHING
      modifies this`selected, this`streamState, this`trace, this`sinkFlushes, Focus()
      ensures Valid() && sinkAnswers == old(sinkAnswers) && OnlyServed(old(selected))
      ensures !old(HandsOver(selected)) ==>
          if old(streamState) == IDLE then
            Answered(old(selected)) && streamState == IDLE && selected == (if old(selected.autoSelect) then null else old(selected))
          else selected == old(selected) && selected.streamState == FLUSHING && streamState == FLUSHING
               && sinkFlushes == old(sinkFlushes) + (if old(streamState) == FLUSHING then 0 else 1)
      ensures old(HandsOver(selected)) ==>
          && Answered(old(selected)) && selected != null && selected != old(selected) && Eligible(selected)
          && k < |branches| && selected == branches[k] && old(k < |branches| && Best(k))
          && streamState == old(streamState)
      ensures trace == old(trace) + (if selected == old(selected) then [] else [Chosen(selected)])
      ensures sinkFlushes == old(sinkFlushes) + (if streamState == FLUSHING && old(streamState) != FLUSHING then 1 else 0)
    {
      hide OnlySelected, Current;
      assert trace + [] == trace;
      var flusher := selected;
      k := 0;
      if !selected.flushWait {
        k := SelectHighestPrioActiveBranch(false);
      }
      if selected == flusher {
        match streamState {
          case IDLE =>
            BranchAllSamplesFlushed();
          case WRITING =>
            streamState := FLUSHING;
            sinkFlushes := sinkFlushes + 1;
          case STOPPED =>
            streamState := FLUSHING;
            sinkFlushes := sinkFlushes + 1;
          case FLUSHING =>
        }
      }
    }

    ghost predicate NoOther(b: Branch)
      reads this`branches, branches
    {
      forall j :: 0 <= j < |branches| && branches[j] != b ==> !Eligible(branches[j])
    }

    /** A source flushes.  It is answered at once, or when the sink has flushed, or when the
        selection moves on; a second request meanwhile is ignored. */
    method FlushSamples(b: Branch) returns (ghost k: nat)
      requires Valid() && b in branches
      modifies this`selected, this`streamState, this`trace, this`sinkFlushes, b, Focus()
      ensures Valid()
      ensures b.requests == old(b.requests) + (if old(b.streamState) == FLUSHING then 0 else 1)
      ensures b.withdrawn == old(b.withdrawn) && b.flushWait == old(b.flushWait)
      ensures old(selected != b || b.streamState == IDLE) ==> Answered(b) && selected == old(selected) && streamState == old(streamState)
      ensures old(b.streamState) == FLUSHING ==> b.streamState == FLUSHING && selected == b && streamState == FLUSHING
      ensures old(selected == b && (b.streamState == WRITING || b.streamState == STOPPED)) ==>
          if !b.flushWait && !old(NoOther(b)) then
            Answered(b) && k < |branches| && selected == branches[k] && old(k < |branches| && BestBut(b, k)) && streamState == old(streamState)
          else if old(streamState) == IDLE then Answered(b) && streamState == IDLE && selected == (if old(b.autoSelect) then null else b)
          else b.streamState == FLUSHING && selected == b && streamState == FLUSHING && b.acks == old(b.acks)
               && sinkFlushes == old(sinkFlushes) + (if old(streamState) == FLUSHING then 0 else 1)
      ensures trace == old(trace) + (if selected == old(selected) then [] else [Chosen(selected)])
      ensures sinkFlushes == old(sinkFlushes) + (if streamState == FLUSHING && old(streamState) != FLUSHING then 1 else 0)
      ensures old(selected) != b && selected != null ==>
          OnlyServed(selected) && selected.streamState == old(selected.streamState) && selected.acks == old(selected.acks)
    {
      hide OnlySelected, Current;
      assert trace + [] == trace;
      k := 0;
      match b.streamState {
        case IDLE =>
          b.requests, b.acks := b.requests + 1, b.acks + 1;
        case WRITING =>
          k := FlushActive(b);
        case STOPPED =>
          k := FlushActive(b);
        case FLUSHING =>
      }
    }

    /** A selected branch that has been writing has nothing more for now, so that it is no
        candidate for the selection any longer. */
    method BeginFlush(b: Branch)
      requires Valid() && b in branches && selected == b && (b.streamState == WRITING || b.streamState == STOPPED)
      modifies b`overruns, b`streamState, b`requests
      ensures Loose() && b.streamState == FLUSHING && b.requests == old(b.requests) + 1
      ensures NoneEligible(|branches|) <==> old(NoOther(b))
      ensures forall k :: 0 <= k < |branches| && Best(k) ==> old(BestBut(b, k))
    {
      hide OnlySelected, Current;
      b.overruns := b.overruns + if b.streamState == STOPPED then 1 else 0;
      b.streamState := FLUSHING;
      b.requests := b.requests + 1;
    }

    /** The same for a branch that has been writing. */
    method FlushActive(b: Branch) returns (ghost k: nat)
      requires Valid() && b in branches && (b.streamState == WRITING || b.streamState == STOPPED)
      modifies this`selected, this`streamState, this`trace, this`sinkFlushes, b, Focus()
      ensures Valid() && b.requests == old(b.requests) + 1 && b.withdrawn == old(b.withdrawn) && b.flushWait == old(b.flushWait)
      ensures old(selected) != b ==> Answered(b) && selected == old(selected) && streamState == old(streamState)
      ensures old(selected) == b ==>
          if !b.flushWait && !old(NoOther(b)) then
            Answered(b) && k < |branches| && selected == branches[k] && old(k < |branches| && BestBut(b, k)) && streamState == old(streamState)
          else if old(streamState) == IDLE then Answered(b) && streamState == IDLE && selected == (if old(b.autoSelect) then null else b)
          else b.streamState == FLUSHING && selected == b && streamState == FLUSHING && b.acks == old(b.acks)
               && sinkFlushes == old(sinkFlushes) + (if old(streamState) == FLUSHING then 0 else 1)
      ensures trace == old(trace) + (if selected == old(selected) then [] else [Chosen(selected)])
      ensures sinkFlushes == old(sinkFlushes) + (if streamState == FLUSHING && old(streamState) != FLUSHING then 1 else 0)
      ensures old(selected) != b && selected != null ==>
          OnlyServed(selected) && selected.streamState == old(selected.streamState) && selected.acks == old(selected.acks)
    {
      hide OnlySelected, Current, BestBut, NoOther, NoneEligible, Best, BestOf;
      assert trace + [] == trace;
      k := 0;
      if selected == b {
        BeginFlush(b);
        k := BranchFlushSamples();
      } else {
        b.streamState := IDLE;
        b.requests, b.acks := b.requests + 1, b.acks + 1;
      }
    }

    /** The sink can take samples again. */
    method ResumeOutput()
      requires Valid()
      modifies this`streamState, this`refused, Focus()
      ensures Valid() && selected == old(selected) && streamState == (if old(streamState) == STOPPED then WRITING else old(streamState))
      ensures selected != null ==> selected.streamState == if old(selected.streamState) == STOPPED then WRITING else old(selected.streamState)
      ensures selected != null ==> OnlyServed(selected) && selected.acks == old(selected.acks)
    {
      hide OnlySelected, Current;
      refused := false;
      if streamState == STOPPED {
        streamState := WRITING;
        assert selected != null;
        selected.ResumeOutput();
      }
    }

    /** The sink has flushed. */
    method AllSamplesFlushed()
      requires Valid()
      modifies this`selected, this`streamState, this`trace, this`sinkFlushes, this`sinkAnswers, Focus()
      ensures Valid()
      ensures sinkAnswers == old(sinkAnswers) + (if old(streamState) == FLUSHING then 1 else 0)
      ensures sinkFlushes == old(sinkFlushes) && (old(selected) != null ==> OnlyServed(old(selected)))
      ensures old(streamState) != FLUSHING ==> streamState == old(streamState) && selected == old(selected)
      ensures old(streamState) == FLUSHING ==> streamState == IDLE
      ensures old(streamState) == FLUSHING && old(selected) != null ==>
          if old(selected.streamState) == FLUSHING
          then Answered(old(selected)) && selected == if old(selected.autoSelect) then null else old(selected)
          else selected == old(selected) && selected.streamState == old(selected.streamState)
      ensures trace == old(trace) + (if selected == old(selected) then [] else [Chosen(selected)])
    {
      hide OnlySelected, Current;
      assert trace + [] == trace;
      if streamState == FLUSHING {
        streamState := IDLE;
        sinkAnswers := sinkAnswers + 1;
        if selected != null {
          BranchAllSamplesFlushed();
        }
      }
    }

    /** Selects a source by hand, or none. */
    method SelectSource(b: Branch?)
      requires Valid() && (b != null ==> b in branches)
      modifies this`selected, this`streamState, this`trace, this`sinkFlushes, Focus()
      ensures Valid() && selected == b
      ensures trace == old(trace) + if b == old(selected) then [] else [Chosen(b)]
      ensures streamState == if b == old(selected) || old(streamState) == IDLE then old(streamState) else
                 if b == null || b.streamState == IDLE then FLUSHING else old(streamState)
      ensures b != old(selected) && old(selected) != null ==>
          && OnlyServed(old(selected)) && old(selected).Resting()
          && old(selected).acks == old(selected.acks) + (if old(selected.streamState) == FLUSHING then 1 else 0)
      ensures sinkFlushes == old(sinkFlushes) + (if streamState == FLUSHING && old(streamState) != FLUSHING then 1 else 0)
    {
      hide OnlySelected, Current;
      assert trace + [] == trace;
      SelectBranch(b);
    }

    method SetSelectionPrio(b: Branch, prio: int)
      requires Valid() && b in branches
      modifies b`prio
      ensures Valid() && b.prio == prio
    {
      hide OnlySelected, Current;
      b.prio := prio;
    }

    method EnableAutoSelect(b: Branch, prio: int)
      requires Valid() && b in branches
      modifies b`prio, b`autoSelect
      ensures Valid() && b.prio == prio && b.autoSelect
    {
      hide OnlySelected, Current;
      b.prio := prio;
      b.autoSelect := true;
    }

    /** Takes a branch out of automatic selection, and if it is selected lets another have it. */
    method DisableAutoSelect(b: Branch) returns (ghost k: nat)
      requires Valid() && b in branches
      modifies this`selected, this`streamState, this`trace, this`sinkFlushes, b, Focus()
      ensures Valid() && !b.autoSelect && selected != b
      ensures old(selected) != b ==> selected == old(selected) && streamState == old(streamState) && trace == old(trace) && sinkFlushes == old(sinkFlushes)
      ensures old(selected) == b ==> k <= |branches| && if k == |branches| then selected == null && old(NoOther(b))
                                     else selected == branches[k] && old(k < |branches| && BestBut(b, k))
      ensures trace == old(trace) + (if selected == old(selected) then [] else [Chosen(selected)])
      ensures sinkFlushes == old(sinkFlushes) + (if streamState == FLUSHING && old(streamState) != FLUSHING then 1 else 0)
      ensures selected != old(selected) ==> streamState == (if old(streamState) == IDLE then IDLE else
                 if selected == null || selected.streamState == IDLE then FLUSHING else old(streamState))
      ensures b.streamState == (if old(selected) == b then AfterUnselect(old(b.streamState)) else old(b.streamState))
      ensures b.acks == old(b.acks) + (if old(selected == b && b.streamState == FLUSHING) then 1 else 0)
    {
      hide OnlySelected, Current;
      assert trace + [] == trace;
      k := |branches|;
      b.autoSelect := false;
      if selected == b {
        k := SelectHighestPrioActiveBranch(true);
      }
    }

    /** The first of the highest priority, b apart. */
    ghost predicate BestBut(b: Branch, k: nat)
      requires k < |branches|
      reads this`branches, branches
    {
      Foremost(branches, b, k)
    }

    static ghost predicate Foremost(bs: seq<Branch>, b: Branch, k: nat)
      requires k < |bs|
      reads bs
    {
      Eligible(bs[k]) && bs[k] != b
        && (forall j :: 0 <= j < |bs| && bs[j] != b && Eligible(bs[j]) ==> bs[j].prio <= bs[k].prio)
        && (forall j :: 0 <= j < k && bs[j] != b && Eligible(bs[j]) ==> bs[j].prio < bs[k].prio)
    }

    method SetFlushWait(b: Branch, flushWait: bool)
      requires Valid() && b in branches
      modifies b`flushWait
      ensures Valid() && b.flushWait == flushWait
    {
      hide OnlySelected, Current;
      b.flushWait := flushWait;
    }

    /** Adds a source; where it comes in the order of the map is not known. */
    method AddSource() returns (b: Branch, ghost n: nat)
      requires Valid()
      modifies this`branches
      ensures Valid() && fresh(b) && n <= |old(branches)| && branches == old(branches[..n]) + [b] + old(branches[n..])
      ensures b.streamState == IDLE && !b.autoSelect && b.flushWait && b.requests == 0 && b.acks == 0
    {
      hide OnlySelected, Current;
      b := new Branch();
      var place :| 0 <= place <= |branches|;
      n := place;
      branches := branches[..place] + [b] + branches[place..];
    }

    /** Removes a source.  It leaves nobody waiting, and if it was selected, the best other one
        is; k is the place it had. */
    method RemoveSource(n: nat) returns (ghost k: nat)
      requires Valid() && n < |branches|
      modifies this`branches, this`selected, this`streamState, this`trace, this`sinkFlushes, Focus()
      ensures Valid() && branches == old(branches[..n] + branches[n + 1..])
      ensures old(branches[n]).Balanced() && old(branches[n]).Resting() && selected != old(branches[n])
      ensures old(branches[n] != selected) ==>
          selected == old(selected) && streamState == old(streamState) && trace == old(trace) && sinkFlushes == old(sinkFlushes)
      ensures old(branches[n] == selected) ==>
          && k <= |old(branches)|
          && if k == |old(branches)| then selected == null && old(NoOther(branches[n]))
             else selected == old(branches)[k] && old(k < |branches| && BestBut(branches[n], k))
      ensures trace == old(trace) + (if selected == old(selected) then [] else [Chosen(selected)])
      ensures sinkFlushes == old(sinkFlushes) + (if streamState == FLUSHING && old(streamState) != FLUSHING then 1 else 0)
      ensures selected != old(selected) ==> streamState == (if old(streamState) == IDLE then IDLE else
                 if selected == null || selected.streamState == IDLE then FLUSHING else old(streamState))
      ensures old(branches[n]).streamState == (if old(branches[n] == selected) then AfterUnselect(old(branches[n].streamState)) else old(branches[n].streamState))
      ensures old(branches[n]).acks == old(branches[n].acks) + (if old(branches[n] == selected && branches[n].streamState == FLUSHING) then 1 else 0)
    {
      hide OnlySelected, Current, BestBut, NoOther, NoneEligible, Best, BestOf;
      assert trace + [] == trace;
      var branch := branches[n];
      k := 0;
      TakeOut(n);
      if branch == selected {
        k := SelectHighestPrioActiveBranch(true);
        k := if k < n then k else k + 1;
      }
    }

    /** One branch less, and the others in the order they had. */
    method TakeOut(n: nat)
      requires Valid() && n < |branches|
      modifies this`branches
      ensures Loose() && branches == old(branches[..n] + branches[n + 1..]) && (selected != null ==> selected in branches || selected == old(branches)[n])
      ensures old(branches)[n] !in branches && old(branches)[n].Balanced() && InStep()
      ensures NoneEligible(|branches|) ==> old(NoOther(branches[n]))
      ensures forall k :: 0 <= k < |branches| && Best(k) ==> old(BestBut(branches[n], if k < n then k else k + 1))
    {
      hide OnlySelected, Current;
      ghost var before := branches;
      branches := branches[..n] + branches[n + 1..];
      RestNone(before, n);
      forall k | 0 <= k < |branches| && Best(k) ensures Foremost(before, before[n], if k < n then k else k + 1) {
        RestBest(before, n, k);
      }
    }

    lemma {:induction false} RestNone(bs: seq<Branch>, n: nat)
      requires n < |bs| && branches == bs[..n] + bs[n + 1..] && forall i, j :: 0 <= i < j < |bs| ==> bs[i] != bs[j]
      ensures bs[n] !in branches
      ensures NoneEligible(|branches|) ==> forall j :: 0 <= j < |bs| && bs[j] != bs[n] ==> !Eligible(bs[j])
    {
      Without(bs, n);
    }

    lemma {:induction false} RestBest(bs: seq<Branch>, n: nat, k: nat)
      requires n < |bs| && branches == bs[..n] + bs[n + 1..] && forall i, j :: 0 <= i < j < |bs| ==> bs[i] != bs[j]
      requires k < |branches| && Best(k)
      ensures Foremost(bs, bs[n], if k < n then k else k + 1)
    {
      Without(bs, n);
    }

    /** The places in a sequence and in what is left without its n-th element. */
    static lemma {:induction false} Without(bs: seq<Branch>, n: nat)
      requires n < |bs| && forall i, j :: 0 <= i < j < |bs| ==> bs[i] != bs[j]
      ensures var rest := bs[..n] + bs[n + 1..];
        forall j :: 0 <= j < |bs| && bs[j] != bs[n] ==> bs[j] == rest[if j < n then j else j - 1]
    {
    }

    /** After any run: only the selected branch is stopped or flushing, and only while the sink
        is, so it owes a resume or an answer; every flush has been answered once, was taken
        back by a later write, or is the one under way; and every sample passed on came from
        the branch selected at the time. */
    lemma {:induction false} Safety()
      requires Valid()
      ensures forall i :: 0 <= i < |branches| ==> branches[i] == selected || branches[i].Resting()
      ensures streamState == STOPPED ==> selected != null
      ensures forall i :: 0 <= i < |branches| ==>
          && (branches[i].streamState == STOPPED ==> branches[i] == selected && streamState == STOPPED)
          && (branches[i].streamState == FLUSHING ==> branches[i] == selected && streamState == FLUSHING)
      ensures forall i :: 0 <= i < |branches| ==>
          branches[i].requests == branches[i].acks + branches[i].withdrawn
            + (if branches[i] == selected && branches[i].streamState == FLUSHING then 1 else 0)
      ensures forall n :: 0 <= n < |trace| && trace[n].Sent? ==> trace[n].from == Current(trace[..n])
    {
      hide Current;
    }
  }

  /** A source that is not to wait for flushes, and is the only one, still waits for the sink. */
  method NotAnsweredAtOnce() returns (s: AudioSelector, b: Branch)
    ensures s.Valid() && s.selected == b && !b.flushWait
    ensures b.requests == 1 && b.acks == 0 && b.streamState == FLUSHING
  {
    hide OnlySelected, Current;
    s := new AudioSelector(false);
    ghost var n;
    b, n := s.AddSource();
    assert s.branches == [b];
    s.SelectSource(b);
    var ret := s.WriteSamples(b, [1.0]);
    s.SetFlushWait(b, false);
    ghost var k := s.FlushSamples(b);
  }

  /** Whenever the selected branch waits for the sink: if it writes and flushes again, the sink's
      answer to the first flush ends the second, which the sink has not answered. */
  method LateAnswerCounts(s: AudioSelector, b: Branch, x: real)
    requires s.Valid() && s.selected == b && b in s.branches && b.streamState == FLUSHING && b.flushWait
    modifies s, b
    ensures s.Valid() && b.requests == old(b.requests) + 1 && b.withdrawn == old(b.withdrawn) + 1
    ensures b.acks == old(b.acks) + 1 && b.streamState == IDLE
    ensures s.sinkFlushes == old(s.sinkFlushes) + 1 && s.sinkWithdrawn == old(s.sinkWithdrawn) + 1 && s.sinkAnswers == old(s.sinkAnswers) + 1
  {
    hide OnlySelected, Current;
    var ret := s.WriteSamples(b, [x]);
    ghost var k := s.FlushSamples(b);
    s.AllSamplesFlushed();
  }
}

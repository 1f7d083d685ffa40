/** The process-wide in-flight byte budget of the RAM tier (internal/cache/ram.go, reserve and
    release, and the writers that call them) as a state machine over every interleaving.
    One step is one atomic access to the shared counter, or one local update of a writer. */
module Inflight {
  import Shards

  /** Where a writer is inside a call. `Idle` is between calls, `Closed` after Commit or Abort. */
  datatype Phase =
    | Idle
    | Loading(len: nat)              // about to load the counter
    | Loaded(len: nat, cur: int)     // about to compare and swap
    | Charged(len: nat)              // the charge is in, not yet recorded in `reserved`
    | Recorded(len: nat)             // about to append to the buffer
    | Dropping                       // overflowed: buffer freed, about to release
    | Dropped                        // released, about to zero `reserved`
    | Closing                        // commit or abort: buffer gone, about to release
    | Released                       // released, about to zero `reserved`
    | Closed

  datatype Writer = Writer(buf: nat, reserved: int, overflow: bool, phase: Phase)

  /** `freed` counts every byte ever subtracted by a release. */
  datatype State = State(counter: int, freed: int, writers: seq<Writer>)

  datatype Step =
    | Open
    | Write(w: nat, len: nat)
    | Load(w: nat)
    | Try(w: nat)
    | Record(w: nat)
    | Append(w: nat)
    | Finish(w: nat)
    | Release(w: nat)
    | Clear(w: nat)

  /** The limits of a tier: a non-positive value disables that bound. */
  datatype Limits = Limits(maxObject: int, budget: int)

  const START := State(0, 0, [])

  /** The growth a write of `len` bytes must charge. */
  function Delta(w: Writer, len: nat): int {
    w.buf + len - w.reserved
  }

  function Drop(w: Writer): Writer {
    w.(overflow := true, buf := 0, phase := Dropping)
  }

  /** A call of Write with `len` bytes, up to its first access to the counter. */
  function StartWrite(l: Limits, w: Writer, len: nat): Writer {
    if w.overflow then w
    else if l.maxObject > 0 && w.buf + len > l.maxObject then Drop(w)
    else if Delta(w, len) <= 0 then w.(phase := Recorded(len))
    else if l.budget <= 0 then w.(phase := Charged(len))
    else w.(phase := Loading(len))
  }

  /** What a step of a writer does to it, to the counter, and how many bytes it releases. */
  function Local(l: Limits, counter: int, w: Writer, step: Step): (Writer, int, int) {
    match (step, w.phase)
    case (Write(_, len), Idle) => (StartWrite(l, w, len), counter, 0)
    case (Load(_), Loading(len)) => (w.(phase := Loaded(len, counter)), counter, 0)
    case (Try(_), Loaded(len, cur)) =>
      if cur + Delta(w, len) > l.budget then (Drop(w), counter, 0)
      else if counter == cur then (w.(phase := Charged(len)), cur + Delta(w, len), 0)
      else (w.(phase := Loading(len)), counter, 0)
    case (Record(_), Charged(len)) =>
      (w.(reserved := w.reserved + Delta(w, len), phase := Recorded(len)), counter, 0)
    case (Append(_), Recorded(len)) => (w.(buf := w.buf + len, phase := Idle), counter, 0)
    case (Finish(_), Idle) => (w.(buf := 0, phase := Closing), counter, 0)
    case (Release(_), Dropping) => (w.(phase := Dropped), counter - Positive(w.reserved), Positive(w.reserved))
    case (Release(_), Closing) => (w.(phase := Released), counter - Positive(w.reserved), Positive(w.reserved))
    case (Clear(_), Dropped) => (w.(reserved := 0, phase := Idle), counter, 0)
    case (Clear(_), Released) => (w.(reserved := 0, phase := Closed), counter, 0)
    case _ => (w, counter, 0)
  }

  /** release(n) is a no-op unless n is positive. */
  function Positive(n: int): int {
    if n > 0 then n else 0
  }

  /** One step; a step that is not enabled changes nothing. */
  function Next(l: Limits, s: State, step: Step): State {
    if step == Open then s.(writers := s.writers + [Writer(0, 0, false, Idle)])
    else if step.w >= |s.writers| then s
    else
      var (w', counter', freed) := Local(l, s.counter, s.writers[step.w], step);
      State(counter', s.freed + freed, s.writers[step.w := w'])
  }

  /** Any interleaving: `steps` picks who moves. */
  function Run(l: Limits, steps: seq<Step>): State {
    if steps == [] then START else Next(l, Run(l, steps[..|steps| - 1]), steps[|steps| - 1])
  }

  // ----- Invariant -----

  /** The bytes of the counter that belong to this writer, half-done steps included. */
  function Held(w: Writer): int {
    match w.phase
    case Charged(len) => w.reserved + Delta(w, len)
    case Dropped => 0
    case Released => 0
    case _ => w.reserved
  }

  ghost predicate WriterOk(w: Writer) {
    && w.buf <= w.reserved
    && match w.phase
       case Idle => w.reserved == w.buf && (w.overflow ==> w.buf == 0)
       case Loading(len) => !w.overflow && w.reserved == w.buf && len > 0
       case Loaded(len, cur) => !w.overflow && w.reserved == w.buf && len > 0
       case Charged(len) => !w.overflow && w.reserved == w.buf && len > 0
       case Recorded(len) => !w.overflow && w.reserved == w.buf + len
       case Dropping => w.overflow && w.buf == 0
       case Dropped => w.overflow && w.buf == 0
       case Closing => w.buf == 0
       case Released => w.buf == 0
       case Closed => w.buf == 0 && w.reserved == 0
  }

  function HeldBy(ws: seq<Writer>): (r: seq<int>)
    ensures |r| == |ws| && forall i :: 0 <= i < |ws| ==> r[i] == Held(ws[i])
  {
    seq(|ws|, i requires 0 <= i < |ws| => Held(ws[i]))
  }

  function Buffered(ws: seq<Writer>): (r: seq<int>)
    ensures |r| == |ws| && forall i :: 0 <= i < |ws| ==> r[i] == ws[i].buf
  {
    seq(|ws|, i requires 0 <= i < |ws| => ws[i].buf)
  }

  ghost predicate Conserved(l: Limits, s: State) {
    && (forall i :: 0 <= i < |s.writers| ==> WriterOk(s.writers[i]))
    && s.counter == Shards.Sum(HeldBy(s.writers))
    && s.counter <= l.budget
  }

  lemma LocalOk(l: Limits, counter: int, w: Writer, step: Step)
    requires l.budget > 0 && WriterOk(w) && counter <= l.budget
    ensures var (w', counter', freed) := Local(l, counter, w, step);
            WriterOk(w') && counter' - counter == Held(w') - Held(w) && counter' <= l.budget
  {
  }

  lemma OpenConserved(l: Limits, s: State)
    requires Conserved(l, s)
    ensures Conserved(l, Next(l, s, Open))
  {
    var w := Writer(0, 0, false, Idle);
    assert HeldBy(s.writers + [w]) == HeldBy(s.writers) + [0];
    Shards.SumAppend(HeldBy(s.writers), [0]);
    assert Shards.Sum([0]) == 0;
  }

  lemma NextConserved(l: Limits, s: State, step: Step)
    requires l.budget > 0 && Conserved(l, s)
    ensures Conserved(l, Next(l, s, step))
  {
    hide Local, WriterOk, Held;
    if step == Open {
      OpenConserved(l, s);
    } else if step.w < |s.writers| {
      LocalOk(l, s.counter, s.writers[step.w], step);
      var w' := Local(l, s.counter, s.writers[step.w], step).0;
      assert HeldBy(s.writers[step.w := w']) == HeldBy(s.writers)[step.w := Held(w')];
      Shards.SumUpdate(HeldBy(s.writers), step.w, Held(w'));
    }
  }

  lemma {:induction false} RunConserved(l: Limits, steps: seq<Step>)
    requires l.budget > 0
    ensures Conserved(l, Run(l, steps))
  {
    if steps == [] {
      assert HeldBy([]) == [];
    } else {
      RunConserved(l, steps[..|steps| - 1]);
      NextConserved(l, Run(l, steps[..|steps| - 1]), steps[|steps| - 1]);
    }
  }

  lemma HeldNonNegative(w: Writer)
    requires WriterOk(w)
    ensures w.buf <= Held(w)
  {
  }

  /** The memory guard, for every interleaving of any number of writers: the counter is the sum of
      what the writers hold, lies between 0 and the budget, and bounds the bytes buffered. */
  lemma BudgetIsNeverExceeded(l: Limits, steps: seq<Step>)
    requires l.budget > 0
    ensures var s := Run(l, steps);
            s.counter == Shards.Sum(HeldBy(s.writers))
            && 0 <= Shards.Sum(Buffered(s.writers)) <= s.counter <= l.budget
  {
    RunConserved(l, steps);
    var ws := Run(l, steps).writers;
    forall i | 0 <= i < |ws|
      ensures Buffered(ws)[i] <= HeldBy(ws)[i]
    {
      HeldNonNegative(ws[i]);
    }
    Shards.SumMonotone(Buffered(ws), HeldBy(ws));
    Shards.ZeroSum(|ws|);
    Shards.SumMonotone(seq(|ws|, i => 0), Buffered(ws));
  }

  /** Between calls each live writer's reservation is exactly its buffer, so the counter is exactly
      the bytes buffered; once every writer has committed or aborted it is back to zero. */
  lemma QuiescentCounter(l: Limits, steps: seq<Step>)
    requires l.budget > 0
    requires forall i :: 0 <= i < |Run(l, steps).writers| ==> Run(l, steps).writers[i].phase in {Idle, Closed}
    ensures var s := Run(l, steps);
            s.counter == Shards.Sum(Buffered(s.writers))
    ensures var s := Run(l, steps);
            (forall i :: 0 <= i < |s.writers| ==> s.writers[i].phase == Closed) ==> s.counter == 0
  {
    RunConserved(l, steps);
    var ws := Run(l, steps).writers;
    assert forall i :: 0 <= i < |ws| ==> WriterOk(ws[i]);
    assert HeldBy(ws) == Buffered(ws);
    if forall i :: 0 <= i < |ws| ==> ws[i].phase == Closed {
      assert Buffered(ws) == seq(|ws|, i => 0);
      Shards.ZeroSum(|ws|);
    }
  }

  // ----- A disabled budget -----

  /** With a non-positive budget nothing is charged, yet every release still subtracts: the counter
      is minus the bytes released so far, so it is conserved just until the first release of a byte. */
  lemma {:induction false} DisabledBudgetDrifts(l: Limits, steps: seq<Step>)
    requires l.budget <= 0
    ensures var s := Run(l, steps);
            s.counter == -s.freed && s.freed >= 0
            && forall i :: 0 <= i < |s.writers| ==> !s.writers[i].phase.Loading? && !s.writers[i].phase.Loaded?
  {
    hide Local;
    if steps != [] {
      DisabledBudgetDrifts(l, steps[..|steps| - 1]);
      var s, step := Run(l, steps[..|steps| - 1]), steps[|steps| - 1];
      if step != Open && step.w < |s.writers| {
        DisabledStep(l, s.counter, s.writers[step.w], step);
      }
    }
  }

  lemma DisabledStep(l: Limits, counter: int, w: Writer, step: Step)
    requires l.budget <= 0 && !w.phase.Loading? && !w.phase.Loaded?
    ensures var (w', counter', freed) := Local(l, counter, w, step);
            counter' == counter - freed && freed >= 0 && !w'.phase.Loading? && !w'.phase.Loaded?
  {
  }

  lemma RunThen(l: Limits, steps: seq<Step>, step: Step)
    ensures Run(l, steps + [step]) == Next(l, Run(l, steps), step)
  {
    assert (steps + [step])[..|steps|] == steps;
  }

  lemma Solo(l: Limits, s: State, w: Writer, step: Step)
    requires s.writers == [w] && step != Open && step.w == 0
    ensures var (w', counter', freed) := Local(l, s.counter, w, step);
            Next(l, s, step) == State(counter', s.freed + freed, [w'])
  {
    hide Local;
  }

  lemma OpenOne(l: Limits)
    ensures Run(l, [Open]) == State(0, 0, [Writer(0, 0, false, Idle)])
  {
    RunThen(l, [], Open);
    assert [] + [Open] == [Open];
  }

  lemma BufferOneByte(l: Limits) returns (r: seq<Step>)
    requires l.budget <= 0
    ensures Run(l, r) == State(0, 0, [Writer(1, 1, false, Idle)])
  {
    hide Run, Next;
    OpenOne(l);
    r := [Open];
    var w := Writer(0, 0, false, Idle);
    RunThen(l, r, Write(0, 1));
    Solo(l, Run(l, r), w, Write(0, 1));
    r, w := r + [Write(0, 1)], Writer(0, 0, false, Charged(1));
    RunThen(l, r, Record(0));
    Solo(l, Run(l, r), w, Record(0));
    r, w := r + [Record(0)], Writer(0, 1, false, Recorded(1));
    RunThen(l, r, Append(0));
    Solo(l, Run(l, r), w, Append(0));
    r := r + [Append(0)];
  }

  /** A writer that buffers one byte and commits it under a disabled budget leaves the counter at -1. */
  lemma DisabledBudgetGoesNegative(l: Limits) returns (r: seq<Step>)
    requires l.budget <= 0
    ensures Run(l, r).counter == -1
  {
    hide Run, Next;
    r := BufferOneByte(l);
    RunThen(l, r, Finish(0));
    Solo(l, Run(l, r), Writer(1, 1, false, Idle), Finish(0));
    r := r + [Finish(0)];
    RunThen(l, r, Release(0));
    Solo(l, Run(l, r), Writer(0, 1, false, Closing), Release(0));
    r := r + [Release(0)];
  }

  /** The counter stays non-negative in every run exactly when the budget is enabled. */
  lemma NonNegativeIffEnabled(l: Limits)
    ensures (forall steps :: Run(l, steps).counter >= 0) <==> l.budget > 0
  {
    if l.budget > 0 {
      forall steps
        ensures Run(l, steps).counter >= 0
      {
        BudgetIsNeverExceeded(l, steps);
      }
    } else {
      var r := DisabledBudgetGoesNegative(l);
    }
  }

  // ----- One writer alone -----

  /** The bounds that an object of this size is too large for, however it is written. */
  predicate Exceeds(l: Limits, size: nat) {
    (l.maxObject > 0 && size > l.maxObject) || (l.budget > 0 && size > l.budget)
  }

  /** The steps of one call of Write, those of giving up included. */
  function Call(len: nat): seq<Step> {
    [Write(0, len), Load(0), Try(0), Record(0), Append(0), Release(0), Clear(0)]
  }

  /** A body written piece by piece. */
  function Calls(lens: seq<nat>): seq<Step> {
    if lens == [] then [Open] else Calls(lens[..|lens| - 1]) + Call(lens[|lens| - 1])
  }

  function Total(lens: seq<nat>): nat {
    if lens == [] then 0 else Total(lens[..|lens| - 1]) + lens[|lens| - 1]
  }

  /** A lone writer between calls: everything written so far, or nothing and given up. */
  ghost predicate Alone(l: Limits, s: State, size: nat) {
    && s.writers == [if Exceeds(l, size) then Writer(0, 0, true, Idle) else Writer(size, size, false, Idle)]
    && (l.budget > 0 ==> s.counter == if Exceeds(l, size) then 0 else size)
  }

  /** What one step does to a lone writer and the counter. */
  lemma SoloStep(l: Limits, steps: seq<Step>, w: Writer, step: Step) returns (more: seq<Step>, w': Writer)
    requires Run(l, steps).writers == [w] && step != Open && step.w == 0
    ensures more == steps + [step] && w' == Local(l, Run(l, steps).counter, w, step).0
    ensures Run(l, more).writers == [w'] && Run(l, more).counter == Local(l, Run(l, steps).counter, w, step).1
  {
    hide Run, Next, Local;
    RunThen(l, steps, step);
    Solo(l, Run(l, steps), w, step);
    more, w' := steps + [step], Local(l, Run(l, steps).counter, w, step).0;
  }

  lemma OneCall(l: Limits, steps: seq<Step>, size: nat, len: nat)
    requires Alone(l, Run(l, steps), size)
    ensures Alone(l, Run(l, steps + Call(len)), size + len)
  {
    hide Run;
    var w := Run(l, steps).writers[0];
    var r := steps;
    r, w := SoloStep(l, r, w, Write(0, len));
    r, w := SoloStep(l, r, w, Load(0));
    r, w := SoloStep(l, r, w, Try(0));
    r, w := SoloStep(l, r, w, Record(0));
    r, w := SoloStep(l, r, w, Append(0));
    r, w := SoloStep(l, r, w, Release(0));
    r, w := SoloStep(l, r, w, Clear(0));
    assert r == steps + Call(len);
  }

  /** A body written with no other writer about is given up exactly if its size exceeds a bound, however it is
      cut into pieces; otherwise all of it is buffered. */
  lemma {:induction false} LoneWriter(l: Limits, lens: seq<nat>)
    ensures Alone(l, Run(l, Calls(lens)), Total(lens))
  {
    hide Run;
    if lens == [] {
      OpenOne(l);
    } else {
      var n := |lens| - 1;
      LoneWriter(l, lens[..n]);
      OneCall(l, Calls(lens[..n]), Total(lens[..n]), lens[n]);
    }
  }
}

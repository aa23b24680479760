/** Several processes writing one store: the lock of xauusd/atomic.py around the read-merge-swap of
    `write` (xauusd/data.py), with a crash possible between any two steps. */
module StoreWriters {
  import opened Prelude
  import opened Frames
  import HS = HistoricalStore

  type Writer = nat

  datatype Request = Request(bars: Frame, merge: bool)

  /** Where a writer is inside `write`. `Staged` holds the complete, synced temporary file. */
  datatype Phase =
    | Waiting(request: Request)
    | Locked(request: Request)
    | Computed(request: Request, out: Frame)
    | Staged(request: Request, out: Frame)
    | Swapped(request: Request)

  /** The file, the lock, the writers inside `write`, and the requests whose swap has happened. */
  datatype World = World(file: Option<Frame>, holder: Option<Writer>, writers: map<Writer, Phase>, log: seq<Request>)

  datatype Step =
    | Begin(w: Writer, request: Request)
    | Acquire(w: Writer)
    | Compute(w: Writer)
    | Stage(w: Writer)
    | Swap(w: Writer)
    | Release(w: Writer)
    | TimeOut(w: Writer)
    | Crash(w: Writer)

  const START := World(None, None, map[], [])

  function Without(m: map<Writer, Phase>, w: Writer): map<Writer, Phase> {
    m - {w}
  }

  function Unlock(s: World, w: Writer): World {
    s.(holder := if s.holder == Some(w) then None else s.holder, writers := Without(s.writers, w))
  }

  /** One step; a step that is not enabled changes nothing. */
  function Next(s: World, step: Step): World {
    match step
    case Begin(w, request) =>
      if w in s.writers then s else s.(writers := s.writers[w := Waiting(request)])
    case Acquire(w) =>
      if w in s.writers && s.writers[w].Waiting? && s.holder.None?
      then s.(holder := Some(w), writers := s.writers[w := Locked(s.writers[w].request)]) else s
    case Compute(w) =>
      if w in s.writers && s.writers[w].Locked? then
        var request := s.writers[w].request;
        var x := HS.Normalize(request.bars);
        if x.Err? then Unlock(s, w)
        else s.(writers := s.writers[w := Computed(request, HS.Merged(if request.merge then s.file else None, x.value))])
      else s
    case Stage(w) =>
      if w in s.writers && s.writers[w].Computed?
      then s.(writers := s.writers[w := Staged(s.writers[w].request, s.writers[w].out)]) else s
    case Swap(w) =>
      if w in s.writers && s.writers[w].Staged? then
        s.(file := Some(s.writers[w].out), log := s.log + [s.writers[w].request],
           writers := s.writers[w := Swapped(s.writers[w].request)])
      else s
    case Release(w) => if w in s.writers && s.writers[w].Swapped? then Unlock(s, w) else s
    case TimeOut(w) => if w in s.writers && s.writers[w].Waiting? then s.(writers := Without(s.writers, w)) else s
    case Crash(w) => Unlock(s, w)
  }

  function Run(s: World, steps: seq<Step>): World {
    if steps == [] then s else Next(Run(s, steps[..|steps| - 1]), steps[|steps| - 1])
  }

  /** The file after a list of requests carried out one after another, each alone. */
  function Serial(log: seq<Request>): Option<Frame> {
    if log == [] then None else
    var request := log[|log| - 1];
    Some(HS.Merged(if request.merge then Serial(log[..|log| - 1]) else None, Normal(request.bars)))
  }

  ghost predicate Invariant(s: World) {
    && s.file == Serial(s.log)
    && (forall w :: w in s.writers && !s.writers[w].Waiting? ==> s.holder == Some(w))
    && (s.holder.Some? ==> s.holder.value in s.writers && !s.writers[s.holder.value].Waiting?)
    && (forall w :: w in s.writers && (s.writers[w].Computed? || s.writers[w].Staged?) ==>
          var request := s.writers[w].request;
          HS.AllValid(Normal(request.bars))
          && s.writers[w].out == HS.Merged(if request.merge then s.file else None, Normal(request.bars)))
    && (forall k :: 0 <= k < |s.log| ==> HS.AllValid(Normal(s.log[k].bars)))
  }

  lemma StepKeepsInvariant(s: World, step: Step)
    requires Invariant(s)
    ensures Invariant(Next(s, step))
  {
    if step.Swap? {
    } else {
      hide Normal, Serial, HS.Merged;
    }
  }

  /** Serializability. Whatever the interleaving of writers, time-outs and crashes, the file a
      reader sees is at every moment the result of carrying out the swapped requests alone, in
      lock order. */
  lemma {:induction false} ReadersSeeSerialStates(steps: seq<Step>)
    ensures Invariant(Run(START, steps))
    ensures Run(START, steps).file == Serial(Run(START, steps).log)
  {
    if steps != [] {
      ReadersSeeSerialStates(steps[..|steps| - 1]);
      StepKeepsInvariant(Run(START, steps[..|steps| - 1]), steps[|steps| - 1]);
    }
  }

  /** The log only grows, by one request per swap, and it is the request the writer began with. */
  lemma LogGrows(s: World, step: Step)
    ensures s.log <= Next(s, step).log
    ensures Next(s, step).log != s.log ==>
              step.Swap? && step.w in s.writers && Next(s, step).log == s.log + [s.writers[step.w].request]
              && Next(s, step).writers[step.w] == Swapped(s.writers[step.w].request)
  {
  }

  lemma {:induction false} LogOnlyGrows(steps: seq<Step>, k: nat)
    requires k <= |steps|
    ensures Run(START, steps[..k]).log <= Run(START, steps).log
    decreases |steps|
  {
    if k == |steps| {
      assert steps[..k] == steps;
    } else {
      var front := steps[..|steps| - 1];
      assert front[..k] == steps[..k];
      LogOnlyGrows(front, k);
      LogGrows(Run(START, front), steps[|steps| - 1]);
      hide Next;
    }
  }

  // ---------------------------------------------------------------- one writer

  /** A writer that nobody disturbs and that lives: with valid bars it replaces the file by its merge and
      leaves the lock free; with bars that are refused it leaves the file alone and the lock free. */
  lemma UndisturbedWrite(s: World, w: Writer, request: Request)
    requires s.holder.None? && w !in s.writers
    ensures var locked := Next(Next(s, Begin(w, request)), Acquire(w));
            && locked.holder == Some(w) && locked.file == s.file
            && match HS.Normalize(request.bars)
               case Err(_) => Next(locked, Compute(w)) == s
               case Ok(x) =>
                 var done := Next(Next(Next(Next(locked, Compute(w)), Stage(w)), Swap(w)), Release(w));
                 done == s.(file := Some(HS.Merged(if request.merge then s.file else None, x)), log := s.log + [request])
  {
    hide HS.Normalize, HS.Merged;
    assert s.writers[w := Waiting(request)] - {w} == s.writers;
    var a := Next(Next(s, Begin(w, request)), Acquire(w));
    assert a.writers == s.writers[w := Locked(request)] && a.writers - {w} == s.writers;
    var b := Next(a, Compute(w));
    var d := Next(b, Stage(w));
    var e := Next(d, Swap(w));
    if HS.Normalize(request.bars).Ok? {
      assert e.writers == s.writers[w := Swapped(request)] && e.writers - {w} == s.writers;
    }
  }

  /** A writer that finds the lock held waits, until it gives up and is gone without a trace. */
  lemma WaitsForLock(s: World, w: Writer, request: Request)
    requires s.holder.Some? && w !in s.writers
    ensures var waiting := Next(s, Begin(w, request));
            waiting.writers == s.writers[w := Waiting(request)] && Next(waiting, Acquire(w)) == waiting && Next(waiting, TimeOut(w)) == s
  {
    assert s.writers[w := Waiting(request)] - {w} == s.writers;
  }

  /** What a list of requests means: for every minute, the bar of the last request that had one
      since the store was last replaced. */
  function Meaning(log: seq<Request>): map<int, Bar> {
    if log == [] then map[] else
    var request := log[|log| - 1];
    (if request.merge then Meaning(log[..|log| - 1]) else map[]) + Latest(request.bars)
  }

  lemma {:induction false} SerialMeaning(log: seq<Request>)
    requires log != []
    ensures Serial(log).Some? && Latest(Serial(log).value) == Meaning(log) && Canonical(Serial(log).value)
  {
    var front, request := log[..|log| - 1], log[|log| - 1];
    NormalMeaning(request.bars);
    if front == [] || !request.merge {
      assert Meaning(log) == map[] + Latest(request.bars) == Latest(request.bars);
    } else {
      SerialMeaning(front);
      LatestConcat(Serial(front).value, Normal(request.bars));
      NormalMeaning(Serial(front).value + Normal(request.bars));
    }
  }

  /** Request `k` was not replaced since. */
  ghost predicate MergesAfter(log: seq<Request>, k: nat) {
    forall j :: k < j < |log| ==> log[j].merge
  }

  lemma {:induction false} MeaningKeepsMinutes(log: seq<Request>, k: nat)
    requires k < |log| && MergesAfter(log, k)
    ensures Latest(log[k].bars).Keys <= Meaning(log).Keys
  {
    if k < |log| - 1 {
      MeaningKeepsMinutes(log[..|log| - 1], k);
    }
  }

  /** No update is lost: once a writer has swapped, every minute it wrote is in the file at every
      later moment of the run until a writer replaces the store, and the file means the override
      fold of the swapped requests since it was last replaced. */
  lemma NoMinuteDisappears(steps: seq<Step>, now: nat, k: nat)
    requires now <= |steps| && k < |Run(START, steps[..now]).log| && MergesAfter(Run(START, steps).log, k)
    ensures var written, file := Run(START, steps[..now]).log[k], Run(START, steps).file;
            && file.Some? && Latest(file.value) == Meaning(Run(START, steps).log)
            && Minutes(written.bars) <= Minutes(file.value)
  {
    LogOnlyGrows(steps, now);
    ReadersSeeSerialStates(steps);
    var log := Run(START, steps).log;
    SerialMeaning(log);
    MeaningKeepsMinutes(log, k);
    LatestKeys(log[k].bars);
    LatestKeys(Serial(log).value);
  }

  /** Exclusion: at most one writer is past the lock. */
  lemma OneWriterInside(steps: seq<Step>, v: Writer, w: Writer)
    requires var s := Run(START, steps); v in s.writers && w in s.writers && !s.writers[v].Waiting? && !s.writers[w].Waiting?
    ensures v == w
  {
    ReadersSeeSerialStates(steps);
  }

  /** A writer that dies before its swap leaves the file and the log as they were. */
  lemma CrashBeforeSwapLeavesNoTrace(s: World, w: Writer)
    ensures Next(s, Crash(w)).file == s.file && Next(s, Crash(w)).log == s.log && w !in Next(s, Crash(w)).writers
    ensures Next(s, Crash(w)).holder != Some(w)
  {
  }
}

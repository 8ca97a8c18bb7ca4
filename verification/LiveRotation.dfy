/** Live rotation as a protocol of the service, the PM2 daemon that owns the log file, and
    the rotation helper. Every interleaving of their steps is a run. */
module LiveRotation {
  import opened Wrappers
  import opened ByteStrings
  import opened LogArchives

  /** `base` is `<id>.log`, `pending` is `<id>.log.pending`; `closed` are the files that went
      through both and are archived or dropped, oldest first. The daemon buffers what it
      cannot write at once: `buffer` for the file it has open (`onPending` says which),
      `former` for the renamed file after a reload until that file is closed. */
  datatype State = State(
    closed: seq<Bytes>, pending: Option<Bytes>, base: Bytes,
    onPending: bool, buffer: Bytes, former: Option<Bytes>,
    handoff: bool, generation: Generation, generationDue: bool, missed: nat,
    archives: seq<Archive>, dropped: Bytes, written: Bytes)

  /** The generation file: how many switches were announced and which file is current. */
  datatype Generation = Generation(sequence: nat, inode: Option<nat>)

  datatype Step =
    | Write(data: Bytes)
    | Flush(n: nat)
    | FlushOld(n: nat)
    | Reload
    | CloseOld
    | Prepare
    | WriteGeneration
    | AbandonGeneration
    | Handoff
    | Finish(keep: nat, compress: bool, packed: bool)

  const START: State :=
    State([], None, [], false, [], None, false, Generation(0, None), false, 0, [], [], [])

  /** The number of the current base file, counting from the first one. */
  function BaseNumber(s: State): nat {
    |s.closed| + if s.pending.Some? then 1 else 0
  }

  /** The daemon has the pending file open. */
  predicate PendingOpen(s: State) {
    s.onPending || s.former.Some?
  }

  predicate Enabled(s: State, step: Step) {
    match step
    case Write(_) => true
    case Flush(n) => n <= |s.buffer|
    case FlushOld(n) => s.former.Some? && n <= |s.former.value|
    case Reload => !s.generationDue
    case CloseOld => s.former == Some([])
    case Prepare => s.pending == None
    case WriteGeneration => s.generationDue
    case AbandonGeneration => s.generationDue
    case Handoff => s.pending.Some? && !PendingOpen(s) && !s.generationDue
    case Finish(_, _, _) => s.pending.Some? && s.handoff && !s.generationDue
  }

  function Concat(files: seq<Bytes>): Bytes {
    if files == [] then [] else Concat(files[..|files| - 1]) + files[|files| - 1]
  }

  /** Archives in writing order: the oldest first. */
  function Oldest(archives: seq<Archive>): Bytes {
    if archives == [] then [] else Oldest(archives[1..]) + archives[0].data
  }

  function Next(s: State, step: Step): State
    requires Enabled(s, step)
  {
    match step
    case Write(data) => s.(buffer := s.buffer + data, written := s.written + data)
    case Flush(n) =>
      if s.onPending && s.pending.Some?
      then s.(pending := Some(s.pending.value + s.buffer[..n]), buffer := s.buffer[n..])
      else s.(base := s.base + s.buffer[..n], buffer := s.buffer[n..])
    case FlushOld(n) =>
      if s.pending.Some?
      then s.(pending := Some(s.pending.value + s.former.value[..n]), former := Some(s.former.value[n..]))
      else s
    case Reload => if s.onPending then s.(onPending := false, former := Some(s.buffer), buffer := []) else s
    case CloseOld => s.(former := None)
    case Prepare =>
      s.(pending := Some(s.base), base := [], onPending := true, handoff := false, generationDue := true)
    case WriteGeneration =>
      s.(generation := Generation(s.generation.sequence + 1, Some(BaseNumber(s))), generationDue := false)
    case AbandonGeneration => s.(generationDue := false, missed := s.missed + 1)
    case Handoff => s.(handoff := true)
    case Finish(keep, compress, packed) =>
      if compress && keep > 0 && !packed then s
      else
        var newest := Archive(s.pending.value, compress);
        var kept := Rotated(s.archives, newest, keep);
        s.(closed := s.closed + [s.pending.value], pending := None, handoff := false,
           archives := kept,
           dropped := s.dropped + Oldest(([newest] + s.archives)[|kept|..]))
  }

  // ------------------------------------------------------------------ what every step keeps

  /** All bytes the service wrote, by where they are now, in order. */
  function Everywhere(s: State): Bytes {
    var stored := s.dropped + Oldest(s.archives);
    stored + InFlight(s)
  }

  /** The part that is not archived yet. */
  function InFlight(s: State): Bytes {
    var pending := if s.pending.Some? then s.pending.value else [];
    if s.onPending then pending + s.buffer + s.base
    else pending + (if s.former.Some? then s.former.value else []) + s.base + s.buffer
  }

  ghost predicate Shape(s: State) {
    && (PendingOpen(s) ==> s.pending.Some? && !s.handoff)
    && (s.onPending ==> s.base == [] && s.former == None)
    && (s.handoff ==> s.pending.Some?)
    && (s.generationDue ==> s.pending.Some? && s.onPending)
  }

  ghost predicate Inv(s: State) {
    && Shape(s)
    && s.written == Everywhere(s)
    && Concat(s.closed) == s.dropped + Oldest(s.archives)
    && s.generation.sequence + s.missed + (if s.generationDue then 1 else 0) == BaseNumber(s)
    && (s.generation.inode.Some? ==> s.generation.inode.value <= BaseNumber(s) - if s.generationDue then 1 else 0)
    && (s.generation.inode.None? ==> s.generation.sequence == 0)
  }

  lemma {:induction false} OldestSplit(archives: seq<Archive>, k: nat)
    requires k <= |archives|
    ensures Oldest(archives) == Oldest(archives[k..]) + Oldest(archives[..k])
  {
    if k == 0 {
      assert archives[0..] == archives;
      assert Oldest(archives[0..]) + [] == Oldest(archives);
    } else {
      OldestSplit(archives[1..], k - 1);
      assert archives[1..][k - 1..] == archives[k..] && archives[1..][..k - 1] == archives[..k][1..];
    }
  }

  /** What finishing moves: the pending bytes follow everything archived before. */
  lemma FinishConserves(archives: seq<Archive>, newest: Archive, keep: nat, dropped: Bytes)
    ensures var kept := Rotated(archives, newest, keep);
      dropped + Oldest(([newest] + archives)[|kept|..]) + Oldest(kept) == dropped + Oldest(archives) + newest.data
  {
    var all := [newest] + archives;
    var kept := Rotated(archives, newest, keep);
    assert kept == all[..|kept|];
    OldestSplit(all, |kept|);
    assert all[1..] == archives;
    var rest := Oldest(all[|kept|..]);
    assert Oldest(all) == Oldest(archives) + newest.data == rest + Oldest(kept);
    assert (dropped + rest) + Oldest(kept) == dropped + (rest + Oldest(kept));
    assert (dropped + Oldest(archives)) + newest.data == dropped + (Oldest(archives) + newest.data);
  }

  lemma FlushKeepsInFlight(s: State, n: nat)
    requires Shape(s) && n <= |s.buffer|
    ensures InFlight(Next(s, Flush(n))) == InFlight(s)
  {
    var head, tail := s.buffer[..n], s.buffer[n..];
    assert s.buffer == head + tail;
    if s.onPending {
      assert (s.pending.value + head) + tail == s.pending.value + (head + tail);
    } else {
      var front := (if s.pending.Some? then s.pending.value else []) + if s.former.Some? then s.former.value else [];
      assert (front + (s.base + head)) + tail == (front + s.base) + (head + tail);
    }
  }

  lemma FlushOldKeepsInFlight(s: State, n: nat)
    requires Shape(s) && Enabled(s, FlushOld(n))
    ensures InFlight(Next(s, FlushOld(n))) == InFlight(s)
  {
    var head, tail := s.former.value[..n], s.former.value[n..];
    assert s.former.value == head + tail;
    assert (s.pending.value + head) + tail == s.pending.value + s.former.value;
  }

  lemma WriteExtendsInFlight(s: State, data: Bytes)
    requires Shape(s)
    ensures InFlight(Next(s, Write(data))) == InFlight(s) + data
  {
    if s.onPending {
      assert s.pending.value + (s.buffer + data) == (s.pending.value + s.buffer) + data;
    } else {
      var front := (if s.pending.Some? then s.pending.value else []) + (if s.former.Some? then s.former.value else []) + s.base;
      assert front + (s.buffer + data) == (front + s.buffer) + data;
    }
  }

  lemma StepKeepsInFlight(s: State, step: Step)
    requires Shape(s) && Enabled(s, step) && !step.Finish?
    ensures InFlight(Next(s, step)) == InFlight(s) + if step.Write? then step.data else []
  {
    match step {
      case Write(data) => WriteExtendsInFlight(s, data);
      case Flush(n) => FlushKeepsInFlight(s, n);
      case FlushOld(n) => FlushOldKeepsInFlight(s, n);
      case _ =>
    }
  }

  lemma StepKeepsShape(s: State, step: Step)
    requires Shape(s) && Enabled(s, step)
    ensures Shape(Next(s, step))
  {
  }

  lemma FinishKeepsBytes(s: State, step: Step)
    requires Inv(s) && Enabled(s, step) && step.Finish? && Next(s, step) != s
    ensures Next(s, step).written == Everywhere(Next(s, step))
    ensures Concat(Next(s, step).closed) == Next(s, step).dropped + Oldest(Next(s, step).archives)
  {
    var t := Next(s, step);
    var data := s.pending.value;
    FinishConserves(s.archives, Archive(data, step.compress), step.keep, s.dropped);
    assert t.closed[..|s.closed|] == s.closed;
    var stored := s.dropped + Oldest(s.archives);
    hide Oldest, Rotated;
    assert InFlight(s) == data + InFlight(t);
    assert stored + (data + InFlight(t)) == (stored + data) + InFlight(t);
  }

  lemma OtherStepsKeepBytes(s: State, step: Step)
    requires Shape(s) && s.written == Everywhere(s) && Enabled(s, step) && !step.Finish?
    ensures Next(s, step).written == Everywhere(Next(s, step))
  {
    StepKeepsInFlight(s, step);
    hide InFlight, Oldest;
    if step.Write? {
      var stored := s.dropped + Oldest(s.archives);
      assert stored + (InFlight(s) + step.data) == (stored + InFlight(s)) + step.data;
    }
  }

  lemma StepKeepsBytes(s: State, step: Step)
    requires Inv(s) && Enabled(s, step)
    ensures Next(s, step).written == Everywhere(Next(s, step))
    ensures Concat(Next(s, step).closed) == Next(s, step).dropped + Oldest(Next(s, step).archives)
  {
    hide Everywhere, Concat, Oldest;
    if step.Finish? && Next(s, step) != s {
      FinishKeepsBytes(s, step);
    } else if !step.Finish? {
      OtherStepsKeepBytes(s, step);
    }
  }

  lemma NextKeepsInv(s: State, step: Step)
    requires Inv(s) && Enabled(s, step)
    ensures Inv(Next(s, step))
  {
    StepKeepsShape(s, step);
    StepKeepsBytes(s, step);
    hide Concat, Oldest, Everywhere, Shape;
    if step.Finish? {
      assert Shape(s);
    }
  }

  // ------------------------------------------------------------------ every run

  ghost predicate IsRun(states: seq<State>, steps: seq<Step>) {
    && |states| == |steps| + 1
    && states[0] == START
    && (forall i :: 0 <= i < |steps| ==> Enabled(states[i], steps[i]) && states[i + 1] == Next(states[i], steps[i]))
  }

  lemma {:induction false} RunKeepsInv(states: seq<State>, steps: seq<Step>, k: nat)
    requires IsRun(states, steps) && k <= |steps|
    ensures Inv(states[k])
  {
    if k > 0 {
      RunKeepsInv(states, steps, k - 1);
      hide Inv;
      NextKeepsInv(states[k - 1], steps[k - 1]);
    }
  }

  /** No byte is lost or reordered: what the service wrote is what was dropped, then the
      archives oldest to newest, then the pending file, then the base file, with what the
      daemon still buffers for each file standing right behind it. */
  lemma BytesConserved(states: seq<State>, steps: seq<Step>, k: nat)
    requires IsRun(states, steps) && k <= |steps|
    ensures states[k].written == Everywhere(states[k])
    ensures !PendingOpen(states[k]) && states[k].buffer == [] ==>
      var s := states[k];
      s.written == s.dropped + Oldest(s.archives) + (if s.pending.Some? then s.pending.value else []) + s.base
  {
    RunKeepsInv(states, steps, k);
    var s := states[k];
    if !PendingOpen(s) && s.buffer == [] {
      var pending := if s.pending.Some? then s.pending.value else [];
      assert InFlight(s) == pending + s.base;
      var stored := s.dropped + Oldest(s.archives);
      assert stored + (pending + s.base) == (stored + pending) + s.base;
    }
  }

  /** A finished rotation never archives a file the daemon can still write. */
  lemma ArchivedFilesAreClosed(states: seq<State>, steps: seq<Step>, k: nat)
    requires IsRun(states, steps) && k < |steps| && steps[k].Finish?
    ensures !PendingOpen(states[k])
  {
    RunKeepsInv(states, steps, k);
  }
}

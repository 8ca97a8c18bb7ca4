/** The following reader of `stream`: it keeps its file across live rotations and moves on
    only when the daemon has closed it, or tells the client about a gap. */
module LogReader {
  import opened Wrappers
  import opened ByteStrings
  import opened LogArchives
  import opened LiveRotation

  /** `file` counts the log files from the first one; `firstFile` and `firstPos` are where
      the reader began, `front` the bytes of the older files on disk then, `head` those of its
      own file in front of that point, `settled` whether the older files were final then, `missedAtOpen` how many generation writes had failed by then,
      and `skipped` the bytes of the files that switches without notice passed over. */
  datatype Reader = Reader(file: nat, pos: nat, lastGeneration: Option<nat>, emitted: Bytes, gap: bool,
                           firstFile: nat, firstPos: nat, front: Bytes, head: Bytes, settled: bool,
                           missedAtOpen: nat, skipped: Bytes)

  /** All log files in order of creation; the last one is the current base file. */
  function Files(s: State): (files: seq<Bytes>)
    ensures |files| == BaseNumber(s) + 1
  {
    s.closed + (if s.pending.Some? then [s.pending.value] else []) + [s.base]
  }

  /** The daemon has nothing left to write to the pending file. */
  predicate Quiet(s: State) {
    !s.onPending && (s.former == None || s.former.value == [])
  }

  /** Opening: at the start or at the end of the current file. A generation of another
      file says nothing about this one. */
  function Open(s: State, fromStart: bool): Reader {
    var n := BaseNumber(s);
    var pos := if fromStart then 0 else |s.base|;
    var known := s.generation.inode == None || s.generation.inode == Some(n);
    Reader(n, pos, if known then Some(s.generation.sequence) else None, [], false,
           n, pos, Concat(Files(s)[..n]), s.base[..pos], Quiet(s), s.missed, [])
  }

  predicate InBounds(s: State, r: Reader) {
    r.file <= BaseNumber(s) && r.pos <= |Files(s)[r.file]|
  }

  /** `fh.read()`: everything the file has now. */
  function Drain(s: State, r: Reader): Reader
    requires InBounds(s, r)
  {
    r.(emitted := r.emitted + Files(s)[r.file][r.pos..], pos := |Files(s)[r.file]|)
  }

  predicate MaySwitch(s: State, r: Reader) {
    r.file != BaseNumber(s) && (s.pending == None || s.handoff)
  }

  /** The switch announces a gap unless exactly one generation lies between the files. */
  predicate Announces(s: State, r: Reader) {
    r.lastGeneration == None || s.generation.sequence != r.lastGeneration.value + 1
  }

  function Switch(s: State, r: Reader): Reader
    requires InBounds(s, r) && MaySwitch(s, r)
  {
    Drain(s, r).(gap := r.gap || Announces(s, r), lastGeneration := Some(s.generation.sequence),
                 file := BaseNumber(s), pos := 0,
                 skipped := r.skipped + Concat(Files(s)[r.file + 1..BaseNumber(s)]))
  }

  // ------------------------------------------------------------------ what the reader has

  /** The bytes from one place in the files up to another. */
  function Between(files: seq<Bytes>, f0: nat, p0: nat, f: nat, p: nat): Bytes
    requires f0 <= f < |files| && p0 <= |files[f0]| && p <= |files[f]| && (f0 == f ==> p0 <= p)
  {
    if f0 == f then files[f][p0..p]
    else files[f0][p0..] + Concat(files[f0 + 1..f]) + files[f][..p]
  }

  /** Everything from one place to the end of the current file. */
  function From(files: seq<Bytes>, f: nat, p: nat): Bytes
    requires f < |files| && p <= |files[f]|
  {
    files[f][p..] + Concat(files[f + 1..])
  }

  /** The daemon no longer writes to this file. */
  predicate Final(s: State, f: nat) {
    f < BaseNumber(s) && (!Quiet(s) ==> f + 1 < BaseNumber(s))
  }

  ghost predicate Placed(s: State, r: Reader) {
    && InBounds(s, r)
    && r.firstFile <= r.file && r.firstPos <= |Files(s)[r.firstFile]|
    && (r.firstFile == r.file ==> r.firstPos <= r.pos)
    && (forall f :: r.firstFile <= f < r.file ==> Final(s, f))
    && (forall f :: 0 <= f < r.firstFile - 1 ==> Final(s, f))
    && (r.settled ==> forall f :: 0 <= f < r.firstFile ==> Final(s, f))
  }

  /** No generation write has failed since the reader opened. */
  predicate AllAnnounced(s: State, r: Reader) {
    s.missed == r.missedAtOpen
  }

  /** The emitted bytes are the read part of the files without the skipped ones. */
  predicate Accounted(r: Reader, read: Bytes) {
    (r.skipped == [] ==> r.emitted == read) && |r.emitted| + |r.skipped| == |read|
  }

  ghost predicate ReaderInv(s: State, r: Reader) {
    && Placed(s, r)
    && r.missedAtOpen <= s.missed
    && (r.lastGeneration.Some? && AllAnnounced(s, r) ==> r.lastGeneration.value + s.missed <= r.file)
    && (!r.gap && AllAnnounced(s, r) ==> r.skipped == [])
    && (!r.gap ==> Accounted(r, Between(Files(s), r.firstFile, r.firstPos, r.file, r.pos)))
    && r.head == Files(s)[r.firstFile][..r.firstPos]
    && r.front <= Concat(Files(s)[..r.firstFile])
    && (r.settled ==> r.front == Concat(Files(s)[..r.firstFile]))
  }

  // ------------------------------------------------------------------ files grow at the end only

  lemma FilesGrow(s: State, step: Step)
    requires Shape(s) && Enabled(s, step)
    ensures var t, n := Next(s, step), BaseNumber(s);
      && n <= BaseNumber(t)
      && (forall f :: 0 <= f <= n ==> Files(s)[f] <= Files(t)[f])
      && (forall f :: 0 <= f < n && Final(s, f) ==> Files(t)[f] == Files(s)[f] && Final(t, f))
  {
    var t := Next(s, step);
    if step.Finish? {
      assert t == s || Files(t) == Files(s);
    } else if step.Prepare? {
      assert Files(t) == Files(s) + [[]];
    }
  }

  lemma BetweenStable(before: seq<Bytes>, after: seq<Bytes>, f0: nat, p0: nat, f: nat, p: nat)
    requires f0 <= f < |before| <= |after| && p0 <= |before[f0]| && p <= |before[f]| && (f0 == f ==> p0 <= p)
    requires forall i :: f0 <= i < f ==> after[i] == before[i]
    requires before[f] <= after[f]
    ensures Between(after, f0, p0, f, p) == Between(before, f0, p0, f, p)
  {
    if f0 == f {
      assert after[f][p0..p] == before[f][p0..p];
    } else {
      assert after[f0 + 1..f] == before[f0 + 1..f];
      assert after[f][..p] == before[f][..p];
    }
  }

  lemma BetweenDrained(files: seq<Bytes>, f0: nat, p0: nat, f: nat, p: nat)
    requires f0 <= f < |files| && p0 <= |files[f0]| && p <= |files[f]| && (f0 == f ==> p0 <= p)
    ensures Between(files, f0, p0, f, |files[f]|) == Between(files, f0, p0, f, p) + files[f][p..]
  {
    if f0 == f {
      assert files[f][p0..] == files[f][p0..p] + files[f][p..];
    } else {
      assert files[f] == files[f][..p] + files[f][p..];
    }
  }

  lemma {:induction false} ConcatSplit(files: seq<Bytes>, k: nat)
    requires k <= |files|
    ensures Concat(files) == Concat(files[..k]) + Concat(files[k..])
    decreases |files|
  {
    if k == |files| {
      assert files[..k] == files && files[k..] == [];
    } else {
      var n := |files| - 1;
      ConcatSplit(files[..n], k);
      assert files[..n][..k] == files[..k] && files[k..][..n - k] == files[..n][k..];
      assert (Concat(files[..k]) + Concat(files[..n][k..])) + files[n] == Concat(files[..k]) + (Concat(files[..n][k..]) + files[n]);
    }
  }

  lemma ConcatAround(files: seq<Bytes>, k: nat, f: nat)
    requires k <= f < |files|
    ensures Concat(files[k..]) == Concat(files[k..f]) + (files[f] + Concat(files[f + 1..]))
  {
    var rest := files[k..];
    ConcatSplit(rest, f - k);
    assert rest[..f - k] == files[k..f] && rest[f - k..] == files[f..];
    ConcatSplit(files[f..], 1);
    assert files[f..][..1] == [files[f]] && files[f..][1..] == files[f + 1..];
    OneFile(files[f]);
  }

  /** From the end of one file to the start of a later one lie exactly the files between. */
  lemma BetweenSkips(files: seq<Bytes>, f0: nat, p0: nat, f: nat, g: nat)
    requires f0 <= f < g < |files| && p0 <= |files[f0]|
    ensures Between(files, f0, p0, g, 0) == Between(files, f0, p0, f, |files[f]|) + Concat(files[f + 1..g])
  {
    var start, skipped := files[f0][p0..], Concat(files[f + 1..g]);
    assert files[g][..0] == [];
    if f0 == f {
      assert files[f][p0..|files[f]|] == start;
    } else {
      var head := files[..g];
      ConcatAround(head, f0 + 1, f);
      assert head[f0 + 1..] == files[f0 + 1..g] && head[f0 + 1..f] == files[f0 + 1..f] && head[f + 1..] == files[f + 1..g];
      var middle := Concat(files[f0 + 1..f]);
      assert files[f][..|files[f]|] == files[f];
      assert start + (middle + (files[f] + skipped)) == (start + middle + files[f]) + skipped;
    }
  }

  /** What was read and what is left make up everything since the start. */
  lemma BetweenThenFrom(files: seq<Bytes>, f0: nat, p0: nat, f: nat, p: nat)
    requires f0 <= f < |files| && p0 <= |files[f0]| && p <= |files[f]| && (f0 == f ==> p0 <= p)
    ensures Between(files, f0, p0, f, p) + From(files, f, p) == From(files, f0, p0)
  {
    hide Concat;
    var later, file := Concat(files[f + 1..]), files[f];
    if f0 == f {
      RestOfFile(file, p0, p, later);
    } else {
      ConcatAround(files, f0 + 1, f);
      SplitFile(file, p);
      Regroup(files[f0][p0..], Concat(files[f0 + 1..f]), file[..p], file[p..], later);
    }
  }

  lemma RestOfFile(file: Bytes, p0: nat, p: nat, later: Bytes)
    requires p0 <= p <= |file|
    ensures file[p0..p] + (file[p..] + later) == file[p0..] + later
  {
    assert file[p0..] == file[p0..p] + file[p..];
  }

  lemma SplitFile(file: Bytes, p: nat)
    requires p <= |file|
    ensures file == file[..p] + file[p..]
  {
  }

  lemma Regroup(a: Bytes, b: Bytes, c: Bytes, d: Bytes, e: Bytes)
    ensures (a + b + c) + (d + e) == a + (b + ((c + d) + e))
  {
  }

  lemma OneFile(file: Bytes)
    ensures Concat([file]) == file
  {
    assert [file][..0] == [];
  }

  // ------------------------------------------------------------------ steps of the reader

  lemma LogStepKeepsPlace(s: State, r: Reader, step: Step)
    requires Shape(s) && Enabled(s, step) && Placed(s, r)
    ensures Placed(Next(s, step), r)
  {
    FilesGrow(s, step);
    hide Next, Files, Final;
  }

  /** What the reader has read and what lies in front of it stay what they are. */
  lemma ReadIsStable(s: State, r: Reader, step: Step)
    requires Shape(s) && Enabled(s, step) && Placed(s, r)
    ensures Placed(Next(s, step), r)
    ensures Between(Files(Next(s, step)), r.firstFile, r.firstPos, r.file, r.pos) ==
            Between(Files(s), r.firstFile, r.firstPos, r.file, r.pos)
    ensures Files(Next(s, step))[r.firstFile][..r.firstPos] == Files(s)[r.firstFile][..r.firstPos]
    ensures Concat(Files(s)[..r.firstFile]) <= Concat(Files(Next(s, step))[..r.firstFile])
    ensures r.settled ==> Concat(Files(s)[..r.firstFile]) == Concat(Files(Next(s, step))[..r.firstFile])
  {
    LogStepKeepsPlace(s, r, step);
    FilesGrow(s, step);
    hide Next, Files, Final, Concat, Between;
    BetweenStable(Files(s), Files(Next(s, step)), r.firstFile, r.firstPos, r.file, r.pos);
    FrontIsStable(s, r, step);
  }

  lemma FrontIsStable(s: State, r: Reader, step: Step)
    requires Shape(s) && Enabled(s, step) && Placed(s, r)
    ensures r.firstFile < |Files(s)| <= |Files(Next(s, step))|
    ensures Concat(Files(s)[..r.firstFile]) <= Concat(Files(Next(s, step))[..r.firstFile])
    ensures r.settled ==> Concat(Files(s)[..r.firstFile]) == Concat(Files(Next(s, step))[..r.firstFile])
  {
    FilesGrow(s, step);
    hide Next, Files, Final, Concat, Enabled, Shape;
    var files, later := Files(s), Files(Next(s, step));
    FrontGrows(files, later, r.firstFile);
    if r.settled {
      assert files[..r.firstFile] == later[..r.firstFile];
    }
  }

  /** If all but the last of the first `n` files stay and that one grows, so does the whole. */
  lemma FrontGrows(files: seq<Bytes>, later: seq<Bytes>, n: nat)
    requires n <= |files| && n <= |later|
    requires forall f :: 0 <= f < n - 1 ==> later[f] == files[f]
    requires n > 0 ==> files[n - 1] <= later[n - 1]
    ensures Concat(files[..n]) <= Concat(later[..n])
  {
    if n > 0 {
      assert files[..n][..n - 1] == later[..n][..n - 1];
    }
  }

  lemma MissedRises(s: State, step: Step)
    requires Enabled(s, step)
    ensures s.missed <= Next(s, step).missed
  {
  }

  lemma LogStepKeepsReader(s: State, r: Reader, step: Step)
    requires Shape(s) && Enabled(s, step) && ReaderInv(s, r)
    ensures ReaderInv(Next(s, step), r)
  {
    assert Placed(s, r);
    hide Next, Enabled, Shape, Placed, Files, Concat, Between, Accounted;
    ReadIsStable(s, r, step);
    MissedRises(s, step);
  }

  lemma OpenKeepsReader(s: State, fromStart: bool)
    requires Inv(s)
    ensures ReaderInv(s, Open(s, fromStart))
  {
    hide Concat, Everywhere, Oldest;
  }

  lemma DrainKeepsReader(s: State, r: Reader)
    requires ReaderInv(s, r)
    ensures ReaderInv(s, Drain(s, r))
  {
    hide Concat, Final, Files;
    BetweenDrained(Files(s), r.firstFile, r.firstPos, r.file, r.pos);
  }

  /** An unannounced switch goes to the very next file exactly when no generation write
      failed since the reader learned the generation of its own file. */
  lemma SilentSwitchIsNext(s: State, r: Reader)
    requires Inv(s) && MaySwitch(s, r) && InBounds(s, r) && !Announces(s, r)
    ensures BaseNumber(s) == r.file + 1 <==> r.lastGeneration.value + s.missed == r.file
  {
    hide Concat, Everywhere, Oldest, Files;
  }

  /** A switch loses nothing exactly when the files it passes over are empty. */
  lemma SwitchLosesSkippedFiles(s: State, r: Reader)
    requires Placed(s, r) && MaySwitch(s, r)
    requires r.emitted == Between(Files(s), r.firstFile, r.firstPos, r.file, r.pos)
    ensures var t := Switch(s, r);
      t.emitted == Between(Files(s), r.firstFile, r.firstPos, t.file, t.pos) <==>
      Concat(Files(s)[r.file + 1..t.file]) == []
  {
    hide Concat, Between, Final, Files;
    BetweenDrained(Files(s), r.firstFile, r.firstPos, r.file, r.pos);
    BetweenSkips(Files(s), r.firstFile, r.firstPos, r.file, BaseNumber(s));
  }

  lemma SwitchKeepsGeneration(s: State, r: Reader)
    requires Inv(s) && MaySwitch(s, r) && InBounds(s, r)
    ensures s.generation.sequence + s.missed == BaseNumber(s)
    ensures !Announces(s, r) && r.lastGeneration.value + s.missed <= r.file ==> BaseNumber(s) == r.file + 1
  {
    hide Concat, Everywhere, Oldest, Files;
  }

  lemma SwitchAccounts(s: State, r: Reader)
    requires Placed(s, r) && MaySwitch(s, r)
    requires Accounted(r, Between(Files(s), r.firstFile, r.firstPos, r.file, r.pos))
    ensures var t := Switch(s, r);
      Accounted(t, Between(Files(s), r.firstFile, r.firstPos, t.file, t.pos))
  {
    hide Concat, Between, Final, Files;
    BetweenDrained(Files(s), r.firstFile, r.firstPos, r.file, r.pos);
    BetweenSkips(Files(s), r.firstFile, r.firstPos, r.file, BaseNumber(s));
  }

  lemma SwitchKeepsReader(s: State, r: Reader)
    requires Inv(s) && ReaderInv(s, r) && MaySwitch(s, r)
    ensures ReaderInv(s, Switch(s, r))
  {
    SwitchKeepsGeneration(s, r);
    SwitchKeepsPlace(s, r);
    assert Placed(s, r) && InBounds(s, r);
    hide Inv, Concat, Between, Files, Placed, InBounds, Accounted, MaySwitch;
    NothingSkipped(Files(s), r.file);
    if !r.gap {
      SwitchAccounts(s, r);
    }
  }

  lemma SwitchKeepsPlace(s: State, r: Reader)
    requires Inv(s) && Placed(s, r) && MaySwitch(s, r)
    ensures Placed(s, Switch(s, r))
  {
    hide Concat, Everywhere, Oldest;
  }

  lemma NothingSkipped(files: seq<Bytes>, f: nat)
    requires f < |files|
    ensures Concat(files[f + 1..f + 1]) == []
  {
  }

  // ------------------------------------------------------------------ whole runs

  datatype Action =
    | Log(step: Step)
    | OpenReader(fromStart: bool)
    | ReadMore
    | SwitchFile

  datatype System = System(log: State, reader: Option<Reader>)

  predicate CanAct(y: System, a: Action) {
    match a
    case Log(step) => Enabled(y.log, step)
    case OpenReader(_) => y.reader == None
    case ReadMore => y.reader.Some? && InBounds(y.log, y.reader.value)
    case SwitchFile => y.reader.Some? && InBounds(y.log, y.reader.value) && MaySwitch(y.log, y.reader.value)
  }

  function Act(y: System, a: Action): System
    requires CanAct(y, a)
  {
    match a
    case Log(step) => y.(log := Next(y.log, step))
    case OpenReader(fromStart) => y.(reader := Some(Open(y.log, fromStart)))
    case ReadMore => y.(reader := Some(Drain(y.log, y.reader.value)))
    case SwitchFile => y.(reader := Some(Switch(y.log, y.reader.value)))
  }

  /** A run that goes on from a given state. */
  ghost predicate Continues(y: System, systems: seq<System>, actions: seq<Action>) {
    && |systems| == |actions| + 1
    && systems[0] == y
    && (forall i :: 0 <= i < |actions| ==>
          CanAct(systems[i], actions[i]) && systems[i + 1] == Act(systems[i], actions[i]))
  }

  ghost predicate IsSystemRun(systems: seq<System>, actions: seq<Action>) {
    Continues(System(START, None), systems, actions)
  }

  ghost predicate SystemInv(y: System) {
    Inv(y.log) && (y.reader.Some? ==> ReaderInv(y.log, y.reader.value))
  }

  lemma ActKeepsInv(y: System, a: Action)
    requires SystemInv(y) && CanAct(y, a)
    ensures SystemInv(Act(y, a))
  {
    match a {
      case Log(step) =>
        assert Shape(y.log);
        hide Inv, ReaderInv;
        NextKeepsInv(y.log, step);
        if y.reader.Some? {
          LogStepKeepsReader(y.log, y.reader.value, step);
        }
      case OpenReader(fromStart) =>
        hide Inv, ReaderInv;
        OpenKeepsReader(y.log, fromStart);
      case ReadMore =>
        hide Inv, ReaderInv;
        DrainKeepsReader(y.log, y.reader.value);
      case SwitchFile =>
        hide Inv, ReaderInv;
        SwitchKeepsReader(y.log, y.reader.value);
    }
  }

  lemma {:induction false} ContinuationKeepsSystem(y: System, systems: seq<System>, actions: seq<Action>, k: nat)
    requires SystemInv(y) && Continues(y, systems, actions) && k <= |actions|
    ensures SystemInv(systems[k])
  {
    hide SystemInv;
    if k > 0 {
      ContinuationKeepsSystem(y, systems, actions, k - 1);
      ActKeepsInv(systems[k - 1], actions[k - 1]);
    }
  }

  lemma StartHolds()
    ensures SystemInv(System(START, None))
  {
  }

  lemma RunKeepsSystem(systems: seq<System>, actions: seq<Action>, k: nat)
    requires IsSystemRun(systems, actions) && k <= |actions|
    ensures SystemInv(systems[k])
  {
    hide SystemInv;
    StartHolds();
    ContinuationKeepsSystem(System(START, None), systems, actions, k);
  }

  lemma PrefixIff(a: Bytes, skipped: Bytes, c: Bytes, rest: Bytes)
    requires (skipped == [] ==> a == c) && |a| + |skipped| == |c|
    ensures a + rest == c + rest <==> skipped == []
  {
    if a + rest == c + rest {
      assert |a + rest| == |c + rest|;
    }
  }

  /** In every run, a reader that gave no gap notice has emitted, in order, exactly what the
      files hold from where it began to where it is, if and only if no switch passed over
      any bytes; none does unless a generation write failed since it opened. */
  lemma ReaderLosesNothingSilently(systems: seq<System>, actions: seq<Action>, k: nat)
    requires IsSystemRun(systems, actions) && k <= |actions|
    requires systems[k].reader.Some? && !systems[k].reader.value.gap
    ensures var s, r := systems[k].log, systems[k].reader.value;
      && InBounds(s, r) && r.firstFile <= BaseNumber(s) && r.firstPos <= |Files(s)[r.firstFile]|
      && (r.emitted + From(Files(s), r.file, r.pos) == From(Files(s), r.firstFile, r.firstPos) <==> r.skipped == [])
      && (AllAnnounced(s, r) ==> r.skipped == [])
  {
    RunKeepsSystem(systems, actions, k);
    var s, r := systems[k].log, systems[k].reader.value;
    hide Inv, Between, From, Concat;
    BetweenThenFrom(Files(s), r.firstFile, r.firstPos, r.file, r.pos);
    PrefixIff(r.emitted, r.skipped, Between(Files(s), r.firstFile, r.firstPos, r.file, r.pos),
              From(Files(s), r.file, r.pos));
  }

  // ------------------------------------------------------------------ the reader against the service

  /** The files once the daemon has written all it buffers. */
  function Due(s: State): (files: seq<Bytes>)
    ensures |files| == BaseNumber(s) + 1
  {
    s.closed + DuePending(s) + [s.base + if s.onPending then [] else s.buffer]
  }

  function DuePending(s: State): seq<Bytes> {
    if s.pending == None then []
    else [s.pending.value + if s.onPending then s.buffer else if s.former.Some? then s.former.value else []]
  }

  /** What the reader emitted, with what was on disk in front of its starting point and the
      rest of its files behind, is what the service wrote. */
  ghost predicate Follows(y: System) {
    y.reader.Some? && InBounds(y.log, y.reader.value) &&
    var s, r := y.log, y.reader.value;
    s.written == (r.front + r.head) + (r.emitted + From(Due(s), r.file, r.pos))
  }

  /** What went, or will go, to files older than the reader's first one after it opened. */
  function Late(s: State, r: Reader): Bytes
    requires r.firstFile <= BaseNumber(s) && |r.front| <= |Concat(Due(s)[..r.firstFile])|
  {
    Concat(Due(s)[..r.firstFile])[|r.front|..]
  }

  /** Files before the current one, and before the pending one unless it is quiet, are as
      they will be; the others only get longer. */
  lemma DueGrows(s: State)
    requires Shape(s)
    ensures forall f :: 0 <= f < |Files(s)| ==> Files(s)[f] <= Due(s)[f]
    ensures forall f :: 0 <= f < |Files(s)| && Final(s, f) ==> Due(s)[f] == Files(s)[f]
  {
  }

  lemma DueWritten(s: State)
    requires Inv(s)
    ensures s.written == Concat(Due(s))
  {
    var files, n := Due(s), BaseNumber(s);
    var stored := s.dropped + Oldest(s.archives);
    hide Oldest;
    assert Concat(files) == Concat(files[..n]) + files[n];
    assert files[n] == s.base + if s.onPending then [] else s.buffer;
    if s.pending.Some? {
      DueWithPending(s, stored);
    } else {
      assert files[..n] == s.closed;
      assert stored + ([] + [] + s.base + s.buffer) == stored + (s.base + s.buffer);
    }
  }

  lemma DueWithPending(s: State, stored: Bytes)
    requires Shape(s) && s.pending.Some? && Concat(s.closed) == stored
    ensures var n := BaseNumber(s);
      stored + InFlight(s) == Concat(Due(s)[..n]) + (s.base + if s.onPending then [] else s.buffer)
  {
    var n := BaseNumber(s);
    var due := DuePending(s)[0];
    assert Due(s)[..n] == s.closed + [due];
    assert (s.closed + [due])[..|s.closed|] == s.closed;
    assert Concat(s.closed + [due]) == stored + due;
    hide Concat;
    if s.onPending {
      assert InFlight(s) == due + [] && s.base + [] == [];
    } else {
      assert InFlight(s) == due + (s.base + s.buffer);
      assert stored + (due + (s.base + s.buffer)) == (stored + due) + (s.base + s.buffer);
    }
  }

  lemma ConcatFrom(files: seq<Bytes>, f: nat, p: nat)
    requires f < |files| && p <= |files[f]|
    ensures Concat(files) == (Concat(files[..f]) + files[f][..p]) + From(files, f, p)
  {
    var file := files[f];
    assert files[0..] == files && files[0..f] == files[..f];
    hide Concat;
    ConcatAround(files, 0, f);
    SplitFile(file, p);
    FrontAndRest(Concat(files[..f]), file[..p], file[p..], Concat(files[f + 1..]));
  }

  lemma FrontAndRest(a: Bytes, b: Bytes, c: Bytes, d: Bytes)
    ensures a + ((b + c) + d) == (a + b) + (c + d)
  {
  }

  /** What was in front of a reader when it opened is still there, with what came late. */
  lemma FrontIsDue(s: State, r: Reader)
    requires Shape(s) && ReaderInv(s, r)
    ensures r.firstFile <= BaseNumber(s) && r.firstPos <= |Due(s)[r.firstFile]|
    ensures r.head == Due(s)[r.firstFile][..r.firstPos]
    ensures r.front <= Concat(Due(s)[..r.firstFile])
    ensures r.settled ==> r.front == Concat(Due(s)[..r.firstFile])
  {
    DueGrows(s);
    assert Placed(s, r);
    hide Concat, Between, Due, Files, Final;
    FrontGrows(Files(s), Due(s), r.firstFile);
    if r.settled {
      assert Due(s)[..r.firstFile] == Files(s)[..r.firstFile];
    }
  }

  lemma ReadIsDue(s: State, r: Reader)
    requires Shape(s) && ReaderInv(s, r)
    ensures r.pos <= |Due(s)[r.file]| && r.firstPos <= |Due(s)[r.firstFile]|
    ensures Between(Due(s), r.firstFile, r.firstPos, r.file, r.pos) ==
            Between(Files(s), r.firstFile, r.firstPos, r.file, r.pos)
  {
    DueGrows(s);
    hide Concat, Between, Due, Files, Final;
    assert |Files(s)| <= |Due(s)|;
    BetweenStable(Files(s), Due(s), r.firstFile, r.firstPos, r.file, r.pos);
  }

  /** A reader without a gap notice that skipped nothing has, with the rest of its files,
      everything but what went to older files after it opened. */
  lemma ReaderMissesLate(y: System)
    requires SystemInv(y) && y.reader.Some? && !y.reader.value.gap
    ensures var s, r := y.log, y.reader.value;
      && InBounds(s, r) && r.firstFile <= BaseNumber(s) && |r.front| <= |Concat(Due(s)[..r.firstFile])|
      && (s.written == (r.front + Late(s, r)) + (r.head + (r.emitted + From(Due(s), r.file, r.pos))) <==> r.skipped == [])
      && (r.settled ==> Late(s, r) == [])
  {
    var s, r := y.log, y.reader.value;
    ReaderBounds(s, r);
    DueWritten(s);
    FrontIsDue(s, r);
    ReadIsDue(s, r);
    LateOfFinal(s, r);
    hide *;
    ConcatFrom(Due(s), r.firstFile, r.firstPos);
    BetweenThenFrom(Due(s), r.firstFile, r.firstPos, r.file, r.pos);
    MissesLate(Concat(Due(s)[..r.firstFile]), r.front, r.head, r.emitted, r.skipped,
               Between(Due(s), r.firstFile, r.firstPos, r.file, r.pos), From(Due(s), r.file, r.pos));
  }

  lemma ReaderBounds(s: State, r: Reader)
    requires Inv(s) && ReaderInv(s, r)
    ensures Shape(s) && InBounds(s, r) && r.firstFile <= r.file <= BaseNumber(s)
    ensures |Files(s)| == |Due(s)| == BaseNumber(s) + 1
    ensures r.firstPos <= |Files(s)[r.firstFile]| && (r.firstFile == r.file ==> r.firstPos <= r.pos)
    ensures !r.gap ==>
      var read := Between(Files(s), r.firstFile, r.firstPos, r.file, r.pos);
      (r.skipped == [] ==> r.emitted == read) && |r.emitted| + |r.skipped| == |read|
  {
    hide Concat, Everywhere, Oldest, Final, Between;
  }

  lemma LateOfFinal(s: State, r: Reader)
    requires r.firstFile <= BaseNumber(s) && r.front <= Concat(Due(s)[..r.firstFile])
    requires r.settled ==> r.front == Concat(Due(s)[..r.firstFile])
    ensures Late(s, r) == Concat(Due(s)[..r.firstFile])[|r.front|..]
    ensures r.settled ==> Late(s, r) == []
  {
    hide Concat, Due;
  }

  lemma MissesLate(older: Bytes, front: Bytes, head: Bytes, emitted: Bytes, skipped: Bytes, read: Bytes, rest: Bytes)
    requires front <= older && (skipped == [] ==> emitted == read) && |emitted| + |skipped| == |read|
    ensures (older + head) + (read + rest) == (front + older[|front|..]) + (head + (emitted + rest)) <==> skipped == []
  {
    assert front + older[|front|..] == older;
    Reassociate(older, head, read + rest);
    PrefixIff(emitted, skipped, read, rest);
    SameFront(older, head + (read + rest), head + (emitted + rest));
    SameFront(head, read + rest, emitted + rest);
  }

  lemma Reassociate(a: Bytes, b: Bytes, c: Bytes)
    ensures (a + b) + c == a + (b + c)
  {
  }

  lemma SettledReaderFollows(y: System)
    requires SystemInv(y) && y.reader.Some? && y.reader.value.settled && !y.reader.value.gap
    ensures Follows(y) <==> y.reader.value.skipped == []
  {
    ReaderMissesLate(y);
    var s, r := y.log, y.reader.value;
    hide SystemInv, From, Due, Concat;
    assert r.front + [] == r.front;
    Reassociate(r.front, r.head, r.emitted + From(Due(s), r.file, r.pos));
  }

  lemma SameFront(front: Bytes, a: Bytes, b: Bytes)
    ensures front + a == front + b <==> a == b
  {
    if front + a == front + b {
      assert (front + a)[|front|..] == a && (front + b)[|front|..] == b;
    }
  }

  /** In every run, a reader that gave no gap notice: what it emitted and the unread rest are
      exactly what the service wrote behind its starting point, apart from what went to older
      files after it opened, if and only if no switch passed over any bytes. Nothing goes to
      older files if they were final when it opened. */
  lemma ReaderFollowsService(systems: seq<System>, actions: seq<Action>, k: nat)
    requires IsSystemRun(systems, actions) && k <= |actions|
    requires systems[k].reader.Some? && !systems[k].reader.value.gap
    ensures var s, r := systems[k].log, systems[k].reader.value;
      && InBounds(s, r) && r.firstFile <= BaseNumber(s) && |r.front| <= |Concat(Due(s)[..r.firstFile])|
      && (s.written == (r.front + Late(s, r)) + (r.head + (r.emitted + From(Due(s), r.file, r.pos))) <==> r.skipped == [])
      && (r.settled ==> Late(s, r) == [])
      && (AllAnnounced(s, r) ==> r.skipped == [])
  {
    RunKeepsSystem(systems, actions, k);
    ReaderMissesLate(systems[k]);
    hide Due, From, Concat, Inv, Placed;
  }

  // ------------------------------------------------------------------ opening at any moment

  function Opened(s: State, fromStart: bool): System {
    System(s, Some(Open(s, fromStart)))
  }

  /** However the run goes on, a reader opened here misses nothing without a notice or a
      failed generation write. */
  ghost predicate OpensSafely(s: State, fromStart: bool) {
    forall systems: seq<System>, actions: seq<Action>, k: nat |
      Continues(Opened(s, fromStart), systems, actions) && k <= |actions| ::
      Kept(systems[k])
  }

  ghost predicate Kept(y: System) {
    y.reader.Some? && (!y.reader.value.gap && y.reader.value.skipped == [] ==> Follows(y))
  }

  lemma {:induction false} StaysSettled(y: System, systems: seq<System>, actions: seq<Action>, k: nat)
    requires Continues(y, systems, actions) && k <= |actions| && y.reader.Some?
    ensures systems[k].reader.Some? && systems[k].reader.value.settled == y.reader.value.settled
  {
    if k > 0 {
      StaysSettled(y, systems, actions, k - 1);
      ActKeepsSettled(systems[k - 1], actions[k - 1]);
    }
  }

  lemma ActKeepsSettled(y: System, a: Action)
    requires CanAct(y, a) && y.reader.Some?
    ensures Act(y, a).reader.Some? && Act(y, a).reader.value.settled == y.reader.value.settled
  {
    hide Next, Files, Concat, Enabled;
  }

  lemma QuietOpensSafely(s: State, fromStart: bool)
    requires Inv(s) && Quiet(s)
    ensures OpensSafely(s, fromStart)
  {
    var y := Opened(s, fromStart);
    OpenKeepsReader(s, fromStart);
    hide Inv, ReaderInv, Follows, Continues;
    forall systems: seq<System>, actions: seq<Action>, k: nat | Continues(y, systems, actions) && k <= |actions|
      ensures Kept(systems[k])
    {
      ContinuationKeepsSystem(y, systems, actions, k);
      StaysSettled(y, systems, actions, k);
      if !systems[k].reader.value.gap {
        SettledReaderFollows(systems[k]);
      }
    }
  }

  /** Nothing is buffered for the pending file. */
  predicate PendingQuiet(s: State) {
    if s.onPending then s.buffer == [] else s.former == None || s.former.value == []
  }

  lemma ConcatOfTwo(files: seq<Bytes>, last: Bytes)
    ensures Concat(files + [last]) == Concat(files) + last
  {
    assert (files + [last])[..|files|] == files;
  }

  lemma FrontOnDisk(s: State)
    requires s.pending.Some?
    ensures Concat(Files(s)[..BaseNumber(s)]) == Concat(s.closed) + s.pending.value
  {
    ConcatOfTwo(s.closed, s.pending.value);
    assert Files(s)[..BaseNumber(s)] == s.closed + [s.pending.value];
  }

  lemma FrontDue(u: State)
    requires u.pending.Some? && PendingQuiet(u)
    ensures var n := BaseNumber(u);
      Concat(Due(u)) == (Concat(u.closed) + u.pending.value) + Due(u)[n] && Concat(Due(u)[n + 1..]) == []
  {
    var n := BaseNumber(u);
    ConcatOfTwo(u.closed, u.pending.value);
    assert u.pending.value + [] == u.pending.value;
    assert Due(u)[..n] == u.closed + [u.pending.value];
    assert Concat(Due(u)) == Concat(Due(u)[..n]) + Due(u)[n];
    assert Due(u)[n + 1..] == [];
  }

  lemma FallsShort(s: State, fromStart: bool, y: System)
    requires Inv(s) && !Quiet(s) && y.reader == Some(Open(s, fromStart))
    requires GrewBehind(s, y.log) && Inv(y.log)
    ensures !Follows(y)
  {
    var u, r, n := y.log, y.reader.value, BaseNumber(s);
    DueWritten(u);
    FrontOnDisk(s);
    FrontDue(u);
    assert r.front == Concat(Files(s)[..n]) && |r.head| == r.pos;
    assert BaseNumber(u) == n;
    hide Inv, Due, Files, Concat;
  }

  /** The pending file grew behind the reader, and nothing else changed on disk. */
  predicate GrewBehind(s: State, u: State) {
    && u.closed == s.closed && u.base == s.base && u.missed == s.missed && PendingQuiet(u)
    && s.pending.Some? && u.pending.Some? && |u.pending.value| > |s.pending.value|
  }

  lemma WriteGrowsPending(s: State)
    requires Inv(s) && s.onPending
    ensures var flush := Flush(|s.buffer| + 1);
      && Enabled(Next(s, Write([7])), flush)
      && GrewBehind(s, Next(Next(s, Write([7])), flush)) && Inv(Next(Next(s, Write([7])), flush))
  {
    NextKeepsInv(s, Write([7]));
    var t := Next(s, Write([7]));
    NextKeepsInv(t, Flush(|s.buffer| + 1));
    hide Everywhere, Concat, Oldest;
  }

  lemma FlushGrowsPending(s: State)
    requires Inv(s) && !s.onPending && !Quiet(s)
    ensures var flush := FlushOld(|s.former.value|);
      Enabled(s, flush) && GrewBehind(s, Next(s, flush)) && Inv(Next(s, flush))
  {
    NextKeepsInv(s, FlushOld(|s.former.value|));
    hide Everywhere, Concat, Oldest;
  }

  /** A reader opened while the daemon can still write to the renamed file can fall short of
      the service by bytes that are on disk, without a gap notice. */
  lemma LoudOpensUnsafely(s: State, fromStart: bool) returns (systems: seq<System>, actions: seq<Action>)
    requires Inv(s) && !Quiet(s)
    ensures Continues(Opened(s, fromStart), systems, actions)
    ensures var y := systems[|actions|];
      y.reader == Some(Open(s, fromStart)) && GrewBehind(s, y.log) && !Follows(y)
  {
    var y := Opened(s, fromStart);
    hide Inv, Next, Open, GrewBehind, Follows;
    if s.onPending {
      var write, flush := Write([7]), Flush(|s.buffer| + 1);
      WriteGrowsPending(s);
      var y1 := Act(y, Log(write));
      actions, systems := [Log(write), Log(flush)], [y, y1, Act(y1, Log(flush))];
    } else {
      var flush := FlushOld(|s.former.value|);
      FlushGrowsPending(s);
      actions, systems := [Log(flush)], [y, Act(y, Log(flush))];
    }
    FallsShort(s, fromStart, systems[|actions|]);
  }

  /** Opening a reader is safe, whatever happens next, if and only if the daemon has nothing
      left to write to the renamed file at that moment. */
  lemma OpensSafelyIff(s: State, fromStart: bool)
    requires Inv(s)
    ensures OpensSafely(s, fromStart) <==> !s.onPending && (s.former == None || s.former == Some([]))
  {
    if Quiet(s) {
      QuietOpensSafely(s, fromStart);
    } else {
      var systems, actions := LoudOpensUnsafely(s, fromStart);
      assert Continues(Opened(s, fromStart), systems, actions) && !Kept(systems[|actions|]);
    }
  }

  // ------------------------------------------------------------------ where the promise ends

  ghost predicate Reachable(y: System) {
    exists systems: seq<System>, actions: seq<Action> ::
      IsSystemRun(systems, actions) && systems[|actions|] == y
  }

  lemma ReachableStep(y: System, a: Action)
    requires Reachable(y) && CanAct(y, a)
    ensures Reachable(Act(y, a))
  {
    var systems, actions :| IsSystemRun(systems, actions) && systems[|actions|] == y;
    var longer := systems + [Act(y, a)];
    assert IsSystemRun(longer, actions + [a]);
    assert longer[|actions + [a]|] == Act(y, a);
  }

  lemma StartReachable()
    ensures Reachable(System(START, None))
  {
    var systems: seq<System>, actions: seq<Action> := [System(START, None)], [];
    assert IsSystemRun(systems, actions) && systems[|actions|] == System(START, None);
  }

  const FRESH_READER: Reader := Reader(0, 0, Some(0), [], false, 0, 0, [], [], true, 0, [])

  /** One rotation of an empty file whose generation was never written, then one byte. */
  const AFTER_MISSED: State :=
    State([[]], None, [7], false, [], None, false, Generation(0, None), false, 1, [Archive([], false)], [], [7])

  /** Just before that rotation finishes. */
  const HANDED_OFF: State :=
    State([], Some([]), [], false, [], None, true, Generation(0, None), false, 1, [], [], [])

  lemma HandoffReachable()
    ensures Reachable(System(HANDED_OFF, Some(FRESH_READER)))
  {
    StartReachable();
    hide Reachable;
    var y0 := System(START, None);
    ReachableStep(y0, OpenReader(true));
    var y1 := Act(y0, OpenReader(true));
    assert y1.reader == Some(FRESH_READER);
    ReachableStep(y1, Log(Prepare));
    var y2 := Act(y1, Log(Prepare));
    ReachableStep(y2, Log(AbandonGeneration));
    var y3 := Act(y2, Log(AbandonGeneration));
    ReachableStep(y3, Log(Reload));
    var y4 := Act(y3, Log(Reload));
    ReachableStep(y4, Log(CloseOld));
    var y5 := Act(y4, Log(CloseOld));
    ReachableStep(y5, Log(Handoff));
    assert Act(y5, Log(Handoff)).log == HANDED_OFF;
  }

  lemma MissedRotationReachable()
    ensures Reachable(System(AFTER_MISSED, Some(FRESH_READER)))
  {
    HandoffReachable();
    hide Reachable;
    var y0 := System(HANDED_OFF, Some(FRESH_READER));
    var finish := Finish(1, false, true);
    assert Rotated([], Archive([], false), 1) == [Archive([], false)];
    ReachableStep(y0, Log(finish));
    var y1 := Act(y0, Log(finish));
    ReachableStep(y1, Log(Write([7])));
    var y2 := Act(y1, Log(Write([7])));
    ReachableStep(y2, Log(Flush(1)));
    assert Act(y2, Log(Flush(1))).log == AFTER_MISSED;
  }

  /** The next rotation, announced and handed over. */
  const ANNOUNCED: State :=
    State([[]], Some([7]), [], false, [], None, true, Generation(1, Some(2)), false, 1, [Archive([], false)], [], [7])

  lemma AnnouncedReachable()
    ensures Reachable(System(ANNOUNCED, Some(FRESH_READER)))
  {
    hide Reachable;
    MissedRotationReachable();
    var y0 := System(AFTER_MISSED, Some(FRESH_READER));
    ReachableStep(y0, Log(Prepare));
    var y1 := Act(y0, Log(Prepare));
    ReachableStep(y1, Log(WriteGeneration));
    var y2 := Act(y1, Log(WriteGeneration));
    ReachableStep(y2, Log(Reload));
    var y3 := Act(y2, Log(Reload));
    ReachableStep(y3, Log(CloseOld));
    var y4 := Act(y3, Log(CloseOld));
    ReachableStep(y4, Log(Handoff));
    assert Act(y4, Log(Handoff)).log == ANNOUNCED;
  }

  /** A rotation that dies before writing the generation lets a slow reader skip a whole
      file without a gap notice: the byte 7 was written and is never emitted. */
  lemma MissedGenerationLosesSilently() returns (y: System)
    ensures Reachable(y) && y.log.missed == 1 && y.log.written == [7]
    ensures y.reader.Some? && y.reader.value.settled && !y.reader.value.gap && InBounds(y.log, y.reader.value)
    ensures y.reader.value.emitted + From(Files(y.log), y.reader.value.file, y.reader.value.pos) == []
  {
    hide Reachable;
    AnnouncedReachable();
    var before := System(ANNOUNCED, Some(FRESH_READER));
    assert Files(ANNOUNCED) == [[], [7], []];
    ReachableStep(before, SwitchFile);
    y := Act(before, SwitchFile);
  }

  /** A rotation whose renamed file the daemon still has open. */
  const HANDING: State :=
    State([], Some([]), [], true, [], None, false, Generation(1, Some(1)), false, 0, [], [], [])

  lemma HandingReachable()
    ensures Reachable(System(HANDING, None))
  {
    hide Reachable;
    StartReachable();
    var y0 := System(START, None);
    ReachableStep(y0, Log(Prepare));
    var y1 := Act(y0, Log(Prepare));
    ReachableStep(y1, Log(WriteGeneration));
    assert Act(y1, Log(WriteGeneration)).log == HANDING;
  }

  /** A reader that opens while the daemon still has the renamed file open misses what is
      written there afterwards: the byte 7 is written after the reader opened, goes to
      the older file, and no gap is announced. */
  lemma OpenDuringHandoverMisses() returns (y: System)
    ensures Reachable(y) && y.log.missed == 0 && y.log.written == [7]
    ensures y.reader == Some(Open(HANDING, true))
    ensures !y.reader.value.settled && !y.reader.value.gap && InBounds(y.log, y.reader.value)
    ensures y.reader.value.emitted + From(Files(y.log), y.reader.value.file, y.reader.value.pos) + y.log.buffer == []
  {
    hide Reachable;
    HandingReachable();
    var y0 := System(HANDING, None);
    ReachableStep(y0, OpenReader(true));
    var y1 := Act(y0, OpenReader(true));
    ReachableStep(y1, Log(Write([7])));
    var y2 := Act(y1, Log(Write([7])));
    ReachableStep(y2, Log(Flush(1)));
    y := Act(y2, Log(Flush(1)));
    assert y2.log.buffer == [7] && y2.log.buffer[..1] == [7] && y2.log.pending == Some([]);
    assert y.log.pending.value == [7] && y.log.buffer == [];
    assert Files(y.log) == [[7], []];
  }
}

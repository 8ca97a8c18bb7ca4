/** When the following reader tells its client about a gap, and when it moves on at all. */
module LogReaderNotices {
  import opened Wrappers
  import opened ByteStrings
  import opened LogArchives
  import opened LiveRotation
  import opened LogReader

  /** The reader knows the generation of its own file. */
  predicate Informed(r: Reader) {
    r.lastGeneration.Some? && r.lastGeneration.value + r.missedAtOpen == r.file
  }

  /** A reader starts at the beginning or the end of the current file, and it is informed
      exactly if no generation write is due and the last one, if any, is about this file. */
  lemma OpenInforms(s: State, fromStart: bool)
    requires Inv(s)
    ensures var r := Open(s, fromStart);
      && r.file == BaseNumber(s) && r.pos == (if fromStart then 0 else |s.base|) && r.emitted == [] && !r.gap
      && (Informed(r) <==>
            !s.generationDue && (s.generation.inode == None || s.generation.inode == Some(BaseNumber(s))))
  {
    hide Concat, Everywhere, Oldest, Files;
  }

  /** If no generation write failed since the reader opened, a switch raises the notice exactly
      if it does not lead an informed reader to the very next file. A notice once raised
      stays, and the reader is informed from then on. */
  lemma NoticeIsExact(s: State, r: Reader)
    requires Inv(s) && ReaderInv(s, r) && MaySwitch(s, r) && AllAnnounced(s, r)
    ensures Switch(s, r).gap <==> r.gap || !(Informed(r) && BaseNumber(s) == r.file + 1)
    ensures Informed(Switch(s, r))
  {
    hide Concat, Everywhere, Oldest, Files, Between, Accounted, Final;
  }

  /** A read takes everything the file has. */
  lemma ReadTakesAll(s: State, r: Reader)
    requires InBounds(s, r)
    ensures Drain(s, r).pos == |Files(s)[r.file]| && Drain(s, r).emitted == r.emitted + Files(s)[r.file][r.pos..]
    ensures MaySwitch(s, r) ==>
      Switch(s, r).emitted == Drain(s, r).emitted && Switch(s, r).file == BaseNumber(s) && Switch(s, r).pos == 0
  {
    hide Files;
  }

  /** Once the helper has marked the handover or finished the rotation, every reader of an
      older file can move on; before, none can. */
  lemma HandoverFreesReaders(s: State, step: Step, r: Reader)
    requires Shape(s) && Enabled(s, step) && r.file < BaseNumber(s)
    ensures step.Handoff? ==> MaySwitch(Next(s, step), r)
    ensures step.Finish? && Next(s, step).pending == None ==> MaySwitch(Next(s, step), r)
    ensures PendingOpen(s) ==> !MaySwitch(s, r)
  {
  }

  // ------------------------------------------------------------------ every run

  lemma ActKeepsMissed(y: System, a: Action)
    requires CanAct(y, a) && y.reader.Some?
    ensures y.log.missed <= Act(y, a).log.missed
    ensures Act(y, a).reader.Some? && Act(y, a).reader.value.missedAtOpen == y.reader.value.missedAtOpen
  {
    hide Files, Concat;
  }

  /** One action: the reader stays without a notice if switches only go to the next file. */
  lemma ActKeepsQuiet(y: System, a: Action)
    requires SystemInv(y) && CanAct(y, a)
    requires y.reader.Some? ==> !y.reader.value.gap && Informed(y.reader.value)
    requires a.OpenReader? ==> Informed(Open(y.log, a.fromStart))
    requires a.SwitchFile? ==> BaseNumber(y.log) == y.reader.value.file + 1 && AllAnnounced(y.log, y.reader.value)
    ensures var z := Act(y, a); z.reader.Some? ==> !z.reader.value.gap && Informed(z.reader.value)
  {
    if a.SwitchFile? {
      NoticeIsExact(y.log, y.reader.value);
    }
    hide Inv, ReaderInv, Next, Files, Concat, Announces, MaySwitch;
  }

  /** In every run in which the reader was informed when it opened, no generation write has
      failed since, and every switch led to the very next file, there is no notice. */
  lemma {:induction false} NoFalseNotice(systems: seq<System>, actions: seq<Action>, k: nat)
    requires IsSystemRun(systems, actions) && k <= |actions|
    requires systems[k].reader.Some? ==> AllAnnounced(systems[k].log, systems[k].reader.value)
    requires forall i :: 0 <= i < k && actions[i].OpenReader? ==> Informed(Open(systems[i].log, actions[i].fromStart))
    requires forall i :: 0 <= i < k && actions[i].SwitchFile? && systems[i].reader.Some? ==>
      BaseNumber(systems[i].log) == systems[i].reader.value.file + 1
    ensures systems[k].reader.Some? ==> !systems[k].reader.value.gap && Informed(systems[k].reader.value)
  {
    hide SystemInv, Informed, Open, Act;
    if k > 0 {
      var y, a := systems[k - 1], actions[k - 1];
      RunKeepsSystem(systems, actions, k - 1);
      if y.reader.Some? {
        ActKeepsMissed(y, a);
        MissedAtOpenIsLeast(y);
      }
      NoFalseNotice(systems, actions, k - 1);
      ActKeepsQuiet(y, a);
    }
  }

  lemma MissedAtOpenIsLeast(y: System)
    requires SystemInv(y) && y.reader.Some?
    ensures y.reader.value.missedAtOpen <= y.log.missed
  {
    hide Inv, Placed, Between, Accounted;
  }

  // ------------------------------------------------------------------ a notice without a gap

  /** A reader opened in the first rotation ever, before its generation was written. */
  const EARLY_READER: Reader := Reader(1, 0, Some(0), [], false, 1, 0, [], [], false, 0, [])

  const FIRST_DONE: State :=
    State([[]], None, [], false, [], None, false, Generation(1, Some(1)), false, 0, [Archive([], false)], [], [])

  lemma FirstRotationReachable()
    ensures Reachable(System(FIRST_DONE, Some(EARLY_READER)))
  {
    hide Reachable;
    StartReachable();
    var y0 := System(START, None);
    ReachableStep(y0, Log(Prepare));
    var y1 := Act(y0, Log(Prepare));
    ReachableStep(y1, OpenReader(true));
    var y2 := Act(y1, OpenReader(true));
    assert Files(y1.log)[..1] == [[]] && Concat([[]]) == [] by { OneFile([]); }
    assert y2.reader == Some(EARLY_READER);
    FinishFirst(y2);
  }

  lemma FinishFirst(y2: System)
    requires Reachable(y2) && y2.reader == Some(EARLY_READER)
    requires y2.log == State([], Some([]), [], true, [], None, false, Generation(0, None), true, 0, [], [], [])
    ensures Reachable(System(FIRST_DONE, Some(EARLY_READER)))
  {
    hide Reachable;
    ReachableStep(y2, Log(WriteGeneration));
    var y3 := Act(y2, Log(WriteGeneration));
    ReachableStep(y3, Log(Reload));
    var y4 := Act(y3, Log(Reload));
    ReachableStep(y4, Log(CloseOld));
    var y5 := Act(y4, Log(CloseOld));
    ReachableStep(y5, Log(Handoff));
    var y6 := Act(y5, Log(Handoff));
    assert Rotated([], Archive([], false), 1) == [Archive([], false)];
    ReachableStep(y6, Log(Finish(1, false, true)));
    assert Act(y6, Log(Finish(1, false, true))).log == FIRST_DONE;
  }

  /** An uninformed reader announces a gap although it moves to the very next file, no
      generation write failed, and it has read everything. */
  lemma UninformedNotice() returns (y: System, z: System)
    ensures Reachable(y) && CanAct(y, SwitchFile) && z == Act(y, SwitchFile) && z.log.missed == 0
    ensures BaseNumber(y.log) == y.reader.value.file + 1 && !y.reader.value.gap && z.reader.value.gap
    ensures z.reader.value.skipped == []
  {
    hide Reachable;
    FirstRotationReachable();
    var y0 := System(FIRST_DONE, Some(EARLY_READER));
    ReachableStep(y0, Log(Prepare));
    var y1 := Act(y0, Log(Prepare));
    ReachableStep(y1, Log(WriteGeneration));
    var y2 := Act(y1, Log(WriteGeneration));
    ReachableStep(y2, Log(Reload));
    var y3 := Act(y2, Log(Reload));
    ReachableStep(y3, Log(CloseOld));
    var y4 := Act(y3, Log(CloseOld));
    ReachableStep(y4, Log(Handoff));
    y := Act(y4, Log(Handoff));
    z := Act(y, SwitchFile);
    NothingSkipped(Files(y.log), 1);
  }
}

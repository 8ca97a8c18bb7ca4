/** Numbered log archives: the descending in-place shift over a directory, against the
    plain reading "put the newest in front and keep the first `keep`". */
module LogArchives {
  import opened Wrappers
  import opened ByteStrings

  /** `<id>.log.<n>` or `<id>.log.<n>.gz`. A gzip file is identified with the data it
      was made from, so both kinds of slot map to log data. */
  datatype Slot = Slot(n: nat, gz: bool)

  datatype Archive = Archive(data: Bytes, gz: bool)

  function Min(a: int, b: int): int {
    if a < b then a else b
  }

  /** The archive list after one rotation. */
  function Rotated(history: seq<Archive>, newest: Archive, keep: nat): (r: seq<Archive>)
    ensures |r| <= keep
    ensures keep > 0 ==> |r| > 0 && r[0] == newest
  {
    ([newest] + history)[..Min(keep, |history| + 1)]
  }

  /** The slots `first, first + 1, ...` hold exactly the listed archives, newest first,
      each as one plain or one gzip file. */
  ghost predicate Holds(slots: map<Slot, Bytes>, history: seq<Archive>, first: nat) {
    && (forall n: nat, gz :: Slot(n, gz) in slots <==> first <= n < first + |history| && history[n - first].gz == gz)
    && (forall s :: s in slots ==> slots[s] == history[s.n - first].data)
  }

  /** The state of the descending pass: numbers above `n` have moved up by one. */
  ghost predicate Shifting(slots: map<Slot, Bytes>, kept: seq<Archive>, n: nat) {
    && (forall m: nat, gz :: Slot(m, gz) in slots <==> Expected(kept, n, m, gz))
    && (forall s :: s in slots ==> slots[s] == kept[if s.n <= n then s.n - 1 else s.n - 2].data)
  }

  ghost predicate Expected(kept: seq<Archive>, n: nat, m: nat, gz: bool) {
    if m <= n then 1 <= m <= |kept| && kept[m - 1].gz == gz
    else n + 2 <= m <= |kept| + 1 && kept[m - 2].gz == gz
  }

  /** `old.replace(new)` for one suffix, if the file is there. */
  function MoveUp(slots: map<Slot, Bytes>, n: nat, gz: bool): map<Slot, Bytes> {
    if Slot(n, gz) in slots then (slots - {Slot(n, gz)})[Slot(n + 1, gz) := slots[Slot(n, gz)]] else slots
  }

  lemma MoveUpKeepsShifting(slots: map<Slot, Bytes>, kept: seq<Archive>, n: nat)
    requires n > 0 && Shifting(slots, kept, n)
    ensures Shifting(MoveUp(MoveUp(slots, n, false), n, true), kept, n - 1)
  {
    var moved := MoveUp(MoveUp(slots, n, false), n, true);
    MovedBoth(slots, n, kept);
    forall m: nat, gz ensures Slot(m, gz) in moved <==> Expected(kept, n - 1, m, gz) {
      assert Slot(m, gz) in slots <==> Expected(kept, n, m, gz);
      assert Slot(n, gz) in slots <==> Expected(kept, n, n, gz);
      assert Slot(m, gz) in moved <==> Moved(slots, n, m, gz);
    }
    hide MoveUp;
    forall s | s in moved ensures moved[s] == kept[if s.n <= n - 1 then s.n - 1 else s.n - 2].data {
      assert s == Slot(s.n, s.gz) && Moved(slots, n, s.n, s.gz);
    }
  }

  /** Where the files are once both files of a slot have moved up. */
  predicate Moved(slots: map<Slot, Bytes>, n: nat, m: nat, gz: bool) {
    m != n && (Slot(m, gz) in slots || (m == n + 1 && Slot(n, gz) in slots))
  }

  lemma MovedBoth(slots: map<Slot, Bytes>, n: nat, kept: seq<Archive>)
    requires n > 0 && Shifting(slots, kept, n)
    ensures var moved := MoveUp(MoveUp(slots, n, false), n, true);
      && (forall m: nat, gz :: Slot(m, gz) in moved <==> Moved(slots, n, m, gz))
      && (forall s :: s in moved ==>
            if s.n == n + 1 then Slot(n, s.gz) in slots && moved[s] == slots[Slot(n, s.gz)]
            else s in slots && moved[s] == slots[s])
  {
    assert Slot(n + 1, false) in slots <==> Expected(kept, n, n + 1, false);
    assert Slot(n + 1, true) in slots <==> Expected(kept, n, n + 1, true);
    forall m: nat, gz ensures Slot(m, gz) in MoveUp(MoveUp(slots, n, false), n, true) <==> Moved(slots, n, m, gz) {
    }
  }

  lemma ShiftingStarts(slots: map<Slot, Bytes>, history: seq<Archive>, cut: map<Slot, Bytes>, keep: nat)
    requires Holds(slots, history, 1) && keep > 0
    requires forall s :: s in cut <==> s in slots && s.n < keep
    requires forall s :: s in cut ==> cut[s] == slots[s]
    ensures Shifting(cut, history[..Min(|history|, keep - 1)], keep - 1)
  {
    var kept := history[..Min(|history|, keep - 1)];
    forall m: nat, gz ensures Slot(m, gz) in cut <==> Expected(kept, keep - 1, m, gz) {
      assert Slot(m, gz) in slots <==> 1 <= m < 1 + |history| && history[m - 1].gz == gz;
    }
    forall s | s in cut ensures cut[s] == kept[s.n - 1].data && s.n <= keep - 1 {
      assert s == Slot(s.n, s.gz);
    }
  }

  lemma ShiftingEnds(slots: map<Slot, Bytes>, kept: seq<Archive>)
    requires Shifting(slots, kept, 0)
    ensures Holds(slots, kept, 2)
  {
    forall n: nat, gz ensures Slot(n, gz) in slots <==> 2 <= n < 2 + |kept| && kept[n - 2].gz == gz {
      assert Slot(n, gz) in slots <==> Expected(kept, 0, n, gz);
    }
    forall s | s in slots ensures slots[s] == kept[s.n - 2].data {
      assert s == Slot(s.n, s.gz);
    }
  }

  /** A new file in the free first slot. */
  lemma FirstSlot(slots: map<Slot, Bytes>, history: seq<Archive>, newest: Archive, keep: nat)
    requires keep > 0 && Holds(slots, history[..Min(|history|, keep - 1)], 2)
    ensures Holds(slots[Slot(1, newest.gz) := newest.data], Rotated(history, newest, keep), 1)
  {
    var kept := history[..Min(|history|, keep - 1)];
    var r := Rotated(history, newest, keep);
    assert r == [newest] + kept;
    var after := slots[Slot(1, newest.gz) := newest.data];
    forall n: nat, gz ensures Slot(n, gz) in after <==> 1 <= n < 1 + |r| && r[n - 1].gz == gz {
      assert Slot(n, gz) in slots <==> 2 <= n < 2 + |kept| && kept[n - 2].gz == gz;
    }
    forall s | s in after ensures after[s] == r[s.n - 1].data {
      assert s == Slot(s.n, s.gz);
    }
  }

  class LogDirectory {
    var base: Bytes
    var pending: Option<Bytes>
    var archives: map<Slot, Bytes>
    ghost var history: seq<Archive>

    ghost predicate Valid()
      reads this
    {
      Holds(archives, history, 1)
    }

    constructor ()
      ensures Valid() && history == [] && base == [] && pending == None
    {
      base, pending, archives, history := [], None, map[], [];
    }

    /** The glob loop of `_shift_archives`: numbers from `keep` on are deleted. */
    method DeleteFrom(keep: nat)
      modifies this`archives
      ensures forall s :: s in archives <==> s in old(archives) && s.n < keep
      ensures forall s :: s in archives ==> archives[s] == old(archives)[s]
    {
      var candidates := archives.Keys;
      while candidates != {}
        invariant forall s :: s in archives ==> s in old(archives) && archives[s] == old(archives)[s]
        invariant forall s :: s in old(archives) && s.n < keep ==> s in archives
        invariant forall s :: s in archives && s.n >= keep ==> s in candidates
        decreases |candidates|
      {
        var s :| s in candidates;
        candidates := candidates - {s};
        if s.n >= keep {
          archives := archives - {s};
        }
      }
    }

    /** `_shift_archives`: after the deletion every number moves up by one, highest
        first, so that nothing is overwritten. */
    method ShiftArchives(keep: nat)
      requires Valid()
      modifies this`archives
      ensures keep == 0 ==> archives == map[]
      ensures keep > 0 ==> Holds(archives, history[..Min(|history|, keep - 1)], 2)
    {
      hide Shifting;
      DeleteFrom(keep);
      if keep > 0 {
        ShiftingStarts(old(archives), history, archives, keep);
        ghost var kept := history[..Min(|history|, keep - 1)];
        hide Holds;
        var n := keep - 1;
        while n > 0
          invariant Shifting(archives, kept, n)
        {
          MoveUpKeepsShifting(archives, kept, n);
          archives := MoveUp(archives, n, false);
          archives := MoveUp(archives, n, true);
          n := n - 1;
        }
        ShiftingEnds(archives, kept);
      }
    }

    /** `_rotate_if_needed` for a stopped service. */
    method RotateStopped(maxBytes: int, keep: nat)
      requires Valid()
      modifies this
      ensures Valid() && pending == old(pending)
      ensures history == if 0 < maxBytes <= |old(base)| then Rotated(old(history), Archive(old(base), false), keep)
                         else old(history)
      ensures base == if 0 < maxBytes <= |old(base)| then [] else old(base)
    {
      if maxBytes <= 0 || |base| < maxBytes {
        return;
      }
      ShiftArchives(keep);
      if keep > 0 {
        FirstSlot(archives, history, Archive(base, false), keep);
        archives := archives[Slot(1, false) := base];
      }
      history := Rotated(history, Archive(base, false), keep);
      base := [];
    }

    /** `prepare_live_rotation` without its bookkeeping files. */
    method PrepareLive(maxBytes: int) returns (prepared: bool)
      requires Valid()
      modifies this`base, this`pending
      ensures Valid()
      ensures prepared <==> old(pending).Some? || 0 < maxBytes <= |old(base)|
      ensures if prepared && old(pending) == None then pending == Some(old(base)) && base == []
              else pending == old(pending) && base == old(base)
    {
      if pending.Some? {
        return true;
      }
      if maxBytes <= 0 || |base| < maxBytes {
        return false;
      }
      pending, base := Some(base), [];
      return true;
    }

    /** `finish_live_rotation`; `packed` is whether the compression, if any, succeeds. It
        runs before anything is moved, so a failure leaves the directory as it was. */
    method FinishLive(keep: nat, compress: bool, packed: bool) returns (finished: bool)
      requires Valid()
      modifies this
      ensures Valid() && base == old(base)
      ensures finished <==> old(pending).Some? && (compress && keep > 0 ==> packed)
      ensures history == if finished then Rotated(old(history), Archive(old(pending).value, compress), keep)
                         else old(history)
      ensures pending == if finished then None else old(pending)
      ensures !finished ==> archives == old(archives)
    {
      if pending.None? || (compress && keep > 0 && !packed) {
        return false;
      }
      var source := pending.value;
      ShiftArchives(keep);
      if keep > 0 {
        FirstSlot(archives, history, Archive(source, compress), keep);
        archives := archives[Slot(1, compress) := source];
      }
      history := Rotated(history, Archive(source, compress), keep);
      pending := None;
      return true;
    }
  }

  // ------------------------------------------------------------------ many rotations

  datatype Rotation = Rotation(newest: Archive, keep: nat)

  function AfterAll(history: seq<Archive>, rotations: seq<Rotation>): seq<Archive> {
    if rotations == [] then history
    else
      var last := rotations[|rotations| - 1];
      Rotated(AfterAll(history, rotations[..|rotations| - 1]), last.newest, last.keep)
  }

  /** Everything ever rotated, newest first. */
  function Everything(history: seq<Archive>, rotations: seq<Rotation>): seq<Archive> {
    if rotations == [] then history
    else [rotations[|rotations| - 1].newest] + Everything(history, rotations[..|rotations| - 1])
  }

  /** With any mix of settings the archives are the newest part of all rotated logs,
      without a gap, and never more than the last `keep`. */
  lemma {:induction false} ArchivesAreNewest(history: seq<Archive>, rotations: seq<Rotation>)
    ensures AfterAll(history, rotations) <= Everything(history, rotations)
    ensures rotations != [] ==>
      var keep, before := rotations[|rotations| - 1].keep, AfterAll(history, rotations[..|rotations| - 1]);
      |AfterAll(history, rotations)| == Min(keep, |before| + 1)
  {
    if rotations != [] {
      ArchivesAreNewest(history, rotations[..|rotations| - 1]);
    }
  }

  lemma NotLonger(slots: map<Slot, Bytes>, a: seq<Archive>, b: seq<Archive>)
    requires Holds(slots, a, 1) && Holds(slots, b, 1)
    ensures |a| <= |b|
  {
    if a != [] {
      assert Slot(|a|, a[|a| - 1].gz) in slots;
    }
  }

  /** A directory state represents one archive list only. */
  lemma HoldsOne(slots: map<Slot, Bytes>, a: seq<Archive>, b: seq<Archive>)
    requires Holds(slots, a, 1) && Holds(slots, b, 1)
    ensures a == b
  {
    NotLonger(slots, a, b);
    NotLonger(slots, b, a);
    forall i | 0 <= i < |a| ensures b[i] == a[i] {
      assert Slot(i + 1, a[i].gz) in slots;
    }
  }
}

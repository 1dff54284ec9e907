/**
 Uploads and removals of restaurant photos against the object store, step by step: anything may fail, a
 process may die between any two steps, and many requests run at once. A row stays locked from the version
 check to the end of its transaction.
 */
module PhotoStorage {
  import opened Basics

  type RestaurantId = int
  type ProcessId = int
  type Key = string

  datatype Phase =
    | Putting(row: RestaurantId, key: Key, before: Option<Key>)
    | Committing(row: RestaurantId, key: Key, before: Option<Key>)
    | Removing(row: RestaurantId, before: Option<Key>)
    | DropOld(former: Key)
    | DropNew(refused: Key, applied: bool)

  /**
   `rows` is the committed key of each restaurant. Two histories help to state what holds: `used` are all
   keys ever drawn, `lost` the keys deleted by a process whose commit was applied but reported as failed.
   */
  datatype State = State(
    rows: map<RestaurantId, Option<Key>>,
    objects: set<Key>,
    phases: map<ProcessId, Phase>,
    used: set<Key>,
    lost: set<Key>)

  datatype Step =
    | BeginUpload(p: ProcessId, row: RestaurantId, key: Key)
    | BeginRemove(p: ProcessId, row: RestaurantId)
    | PutWorks(p: ProcessId)
    | PutFails(p: ProcessId, stored: bool)
    | CommitWorks(p: ProcessId)
    | CommitFails(p: ProcessId, applied: bool)
    | DropWorks(p: ProcessId)
    | DropFails(p: ProcessId)
    | Crash(p: ProcessId, applied: bool)

  predicate HoldsLock(phase: Phase, row: RestaurantId) {
    (phase.Putting? || phase.Committing? || phase.Removing?) && phase.row == row
  }

  predicate IsLocked(s: State, row: RestaurantId) {
    exists p | p in s.phases :: HoldsLock(s.phases[p], row)
  }

  predicate Enabled(s: State, step: Step) {
    match step
    case BeginUpload(p, row, key) => p !in s.phases && row in s.rows && !IsLocked(s, row) && key !in s.used
    case BeginRemove(p, row) => p !in s.phases && row in s.rows && !IsLocked(s, row)
    case PutWorks(p) => p in s.phases && s.phases[p].Putting?
    case PutFails(p, _) => p in s.phases && s.phases[p].Putting?
    case CommitWorks(p) => p in s.phases && (s.phases[p].Committing? || s.phases[p].Removing?)
    case CommitFails(p, _) => p in s.phases && (s.phases[p].Committing? || s.phases[p].Removing?)
    case DropWorks(p) => p in s.phases && (s.phases[p].DropOld? || s.phases[p].DropNew?)
    case DropFails(p) => p in s.phases && (s.phases[p].DropOld? || s.phases[p].DropNew?)
    case Crash(p, _) => p in s.phases
  }

  function Done(s: State, p: ProcessId): State {
    s.(phases := map q | q in s.phases && q != p :: s.phases[q])
  }

  function Goes(s: State, p: ProcessId, phase: Phase): State {
    s.(phases := s.phases[p := phase])
  }

  /** The committed effect of the phase's transaction. */
  function Written(s: State, phase: Phase): State {
    if phase.Committing? then s.(rows := s.rows[phase.row := Some(phase.key)])
    else if phase.Removing? then s.(rows := s.rows[phase.row := None])
    else s
  }

  function Next(s: State, step: Step): State
    requires Enabled(s, step)
  {
    match step
    case BeginUpload(p, row, key) => Goes(s, p, Putting(row, key, s.rows[row])).(used := s.used + {key})
    case BeginRemove(p, row) => Goes(s, p, Removing(row, s.rows[row]))
    case PutWorks(p) =>
      var phase := s.phases[p];
      Goes(s, p, Committing(phase.row, phase.key, phase.before)).(objects := s.objects + {phase.key})
    case PutFails(p, stored) =>
      Done(s, p).(objects := if stored then s.objects + {s.phases[p].key} else s.objects)
    case CommitWorks(p) =>
      var phase := s.phases[p];
      if phase.before.Some? then Goes(Written(s, phase), p, DropOld(phase.before.value))
      else Done(Written(s, phase), p)
    case CommitFails(p, applied) =>
      var phase := s.phases[p];
      var written := if applied then Written(s, phase) else s;
      if phase.Committing? then Goes(written, p, DropNew(phase.key, applied)) else Done(written, p)
    case DropWorks(p) =>
      if s.phases[p].DropOld? then Done(s, p).(objects := s.objects - {s.phases[p].former})
      else
        var key := s.phases[p].refused;
        Done(s, p).(objects := s.objects - {key}, lost := if s.phases[p].applied then s.lost + {key} else s.lost)
    case DropFails(p) => Done(s, p)
    case Crash(p, applied) =>
      var phase := s.phases[p];
      if !applied then Done(s, p)
      else if phase.Putting? then Done(s, p).(objects := s.objects + {phase.key})
      else Done(Written(s, phase), p)
  }

  predicate Runs(s: State, steps: seq<Step>)
    decreases |steps|
  {
    steps == [] || (Enabled(s, steps[0]) && Runs(Next(s, steps[0]), steps[1..]))
  }

  function Run(s: State, steps: seq<Step>): State
    requires Runs(s, steps)
    decreases |steps|
  {
    if steps == [] then s else Run(Next(s, steps[0]), steps[1..])
  }

  lemma StepThen(s: State, step: Step, rest: seq<Step>)
    requires Enabled(s, step) && Runs(Next(s, step), rest)
    ensures Runs(s, [step] + rest) && Run(s, [step] + rest) == Run(Next(s, step), rest)
  {
    assert ([step] + rest)[1..] == rest;
  }

  // ─── The invariant ───

  predicate IsCommitted(s: State, key: Key) {
    exists row | row in s.rows :: s.rows[row] == Some(key)
  }

  predicate Creates(phase: Phase, key: Key) {
    (phase.Putting? || phase.Committing?) && phase.key == key
  }

  /** The phase will delete this key, and no row should be using it. */
  predicate Discards(phase: Phase, key: Key) {
    phase == DropOld(key) || phase == DropNew(key, false)
  }

  predicate Drops(phase: Phase, key: Key) {
    phase == DropOld(key) || (phase.DropNew? && phase.refused == key)
  }

  /** Keys are drawn fresh: no row, object or pending deletion knows a key that was never drawn. */
  ghost predicate KeysAreUsed(s: State) {
    && s.objects <= s.used && s.lost <= s.used && s.objects !! s.lost
    && (forall row | row in s.rows && s.rows[row].Some? :: s.rows[row].value in s.used)
    && (forall p, key | p in s.phases && (Creates(s.phases[p], key) || Drops(s.phases[p], key)) :: key in s.used)
  }

  ghost predicate OneRowPerKey(s: State) {
    forall a, b | a in s.rows && b in s.rows && s.rows[a] == s.rows[b] && s.rows[a].Some? :: a == b
  }

  ghost predicate LocksAreExclusive(s: State) {
    && (forall p, q, row |
          p in s.phases && q in s.phases && HoldsLock(s.phases[p], row) && HoldsLock(s.phases[q], row) ::
          p == q)
    && (forall p, row | p in s.phases && HoldsLock(s.phases[p], row) ::
          row in s.rows && s.phases[p].before == s.rows[row])
  }

  /** No row has a key that is still being uploaded, and its object is stored before the commit. */
  ghost predicate NewKeysAreUnseen(s: State) {
    && (forall p, key | p in s.phases && Creates(s.phases[p], key) :: !IsCommitted(s, key) && key !in s.lost)
    && (forall p | p in s.phases && s.phases[p].Committing? :: s.phases[p].key in s.objects)
  }

  /** A key being uploaded belongs to its process alone. */
  ghost predicate NewKeysArePrivate(s: State) {
    forall p, q, key | p in s.phases && q in s.phases && Creates(s.phases[p], key) ::
      !Drops(s.phases[q], key) && (Creates(s.phases[q], key) ==> p == q)
  }

  ghost predicate DiscardsAreUnused(s: State) {
    forall p, key | p in s.phases && Discards(s.phases[p], key) :: !IsCommitted(s, key)
  }

  /** A committed key names a stored object, unless its own uploader deleted it after a commit it took for failed. */
  ghost predicate PhotosAreStored(s: State) {
    forall key | IsCommitted(s, key) :: key in s.objects <==> key !in s.lost
  }

  ghost predicate Inv(s: State) {
    && KeysAreUsed(s) && OneRowPerKey(s) && LocksAreExclusive(s)
    && NewKeysAreUnseen(s) && NewKeysArePrivate(s) && DiscardsAreUnused(s) && PhotosAreStored(s)
  }

  function Initial(restaurants: set<RestaurantId>): State {
    State(map row | row in restaurants :: None, {}, map[], {}, {})
  }

  lemma InitiallyValid(restaurants: set<RestaurantId>)
    ensures Inv(Initial(restaurants))
  {
  }

  lemma StepKeepsInv(s: State, step: Step)
    requires Inv(s) && Enabled(s, step)
    ensures Inv(Next(s, step))
  {
    StepKeepsKeys(s, step);
    StepKeepsLocks(s, step);
    StepKeepsPrivate(s, step);
    StepKeepsRows(s, step);
    StepKeepsUnseen(s, step);
    StepKeepsDiscards(s, step);
    StepKeepsPhotos(s, step);
    hide Next, Enabled;
  }

  lemma CommittedAfter(s: State, step: Step, key: Key)
    requires Inv(s) && Enabled(s, step)
    requires IsCommitted(Next(s, step), key)
    ensures IsCommitted(s, key) || (step.p in s.phases && s.phases[step.p].Committing? && s.phases[step.p].key == key)
  {
    var t := Next(s, step);
    var row :| row in t.rows && t.rows[row] == Some(key);
    if row in s.rows && s.rows[row] == Some(key) {
    } else {
      assert step.p in s.phases;
    }
  }

  /** What the invariant says about one phase on its own. */
  lemma PhaseFacts(s: State, p: ProcessId)
    requires Inv(s) && p in s.phases
    ensures var phase := s.phases[p];
      && (phase.Putting? || phase.Committing? || phase.Removing? ==>
            phase.row in s.rows && s.rows[phase.row] == phase.before
            && (phase.before.Some? ==> phase.before.value in s.used && IsCommitted(s, phase.before.value)))
      && (phase.Putting? || phase.Committing? ==>
            phase.key in s.used && Creates(phase, phase.key) && !IsCommitted(s, phase.key) && phase.key !in s.lost
            && forall row | row in s.rows :: s.rows[row] != Some(phase.key))
      && (phase.DropNew? ==> phase.refused in s.used)
  {
    var phase := s.phases[p];
    if phase.Putting? || phase.Committing? || phase.Removing? {
      assert HoldsLock(phase, phase.row);
    }
    if phase.Putting? || phase.Committing? {
      assert Creates(phase, phase.key) && !IsCommitted(s, phase.key);
    }
    if phase.DropNew? {
      assert Drops(phase, phase.refused);
    }
  }

  /** Once the transaction is committed, the key it replaced is in no row. */
  lemma ReplacedKeyIsUncommitted(s: State, p: ProcessId)
    requires Inv(s)
    requires p in s.phases && (s.phases[p].Committing? || s.phases[p].Removing?) && s.phases[p].before.Some?
    ensures IsCommitted(s, s.phases[p].before.value)
    ensures !IsCommitted(Written(s, s.phases[p]), s.phases[p].before.value)
  {
    PhaseFacts(s, p);
    hide LocksAreExclusive, NewKeysArePrivate, NewKeysAreUnseen, KeysAreUsed, PhotosAreStored;
  }

  lemma StepKeepsKeys(s: State, step: Step)
    requires Inv(s) && Enabled(s, step)
    ensures KeysAreUsed(Next(s, step))
  {
    if step.p in s.phases {
      PhaseFacts(s, step.p);
    }
    hide PhotosAreStored, DiscardsAreUnused, NewKeysArePrivate, NewKeysAreUnseen, LocksAreExclusive, IsCommitted;
  }

  lemma StepKeepsRows(s: State, step: Step)
    requires Inv(s) && Enabled(s, step)
    ensures OneRowPerKey(Next(s, step))
  {
    if step.p in s.phases {
      PhaseFacts(s, step.p);
    }
    hide PhotosAreStored, DiscardsAreUnused, NewKeysArePrivate, NewKeysAreUnseen, LocksAreExclusive, IsCommitted;
    hide KeysAreUsed;
  }

  lemma StepKeepsLocks(s: State, step: Step)
    requires Inv(s) && Enabled(s, step)
    ensures LocksAreExclusive(Next(s, step))
  {
    hide KeysAreUsed, OneRowPerKey, NewKeysAreUnseen, NewKeysArePrivate, DiscardsAreUnused, PhotosAreStored;
  }

  lemma StepKeepsUnseen(s: State, step: Step)
    requires Inv(s) && Enabled(s, step)
    ensures NewKeysAreUnseen(Next(s, step))
  {
    var t := Next(s, step);
    forall p, key | p in t.phases && Creates(t.phases[p], key) ensures !IsCommitted(t, key) && key !in t.lost {
      NewKeyIsUnseen(s, step, p, key);
    }
    forall p | p in t.phases && t.phases[p].Committing? ensures t.phases[p].key in t.objects {
      CommittingIsStored(s, step, p);
    }
  }

  lemma NewKeyIsUnseen(s: State, step: Step, p: ProcessId, key: Key)
    requires Inv(s) && Enabled(s, step) && p in Next(s, step).phases && Creates(Next(s, step).phases[p], key)
    ensures !IsCommitted(Next(s, step), key) && key !in Next(s, step).lost
  {
    FreshKeyIsUncommitted(s);
    CommittedKeysAfter(s, step);
    if step.p in s.phases {
      PhaseFacts(s, step.p);
    }
    if p in s.phases && p != step.p {
      assert s.phases[p] == Next(s, step).phases[p] && Creates(s.phases[p], key);
      assert !IsCommitted(s, key) && key !in s.lost;
      assert step.p in s.phases ==> !Creates(s.phases[step.p], key) && !Drops(s.phases[step.p], key);
    }
    hide NewKeysArePrivate, PhotosAreStored, IsCommitted, DiscardsAreUnused, OneRowPerKey, LocksAreExclusive;
  }

  lemma CommittingIsStored(s: State, step: Step, p: ProcessId)
    requires Inv(s) && Enabled(s, step) && p in Next(s, step).phases && Next(s, step).phases[p].Committing?
    ensures Next(s, step).phases[p].key in Next(s, step).objects
  {
    if p in s.phases && p != step.p {
      assert s.phases[p] == Next(s, step).phases[p] && Creates(s.phases[p], s.phases[p].key);
      assert step.p in s.phases ==> !Drops(s.phases[step.p], s.phases[p].key);
    }
    hide PhotosAreStored, IsCommitted, DiscardsAreUnused, OneRowPerKey, LocksAreExclusive;
  }

  lemma FreshKeyIsUncommitted(s: State)
    requires KeysAreUsed(s)
    ensures forall key | key !in s.used :: !IsCommitted(s, key)
  {
  }

  lemma StepKeepsPrivate(s: State, step: Step)
    requires Inv(s) && Enabled(s, step)
    ensures NewKeysArePrivate(Next(s, step))
  {
    if step.p in s.phases {
      PhaseFacts(s, step.p);
    }
    hide PhotosAreStored, IsCommitted, DiscardsAreUnused, OneRowPerKey, LocksAreExclusive;
  }

  lemma StepKeepsDiscards(s: State, step: Step)
    requires Inv(s) && Enabled(s, step)
    ensures DiscardsAreUnused(Next(s, step))
  {
    var t := Next(s, step);
    forall p, key | p in t.phases && Discards(t.phases[p], key) ensures !IsCommitted(t, key) {
      if p == step.p {
        OwnDiscardIsUnused(s, step, key);
      } else {
        OtherDiscardIsUnused(s, step, p, key);
      }
    }
  }

  lemma OwnDiscardIsUnused(s: State, step: Step, key: Key)
    requires Inv(s) && Enabled(s, step)
    requires step.p in Next(s, step).phases && Discards(Next(s, step).phases[step.p], key)
    ensures !IsCommitted(Next(s, step), key)
  {
    PhaseFacts(s, step.p);
    if step.CommitWorks? {
      ReplacedKeyIsUncommitted(s, step.p);
    }
    hide Inv;
  }

  lemma OtherDiscardIsUnused(s: State, step: Step, p: ProcessId, key: Key)
    requires Inv(s) && Enabled(s, step) && p != step.p
    requires p in Next(s, step).phases && Discards(Next(s, step).phases[p], key)
    ensures !IsCommitted(Next(s, step), key)
  {
    assert p in s.phases && s.phases[p] == Next(s, step).phases[p];
    assert !IsCommitted(s, key) && Drops(s.phases[p], key);
    if step.p in s.phases && s.phases[step.p].Committing? {
      assert Creates(s.phases[step.p], s.phases[step.p].key);
      assert s.phases[step.p].key != key;
    }
    CommittedKeysAfter(s, step);
    hide Inv, IsCommitted;
  }

  lemma CommittedKeysAfter(s: State, step: Step)
    requires Inv(s) && Enabled(s, step)
    ensures forall key | IsCommitted(Next(s, step), key) ::
              IsCommitted(s, key) || (step.p in s.phases && s.phases[step.p].Committing? && s.phases[step.p].key == key)
    ensures !(step.CommitWorks? || step.CommitFails? || step.Crash?) ==>
              forall key :: IsCommitted(Next(s, step), key) <==> IsCommitted(s, key)
  {
    forall key | IsCommitted(Next(s, step), key)
      ensures IsCommitted(s, key) || (step.p in s.phases && s.phases[step.p].Committing? && s.phases[step.p].key == key)
    {
      CommittedAfter(s, step, key);
    }
  }

  lemma StepKeepsPhotos(s: State, step: Step)
    requires Inv(s) && Enabled(s, step)
    ensures PhotosAreStored(Next(s, step))
  {
    CommittedKeysAfter(s, step);
    hide IsCommitted, LocksAreExclusive, OneRowPerKey;
  }

  // ─── Over whole runs ───

  lemma {:induction false} RunKeepsInv(s: State, steps: seq<Step>)
    requires Inv(s) && Runs(s, steps)
    ensures Inv(Run(s, steps))
    decreases |steps|
  {
    if steps != [] {
      StepKeepsInv(s, steps[0]);
      RunKeepsInv(Next(s, steps[0]), steps[1..]);
    }
  }

  predicate IsMisreported(step: Step) {
    step.CommitFails? && step.applied
  }

  ghost predicate NothingLost(s: State) {
    s.lost == {} && forall p, key | p in s.phases :: s.phases[p] != DropNew(key, true)
  }

  lemma {:induction false} HonestRunLosesNothing(s: State, steps: seq<Step>)
    requires Runs(s, steps) && NothingLost(s)
    requires forall i | 0 <= i < |steps| :: !IsMisreported(steps[i])
    ensures NothingLost(Run(s, steps))
    decreases |steps|
  {
    if steps != [] {
      assert !IsMisreported(steps[0]);
      assert NothingLost(Next(s, steps[0]));
      HonestRunLosesNothing(Next(s, steps[0]), steps[1..]);
    }
  }

  /**
   At every point of every run, whatever fails and whoever dies, each committed key names a stored object, so
   long as no commit is applied and reported as failed.
   */
  lemma CommittedPhotosExist(restaurants: set<RestaurantId>, steps: seq<Step>, row: RestaurantId)
    requires Runs(Initial(restaurants), steps)
    requires forall i | 0 <= i < |steps| :: !IsMisreported(steps[i])
    requires var t := Run(Initial(restaurants), steps); row in t.rows && t.rows[row].Some?
    ensures Run(Initial(restaurants), steps).rows[row].value in Run(Initial(restaurants), steps).objects
  {
    var s := Initial(restaurants);
    InitiallyValid(restaurants);
    RunKeepsInv(s, steps);
    HonestRunLosesNothing(s, steps);
    assert IsCommitted(Run(s, steps), Run(s, steps).rows[row].value);
  }

  /** Without that assumption: a committed key lacks its object exactly when its own uploader deleted it. */
  lemma DanglingExactlyWhenLost(restaurants: set<RestaurantId>, steps: seq<Step>, row: RestaurantId)
    requires Runs(Initial(restaurants), steps)
    requires var t := Run(Initial(restaurants), steps); row in t.rows && t.rows[row].Some?
    ensures var t := Run(Initial(restaurants), steps); t.rows[row].value !in t.objects <==> t.rows[row].value in t.lost
  {
    InitiallyValid(restaurants);
    RunKeepsInv(Initial(restaurants), steps);
    assert IsCommitted(Run(Initial(restaurants), steps), Run(Initial(restaurants), steps).rows[row].value);
  }

  /**
   In every reachable state about to commit an upload: when the commit is reported as failed and the clean-up
   goes through, the row is left pointing at a deleted object exactly when the commit had been applied.
   */
  lemma MisreportedCommitLosesThePhoto(s: State, p: ProcessId, applied: bool)
    requires Inv(s) && p in s.phases && s.phases[p].Committing?
    ensures Runs(s, [CommitFails(p, applied), DropWorks(p)])
    ensures var t := Run(s, [CommitFails(p, applied), DropWorks(p)]);
      && s.phases[p].key !in t.objects
      && (IsCommitted(t, s.phases[p].key) <==> applied)
  {
    PhaseFacts(s, p);
    var phase := s.phases[p];
    var failed := Next(s, CommitFails(p, applied));
    assert [CommitFails(p, applied), DropWorks(p)][1..] == [DropWorks(p)];
    assert Enabled(failed, DropWorks(p)) && Runs(failed, [DropWorks(p)]);
    var t := Next(failed, DropWorks(p));
    assert [DropWorks(p)][1..] == [] && Run(failed, [DropWorks(p)]) == t;
    if applied {
      assert t.rows[phase.row] == Some(phase.key);
    }
  }

  predicate IsSmooth(step: Step) {
    !step.PutFails? && !step.CommitFails? && !step.DropFails? && !step.Crash?
  }

  /** Every stored object is in use, about to be, or about to be deleted. */
  ghost predicate NothingWasted(s: State) {
    forall key | key in s.objects :: IsCommitted(s, key) || IsInHand(s, key)
  }

  ghost predicate IsInHand(s: State, key: Key) {
    exists p | p in s.phases :: Creates(s.phases[p], key) || Drops(s.phases[p], key)
  }

  lemma SmoothStepWastesNothing(s: State, step: Step)
    requires Inv(s) && NothingWasted(s) && Enabled(s, step) && IsSmooth(step)
    ensures NothingWasted(Next(s, step))
  {
    var t := Next(s, step);
    hide Inv;
    forall key | key in t.objects ensures IsCommitted(t, key) || IsInHand(t, key) {
      if key in s.objects && IsCommitted(s, key) {
        var row :| row in s.rows && s.rows[row] == Some(key);
        if t.rows[row] != Some(key) {
          ReplacedIsDropped(s, step, row, key);
        }
      } else if key in s.objects {
        var p :| p in s.phases && (Creates(s.phases[p], key) || Drops(s.phases[p], key));
        if p != step.p {
          assert t.phases[p] == s.phases[p];
        } else if step.CommitWorks? {
          assert t.rows[s.phases[p].row] == Some(key);
        } else {
          assert p in t.phases && Creates(t.phases[p], key);
        }
      } else {
        assert Creates(t.phases[step.p], key);
      }
    }
  }

  lemma ReplacedIsDropped(s: State, step: Step, row: RestaurantId, key: Key)
    requires Inv(s) && Enabled(s, step) && IsSmooth(step)
    requires row in s.rows && s.rows[row] == Some(key) && Next(s, step).rows[row] != Some(key)
    ensures IsInHand(Next(s, step), key)
  {
    PhaseFacts(s, step.p);
    hide Inv;
    assert Drops(Next(s, step).phases[step.p], key);
  }

  lemma {:induction false} SmoothRunWastesNothing(s: State, steps: seq<Step>)
    requires Inv(s) && NothingWasted(s) && Runs(s, steps)
    requires forall i | 0 <= i < |steps| :: IsSmooth(steps[i])
    ensures NothingWasted(Run(s, steps))
    decreases |steps|
  {
    if steps != [] {
      assert IsSmooth(steps[0]);
      StepKeepsInv(s, steps[0]);
      SmoothStepWastesNothing(s, steps[0]);
      SmoothRunWastesNothing(Next(s, steps[0]), steps[1..]);
    }
  }

  /** When nothing failed and every request has ended, the store holds the committed photos and nothing else. */
  lemma SmoothRunsLeaveExactlyThePhotos(restaurants: set<RestaurantId>, steps: seq<Step>, key: Key)
    requires Runs(Initial(restaurants), steps)
    requires forall i | 0 <= i < |steps| :: IsSmooth(steps[i])
    requires Run(Initial(restaurants), steps).phases == map[]
    ensures var t := Run(Initial(restaurants), steps); key in t.objects <==> IsCommitted(t, key)
  {
    var s := Initial(restaurants);
    InitiallyValid(restaurants);
    SmoothRunWastesNothing(s, steps);
    RunKeepsInv(s, steps);
    assert forall i | 0 <= i < |steps| :: IsSmooth(steps[i]) ==> !IsMisreported(steps[i]);
    HonestRunLosesNothing(s, steps);
  }

  /** One upload to one restaurant, the acknowledgement of its commit lost: the row names a photo that is gone. */
  lemma PhotoLost()
    ensures Runs(Initial({1}), [BeginUpload(0, 1, "k"), PutWorks(0), CommitFails(0, true), DropWorks(0)])
    ensures var t := Run(Initial({1}), [BeginUpload(0, 1, "k"), PutWorks(0), CommitFails(0, true), DropWorks(0)]);
      t.rows == map[1 := Some("k")] && t.objects == {}
  {
    var s := Initial({1});
    var begun := Next(s, BeginUpload(0, 1, "k"));
    var put := Next(begun, PutWorks(0));
    var tail := [CommitFails(0, true), DropWorks(0)];
    InitiallyValid({1});
    StepKeepsInv(s, BeginUpload(0, 1, "k"));
    StepKeepsInv(begun, PutWorks(0));
    MisreportedCommitLosesThePhoto(put, 0, true);
    assert [BeginUpload(0, 1, "k"), PutWorks(0), CommitFails(0, true), DropWorks(0)][1..] == [PutWorks(0)] + tail;
    assert ([PutWorks(0)] + tail)[1..] == tail;
    var failed := Next(put, CommitFails(0, true));
    assert tail[1..] == [DropWorks(0)] && [DropWorks(0)][1..] == [];
    assert Run(put, tail) == Next(failed, DropWorks(0));
    assert Next(failed, DropWorks(0)).rows == map[1 := Some("k")];
    assert Next(failed, DropWorks(0)).objects == {};
  }
}

/**
 The client's credentials: what is in memory, what is in the secure store, and the queue between them.

 JavaScript runs one job at a time, so each step below is a stretch of code between two awaits. A queued
 operation starts, finishes its secure-store call, and then the `await` of the call that queued it
 continues before the next operation starts, because both are reactions to the same promise and the
 continuation is the older of the two jobs. No secure-store call fails.
 */
module CredentialQueue {
  import opened Basics

  /** `call` numbers the `setTokens` call that brought the tokens in. */
  datatype Credentials = Credentials(access: int, refresh: int, user: int, call: nat)

  datatype Operation = Save(revision: nat, credentials: Credentials) | Clear
  datatype Phase = WAITING | SAVING | SETTLED

  datatype State = State(
    memory: Option<Credentials>,
    store: Option<Credentials>,
    revision: nat,
    queue: seq<Operation>,
    /** How far the head of the queue has come. */
    phase: Phase,
    calls: nat)

  datatype Step =
    | SetTokens(access: int, refresh: int, user: int, expected: Option<int>)
    | Logout
    | StartOperation
    | FinishOperation
    | Continue

  predicate Enabled(s: State, step: Step) {
    match step
    case StartOperation => s.queue != [] && s.phase == WAITING
    case FinishOperation => s.queue != [] && s.phase == SAVING
    case Continue => s.queue != [] && s.phase == SETTLED
    case _ => true
  }

  /** A refresh is dropped when the refresh token it was based on is no longer the one in memory. */
  predicate IsStale(s: State, expected: Option<int>) {
    expected.Some? && !(s.memory.Some? && s.memory.value.refresh == expected.value)
  }

  function Next(s: State, step: Step): State
    requires Enabled(s, step)
  {
    match step
    case SetTokens(access, refresh, user, expected) =>
      if IsStale(s, expected) then s.(calls := s.calls + 1)
      else
        var revision := if expected.None? then s.revision + 1 else s.revision;
        s.(revision := revision, calls := s.calls + 1,
           queue := s.queue + [Save(revision, Credentials(access, refresh, user, s.calls))])
    case Logout => s.(memory := None, revision := s.revision + 1, queue := s.queue + [Clear])
    case StartOperation =>
      // A save from before the latest login or logout is skipped.
      if s.queue[0].Save? && s.queue[0].revision != s.revision then s.(phase := SETTLED) else s.(phase := SAVING)
    case FinishOperation =>
      s.(phase := SETTLED, store := if s.queue[0].Save? then Some(s.queue[0].credentials) else None)
    case Continue =>
      s.(phase := WAITING, queue := s.queue[1..],
         memory := if IsCurrent(s.queue[0], s.revision) then Some(s.queue[0].credentials) else s.memory)
  }

  predicate IsCurrent(op: Operation, revision: nat) {
    op.Save? && op.revision == revision
  }

  predicate Runs(s: State, steps: seq<Step>)
    decreases |steps|
  {
    steps == [] || (Enabled(s, steps[0]) && Runs(Next(s, steps[0]), steps[1..]))
  }

  function Run(s: State, steps: seq<Step>): State
    requires Runs(s, steps)
    decreases |steps|
  {
    if steps == [] then s else Run(Next(s, steps[0]), steps[1..])
  }

  // ─── What the queue will come to ───

  /** The secure store once the waiting operations have run, if nothing else happens. */
  function StoreAfter(store: Option<Credentials>, queue: seq<Operation>, revision: nat): Option<Credentials>
    decreases |queue|
  {
    if queue == [] then store
    else
      var last := queue[|queue| - 1];
      if last.Clear? then None
      else if IsCurrent(last, revision) then Some(last.credentials)
      else StoreAfter(store, queue[..|queue| - 1], revision)
  }

  /** Memory once the waiting operations have run, if nothing else happens. */
  function MemoryAfter(memory: Option<Credentials>, queue: seq<Operation>, revision: nat): Option<Credentials>
    decreases |queue|
  {
    if queue == [] then memory
    else
      var last := queue[|queue| - 1];
      if IsCurrent(last, revision) then Some(last.credentials)
      else MemoryAfter(memory, queue[..|queue| - 1], revision)
  }

  /** What the head of the queue still owes the store and memory, given how far it has come. */
  function HeadStore(s: State): Option<Credentials>
    requires s.queue != []
  {
    if s.phase == SETTLED then s.store
    else if s.queue[0].Clear? then None
    else if s.phase == SAVING || IsCurrent(s.queue[0], s.revision) then Some(s.queue[0].credentials)
    else s.store
  }

  function HeadMemory(s: State): Option<Credentials>
    requires s.queue != []
  {
    if IsCurrent(s.queue[0], s.revision) then Some(s.queue[0].credentials) else s.memory
  }

  function FinalStore(s: State): Option<Credentials> {
    if s.queue == [] then s.store else StoreAfter(HeadStore(s), s.queue[1..], s.revision)
  }

  function FinalMemory(s: State): Option<Credentials> {
    if s.queue == [] then s.memory else MemoryAfter(HeadMemory(s), s.queue[1..], s.revision)
  }

  /** Queued saves carry revisions up to the current one and call numbers below the counter. */
  ghost predicate QueueValid(s: State) {
    && (forall op | op in s.queue && op.Save? :: op.revision <= s.revision && op.credentials.call < s.calls)
    && (s.memory.Some? ==> s.memory.value.call < s.calls)
    && (s.queue == [] ==> s.phase == WAITING)
    && (s.queue != [] && s.phase == SETTLED && IsCurrent(s.queue[0], s.revision) ==>
          s.store == Some(s.queue[0].credentials))
  }

  ghost predicate Inv(s: State) {
    QueueValid(s) && FinalStore(s) == FinalMemory(s)
  }

  // ─── The invariant over every interleaving ───

  lemma {:induction false} StoreHeadFirst(store: Option<Credentials>, queue: seq<Operation>, revision: nat)
    requires queue != []
    ensures StoreAfter(store, queue, revision)
         == StoreAfter(StoreAfter(store, queue[..1], revision), queue[1..], revision)
    decreases |queue|
  {
    if |queue| > 1 {
      var init := queue[..|queue| - 1];
      assert init[..1] == queue[..1] && init[1..] == queue[1..][..|queue| - 2];
      StoreHeadFirst(store, init, revision);
    }
  }

  lemma {:induction false} MemoryHeadFirst(memory: Option<Credentials>, queue: seq<Operation>, revision: nat)
    requires queue != []
    ensures MemoryAfter(memory, queue, revision)
         == MemoryAfter(MemoryAfter(memory, queue[..1], revision), queue[1..], revision)
    decreases |queue|
  {
    if |queue| > 1 {
      var init := queue[..|queue| - 1];
      assert init[..1] == queue[..1] && init[1..] == queue[1..][..|queue| - 2];
      MemoryHeadFirst(memory, init, revision);
    }
  }

  lemma {:induction false} NothingCurrent(memory: Option<Credentials>, queue: seq<Operation>, revision: nat)
    requires forall op | op in queue :: !IsCurrent(op, revision)
    ensures MemoryAfter(memory, queue, revision) == memory
    decreases |queue|
  {
    if queue != [] {
      NothingCurrent(memory, queue[..|queue| - 1], revision);
    }
  }

  lemma ContinueKeeps(s: State)
    requires Inv(s) && Enabled(s, Continue)
    ensures Inv(Next(s, Continue))
  {
    var t := Next(s, Continue);
    if t.queue != [] {
      assert t.queue[..1] == [t.queue[0]] && t.queue[..1][..0] == [];
      StoreHeadFirst(t.store, t.queue, t.revision);
      MemoryHeadFirst(t.memory, t.queue, t.revision);
      assert HeadStore(t) == StoreAfter(t.store, t.queue[..1], t.revision);
      assert HeadMemory(t) == MemoryAfter(t.memory, t.queue[..1], t.revision);
    }
  }

  lemma AppendKeeps(s: State, step: Step)
    requires Inv(s) && (step.SetTokens? || step.Logout?)
    ensures Inv(Next(s, step))
  {
    var t := Next(s, step);
    if |t.queue| > |s.queue| {
      assert t.queue[|t.queue| - 1] == t.queue[|s.queue|];
      if s.queue != [] {
        assert t.queue[1..][..|s.queue| - 1] == s.queue[1..];
        assert t.queue[1..][|s.queue| - 1] == t.queue[|s.queue|];
        assert t.queue[0] == s.queue[0] && s.queue[0] in s.queue;
        if step.Logout? {
          assert forall op | op in s.queue[1..] :: op in s.queue;
          NothingCurrent(t.memory, s.queue[1..], t.revision);
        }
      }
    }
  }

  lemma StepKeepsInv(s: State, step: Step)
    requires Inv(s) && Enabled(s, step)
    ensures Inv(Next(s, step))
  {
    match step {
      case Continue => ContinueKeeps(s);
      case SetTokens(_, _, _, _) => AppendKeeps(s, step);
      case Logout => AppendKeeps(s, step);
      case _ =>
    }
  }

  lemma {:induction false} RunKeepsInv(s: State, steps: seq<Step>)
    requires Inv(s) && Runs(s, steps)
    ensures Inv(Run(s, steps))
    decreases |steps|
  {
    if steps != [] {
      StepKeepsInv(s, steps[0]);
      RunKeepsInv(Next(s, steps[0]), steps[1..]);
    }
  }

  /** A client after start-up: memory was filled from the secure store and nothing is queued. */
  predicate IsHydrated(s: State) {
    && s.queue == [] && s.phase == WAITING && s.memory == s.store
    && (s.memory.Some? ==> s.memory.value.call < s.calls)
  }

  /**
   Over every interleaving of logins, refreshes, logouts and secure-store completions: whenever the queue
   has drained, the secure store and memory hold the same tokens.
   */
  lemma DrainedAgree(s: State, steps: seq<Step>)
    requires IsHydrated(s) && Runs(s, steps) && Run(s, steps).queue == []
    ensures Run(s, steps).store == Run(s, steps).memory
  {
    RunKeepsInv(s, steps);
  }

  // ─── Nothing from before a logout comes back ───

  /** Memory, and every save that would still be accepted, comes from a call numbered `mark` or later. */
  ghost predicate OnlySince(s: State, mark: nat) {
    && mark <= s.calls
    && (s.memory.Some? ==> s.memory.value.call >= mark)
    && (forall op | op in s.queue && IsCurrent(op, s.revision) :: op.credentials.call >= mark)
    && (forall op | op in s.queue && op.Save? :: op.revision <= s.revision)
  }

  lemma StepKeepsSince(s: State, step: Step, mark: nat)
    requires OnlySince(s, mark) && Enabled(s, step)
    ensures OnlySince(Next(s, step), mark)
  {
  }

  lemma {:induction false} RunKeepsSince(s: State, steps: seq<Step>, mark: nat)
    requires OnlySince(s, mark) && Runs(s, steps)
    ensures OnlySince(Run(s, steps), mark)
    decreases |steps|
  {
    if steps != [] {
      StepKeepsSince(s, steps[0], mark);
      RunKeepsSince(Next(s, steps[0]), steps[1..], mark);
    }
  }

  /**
   Whatever is under way when the user logs out, memory never again holds tokens from a `setTokens` call
   begun before it; and once the queue has drained, neither does the secure store.
   */
  lemma LogoutIsFinal(s: State, steps: seq<Step>)
    requires Inv(s) && Runs(Next(s, Logout), steps)
    ensures var end := Run(Next(s, Logout), steps);
      && (end.memory.Some? ==> end.memory.value.call >= s.calls)
      && (end.queue == [] && end.store.Some? ==> end.store.value.call >= s.calls)
  {
    StepKeepsInv(s, Logout);
    RunKeepsSince(Next(s, Logout), steps, s.calls);
    RunKeepsInv(Next(s, Logout), steps);
  }

  /** A login likewise cuts off every earlier call that has not reached memory yet. */
  lemma LoginIsFinal(s: State, access: int, refresh: int, user: int, steps: seq<Step>)
    requires Inv(s) && Runs(Next(s, SetTokens(access, refresh, user, None)), steps)
    ensures var end := Run(Next(s, SetTokens(access, refresh, user, None)), steps);
      end.memory.Some? ==> end.memory == s.memory || end.memory.value.call >= s.calls
  {
    ReplacedStays(Next(s, SetTokens(access, refresh, user, None)), steps, s.memory, s.calls);
  }

  lemma {:induction false} ReplacedStays(s: State, steps: seq<Step>, kept: Option<Credentials>, mark: nat)
    requires Runs(s, steps) && mark <= s.calls
    requires s.memory.Some? ==> s.memory == kept || s.memory.value.call >= mark
    requires forall op | op in s.queue && op.Save? :: op.revision <= s.revision
    requires forall op | op in s.queue && IsCurrent(op, s.revision) :: op.credentials.call >= mark
    ensures Run(s, steps).memory.Some? ==> Run(s, steps).memory == kept || Run(s, steps).memory.value.call >= mark
    decreases |steps|
  {
    if steps != [] {
      ReplacedStays(Next(s, steps[0]), steps[1..], kept, mark);
    }
  }

  // ─── Start-up reading outside the queue ───

  /** The client as it starts: nothing in memory yet, whatever an earlier run left in the secure store. */
  predicate IsStart(s: State) {
    && s.memory == None && s.queue == [] && s.phase == WAITING
    && (s.store.Some? ==> s.store.value.call < s.calls)
  }

  /** `hydrate` sets memory to what it read at the start, without looking at the revision. */
  function LateHydrate(s: State, read: Option<Credentials>): State {
    if read.Some? then s.(memory := read) else s
  }

  /** No login and no logout since the start: only stale refreshes, which change nothing. */
  ghost predicate IsUntouched(start: State, s: State) {
    s == start.(calls := s.calls) && s.calls >= start.calls
  }

  /** Since a first login or logout, everything in memory or still to come is newer than the start. */
  ghost predicate HasMoved(start: State, s: State) {
    s.revision > start.revision && Inv(s) && OnlySince(s, start.calls)
  }

  lemma {:induction false} StartOrMoved(start: State, s: State, steps: seq<Step>)
    requires IsStart(start) && Runs(s, steps)
    requires IsUntouched(start, s) || HasMoved(start, s)
    ensures IsUntouched(start, Run(s, steps)) || HasMoved(start, Run(s, steps))
    decreases |steps|
  {
    if steps != [] {
      var next := Next(s, steps[0]);
      if HasMoved(start, s) {
        StepKeepsInv(s, steps[0]);
        StepKeepsSince(s, steps[0], start.calls);
      } else if next.queue != [] {
        assert next.queue[0] in next.queue && next.queue[1..] == [];
      }
      StartOrMoved(start, next, steps[1..]);
    }
  }

  /** A login that is still on its way to memory. */
  ghost predicate WillBeReplaced(s: State) {
    exists op | op in s.queue :: IsCurrent(op, s.revision)
  }

  lemma {:induction false} CurrentReplaces(m: Option<Credentials>, n: Option<Credentials>, queue: seq<Operation>,
                                           revision: nat)
    requires exists op | op in queue :: IsCurrent(op, revision)
    ensures MemoryAfter(m, queue, revision) == MemoryAfter(n, queue, revision)
    decreases |queue|
  {
    var init, last := queue[..|queue| - 1], queue[|queue| - 1];
    if !IsCurrent(last, revision) {
      var op :| op in queue && IsCurrent(op, revision);
      assert op in init;
      CurrentReplaces(m, n, init, revision);
    }
  }

  /** What memory will come to after the reading arrived. */
  lemma HydratedMemory(s: State, read: Option<Credentials>)
    requires read.Some? && (s.queue == [] ==> s.phase == WAITING)
    ensures FinalStore(LateHydrate(s, read)) == FinalStore(s)
    ensures FinalMemory(LateHydrate(s, read)) == if WillBeReplaced(s) then FinalMemory(s) else read
    ensures !WillBeReplaced(s) ==> FinalMemory(s) == s.memory
  {
    var t := LateHydrate(s, read);
    if s.queue != [] {
      assert s.queue == [s.queue[0]] + s.queue[1..];
      if WillBeReplaced(s) {
        if !IsCurrent(s.queue[0], s.revision) {
          var op :| op in s.queue && IsCurrent(op, s.revision);
          assert op in s.queue[1..];
          CurrentReplaces(HeadMemory(t), HeadMemory(s), s.queue[1..], s.revision);
        }
      } else {
        assert s.queue[0] in s.queue && forall op | op in s.queue[1..] :: op in s.queue;
        NothingCurrent(s.memory, s.queue[1..], s.revision);
        NothingCurrent(t.memory, s.queue[1..], s.revision);
      }
    }
  }

  /**
   The reading of the start may arrive at any moment of any run, with logins, refreshes and logouts queued or
   done. Memory and store come to agree again if and only if there was nothing to read, or nobody has logged
   in or out since the start, or the write of a later login is still on its way.
   */
  lemma LateHydrateExact(s: State, steps: seq<Step>)
    requires IsStart(s) && Runs(s, steps)
    ensures var late := LateHydrate(Run(s, steps), s.store);
      FinalStore(late) == FinalMemory(late)
      <==> s.store.None? || late.revision == s.revision || WillBeReplaced(late)
    ensures var late := LateHydrate(Run(s, steps), s.store);
      FinalStore(late) == FinalMemory(late) ==> Inv(late)
  {
    StartOrMoved(s, s, steps);
    var end := Run(s, steps);
    if s.store.Some? {
      HydratedMemory(end, s.store);
    } else if IsUntouched(s, end) {
      assert FinalStore(end) == None;
    }
  }

  /** Hydrating before anything else happened leaves a client at rest. */
  lemma HydratedAtOnce(s: State)
    requires IsStart(s)
    ensures IsHydrated(LateHydrate(s, s.store))
  {
  }

  lemma StepThen(s: State, step: Step, rest: seq<Step>)
    requires Enabled(s, step) && Runs(Next(s, step), rest)
    ensures Runs(s, [step] + rest) && Run(s, [step] + rest) == Run(Next(s, step), rest)
  {
    assert ([step] + rest)[1..] == rest;
  }

  /** One operation alone in the queue runs to its end. */
  lemma OneOperation(s: State)
    requires |s.queue| == 1 && s.phase == WAITING
    requires s.queue[0].Save? ==> s.queue[0].revision == s.revision
    ensures var saved := if s.queue[0].Save? then Some(s.queue[0].credentials) else None;
      var steps := [StartOperation, FinishOperation, Continue];
      && Runs(s, steps)
      && Run(s, steps) == s.(queue := [], store := saved, memory := if s.queue[0].Save? then saved else s.memory)
  {
    var started := Next(s, StartOperation);
    var finished := Next(started, FinishOperation);
    StepThen(finished, Continue, []);
    StepThen(started, FinishOperation, [Continue]);
    StepThen(s, StartOperation, [FinishOperation, Continue]);
    assert [Continue] + [] == [Continue] && [FinishOperation] + [Continue] == [FinishOperation, Continue];
    assert [StartOperation] + [FinishOperation, Continue] == [StartOperation, FinishOperation, Continue];
    assert s.queue[1..] == [];
  }

  /** Logged out before the reading arrives: the secure store is empty, and the old tokens are back in memory. */
  lemma LateHydrateUndoesLogout(s: State)
    requires IsStart(s) && s.store.Some?
    ensures var steps := [Logout, StartOperation, FinishOperation, Continue];
      && Runs(s, steps)
      && var late := LateHydrate(Run(s, steps), s.store);
      && late.queue == [] && late.store == None && late.memory == s.store
  {
    var queued := Next(s, Logout);
    OneOperation(queued);
    StepThen(s, Logout, [StartOperation, FinishOperation, Continue]);
    assert [Logout] + [StartOperation, FinishOperation, Continue]
        == [Logout, StartOperation, FinishOperation, Continue];
  }

  // ─── Which calls count ───

  /** A refresh counts exactly while the refresh token it was based on is the one in memory; a login always does. */
  predicate IsBasedOn(s: State, expected: Option<int>) {
    expected.Some? ==> s.memory.Some? && s.memory.value.refresh == expected.value
  }

  /** A call that does not count changes nothing but the number of calls; any other call is queued. */
  lemma CallCountsExactly(s: State, access: int, refresh: int, user: int, expected: Option<int>)
    ensures var t := Next(s, SetTokens(access, refresh, user, expected));
      if IsBasedOn(s, expected) then
        && |t.queue| == |s.queue| + 1 && t.queue[..|s.queue|] == s.queue
        && t.queue[|s.queue|].Save? && t.queue[|s.queue|].credentials == Credentials(access, refresh, user, s.calls)
        && t.memory == s.memory && t.store == s.store
      else t == s.(calls := s.calls + 1)
  {
  }

  /** The secure-store work goes on, but nobody calls. */
  predicate IsWork(step: Step) {
    step.StartOperation? || step.FinishOperation? || step.Continue?
  }

  lemma {:induction false} WorkKeepsFinal(s: State, steps: seq<Step>)
    requires Inv(s) && Runs(s, steps) && forall i | 0 <= i < |steps| :: IsWork(steps[i])
    ensures Inv(Run(s, steps)) && FinalMemory(Run(s, steps)) == FinalMemory(s)
    decreases |steps|
  {
    if steps != [] {
      var next := Next(s, steps[0]);
      StepKeepsInv(s, steps[0]);
      if steps[0].Continue? && next.queue != [] {
        assert next.queue[..1] == [next.queue[0]] && next.queue[..1][..0] == [];
        MemoryHeadFirst(next.memory, next.queue, next.revision);
        assert HeadMemory(next) == MemoryAfter(next.memory, next.queue[..1], next.revision);
      }
      hide Inv, Next, FinalMemory;
      assert IsWork(steps[0]) && forall i | 0 <= i < |steps[1..]| :: steps[1..][i] == steps[i + 1];
      WorkKeepsFinal(next, steps[1..]);
    }
  }

  /** What the latest call that counts asks for: its tokens, or nothing after a logout. */
  function Wanted(s: State, call: Step): Option<Credentials>
    requires call.SetTokens? || call.Logout?
  {
    if call.Logout? then None else Some(Credentials(call.access, call.refresh, call.user, s.calls))
  }

  /**
   Whatever was queued before it, the latest call that counts wins: once the queue has drained, store and
   memory hold its tokens, or nothing if it was a logout.
   */
  lemma LatestCallWins(s: State, call: Step, steps: seq<Step>)
    requires Inv(s) && (call.Logout? || (call.SetTokens? && IsBasedOn(s, call.expected)))
    requires Runs(Next(s, call), steps) && forall i | 0 <= i < |steps| :: IsWork(steps[i])
    requires Run(Next(s, call), steps).queue == []
    ensures var end := Run(Next(s, call), steps); end.memory == end.store == Wanted(s, call)
  {
    StepKeepsInv(s, call);
    WantedIsFinal(s, call);
    WorkKeepsFinal(Next(s, call), steps);
  }

  lemma WantedIsFinal(s: State, call: Step)
    requires Inv(s) && (call.Logout? || (call.SetTokens? && IsBasedOn(s, call.expected)))
    ensures FinalMemory(Next(s, call)) == Wanted(s, call)
  {
    var t := Next(s, call);
    assert t.queue[|s.queue|] == t.queue[|t.queue| - 1];
    if s.queue != [] {
      assert t.queue[1..][|s.queue| - 1] == t.queue[|s.queue|];
      if call.Logout? {
        assert t.queue[1..][..|s.queue| - 1] == s.queue[1..] && s.queue[0] in s.queue;
        assert forall op | op in s.queue[1..] :: op in s.queue;
        NothingCurrent(t.memory, s.queue[1..], t.revision);
      }
    }
  }

  // ─── Refreshes of the previous account ───

  /** No call of the run brings this refresh token in: servers issue each token once. */
  predicate NeverIssues(steps: seq<Step>, r: int) {
    forall i | 0 <= i < |steps| :: steps[i].SetTokens? ==> steps[i].refresh != r
  }

  /** The token is neither in memory nor on its way to it. */
  ghost predicate IsForgotten(s: State, r: int) {
    && (s.memory.Some? ==> s.memory.value.refresh != r)
    && (forall op | op in s.queue && op.Save? :: op.revision <= s.revision)
    && (forall op | op in s.queue && IsCurrent(op, s.revision) :: op.credentials.refresh != r)
  }

  lemma ForgottenStays(s: State, step: Step, r: int)
    requires IsForgotten(s, r) && Enabled(s, step) && (step.SetTokens? ==> step.refresh != r)
    ensures IsForgotten(Next(s, step), r)
  {
  }

  lemma {:induction false} ForgottenForever(s: State, steps: seq<Step>, r: int)
    requires IsForgotten(s, r) && Runs(s, steps) && NeverIssues(steps, r)
    ensures IsForgotten(Run(s, steps), r)
    decreases |steps|
  {
    if steps != [] {
      ForgottenStays(s, steps[0], r);
      assert forall i | 0 <= i < |steps[1..]| :: steps[1..][i] == steps[i + 1];
      ForgottenForever(Next(s, steps[0]), steps[1..], r);
    }
  }

  /** After a logout no refresh based on a token from before it ever counts again, whoever logs in meanwhile. */
  lemma LogoutEndsRefreshes(s: State, steps: seq<Step>, r: int)
    requires Inv(s) && Runs(Next(s, Logout), steps) && NeverIssues(steps, r)
    ensures var end := Run(Next(s, Logout), steps);
      && !IsBasedOn(end, Some(r))
      && forall access, refresh, user ::
           Next(end, SetTokens(access, refresh, user, Some(r))) == end.(calls := end.calls + 1)
  {
    ForgottenForever(Next(s, Logout), steps, r);
  }

  /** The step takes the old token out of memory: a logout, or a counted save reaching memory. */
  predicate ReplacesMemory(s: State, step: Step)
    requires Enabled(s, step)
  {
    step.Logout? || (step.Continue? && IsCurrent(s.queue[0], s.revision))
  }

  predicate KeepsMemory(s: State, steps: seq<Step>)
    requires Runs(s, steps)
    decreases |steps|
  {
    steps == [] || (!ReplacesMemory(s, steps[0]) && KeepsMemory(Next(s, steps[0]), steps[1..]))
  }

  /** The old token is still in memory, and everything on its way to memory will replace it. */
  ghost predicate IsGoing(s: State, r: int) {
    && s.memory.Some? && s.memory.value.refresh == r
    && (forall op | op in s.queue && op.Save? :: op.revision <= s.revision)
    && (forall op | op in s.queue && IsCurrent(op, s.revision) :: op.credentials.refresh != r)
  }

  lemma GoingStep(s: State, step: Step, r: int)
    requires IsGoing(s, r) && Enabled(s, step) && (step.SetTokens? ==> step.refresh != r)
    ensures if ReplacesMemory(s, step) then IsForgotten(Next(s, step), r) else IsGoing(Next(s, step), r)
  {
  }

  lemma {:induction false} GoingUntilReplaced(s: State, steps: seq<Step>, r: int)
    requires IsGoing(s, r) && Runs(s, steps) && NeverIssues(steps, r)
    ensures IsBasedOn(Run(s, steps), Some(r)) <==> KeepsMemory(s, steps)
    decreases |steps|
  {
    if steps != [] {
      GoingStep(s, steps[0], r);
      assert forall i | 0 <= i < |steps[1..]| :: steps[1..][i] == steps[i + 1];
      if ReplacesMemory(s, steps[0]) {
        ForgottenForever(Next(s, steps[0]), steps[1..], r);
      } else {
        GoingUntilReplaced(Next(s, steps[0]), steps[1..], r);
      }
    }
  }

  /**
   After a login over another one, a refresh based on the earlier refresh token still counts if and only if no
   logout happened since and no save queued since has reached memory.
   */
  lemma LoginEndsRefreshesExactly(s: State, access: int, refresh: int, user: int, steps: seq<Step>, r: int)
    requires Inv(s) && s.memory.Some? && s.memory.value.refresh == r && refresh != r
    requires var login := Next(s, SetTokens(access, refresh, user, None)); Runs(login, steps) && NeverIssues(steps, r)
    ensures var login := Next(s, SetTokens(access, refresh, user, None));
      IsBasedOn(Run(login, steps), Some(r)) <==> KeepsMemory(login, steps)
  {
    GoingUntilReplaced(Next(s, SetTokens(access, refresh, user, None)), steps, r);
  }

  /**
   What that costs: a refresh of the account that was logged in before, answered while the next account's
   tokens are being saved, replaces the next account's login in store and memory.
   */
  lemma OldRefreshReplacesLogin(s: State, mine: Credentials, theirs: Credentials)
    requires IsHydrated(s) && s.memory.Some?
    ensures var login := SetTokens(mine.access, mine.refresh, mine.user, None);
      var late := SetTokens(theirs.access, theirs.refresh, theirs.user, Some(s.memory.value.refresh));
      var work := [StartOperation, FinishOperation, Continue];
      && Runs(s, [login, late] + work + work)
      && var end := Run(s, [login, late] + work + work);
      && end.queue == [] && end.memory == end.store
      && end.memory == Some(Credentials(theirs.access, theirs.refresh, theirs.user, s.calls + 1))
  {
    var login := SetTokens(mine.access, mine.refresh, mine.user, None);
    var late := SetTokens(theirs.access, theirs.refresh, theirs.user, Some(s.memory.value.refresh));
    var work := [StartOperation, FinishOperation, Continue];
    var queued := Next(s, login);
    var both := Next(queued, late);
    assert |both.queue| == 2 && both.queue[1..] == [both.queue[1]];
    FirstOperation(both);
    var saved := Run(both, work);
    OneOperation(saved);
    RunsThen(both, work, work);
    StepThen(queued, late, work + work);
    StepThen(s, login, [late] + (work + work));
    assert [login] + ([late] + (work + work)) == [login, late] + work + work;
  }

  /** The first of two current saves runs to its end. */
  lemma FirstOperation(s: State)
    requires |s.queue| == 2 && s.phase == WAITING && IsCurrent(s.queue[0], s.revision)
    ensures var work := [StartOperation, FinishOperation, Continue];
      && Runs(s, work)
      && Run(s, work) == s.(queue := [s.queue[1]], store := Some(s.queue[0].credentials),
                            memory := Some(s.queue[0].credentials))
  {
    var started := Next(s, StartOperation);
    var finished := Next(started, FinishOperation);
    StepThen(finished, Continue, []);
    StepThen(started, FinishOperation, [Continue]);
    StepThen(s, StartOperation, [FinishOperation, Continue]);
    assert [Continue] + [] == [Continue] && [FinishOperation] + [Continue] == [FinishOperation, Continue];
    assert [StartOperation] + [FinishOperation, Continue] == [StartOperation, FinishOperation, Continue];
    assert s.queue[1..] == [s.queue[1]];
  }

  lemma {:induction false} RunsThen(s: State, first: seq<Step>, second: seq<Step>)
    requires Runs(s, first) && Runs(Run(s, first), second)
    ensures Runs(s, first + second) && Run(s, first + second) == Run(Run(s, first), second)
    decreases |first|
  {
    if first == [] {
      assert first + second == second;
    } else {
      assert (first + second)[1..] == first[1..] + second;
      RunsThen(Next(s, first[0]), first[1..], second);
    }
  }

  /**
   From a client at rest, a login, or a refresh based on the refresh token in memory, arrives both in the
   secure store and in memory; a refresh based on any other token changes neither.
   */
  lemma TokensArrive(s: State, access: int, refresh: int, user: int, expected: Option<int>)
    requires IsHydrated(s)
    ensures var call := SetTokens(access, refresh, user, expected);
      var steps := if IsBasedOn(s, expected) then [call, StartOperation, FinishOperation, Continue] else [call];
      && Runs(s, steps) && IsHydrated(Run(s, steps))
      && Run(s, steps).memory == if IsBasedOn(s, expected) then Some(Credentials(access, refresh, user, s.calls))
                                 else s.memory
  {
    var call := SetTokens(access, refresh, user, expected);
    var queued := Next(s, call);
    if IsBasedOn(s, expected) {
      assert queued.queue == [Save(queued.revision, Credentials(access, refresh, user, s.calls))];
      OneOperation(queued);
      StepThen(s, call, [StartOperation, FinishOperation, Continue]);
      assert [call] + [StartOperation, FinishOperation, Continue] == [call, StartOperation, FinishOperation, Continue];
    } else {
      StepThen(s, call, []);
      assert [call] + [] == [call];
    }
  }
}

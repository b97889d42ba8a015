/**
 The authority watcher and the apply queue of taypeer-runtime/src/lib.rs, with the credential
 records that host.rs writes, as interleaved atomic steps. Events may be lost, delayed or
 repeated: the watcher may take any event, or a tick, whenever it waits.
 */
module Watcher {
  import opened Wrappers

  datatype LockReason = Authority | Transport

  datatype Event =
    | Received(mine: bool)
    | ControlChanged(mine: bool, lock: bool)
    | Committed(mine: bool)
    | JoinRequested
    | Frozen(mine: bool)
    | Lagged
    | Closed
    | Tick

  datatype CoordinatorState = CoordinatorState(epoch: nat, frozen: bool, admitted: bool, fingerprint: nat)

  datatype Reaction = Poll | Ignore | Revoke(reason: LockReason)

  /** The local variables of the watch loop, and the one slot of the wakeup channel. */
  datatype Locals = Locals(epoch: nat, fingerprint: nat, pending: Option<nat>, queued: bool)

  // ----- the pure decisions of the loop body

  function React(event: Event, portable: bool): Reaction
  {
    match event
    case Frozen(true) => Revoke(Authority)
    case ControlChanged(true, true) => if portable then Poll else Revoke(Authority)
    case Closed => Revoke(Transport)
    case Received(mine) => if mine then Poll else Ignore
    case ControlChanged(mine, _) => if mine then Poll else Ignore
    case Committed(mine) => if mine then Poll else Ignore
    case JoinRequested => Ignore
    case Frozen(false) => Ignore
    case Lagged => Poll
    case Tick => Poll
  }

  predicate AuthorityChanged(state: CoordinatorState, epoch: nat, admitted: bool)
  {
    state.frozen || state.epoch != epoch || (admitted && !state.admitted)
  }

  /** Whether the loop goes on to read the credential records. */
  predicate ReadsRecords(locals: Locals, portable: bool, admitted: bool, state: CoordinatorState)
  {
    !state.frozen && !(admitted && !state.admitted) && state.epoch != locals.epoch && portable && state.admitted
  }

  function Wake(locals: Locals, state: CoordinatorState): Locals
  {
    if state.fingerprint != locals.fingerprint && !locals.queued
    then locals.(fingerprint := state.fingerprint, queued := true) else locals
  }

  /** The loop body after its reads; `None` revokes with authority as the reason. */
  function Judge(locals: Locals, portable: bool, admitted: bool, state: CoordinatorState,
                 prepared: Option<nat>, finalized: Option<nat>): Option<Locals>
  {
    if state.frozen || (admitted && !state.admitted) then None
    else if state.epoch == locals.epoch then Some(Wake(locals, state))
    else if !(portable && state.admitted) then None
    else if finalized == Some(state.epoch) && prepared == None then
      Some(Wake(locals.(epoch := state.epoch, pending := None), state))
    else if prepared == Some(state.epoch) then Some(locals.(pending := Some(state.epoch)))
    else None
  }

  /** Everything that makes the loop look at the coordinator. */
  predicate Prompts(event: Event, portable: bool)
  {
    event == Tick || event == Lagged || event == Received(true) || event == Committed(true)
    || event == ControlChanged(true, false) || (event == ControlChanged(true, true) && portable)
  }

  /** One wakeup at most is queued, and only then is the new fingerprint remembered. */
  ghost predicate Noted(before: Locals, after: Locals, fingerprint: nat)
  {
    if fingerprint == before.fingerprint || before.queued then after.fingerprint == before.fingerprint && after.queued == before.queued
    else after.fingerprint == fingerprint && after.queued
  }

  /**
   What one turn makes of the local variables and of the session: `read` is what the coordinator
   answered, the records are what the two reads after it returned.
   */
  ghost predicate Turned(portable: bool, admitted: bool, event: Event, read: Option<CoordinatorState>, prepared: Option<nat>, finalized: Option<nat>,
                         before: Locals, after: Locals, revoked: Option<LockReason>)
  {
    && (revoked.Some? ==> after == before)
    && (event == Closed ==> revoked == Some(Transport))
    && (event == Frozen(true) || (event == ControlChanged(true, true) && !portable) ==> revoked == Some(Authority))
    && (!Prompts(event, portable) && event != Closed && event != Frozen(true) && event != ControlChanged(true, true) ==>
          after == before && revoked == None)
    && (Prompts(event, portable) && read == None ==> revoked == Some(Transport))
    && (Prompts(event, portable) && read.Some? ==>
          var state := read.value;
          if state.frozen || (admitted && !state.admitted) then revoked == Some(Authority)
          else if state.epoch == before.epoch then
            revoked == None && after.epoch == before.epoch && after.pending == before.pending && Noted(before, after, state.fingerprint)
          else if portable && state.admitted && prepared == None && finalized == Some(state.epoch) then
            revoked == None && after.epoch == state.epoch && after.pending == None && Noted(before, after, state.fingerprint)
          else if portable && state.admitted && prepared == Some(state.epoch) then
            revoked == None && after == Locals(before.epoch, before.fingerprint, Some(state.epoch), before.queued)
          else revoked == Some(Authority))
  }

  /** The step functions of the machine are exactly this: the event decides first, then the three reads. */
  lemma TurnedExactly(portable: bool, admitted: bool, event: Event, read: Option<CoordinatorState>, prepared: Option<nat>, finalized: Option<nat>,
                      before: Locals, after: Locals, revoked: Option<LockReason>)
    ensures Turned(portable, admitted, event, read, prepared, finalized, before, after, revoked) <==>
            match React(event, portable) {
              case Ignore => after == before && revoked == None
              case Revoke(reason) => after == before && revoked == Some(reason)
              case Poll =>
                if read == None then after == before && revoked == Some(Transport)
                else match Judge(before, portable, admitted, read.value, prepared, finalized) {
                  case None => after == before && revoked == Some(Authority)
                  case Some(locals) => after == locals && revoked == None
                }
            }
  {
  }

  /** The watch loop's own state, updated in place by one turn of the loop. */
  class WatchLoop {
    const portable: bool
    const admitted: bool
    var epoch: nat
    var fingerprint: nat
    var pending: Option<nat>
    var queued: bool
    var revoked: Option<LockReason>

    constructor (portable: bool, admitted: bool, epoch: nat, fingerprint: nat)
      ensures View() == Locals(epoch, fingerprint, None, false) && revoked == None
      ensures this.portable == portable && this.admitted == admitted
    {
      this.portable, this.admitted := portable, admitted;
      this.epoch, this.fingerprint := epoch, fingerprint;
      pending, queued, revoked := None, false, None;
    }

    function View(): Locals
      reads this
    {
      Locals(epoch, fingerprint, pending, queued)
    }

    /** What the event alone decides. */
    method Heed(event: Event) returns (poll: bool)
      requires revoked == None
      modifies this`revoked
      ensures poll <==> Prompts(event, portable)
      ensures revoked == if event == Closed then Some(Transport)
                         else if event == Frozen(true) || (event == ControlChanged(true, true) && !portable) then Some(Authority)
                         else None
    {
      match event {
        case Frozen(mine) =>
          if mine { revoked := Some(Authority); }
          return false;
        case ControlChanged(mine, lock) =>
          if mine && lock && !portable { revoked := Some(Authority); return false; }
          return mine;
        case Closed =>
          revoked := Some(Transport);
          return false;
        case Received(mine) => return mine;
        case Committed(mine) => return mine;
        case JoinRequested => return false;
        case Lagged => return true;
        case Tick => return true;
      }
    }

    /** One turn: the event, then what the three reads returned in their order. */
    method Turn(event: Event, read: Option<CoordinatorState>, prepared: Option<nat>, finalized: Option<nat>)
      requires revoked == None
      modifies this
      ensures Turned(portable, admitted, event, read, prepared, finalized, old(View()), View(), revoked)
    {
      var poll := Heed(event);
      if !poll {
        return;
      }
      if read == None {
        revoked := Some(Transport);
        return;
      }
      var state := read.value;
      if state.frozen || (admitted && !state.admitted) {
        revoked := Some(Authority);
        return;
      }
      if state.epoch != epoch {
        if portable && state.admitted {
          if finalized == Some(state.epoch) && prepared == None {
            epoch := state.epoch;
            pending := None;
          } else if prepared == Some(state.epoch) {
            if pending != Some(state.epoch) {
              pending := Some(state.epoch);
            }
            return;
          } else {
            revoked := Some(Authority);
            return;
          }
        } else {
          revoked := Some(Authority);
          return;
        }
      }
      if state.fingerprint != fingerprint {
        if !queued {
          queued := true;
          fingerprint := state.fingerprint;
        }
      }
    }
  }

  // ----- the interleaved machine

  /** Where a local rotation stands between `PrepareCredentials` and the end of `FinalizeCredentials`. */
  datatype Rotation = Idle | Prepared | EpochCommitted | Finalized

  datatype WatchPc = Waiting | Polling | StateRead(state: CoordinatorState) | PreparedRead(state: CoordinatorState, prepared: Option<nat>)

  datatype ApplyPc = Asleep | Woken | Running(since: nat)

  /**
   `durable` counts what the coordinator has durably received; it stands for the fingerprint,
   which distinguishes durable contents. `done` is the latest `durable` at which an
   ApplyReceived began that then ended without asking for a retry.
   */
  datatype Machine = Machine(
    open: bool, portable: bool, admitted: bool, bootEpoch: nat,
    epoch: nat, frozen: bool, admittedNow: bool, durable: nat,
    prepared: Option<nat>, finalized: Option<nat>, rotation: Rotation,
    locals: Locals, watch: WatchPc,
    apply: ApplyPc, retry: bool, done: nat)

  datatype Action =
    | Deliver | Freeze | LoseAdmission | RotateElsewhere
    | Prepare | Commit | WriteFinal | ClearPrepared
    | Take(event: Event) | ReadState(ok: bool) | ReadPrepared(ok: bool) | ReadFinal(ok: bool)
    | Receive | Backoff | BeginApply | EndApply(again: bool)

  function Observed(m: Machine): CoordinatorState
  {
    CoordinatorState(m.epoch, m.frozen, m.admittedNow, m.durable)
  }

  function Settle(m: Machine, state: CoordinatorState, prepared: Option<nat>, finalized: Option<nat>): Machine
  {
    match Judge(m.locals, m.portable, m.admitted, state, prepared, finalized)
    case None => m.(open := false, watch := Waiting)
    case Some(locals) => m.(locals := locals, watch := Waiting)
  }

  /** Steps of the coordinator and of the two credential callbacks. */
  function SurroundingStep(m: Machine, action: Action): Machine
  {
    match action
    case Deliver => m.(durable := m.durable + 1)
    case Freeze => m.(frozen := true)
    case LoseAdmission => m.(admittedNow := false)
    case RotateElsewhere => if m.rotation.Idle? then m.(epoch := m.epoch + 1, durable := m.durable + 1) else m
    case Prepare =>
      if m.rotation.Idle? then m.(rotation := Prepared, prepared := Some(m.epoch + 1)) else m
    case Commit =>
      if m.rotation.Prepared? then m.(rotation := EpochCommitted, epoch := m.epoch + 1, durable := m.durable + 1) else m
    case WriteFinal =>
      if m.rotation.EpochCommitted? then m.(rotation := Finalized, finalized := Some(m.epoch)) else m
    case ClearPrepared =>
      if m.rotation.Finalized? then m.(rotation := Idle, prepared := None) else m
    case _ => m
  }

  /** Steps of the watch task: take an event or a tick, then three reads. */
  function WatchStep(m: Machine, action: Action): Machine
  {
    if !m.open then m
    else match action
    case Take(event) =>
      if !m.watch.Waiting? then m
      else match React(event, m.portable) {
        case Poll => m.(watch := Polling)
        case Ignore => m
        case Revoke(_) => m.(open := false)
      }
    case ReadState(ok) =>
      if !m.watch.Polling? then m
      else if !ok then m.(open := false)
      else if ReadsRecords(m.locals, m.portable, m.admitted, Observed(m)) then m.(watch := StateRead(Observed(m)))
      else Settle(m, Observed(m), None, None)
    case ReadPrepared(ok) =>
      if !m.watch.StateRead? then m
      else m.(watch := PreparedRead(m.watch.state, if ok then m.prepared else None))
    case ReadFinal(ok) =>
      if !m.watch.PreparedRead? then m
      else Settle(m, m.watch.state, m.watch.prepared, if ok then m.finalized else None)
    case _ => m
  }

  /** Steps of the apply task. */
  function ApplyStep(m: Machine, action: Action): Machine
  {
    match action
    case Receive =>
      if m.apply.Asleep? && m.locals.queued then m.(locals := m.locals.(queued := false), apply := Woken) else m
    case Backoff =>
      if m.apply.Asleep? && m.retry then m.(apply := Woken) else m
    case BeginApply =>
      if m.apply.Woken? && m.open then m.(apply := Running(m.durable)) else m
    case EndApply(again) =>
      if m.apply.Running? then
        if again then m.(apply := Asleep, retry := m.open)
        else m.(apply := Asleep, retry := false, done := if m.done < m.apply.since then m.apply.since else m.done)
      else m
    case _ => m
  }

  predicate Surrounding(action: Action)
  {
    action.Deliver? || action.Freeze? || action.LoseAdmission? || action.RotateElsewhere?
    || action.Prepare? || action.Commit? || action.WriteFinal? || action.ClearPrepared?
  }

  predicate Watching(action: Action)
  {
    action.Take? || action.ReadState? || action.ReadPrepared? || action.ReadFinal?
  }

  /** The step an action takes; an action that is not enabled changes nothing. */
  function Step(m: Machine, action: Action): Machine
  {
    if Surrounding(action) then SurroundingStep(m, action)
    else if Watching(action) then WatchStep(m, action)
    else ApplyStep(m, action)
  }

  function Run(m: Machine, actions: seq<Action>): Machine
    decreases |actions|
  {
    if actions == [] then m else Run(Step(m, actions[0]), actions[1..])
  }

  /** The credential records agree with the stage of the rotation, whenever it began. */
  ghost predicate Recorded(m: Machine)
  {
    match m.rotation
    case Idle => m.prepared == None && (m.epoch > m.bootEpoch ==> m.finalized == Some(m.epoch))
    case Prepared => m.prepared == Some(m.epoch + 1) && (m.epoch > m.bootEpoch ==> m.finalized == Some(m.epoch))
    case EpochCommitted => m.prepared == Some(m.epoch)
    case Finalized => m.prepared == Some(m.epoch) && m.finalized == Some(m.epoch)
  }

  /**
   `from_client` has subscribed, compared the worker's authority with the coordinator at
   `initial`, run one ApplyReceived that began at `since`, and spawned both tasks.
   */
  ghost predicate Booted(m: Machine, initial: CoordinatorState, since: nat)
  {
    && m.open && m.watch == Waiting && m.apply == Asleep && m.bootEpoch == initial.epoch
    && !AuthorityChanged(initial, m.locals.epoch, m.admitted)
    && m.locals == Locals(initial.epoch, initial.fingerprint, None, false)
    && initial.fingerprint <= since <= m.durable
    && (m.retry || m.done == since)
    && m.epoch >= initial.epoch && Recorded(m)
  }

  // ----- no lost wakeup

  /** Everything the watcher remembers as noticed has been applied since, or will be. */
  ghost predicate Noticed(m: Machine)
  {
    && m.locals.fingerprint <= m.durable
    && (m.apply.Running? ==> m.apply.since <= m.durable)
    && (m.open ==>
          || m.locals.fingerprint <= m.done
          || m.locals.queued
          || m.apply.Woken?
          || (m.apply.Running? && m.locals.fingerprint <= m.apply.since)
          || (m.apply.Asleep? && m.retry))
    && (m.watch.StateRead? || m.watch.PreparedRead? ==> m.watch.state.fingerprint <= m.durable)
  }

  lemma SettleKeepsNoticed(m: Machine, state: CoordinatorState, prepared: Option<nat>, finalized: Option<nat>)
    requires Noticed(m) && state.fingerprint <= m.durable
    ensures Noticed(Settle(m, state, prepared, finalized))
  {
    match Judge(m.locals, m.portable, m.admitted, state, prepared, finalized)
    case None =>
    case Some(locals) =>
      assert locals.queued || (locals.fingerprint == m.locals.fingerprint && locals.queued == m.locals.queued);
  }

  lemma ApplyKeepsNoticed(m: Machine, action: Action)
    requires Noticed(m)
    ensures Noticed(ApplyStep(m, action))
  {
  }

  lemma WatchKeepsNoticed(m: Machine, action: Action)
    requires Noticed(m)
    ensures Noticed(WatchStep(m, action))
  {
    if action.ReadState? {
      SettleKeepsNoticed(m, Observed(m), None, None);
    } else if action.ReadFinal? && m.watch.PreparedRead? {
      SettleKeepsNoticed(m, m.watch.state, m.watch.prepared, if action.ok then m.finalized else None);
    }
  }

  lemma SurroundingsKeepNoticed(m: Machine, action: Action)
    requires Noticed(m)
    ensures Noticed(SurroundingStep(m, action))
  {
  }

  lemma StepKeepsNoticed(m: Machine, action: Action)
    requires Noticed(m)
    ensures Noticed(Step(m, action))
  {
    if Surrounding(action) {
      SurroundingsKeepNoticed(m, action);
    } else if Watching(action) {
      WatchKeepsNoticed(m, action);
    } else {
      ApplyKeepsNoticed(m, action);
    }
  }

  lemma {:induction false} NoticedForever(m: Machine, actions: seq<Action>)
    requires Noticed(m)
    ensures Noticed(Run(m, actions))
    decreases |actions|
  {
    if actions != [] {
      StepKeepsNoticed(m, actions[0]);
      NoticedForever(Step(m, actions[0]), actions[1..]);
    }
  }

  /**
   In every reachable state of an open session, whatever the events, failures and rotations:
   when no wakeup is queued or being served and no retry is due, an ApplyReceived that ended
   for good began after everything the watcher remembers had become durable.
   */
  lemma NoLostWakeup(m: Machine, initial: CoordinatorState, since: nat, actions: seq<Action>)
    requires Booted(m, initial, since)
    ensures Noticed(Run(m, actions))
    ensures var n := Run(m, actions);
            n.open && n.apply == Asleep && !n.locals.queued && !n.retry ==> n.locals.fingerprint <= n.done
  {
    NoticedForever(m, actions);
  }

  /** And a completed poll with an accepted epoch leaves nothing durable unnoticed unless the slot is taken. */
  lemma PollNotices(m: Machine)
    requires m.open && m.watch.Polling? && !m.frozen && (m.admitted ==> m.admittedNow) && m.epoch == m.locals.epoch
    ensures var n := Step(m, ReadState(true));
            n.open && n.watch == Waiting && (n.locals.fingerprint == m.durable || m.locals.queued)
            && (n.locals.fingerprint != m.locals.fingerprint ==> n.locals.queued)
  {
  }

  // ----- a rotation never locks out its own session

  /** What the surroundings do in the absence of revocation, foreign rotations and failed reads. */
  predicate Friendly(action: Action, portable: bool)
  {
    match action
    case Freeze => false
    case LoseAdmission => false
    case RotateElsewhere => false
    case Take(event) => !React(event, portable).Revoke?
    case ReadState(ok) => ok
    case ReadPrepared(ok) => ok
    case ReadFinal(ok) => ok
    case _ => true
  }

  /** A rotation starts only once the watcher has accepted the epoch of the one before. */
  predicate Undisturbed(m: Machine, action: Action)
  {
    action.Prepare? ==> m.locals.epoch == m.epoch
  }

  predicate FriendlyRun(m: Machine, actions: seq<Action>)
    decreases |actions|
  {
    actions == [] || (Friendly(actions[0], m.portable) && FriendlyRun(Step(m, actions[0]), actions[1..]))
  }

  predicate UndisturbedRun(m: Machine, actions: seq<Action>)
    decreases |actions|
  {
    actions == [] || (Undisturbed(m, actions[0]) && UndisturbedRun(Step(m, actions[0]), actions[1..]))
  }

  /** What holds while the session is open, however many rotations pass the watcher by. */
  ghost predicate Trailing(m: Machine)
  {
    && Recorded(m) && m.portable && m.admittedNow && !m.frozen
    && m.bootEpoch <= m.locals.epoch <= m.epoch
    && (m.locals.pending.Some? ==> m.locals.epoch < m.locals.pending.value <= m.epoch)
    && match m.watch {
         case Waiting => true
         case Polling => true
         case StateRead(state) => m.locals.epoch < state.epoch <= m.epoch && !state.frozen && state.admitted
         case PreparedRead(state, prepared) =>
           && m.locals.epoch < state.epoch <= m.epoch && !state.frozen && state.admitted
           && match prepared {
                case Some(e) => state.epoch <= e
                case None => m.finalized.Some? && state.epoch <= m.finalized.value
              }
       }
  }

  /** What holds in addition when rotations wait for the watcher. */
  ghost predicate Following(m: Machine)
  {
    && Trailing(m)
    && m.epoch <= m.locals.epoch + 1
    && (m.rotation.Prepared? ==> m.locals.epoch == m.epoch)
    && (m.watch.PreparedRead? ==>
          m.watch.prepared == Some(m.epoch) || (m.watch.prepared == None && m.finalized == Some(m.epoch)))
  }

  lemma SurroundingsKeepTrailing(m: Machine, action: Action)
    requires Trailing(m) && Friendly(action, m.portable)
    ensures Trailing(SurroundingStep(m, action))
  {
  }

  lemma WatchKeepsTrailing(m: Machine, action: Action)
    requires Trailing(m) && Friendly(action, m.portable)
    ensures Trailing(WatchStep(m, action))
  {
  }

  /** The same but for the apply task and the wakeup slot. */
  ghost predicate SameApart(m: Machine, n: Machine)
  {
    && n.open == m.open && n.portable == m.portable && n.admitted == m.admitted && n.bootEpoch == m.bootEpoch
    && n.epoch == m.epoch && n.frozen == m.frozen && n.admittedNow == m.admittedNow
    && n.prepared == m.prepared && n.finalized == m.finalized && n.rotation == m.rotation && n.watch == m.watch
    && n.locals.epoch == m.locals.epoch && n.locals.pending == m.locals.pending
  }

  lemma ApplyLeavesWatch(m: Machine, action: Action)
    ensures SameApart(m, ApplyStep(m, action))
  {
  }

  /** Following does not speak of the apply task. */
  lemma FollowingIgnoresApply(m: Machine, n: Machine)
    requires SameApart(m, n)
    ensures (Trailing(m) ==> Trailing(n)) && (Following(m) ==> Following(n))
  {
  }

  lemma ApplyKeepsTrailing(m: Machine, action: Action)
    requires Trailing(m)
    ensures Trailing(ApplyStep(m, action))
  {
    ApplyLeavesWatch(m, action);
    FollowingIgnoresApply(m, ApplyStep(m, action));
  }

  lemma StepKeepsTrailing(m: Machine, action: Action)
    requires Trailing(m) && Friendly(action, m.portable)
    ensures Trailing(Step(m, action))
  {
    if Surrounding(action) {
      SurroundingsKeepTrailing(m, action);
    } else if Watching(action) {
      WatchKeepsTrailing(m, action);
    } else {
      ApplyKeepsTrailing(m, action);
    }
  }

  lemma {:induction false} FriendlyRunsTrail(m: Machine, actions: seq<Action>)
    requires Trailing(m) && FriendlyRun(m, actions)
    ensures Trailing(Run(m, actions))
    decreases |actions|
  {
    if actions != [] {
      StepKeepsTrailing(m, actions[0]);
      FriendlyRunsTrail(Step(m, actions[0]), actions[1..]);
    }
  }

  lemma SurroundingsKeepFollowing(m: Machine, action: Action)
    requires Following(m) && Friendly(action, m.portable) && Undisturbed(m, action)
    ensures Following(SurroundingStep(m, action)) && SurroundingStep(m, action).open == m.open
  {
    SurroundingsKeepTrailing(m, action);
  }

  lemma WatchKeepsFollowing(m: Machine, action: Action)
    requires Following(m) && Friendly(action, m.portable)
    ensures Following(WatchStep(m, action)) && WatchStep(m, action).open == m.open
  {
    WatchKeepsTrailing(m, action);
  }

  lemma ApplyKeepsFollowing(m: Machine, action: Action)
    requires Following(m)
    ensures Following(ApplyStep(m, action)) && ApplyStep(m, action).open == m.open
  {
    ApplyLeavesWatch(m, action);
    FollowingIgnoresApply(m, ApplyStep(m, action));
  }

  lemma StepKeepsFollowing(m: Machine, action: Action)
    requires Following(m) && Friendly(action, m.portable) && Undisturbed(m, action)
    ensures Following(Step(m, action)) && Step(m, action).open == m.open
  {
    if Surrounding(action) {
      SurroundingsKeepFollowing(m, action);
    } else if Watching(action) {
      WatchKeepsFollowing(m, action);
    } else {
      ApplyKeepsFollowing(m, action);
    }
  }

  /**
   Whatever the interleaving of prepare, commit, final and clear with the watcher's three
   reads, and however many rotations there are, the session stays open as long as each
   rotation starts after the watcher has caught up with the one before.
   */
  lemma {:induction false} RotationKeepsSession(m: Machine, actions: seq<Action>)
    requires Following(m) && m.open && FriendlyRun(m, actions) && UndisturbedRun(m, actions)
    ensures Run(m, actions).open && Following(Run(m, actions))
    decreases |actions|
  {
    if actions != [] {
      StepKeepsFollowing(m, actions[0]);
      RotationKeepsSession(Step(m, actions[0]), actions[1..]);
    }
  }

  /**
   A booted portable session starts out following, whatever stage a rotation is in, also when its
   epoch was committed between the first read of the coordinator and the start of the tasks.
   */
  lemma BootedFollows(m: Machine, initial: CoordinatorState, since: nat)
    requires Booted(m, initial, since) && m.portable && m.admittedNow && !m.frozen
    requires m.epoch == initial.epoch || (m.epoch == initial.epoch + 1 && !m.rotation.Prepared?)
    ensures Following(m)
  {
  }

  /**
   Without that discipline, exactly this revokes at the end of a poll: the prepared record
   already named a later rotation, or it was empty and the final record did.
   */
  lemma RevocationIsOvertaking(m: Machine, actions: seq<Action>)
    requires Trailing(m) && FriendlyRun(m, actions) && Run(m, actions).open && Run(m, actions).watch.PreparedRead?
    ensures var n := Run(m, actions);
            !Step(n, ReadFinal(true)).open <==>
              match n.watch.prepared {
                case Some(e) => e > n.watch.state.epoch
                case None => n.finalized.Some? && n.finalized.value > n.watch.state.epoch
              }
  {
    FriendlyRunsTrail(m, actions);
  }

  lemma {:induction false} RunConcat(m: Machine, a: seq<Action>, b: seq<Action>)
    requires FriendlyRun(m, a) && FriendlyRun(Run(m, a), b)
    ensures FriendlyRun(m, a + b) && Run(m, a + b) == Run(Run(m, a), b)
    ensures UndisturbedRun(m, a) && UndisturbedRun(Run(m, a), b) ==> UndisturbedRun(m, a + b)
    decreases |a|
  {
    if a == [] {
      assert a + b == b;
    } else {
      assert (a + b)[1..] == a[1..] + b;
      RunConcat(Step(m, a[0]), a[1..], b);
    }
  }

  lemma RunOne(m: Machine, action: Action, rest: seq<Action>)
    requires Friendly(action, m.portable) && FriendlyRun(Step(m, action), rest)
    ensures FriendlyRun(m, [action] + rest) && Run(m, [action] + rest) == Run(Step(m, action), rest)
    ensures Undisturbed(m, action) && UndisturbedRun(Step(m, action), rest) ==> UndisturbedRun(m, [action] + rest)
  {
    assert ([action] + rest)[1..] == rest;
  }

  const ROTATION: seq<Action> := [Prepare] + ([Commit] + ([WriteFinal] + ([ClearPrepared] + [])))
  const POLL: seq<Action> := [Take(Tick)] + ([ReadState(true)] + ([ReadPrepared(true)] + ([ReadFinal(true)] + [])))

  lemma PollRuns(m: Machine, m1: Machine, m2: Machine, m3: Machine, n: Machine)
    requires m1 == Step(m, Take(Tick)) && m2 == Step(m1, ReadState(true)) && m3 == Step(m2, ReadPrepared(true)) && n == Step(m3, ReadFinal(true))
    ensures FriendlyRun(m, POLL) && UndisturbedRun(m, POLL) && Run(m, POLL) == n
  {
    RunOne(m3, ReadFinal(true), []);
    RunOne(m2, ReadPrepared(true), [ReadFinal(true)] + []);
    RunOne(m1, ReadState(true), [ReadPrepared(true)] + ([ReadFinal(true)] + []));
    RunOne(m, Take(Tick), [ReadState(true)] + ([ReadPrepared(true)] + ([ReadFinal(true)] + [])));
  }

  lemma WholePoll(m: Machine)
    requires m.open && m.watch.Waiting? && m.portable && m.admittedNow && !m.frozen
    ensures FriendlyRun(m, POLL) && UndisturbedRun(m, POLL)
    ensures Run(m, POLL) ==
            if m.epoch == m.locals.epoch then Settle(m, Observed(m), None, None) else Settle(m, Observed(m), m.prepared, m.finalized)
  {
    var m1 := m.(watch := Polling);
    if m.epoch == m.locals.epoch {
      var n := Settle(m, Observed(m), None, None);
      PollRuns(m, m1, n, n, n);
    } else {
      PollRuns(m, m1, m.(watch := StateRead(Observed(m))), m.(watch := PreparedRead(Observed(m), m.prepared)),
        Settle(m, Observed(m), m.prepared, m.finalized));
    }
  }

  /**
   A whole poll between two rotations catches up: it accepts the finalized epoch, leaves nothing
   pending, and remembers everything durable unless the slot is taken. The next rotation may start.
   */
  lemma PollCatchesUp(m: Machine)
    requires Following(m) && m.open && m.watch.Waiting? && m.rotation.Idle?
    ensures var n := Run(m, POLL);
            && n.open && n.watch.Waiting? && n.rotation.Idle? && Following(n)
            && n.locals.epoch == n.epoch == m.epoch && n.locals.pending == None
            && (n.locals.fingerprint == m.durable || m.locals.queued)
            && Undisturbed(n, Prepare)
  {
    WholePoll(m);
    assert m.epoch == m.locals.epoch || (m.prepared == None && m.finalized == Some(m.epoch));
  }

  /** `n` rotations, each followed by a poll. */
  function Rounds(n: nat): seq<Action>
    decreases n
  {
    if n == 0 then [] else (ROTATION + POLL) + Rounds(n - 1)
  }

  /** However many rotations there are, with a poll after each the watcher accepts every epoch. */
  lemma {:induction false} RoundsKeepSession(m: Machine, n: nat)
    requires Following(m) && m.open && m.watch.Waiting? && m.rotation.Idle? && m.locals.epoch == m.epoch
    ensures FriendlyRun(m, Rounds(n)) && UndisturbedRun(m, Rounds(n))
    ensures var last := Run(m, Rounds(n));
            last.open && Following(last) && last.rotation.Idle? && last.locals.epoch == last.epoch == m.epoch + n
    decreases n
  {
    if n > 0 {
      WholeRotation(m);
      var rotated := Run(m, ROTATION);
      WholePoll(rotated);
      PollCatchesUp(rotated);
      RunConcat(m, ROTATION, POLL);
      RoundsKeepSession(Run(rotated, POLL), n - 1);
      RunConcat(m, ROTATION + POLL, Rounds(n - 1));
    }
  }

  lemma RotationCommits(m: Machine, rest: seq<Action>)
    requires m.rotation.Idle?
    ensures var n := m.(rotation := EpochCommitted, prepared := Some(m.epoch + 1), epoch := m.epoch + 1, durable := m.durable + 1);
            FriendlyRun(n, rest) ==>
              && FriendlyRun(m, [Prepare] + ([Commit] + rest)) && Run(m, [Prepare] + ([Commit] + rest)) == Run(n, rest)
              && (m.locals.epoch == m.epoch && UndisturbedRun(n, rest) ==> UndisturbedRun(m, [Prepare] + ([Commit] + rest)))
  {
    var p := m.(rotation := Prepared, prepared := Some(m.epoch + 1));
    var n := p.(rotation := EpochCommitted, epoch := m.epoch + 1, durable := m.durable + 1);
    if FriendlyRun(n, rest) {
      RunOne(p, Commit, rest);
      RunOne(m, Prepare, [Commit] + rest);
    }
  }

  lemma RotationFinishes(m: Machine)
    requires m.rotation.EpochCommitted?
    ensures var actions := [WriteFinal] + ([ClearPrepared] + []);
            FriendlyRun(m, actions) && Run(m, actions) == m.(rotation := Idle, finalized := Some(m.epoch), prepared := None)
            && UndisturbedRun(m, actions)
  {
    RunOne(m.(rotation := Finalized, finalized := Some(m.epoch)), ClearPrepared, []);
    RunOne(m, WriteFinal, [ClearPrepared] + []);
  }

  lemma WholeRotation(m: Machine)
    requires m.rotation.Idle?
    ensures FriendlyRun(m, ROTATION) && (m.locals.epoch == m.epoch ==> UndisturbedRun(m, ROTATION))
    ensures Run(m, ROTATION) == m.(epoch := m.epoch + 1, durable := m.durable + 1, prepared := None, finalized := Some(m.epoch + 1))
  {
    RotationFinishes(m.(rotation := EpochCommitted, prepared := Some(m.epoch + 1), epoch := m.epoch + 1, durable := m.durable + 1));
    RotationCommits(m, [WriteFinal] + ([ClearPrepared] + []));
  }

  lemma OvertakenPoll(m: Machine)
    requires m.open && m.watch.Waiting? && m.portable && m.admittedNow && !m.frozen
    requires m.locals.epoch < m.epoch && m.prepared == Some(m.epoch + 1)
    ensures FriendlyRun(m, POLL) && !Run(m, POLL).open
  {
    WholePoll(m);
  }

  /** A second rotation can lock its own session out: it is prepared before the first is noticed. */
  lemma SecondRotationCanLockOut(m: Machine, initial: CoordinatorState, since: nat)
    requires Booted(m, initial, since) && m.portable && m.admittedNow && !m.frozen
    requires m.rotation.Idle? && m.epoch == initial.epoch
    ensures var actions := ROTATION + ([Prepare] + POLL); FriendlyRun(m, actions) && !Run(m, actions).open
  {
    WholeRotation(m);
    var n := Run(m, ROTATION);
    var p := Step(n, Prepare);
    OvertakenPoll(p);
    assert ([Prepare] + POLL)[1..] == POLL;
    RunConcat(m, ROTATION, [Prepare] + POLL);
  }

  // ----- lost authority revokes at the first poll

  /** Frozen, or admission lost: neither is ever undone. */
  predicate Condemned(m: Machine)
  {
    m.frozen || (m.admitted && !m.admittedNow)
  }

  lemma StepKeepsCondemned(m: Machine, action: Action)
    requires Condemned(m)
    ensures Condemned(Step(m, action)) && Step(m, action).admitted == m.admitted
  {
  }

  lemma {:induction false} CondemnedForGood(m: Machine, actions: seq<Action>)
    requires Condemned(m)
    ensures Condemned(Run(m, actions)) && Run(m, actions).admitted == m.admitted
    decreases |actions|
  {
    if actions != [] {
      StepKeepsCondemned(m, actions[0]);
      CondemnedForGood(Step(m, actions[0]), actions[1..]);
    }
  }

  /** Even if every event is lost, the first poll that reads the coordinator afterwards revokes. */
  lemma LostAuthorityRevokes(m: Machine, actions: seq<Action>, ok: bool)
    requires Condemned(m)
    ensures var n := Step(Run(m, actions), Take(Tick));
            n.watch.Polling? ==> !Step(n, ReadState(ok)).open
  {
    CondemnedForGood(m, actions);
  }

  // ----- epochs without records

  /** Steps of everything but the watch task. */
  predicate Quiet(actions: seq<Action>)
  {
    forall k :: 0 <= k < |actions| ==> !Watching(actions[k])
  }

  ghost predicate SameWatch(m: Machine, n: Machine)
  {
    && n.watch == m.watch && n.open == m.open && n.portable == m.portable && n.admitted == m.admitted
    && n.locals.epoch == m.locals.epoch && n.locals.fingerprint == m.locals.fingerprint && n.locals.pending == m.locals.pending
  }

  lemma SurroundingsKeepWatch(m: Machine, action: Action)
    ensures SameWatch(m, SurroundingStep(m, action))
  {
    match action
    case Deliver =>
    case Freeze =>
    case LoseAdmission =>
    case RotateElsewhere =>
    case Prepare =>
    case Commit =>
    case WriteFinal =>
    case ClearPrepared =>
    case _ =>
      assert SurroundingStep(m, action) == m;
  }

  lemma ApplyKeepsWatch(m: Machine, action: Action)
    ensures SameWatch(m, ApplyStep(m, action))
  {
  }

  /** Whatever the surroundings and the apply task do, the watcher's own progress stays. */
  lemma {:induction false} QuietKeepsWatch(m: Machine, actions: seq<Action>)
    requires Quiet(actions)
    ensures SameWatch(m, Run(m, actions))
    decreases |actions|
  {
    if actions != [] {
      assert !Watching(actions[0]) && forall k :: 0 <= k < |actions[1..]| ==> actions[1..][k] == actions[k + 1];
      SurroundingsKeepWatch(m, actions[0]);
      ApplyKeepsWatch(m, actions[0]);
      QuietKeepsWatch(Step(m, actions[0]), actions[1..]);
    }
  }

  /** What the three reads of one poll returned. */
  predicate Accepts(epoch: nat, prepared: Option<nat>, finalized: Option<nat>)
  {
    prepared == Some(epoch) || (prepared == None && finalized == Some(epoch))
  }

  /**
   A poll that reads a new epoch ends the session exactly when the session may not follow epochs, or
   the prepared record as read later does not name it and neither does the final record as read last,
   with nothing prepared. Anything may happen between the three reads, and either record may fail to
   be read.
   */
  lemma PollFollowsRecords(m: Machine, first: seq<Action>, second: seq<Action>, readPrepared: bool, readFinal: bool)
    requires m.open && m.watch.Polling? && m.epoch != m.locals.epoch && Quiet(first) && Quiet(second)
    ensures var n := Step(m, ReadState(true));
            if m.frozen || !m.portable || !m.admittedNow then !n.open
            else
              var p := Run(n, first);
              var q := Run(Step(p, ReadPrepared(readPrepared)), second);
              Step(q, ReadFinal(readFinal)).open
              <==> Accepts(m.epoch, if readPrepared then p.prepared else None, if readFinal then q.finalized else None)
  {
    var n := Step(m, ReadState(true));
    if !m.frozen && m.portable && m.admittedNow {
      QuietKeepsWatch(n, first);
      QuietKeepsWatch(Step(Run(n, first), ReadPrepared(readPrepared)), second);
    }
  }

  /**
   What a poll that reads a new epoch remembers, with anything between its reads: the epoch, if the
   final record names it while nothing is prepared; the old epoch and the new one as pending, if the
   prepared record does.
   */
  lemma PollRemembers(m: Machine, first: seq<Action>, second: seq<Action>, readPrepared: bool, readFinal: bool)
    requires m.open && m.watch.Polling? && m.epoch != m.locals.epoch && Quiet(first) && Quiet(second)
    requires !m.frozen && m.portable && m.admittedNow
    ensures var p := Run(Step(m, ReadState(true)), first);
            var q := Run(Step(p, ReadPrepared(readPrepared)), second);
            var n := Step(q, ReadFinal(readFinal));
            && (!(readPrepared && p.prepared.Some?) && readFinal && q.finalized == Some(m.epoch) ==>
                  n.open && n.watch.Waiting? && n.locals.epoch == m.epoch && n.locals.pending == None
                  && (n.locals.fingerprint == m.durable || q.locals.queued))
            && (readPrepared && p.prepared == Some(m.epoch) ==>
                  n.open && n.watch.Waiting? && n.locals.pending == Some(m.epoch)
                  && n.locals.epoch == m.locals.epoch && n.locals.fingerprint == m.locals.fingerprint && n.locals.queued == q.locals.queued)
  {
    var n := Step(m, ReadState(true));
    QuietKeepsWatch(n, first);
    QuietKeepsWatch(Step(Run(n, first), ReadPrepared(readPrepared)), second);
  }

  /**
   After any run, an epoch that the watcher does not remember and that no record names at the
   moment it is read ends the session at that poll, whatever happens between its reads.
   */
  lemma UnbackedEpochRevokes(start: Machine, before: seq<Action>, first: seq<Action>, second: seq<Action>, readPrepared: bool, readFinal: bool)
    requires var m := Run(start, before);
             m.open && m.watch.Polling? && m.epoch != m.locals.epoch && Quiet(first) && Quiet(second)
    requires var m := Run(start, before);
             var p := Run(Step(m, ReadState(true)), first);
             p.prepared != Some(m.epoch) && Run(Step(p, ReadPrepared(readPrepared)), second).finalized != Some(m.epoch)
    ensures var n := Step(Run(start, before), ReadState(true));
            n.watch.StateRead? && n.open ==>
              !Step(Run(Step(Run(n, first), ReadPrepared(readPrepared)), second), ReadFinal(readFinal)).open
    ensures var n := Step(Run(start, before), ReadState(true)); !n.watch.StateRead? ==> !n.open
  {
    PollFollowsRecords(Run(start, before), first, second, readPrepared, readFinal);
  }
}

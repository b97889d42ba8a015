/**
 Retry receipts, from taypeer-document/src/command_receipts.rs, operations.rs, binary.rs and
 lifecycle/mod.rs, and the command wrapper of taypeer-services/src/commands.rs. Two maps of the
 document share one namespace of operation identities. A replica serves requests and receives what
 other replicas recorded, in any order.
 */
module Receipts {
  import opened Wrappers
  import opened Operations
  import opened Entries
  import opened CausalDocument

  type OperationId = string

  /** Objects an action names, or the encoded result of a command. */
  datatype Target = AnEntry(entry: EntryId) | AGroup(group: GroupId) | Json(text: string)

  type Outcome = seq<Target>

  datatype Intent = Domain(text: string) | Binary(request: string)

  /** What a receipt remembers: rows of `operations`, and commands and actions of `lifecycle_receipts`. */
  datatype Receipt =
    | HistoryReceipt(intent: Intent, result: Outcome)
    | CommandReceipt(kind: string, fingerprint: string, result: Outcome)
    | ActionReceipt(intent: Intent, result: Outcome)

  datatype Noted = Noted(operation: OperationId, receipt: Receipt)

  /** The receipt each change wrote. */
  type Ledger = map<Actor, Noted>

  /** A request under a retained identity. A binary save is kept in the first map, other binary operations in the second. */
  datatype Request =
    | HistoryRequest(text: string)
    | CommandRequest(kind: string, fingerprint: string)
    | ActionRequest(text: string)
    | BinarySave(request: string)
    | BinaryMark(request: string)

  /** The changes that hold an identity in `operations`. */
  function Older(l: Ledger, operation: OperationId): set<Actor>
  {
    set a | a in l && l[a].operation == operation && l[a].receipt.HistoryReceipt?
  }

  /** The changes that hold an identity in `lifecycle_receipts`. */
  function Newer(l: Ledger, operation: OperationId): set<Actor>
  {
    set a | a in l && l[a].operation == operation && !l[a].receipt.HistoryReceipt?
  }

  /** `unique_optional`. */
  function Only(l: Ledger, holders: set<Actor>): Result<Option<Receipt>, Error>
    requires holders <= l.Keys
  {
    if holders == {} then Ok(None)
    else if exists a :: a in holders && holders == {a} then
      var a :| a in holders && holders == {a};
      Ok(Some(l[a].receipt))
    else Err(Conflict)
  }

  /** `receipt` of operations.rs. */
  function HistoryLookup(l: Ledger, operation: OperationId, intent: Intent): Result<Option<Outcome>, Error>
  {
    if operation == "" then Err(InvalidContext)
    else if Newer(l, operation) != {} then Err(DuplicateId)
    else match Only(l, Older(l, operation)) {
      case Err(error) => Err(error)
      case Ok(None) => Ok(None)
      case Ok(Some(HistoryReceipt(recorded, result))) => if recorded == intent then Ok(Some(result)) else Err(DuplicateId)
      case Ok(Some(_)) => Err(InvalidDocument)
    }
  }

  /** `action_receipt`. */
  function ActionLookup(l: Ledger, operation: OperationId, intent: Intent): Result<Option<Outcome>, Error>
  {
    if operation == "" then Err(InvalidContext)
    else if Older(l, operation) != {} then Err(DuplicateId)
    else match Only(l, Newer(l, operation)) {
      case Err(error) => Err(error)
      case Ok(None) => Ok(None)
      case Ok(Some(ActionReceipt(recorded, result))) => if recorded == intent then Ok(Some(result)) else Err(DuplicateId)
      case Ok(Some(_)) => Err(DuplicateId)
    }
  }

  /** `command_receipt`. */
  function CommandLookup(l: Ledger, operation: OperationId, kind: string): Result<Option<(string, Outcome)>, Error>
  {
    if operation == "" then Err(InvalidContext)
    else if Older(l, operation) != {} then Err(DuplicateId)
    else match Only(l, Newer(l, operation)) {
      case Err(error) => Err(error)
      case Ok(None) => Ok(None)
      case Ok(Some(CommandReceipt(recorded, fingerprint, result))) =>
        if recorded == kind then Ok(Some((fingerprint, result))) else Err(DuplicateId)
      case Ok(Some(_)) => Err(DuplicateId)
    }
  }

  /** `binary_receipt`. */
  function BinaryLookup(l: Ledger, operation: OperationId, request: string): Result<Option<Outcome>, Error>
  {
    if Older(l, operation) != {} then HistoryLookup(l, operation, Binary(request)) else ActionLookup(l, operation, Binary(request))
  }

  /** What is on record for a request: nothing, its result, or a refusal. */
  function Recorded(l: Ledger, operation: OperationId, request: Request): Result<Option<Outcome>, Error>
  {
    match request
    case HistoryRequest(text) => HistoryLookup(l, operation, Domain(text))
    case ActionRequest(text) => ActionLookup(l, operation, Domain(text))
    case CommandRequest(kind, fingerprint) =>
      (match CommandLookup(l, operation, kind) {
         case Err(error) => Err(error)
         case Ok(None) => Ok(None)
         case Ok(Some((recorded, result))) => if recorded == fingerprint then Ok(Some(result)) else Err(DuplicateId)
       })
    case BinarySave(text) =>
      (match BinaryLookup(l, operation, text) {
         case Err(error) => Err(error)
         case Ok(None) => Ok(None)
         case Ok(Some(result)) => if IsEntry(result) then Ok(Some(result)) else Err(InvalidContext)
       })
    case BinaryMark(text) => BinaryLookup(l, operation, text)
  }

  predicate IsEntry(result: Outcome)
  {
    |result| == 1 && result[0].AnEntry?
  }

  /** A binary save names its entry; the other binary operations name a group or nothing. */
  predicate Suits(request: Request, result: Outcome)
  {
    match request
    case BinarySave(_) => IsEntry(result)
    case BinaryMark(_) => !IsEntry(result)
    case _ => true
  }

  /** The receipt a request leaves with its result. */
  function ReceiptOf(request: Request, result: Outcome): Receipt
  {
    match request
    case HistoryRequest(text) => HistoryReceipt(Domain(text), result)
    case CommandRequest(kind, fingerprint) => CommandReceipt(kind, fingerprint, result)
    case ActionRequest(text) => ActionReceipt(Domain(text), result)
    case BinarySave(text) => HistoryReceipt(Binary(text), result)
    case BinaryMark(text) => ActionReceipt(Binary(text), result)
  }

  // ----- one replica

  /** No identity is on record twice, in one map or across both. */
  ghost predicate Single(l: Ledger)
  {
    forall a, b :: a in l && b in l && l[a].operation == l[b].operation ==> a == b
  }

  /** No other change holds the identity. */
  ghost predicate Sole(l: Ledger, operation: OperationId, a: Actor)
  {
    a in l && l[a].operation == operation && forall b :: b in l && l[b].operation == operation ==> b == a
  }

  lemma OnlyHolder(l: Ledger, operation: OperationId, a: Actor)
    requires Sole(l, operation, a)
    ensures Older(l, operation) == if l[a].receipt.HistoryReceipt? then {a} else {}
    ensures Newer(l, operation) == if l[a].receipt.HistoryReceipt? then {} else {a}
  {
  }

  lemma NoHolder(l: Ledger, operation: OperationId)
    requires forall a :: a in l ==> l[a].operation != operation
    ensures Older(l, operation) == {} && Newer(l, operation) == {}
  {
  }

  /** One identity is never in both maps of a replica that only serves its own requests. */
  lemma NeverInBoth(l: Ledger, operation: OperationId)
    requires Single(l)
    ensures Older(l, operation) == {} || Newer(l, operation) == {}
  {
    if a :| a in Older(l, operation) {
      assert Sole(l, operation, a);
      OnlyHolder(l, operation, a);
    }
  }

  /** An identity is in both maps. */
  ghost predicate InBoth(l: Ledger, operation: OperationId)
  {
    Older(l, operation) != {} && Newer(l, operation) != {}
  }

  /**
   Whatever the replicas held before, a join leaves an identity in both maps exactly when one of
   them already had it there, or they held it in one map each.
   */
  lemma MergeCollides(l: Ledger, m: Ledger, operation: OperationId)
    requires forall a :: a in l && a in m ==> l[a] == m[a]
    ensures InBoth(l + m, operation) <==>
            || InBoth(l, operation) || InBoth(m, operation)
            || (Older(l, operation) != {} && Newer(m, operation) != {}) || (Newer(l, operation) != {} && Older(m, operation) != {})
  {
    assert Older(l + m, operation) == Older(l, operation) + Older(m, operation);
    assert Newer(l + m, operation) == Newer(l, operation) + Newer(m, operation);
  }

  /** Even after merges, a lookup returns nothing but what one single change recorded for the identity. */
  lemma LookupIsHonest(l: Ledger, operation: OperationId, request: Request) returns (a: Actor)
    requires Recorded(l, operation, request).Ok? && Recorded(l, operation, request).value.Some?
    ensures a in l && l[a].operation == operation && l[a].receipt.result == Recorded(l, operation, request).value.value
    ensures Older(l, operation) + Newer(l, operation) == {a}
  {
    var holders := if Older(l, operation) != {} then Older(l, operation) else Newer(l, operation);
    a :| a in holders && holders == {a};
  }

  /** What a request finds when a change is the only one to hold its identity. */
  lemma FoundOnly(l: Ledger, operation: OperationId, a: Actor)
    requires Sole(l, operation, a)
    ensures Only(l, Older(l, operation)) == if l[a].receipt.HistoryReceipt? then Ok(Some(l[a].receipt)) else Ok(None)
    ensures Only(l, Newer(l, operation)) == if l[a].receipt.HistoryReceipt? then Ok(None) else Ok(Some(l[a].receipt))
  {
    OnlyHolder(l, operation, a);
  }

  /** Requests that may repeat another: itself, or a binary mark asking about the same binary save. */
  predicate Repeats(later: Request, first: Request)
  {
    later == first || (first.BinarySave? && later == BinaryMark(first.request))
  }

  /**
   A recorded identity answers its own request with the first result and refuses every other
   request; it is never treated as unused.
   */
  lemma RecordedAnswers(l: Ledger, a: Actor, operation: OperationId, first: Request, result: Outcome, later: Request)
    requires Sole(l, operation, a) && operation != "" && Suits(first, result)
    requires l[a] == Noted(operation, ReceiptOf(first, result))
    ensures if Repeats(later, first) then Recorded(l, operation, later) == Ok(Some(result)) else Recorded(l, operation, later).Err?
  {
    OnlyHolder(l, operation, a);
    FoundOnly(l, operation, a);
  }

  /** An identity that two changes hold refuses every request. */
  lemma CollidedRefuses(l: Ledger, operation: OperationId, a: Actor, b: Actor, later: Request)
    requires a in l && b in l && a != b && l[a].operation == l[b].operation == operation
    ensures Recorded(l, operation, later).Err?
  {
    var older, newer := Older(l, operation), Newer(l, operation);
    assert a in older || a in newer;
    assert b in older || b in newer;
    if newer == {} {
      assert a in older && b in older;
    } else if older == {} {
      assert a in newer && b in newer;
    }
  }

  /** An identity nobody holds is unused for every request, and no other. */
  lemma UnusedIsFree(l: Ledger, operation: OperationId, request: Request)
    ensures Recorded(l, operation, request) == Ok(None) <==> operation != "" && forall a :: a in l ==> l[a].operation != operation
  {
    if forall a :: a in l ==> l[a].operation != operation {
      NoHolder(l, operation);
    } else {
      var a :| a in l && l[a].operation == operation;
      assert a in Older(l, operation) || a in Newer(l, operation);
    }
  }

  // ----- serving requests

  /** The document with the receipts its changes wrote. */
  datatype Replica = Replica(changes: Changes, ledger: Ledger)

  /** What a request does to the document: one change and a result, or an error. */
  type Mutation = Changes -> Result<(Change, Outcome), Error>

  /** One request: answered from the record, or its mutation run and recorded in the same change. */
  function Serve(p: Replica, operation: OperationId, request: Request, attempt: Mutation, a: Actor): (Result<Outcome, Error>, Replica)
  {
    match Recorded(p.ledger, operation, request)
    case Err(error) => (Err(error), p)
    case Ok(Some(result)) => (Ok(result), p)
    case Ok(None) =>
      match attempt(p.changes)
      case Err(error) => (Err(error), p)
      case Ok((c, result)) => (Ok(result), Replica(p.changes[a := c], p.ledger[a := Noted(operation, ReceiptOf(request, result))]))
  }

  /** Some change holds the identity. */
  ghost predicate Held(l: Ledger, operation: OperationId)
  {
    exists b :: b in l && l[b].operation == operation
  }

  /**
   A request runs exactly when its identity is not empty, no change holds it and its mutation
   succeeds: then its change and its receipt enter together. In every other case nothing does.
   */
  lemma ServeMeans(p: Replica, operation: OperationId, request: Request, attempt: Mutation, a: Actor)
    ensures var (result, q) := Serve(p, operation, request, attempt, a);
            if operation == "" || Held(p.ledger, operation) then q == p
            else match attempt(p.changes)
                 case Err(error) => result == Err(error) && q == p
                 case Ok((c, outcome)) =>
                   result == Ok(outcome) && q.changes == p.changes[a := c]
                   && q.ledger == p.ledger[a := Noted(operation, ReceiptOf(request, outcome))]
  {
    UnusedIsFree(p.ledger, operation, request);
  }

  /** Serving keeps every identity on record at most once. */
  lemma ServeKeepsSingle(p: Replica, operation: OperationId, request: Request, attempt: Mutation, a: Actor)
    requires Single(p.ledger) && a !in p.ledger
    ensures Single(Serve(p, operation, request, attempt, a).1.ledger)
  {
    UnusedIsFree(p.ledger, operation, request);
  }

  /** A request of this replica, or the arrival of another replica's document. */
  datatype Event =
    | Call(operation: OperationId, request: Request, attempt: Mutation, actor: Actor)
    | Arrive(other: Replica)

  ghost predicate Agrees(p: Replica, q: Replica)
  {
    Agree(p.changes, q.changes) && forall a :: a in p.ledger && a in q.ledger ==> p.ledger[a] == q.ledger[a]
  }

  function Join(p: Replica, q: Replica): Replica
  {
    Replica(p.changes + q.changes, p.ledger + q.ledger)
  }

  /** Results have the shape their request promises. */
  predicate Fitting(p: Replica, e: Event)
    requires e.Call?
  {
    e.attempt(p.changes).Ok? ==> Suits(e.request, e.attempt(p.changes).value.1)
  }

  ghost predicate Happened(p: Replica, e: Event, q: Replica)
  {
    match e
    case Call(operation, request, attempt, a) =>
      a !in p.changes && a !in p.ledger && Fitting(p, e) && q == Serve(p, operation, request, attempt, a).1
    case Arrive(other) => Agrees(p, other) && q == Join(p, other)
  }

  /** A run of one replica from any state, with requests and deliveries in any order. */
  ghost predicate Trace(replicas: seq<Replica>, events: seq<Event>)
  {
    |replicas| == |events| + 1 && forall k: nat :: k < |events| ==> Happened(replicas[k], events[k], replicas[k + 1])
  }

  function Answer(p: Replica, e: Event): Result<Outcome, Error>
    requires e.Call?
  {
    Serve(p, e.operation, e.request, e.attempt, e.actor).0
  }

  /** The request's mutation ran: nothing was on record, and it succeeded. */
  predicate Ran(p: Replica, e: Event)
  {
    e.Call? && Recorded(p.ledger, e.operation, e.request) == Ok(None) && e.attempt(p.changes).Ok?
  }

  lemma RanMeans(p: Replica, e: Event)
    ensures Ran(p, e) <==> e.Call? && e.operation != "" && !Held(p.ledger, e.operation) && e.attempt(p.changes).Ok?
  {
    if e.Call? {
      UnusedIsFree(p.ledger, e.operation, e.request);
    }
  }

  lemma ChangesStayOnce(p: Replica, e: Event, q: Replica, a: Actor)
    requires Happened(p, e, q) && a in p.changes
    ensures a in q.changes && q.changes[a] == p.changes[a]
  {
    if e.Call? {
      ServeMeans(p, e.operation, e.request, e.attempt, e.actor);
    } else if a in e.other.changes {
      assert p.changes[a] == e.other.changes[a];
    }
  }

  lemma {:induction false} ChangesStay(replicas: seq<Replica>, events: seq<Event>, k: nat, n: nat, a: Actor)
    requires Trace(replicas, events) && k <= n < |replicas| && a in replicas[k].changes
    ensures a in replicas[n].changes && replicas[n].changes[a] == replicas[k].changes[a]
    decreases n
  {
    if k < n {
      ChangesStay(replicas, events, k, n - 1, a);
      assert Happened(replicas[n - 1], events[n - 1], replicas[n]);
      ChangesStayOnce(replicas[n - 1], events[n - 1], replicas[n], a);
    }
  }

  /**
   Nothing that was answered with success is lost: from the moment a request ran its change and its
   receipt are in the document, at every later moment and whatever arrives.
   */
  lemma RanIsKept(replicas: seq<Replica>, events: seq<Event>, k: nat, n: nat)
    requires Trace(replicas, events) && k < n < |replicas| && Ran(replicas[k], events[k])
    ensures var call, (c, result) := events[k], events[k].attempt(replicas[k].changes).value;
            && Answer(replicas[k], call) == Ok(result)
            && replicas[k + 1].changes == replicas[k].changes[call.actor := c]
            && call.actor in replicas[n].changes && replicas[n].changes[call.actor] == c
            && call.actor in replicas[n].ledger && replicas[n].ledger[call.actor] == Noted(call.operation, ReceiptOf(call.request, result))
  {
    var call := events[k];
    assert Happened(replicas[k], call, replicas[k + 1]);
    RanMeans(replicas[k], call);
    ServeMeans(replicas[k], call.operation, call.request, call.attempt, call.actor);
    ChangesStay(replicas, events, k + 1, n, call.actor);
    RecordsStay(replicas, events, k + 1, n, call.actor);
  }

  /** A receipt never stands without its change, if the replicas that arrive keep to that. */
  lemma {:induction false} ReceiptsHaveChanges(replicas: seq<Replica>, events: seq<Event>, n: nat)
    requires Trace(replicas, events) && n < |replicas| && replicas[0].ledger.Keys <= replicas[0].changes.Keys
    requires forall k: nat :: k < n && events[k].Arrive? ==> events[k].other.ledger.Keys <= events[k].other.changes.Keys
    ensures replicas[n].ledger.Keys <= replicas[n].changes.Keys
    decreases n
  {
    if n > 0 {
      ReceiptsHaveChanges(replicas, events, n - 1);
      var p, e := replicas[n - 1], events[n - 1];
      assert Happened(p, e, replicas[n]);
      if e.Call? {
        ServeMeans(p, e.operation, e.request, e.attempt, e.actor);
      }
    }
  }

  lemma MarksStayOnce(p: Replica, e: Event, q: Replica)
    requires Happened(p, e, q)
    ensures forall a :: a in p.ledger ==> a in q.ledger && q.ledger[a] == p.ledger[a]
  {
  }

  /** A record made earlier is still there. */
  lemma {:induction false} RecordsStay(replicas: seq<Replica>, events: seq<Event>, k: nat, n: nat, a: Actor)
    requires Trace(replicas, events) && k <= n < |replicas| && a in replicas[k].ledger
    ensures a in replicas[n].ledger && replicas[n].ledger[a] == replicas[k].ledger[a]
    decreases n
  {
    if k < n {
      RecordsStay(replicas, events, k, n - 1, a);
      assert Happened(replicas[n - 1], events[n - 1], replicas[n]);
      MarksStayOnce(replicas[n - 1], events[n - 1], replicas[n]);
    }
  }

  /** A replica that only serves its own requests never has an identity in both maps. */
  lemma {:induction false} LocalRunsStaySingle(replicas: seq<Replica>, events: seq<Event>, n: nat, operation: OperationId)
    requires Trace(replicas, events) && n < |replicas| && Single(replicas[0].ledger) && forall k: nat :: k < n ==> events[k].Call?
    ensures Single(replicas[n].ledger) && !InBoth(replicas[n].ledger, operation)
    decreases n
  {
    if n > 0 {
      LocalRunsStaySingle(replicas, events, n - 1, operation);
      var call := events[n - 1];
      assert Happened(replicas[n - 1], call, replicas[n]);
      ServeKeepsSingle(replicas[n - 1], call.operation, call.request, call.attempt, call.actor);
    }
    NeverInBoth(replicas[n].ledger, operation);
  }

  /**
   Exactly once over a whole run, whatever arrives in between: after a request ran, its identity is
   never unused again, so no mutation runs under it and the document stays as it is. A repetition
   gets the first result exactly while the request's own change is the only one to hold the
   identity; any other use of it, and any use once another replica's receipt collides, is refused.
   */
  lemma ExactlyOnce(replicas: seq<Replica>, events: seq<Event>, k: nat, n: nat)
    requires Trace(replicas, events) && k < n < |events| && Ran(replicas[k], events[k])
    requires events[n].Call? && events[n].operation == events[k].operation
    ensures !Ran(replicas[n], events[n]) && replicas[n + 1] == replicas[n]
    ensures if Sole(replicas[n].ledger, events[k].operation, events[k].actor) && Repeats(events[n].request, events[k].request)
            then Answer(replicas[n], events[n]) == Answer(replicas[k], events[k])
            else Answer(replicas[n], events[n]).Err?
  {
    var call := events[k];
    assert Happened(replicas[k], call, replicas[k + 1]) && Happened(replicas[n], events[n], replicas[n + 1]);
    RecordsStay(replicas, events, k + 1, n, call.actor);
    UnusedIsFree(replicas[k].ledger, call.operation, call.request);
    UnusedIsFree(replicas[n].ledger, call.operation, events[n].request);
    var l := replicas[n].ledger;
    if Sole(l, call.operation, call.actor) {
      RecordedAnswers(l, call.actor, call.operation, call.request, call.attempt(replicas[k].changes).value.1, events[n].request);
    } else {
      var b :| b in l && l[b].operation == call.operation && b != call.actor;
      CollidedRefuses(l, call.operation, call.actor, b, events[n].request);
    }
  }

  /**
   The collision, as a run: two replicas serve different requests under one identity, and one
   receives the other's document. The identity is then in both maps, and every request is refused.
   */
  lemma CollidingRun(p: Replica, q: Replica, history: Event, command: Event, later: Request)
    requires Agrees(p, q) && Ran(p, history) && Ran(q, command) && history.operation == command.operation
    requires history.request.HistoryRequest? && command.request.CommandRequest?
    requires history.actor !in p.ledger && command.actor !in q.ledger && history.actor !in q.ledger && command.actor !in p.ledger
    requires history.actor != command.actor
    ensures var left := Serve(p, history.operation, history.request, history.attempt, history.actor).1;
            var right := Serve(q, command.operation, command.request, command.attempt, command.actor).1;
            && !InBoth(left.ledger, history.operation) && !InBoth(right.ledger, history.operation)
            && InBoth(Join(left, right).ledger, history.operation)
            && Recorded(Join(left, right).ledger, history.operation, later).Err?
  {
    var left := Serve(p, history.operation, history.request, history.attempt, history.actor).1;
    var right := Serve(q, command.operation, command.request, command.attempt, command.actor).1;
    var both := Join(left, right).ledger;
    UnusedIsFree(p.ledger, history.operation, history.request);
    UnusedIsFree(q.ledger, command.operation, command.request);
    OnlyHolder(left.ledger, history.operation, history.actor);
    OnlyHolder(right.ledger, history.operation, command.actor);
    assert history.actor in Older(both, history.operation) && command.actor in Newer(both, history.operation);
    CollidedRefuses(both, history.operation, history.actor, command.actor, later);
  }

  /** What a command gets for an identity that is on record. */
  lemma CommandAnswers(l: Ledger, operation: OperationId, kind: string, fingerprint: string)
    ensures forall b :: operation != "" && Sole(l, operation, b) ==>
              Recorded(l, operation, CommandRequest(kind, fingerprint)) ==
              (match l[b].receipt
               case CommandReceipt(known, recorded, outcome) => if known == kind && recorded == fingerprint then Ok(Some(outcome)) else Err(DuplicateId)
               case _ => Err(DuplicateId))
    ensures forall b, c :: b in l && c in l && b != c && l[b].operation == l[c].operation == operation ==>
              Recorded(l, operation, CommandRequest(kind, fingerprint)).Err?
  {
    forall b | operation != "" && Sole(l, operation, b)
      ensures Recorded(l, operation, CommandRequest(kind, fingerprint)) ==
              (match l[b].receipt
               case CommandReceipt(known, recorded, outcome) => if known == kind && recorded == fingerprint then Ok(Some(outcome)) else Err(DuplicateId)
               case _ => Err(DuplicateId))
    {
      OnlyHolder(l, operation, b);
      FoundOnly(l, operation, b);
    }
    forall b, c | b in l && c in l && b != c && l[b].operation == l[c].operation == operation
      ensures Recorded(l, operation, CommandRequest(kind, fingerprint)).Err?
    {
      CollidedRefuses(l, operation, b, c, CommandRequest(kind, fingerprint));
    }
  }

  // ----- the document's receipts

  class ReceiptBook {
    var changes: Changes
    var ledger: Ledger

    constructor (changes: Changes)
      ensures this.changes == changes && ledger == map[]
    {
      this.changes, ledger := changes, map[];
    }

    /** `CommandReceipt::write` inside a transaction whose view is `base`. */
    method Write(base: Ledger, operation: OperationId, kind: string, fingerprint: string, result: Outcome) returns (written: Result<Noted, Error>)
      ensures written == if operation == "" then Err(InvalidContext)
                         else if exists a :: a in base && base[a].operation == operation then Err(DuplicateId)
                         else Ok(Noted(operation, CommandReceipt(kind, fingerprint, result)))
    {
      if operation == "" {
        return Err(InvalidContext);
      }
      var older, newer := Older(base, operation), Newer(base, operation);
      assert forall a :: a in base && base[a].operation == operation ==> a in older || a in newer;
      if older != {} || newer != {} {
        return Err(DuplicateId);
      }
      written := Ok(Noted(operation, CommandReceipt(kind, fingerprint, result)));
    }

    /**
     `command`: a recorded result, or a candidate document whose transaction at some base writes the
     receipt together with its change. Only a candidate that succeeds replaces the document.
     */
    method Command(operation: OperationId, kind: string, fingerprint: string, attempt: Mutation, base: Ledger, a: Actor)
      returns (result: Result<Outcome, Error>)
      requires a !in ledger && forall b :: b in base ==> b in ledger && ledger[b] == base[b]
      modifies this
      ensures (result, Replica(changes, ledger)) ==
              Serve(Replica(old(changes), old(ledger)), operation, CommandRequest(kind, fingerprint), attempt, a)
      ensures operation == "" ==> result == Err(InvalidContext)
      ensures operation == "" || Held(old(ledger), operation) || attempt(old(changes)).Err? ==> changes == old(changes) && ledger == old(ledger)
      ensures operation != "" && !Held(old(ledger), operation) ==>
                match attempt(old(changes))
                case Err(error) => result == Err(error)
                case Ok((c, outcome)) =>
                  result == Ok(outcome) && changes == old(changes)[a := c]
                  && ledger == old(ledger)[a := Noted(operation, CommandReceipt(kind, fingerprint, outcome))]
      ensures forall b :: operation != "" && Sole(old(ledger), operation, b) ==>
                match old(ledger)[b].receipt
                case CommandReceipt(known, recorded, outcome) =>
                  result == if known == kind && recorded == fingerprint then Ok(outcome) else Err(DuplicateId)
                case _ => result == Err(DuplicateId)
      ensures forall b, c :: b in old(ledger) && c in old(ledger) && b != c && old(ledger)[b].operation == old(ledger)[c].operation == operation ==>
                result.Err?
    {
      ghost var l := ledger;
      CommandAnswers(l, operation, kind, fingerprint);
      UnusedIsFree(l, operation, CommandRequest(kind, fingerprint));

      var recorded := CommandLookup(ledger, operation, kind);
      if recorded.Err? {
        return Err(recorded.error);
      }
      if recorded.value.Some? {
        var (known, first) := recorded.value.value;
        if known != fingerprint {
          return Err(DuplicateId);
        }
        return Ok(first);
      }
      var candidate := attempt(changes);
      if candidate.Err? {
        return Err(candidate.error);
      }
      var (change, outcome) := candidate.value;
      var written := Write(base, operation, kind, fingerprint, outcome);
      changes, ledger := changes[a := change], ledger[a := written.value];
      result := Ok(outcome);
    }

    /** `command_heads`: the one change that recorded the command, whatever has been received since. */
    method CommandHeads(operation: OperationId, kind: string) returns (heads: Result<set<Actor>, Error>)
      ensures heads.Ok? <==> CommandLookup(ledger, operation, kind).Ok? && CommandLookup(ledger, operation, kind).value.Some?
      ensures heads.Ok? ==> exists a :: heads.value == {a} && Sole(ledger, operation, a)
                              && ledger[a].receipt.CommandReceipt? && ledger[a].receipt.kind == kind
    {
      var recorded := CommandLookup(ledger, operation, kind);
      if recorded.Err? {
        return Err(recorded.error);
      }
      if recorded.value == None {
        return Err(NotFound);
      }
      var holders := Newer(ledger, operation);
      assert forall b :: b in ledger && ledger[b].operation == operation ==> b in holders || b in Older(ledger, operation);
      if exists a :: a in holders && holders == {a} {
        ghost var a :| a in holders && holders == {a};
        assert Sole(ledger, operation, a);
        return Ok(holders);
      }
      heads := Err(InvalidDocument);
    }
  }
}

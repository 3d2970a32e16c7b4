/**
 * The transfer snapshot of PutKit/Models/PIOTransfer.h and the behaviour that
 * `addTransferWithURL:saveFolderIdentifier:callbackURL:errorCallback:progressCallback:completionCallback:`
 * (PutKit/Methods/PIOAPI+Transfers.h) promises, stated as a pure specification:
 * the session consumes a sequence of events (the answer to the creation request,
 * then the answer to each once-a-second fetch) and emits the callback
 * invocations it makes.
 */
module Transfers {
  import opened Wrappers

  /** An `NSError` delivered by the request layer. */
  datatype ApiError = ApiError(domain: string, code: int)

  /**
   * The raw value of `PIOTransferStatus`. Its enumeration is not part of this
   * model; which values end a transfer is supplied as `isTerminal`.
   */
  type TransferStatus = int

  /** The integer and boolean part of a `PIOTransfer` snapshot. */
  datatype Transfer = Transfer(
    identifier: int,          // the transfer id assigned by the server
    status: TransferStatus,
    error: Option<ApiError>,  // nil until an error occurs
    seeding: bool)

  /** One invocation of one of the three callbacks. */
  datatype Notification =
    | CreationError(cause: ApiError)                                       // errorCallback(error)
    | Progress(fetchError: Option<ApiError>, transfer: Option<Transfer>)   // progressCallback(error, transfer)
    | Completion(final: Transfer)                                          // completionCallback(transfer)

  datatype Phase = Creating | Polling | Done | Failed

  /** What the session remembers: its phase and the id it polls. */
  datatype State = State(phase: Phase, identifier: int)

  const Initial := State(Creating, 0)

  /** What the session is told: the creation answer, or the answer to one poll. */
  datatype Event =
    | Created(created: Result<Transfer, ApiError>)
    | Tick(fetched: Result<Transfer, ApiError>)

  datatype Outcome = Outcome(state: State, emitted: seq<Notification>)

  /**
   * Whether a fetched snapshot ends monitoring: its status is terminal, or the
   * transfer reports an error, which belongs to `completionCallback` and never
   * to `progressCallback`. The `seeding` flag plays no part, so a seeding
   * transfer is polled for as long as its status is not terminal and it
   * reports no error.
   */
  predicate Ends(isTerminal: TransferStatus -> bool, t: Transfer)
  {
    isTerminal(t.status) || t.error.Some?
  }

  /**
   * A snapshot whose `error` is set exactly when its status is a failure, for
   * a classifier `isFailed` of the failed statuses.
   */
  predicate Consistent(isFailed: TransferStatus -> bool, t: Transfer)
  {
    t.error.Some? <==> isFailed(t.status)
  }

  /** Every snapshot that a successful fetch returned is consistent. */
  ghost predicate FetchedConsistent(isFailed: TransferStatus -> bool, events: seq<Event>)
  {
    forall e :: e in events && e.Tick? && e.fetched.Success? ==> Consistent(isFailed, e.fetched.value)
  }

  /** The `getTransferForID:` request a tick issues, if any. */
  function PollRequest(s: State): (id: Option<int>)
  {
    if s.phase == Polling then Some(s.identifier) else None
  }

  /**
   * One step of the session. Events that reach a phase not waiting for them
   * are ignored; each event makes at most one callback invocation.
   */
  function Step(isTerminal: TransferStatus -> bool, s: State, e: Event): (o: Outcome)
    ensures |o.emitted| <= 1
    ensures s.phase in {Done, Failed} ==> o == Outcome(s, [])
    ensures o.state.phase != s.phase ==>
              (s.phase == Creating && o.state.phase in {Polling, Failed}) ||
              (s.phase == Polling && o.state.phase == Done)
    ensures o.state.phase == Polling && s.phase == Polling ==> o.state == s
  {
    match e
    case Created(r) =>
      if s.phase != Creating then Outcome(s, [])
      else if r.Failure? then Outcome(State(Failed, s.identifier), [CreationError(r.error)])
      else Outcome(State(Polling, r.value.identifier), [])
    case Tick(r) =>
      if s.phase != Polling then Outcome(s, [])
      else if r.Failure? then Outcome(s, [Progress(Some(r.error), None)])
      else if Ends(isTerminal, r.value) then Outcome(State(Done, s.identifier), [Completion(r.value)])
      else Outcome(s, [Progress(None, Some(r.value))])
  }

  /** The state reached and every callback invoked after the given events. */
  function Run(isTerminal: TransferStatus -> bool, events: seq<Event>): (o: Outcome)
    ensures |o.emitted| <= |events|
  {
    if events == [] then Outcome(Initial, [])
    else
      var before := Run(isTerminal, events[..|events| - 1]);
      var step := Step(isTerminal, before.state, events[|events| - 1]);
      Outcome(step.state, before.emitted + step.emitted)
  }

  /** The answer of the creation request: the first `Created` event, if any. */
  function FirstCreated(events: seq<Event>): Option<Result<Transfer, ApiError>>
  {
    if events == [] then None
    else
      var earlier := FirstCreated(events[..|events| - 1]);
      if earlier.Some? then earlier
      else match events[|events| - 1]
        case Created(r) => Some(r)
        case Tick(_) => None
  }

  /** A progress notification carries exactly one of a fetch error and a snapshot that does not end the session. */
  predicate WellFormedProgress(isTerminal: TransferStatus -> bool, n: Notification)
    requires n.Progress?
  {
    (n.fetchError.Some? != n.transfer.Some?) &&
    (n.transfer.Some? ==> !Ends(isTerminal, n.transfer.value))
  }

  predicate AllProgress(isTerminal: TransferStatus -> bool, notes: seq<Notification>)
  {
    forall i :: 0 <= i < |notes| ==> notes[i].Progress? && WellFormedProgress(isTerminal, notes[i])
  }

  /**
   * The rules the callbacks obey: a creation error is the only notification
   * of its session; a completion is the last notification and carries a
   * snapshot that ends the session; progress notifications are well formed.
   */
  predicate TraceRules(isTerminal: TransferStatus -> bool, notes: seq<Notification>)
  {
    forall i :: 0 <= i < |notes| ==>
      (notes[i].CreationError? ==> |notes| == 1) &&
      (notes[i].Completion? ==> i == |notes| - 1 && Ends(isTerminal, notes[i].final)) &&
      (notes[i].Progress? ==> WellFormedProgress(isTerminal, notes[i]))
  }

  /**
   * What the caller receives: `errorCallback` is mandatory, the other two may
   * be nil, and a nil callback receives nothing.
   */
  function Delivered(notes: seq<Notification>, hasProgress: bool, hasCompletion: bool): seq<Notification>
  {
    if notes == [] then []
    else
      var rest := Delivered(notes[..|notes| - 1], hasProgress, hasCompletion);
      var n := notes[|notes| - 1];
      if (n.Progress? && !hasProgress) || (n.Completion? && !hasCompletion) then rest else rest + [n]
  }

  // ---------------------------------------------------------------------------
  // Properties of a session

  /** The shape of everything emitted so far, by phase. */
  lemma {:induction false} RunShape(isTerminal: TransferStatus -> bool, events: seq<Event>)
    ensures var o := Run(isTerminal, events);
      match o.state.phase
      case Creating =>
        FirstCreated(events).None? && o.emitted == []
      case Failed =>
        FirstCreated(events).Some? && FirstCreated(events).value.Failure? &&
        o.emitted == [CreationError(FirstCreated(events).value.error)]
      case Polling =>
        FirstCreated(events).Some? && FirstCreated(events).value.Success? &&
        o.state.identifier == FirstCreated(events).value.value.identifier &&
        AllProgress(isTerminal, o.emitted)
      case Done =>
        FirstCreated(events).Some? && FirstCreated(events).value.Success? &&
        o.state.identifier == FirstCreated(events).value.value.identifier &&
        |o.emitted| > 0 && AllProgress(isTerminal, o.emitted[..|o.emitted| - 1]) &&
        o.emitted[|o.emitted| - 1].Completion? &&
        Ends(isTerminal, o.emitted[|o.emitted| - 1].final)
  {
    if events != [] {
      var prefix := events[..|events| - 1];
      RunShape(isTerminal, prefix);
      var before := Run(isTerminal, prefix);
      var step := Step(isTerminal, before.state, events[|events| - 1]);
      var o := Run(isTerminal, events);
      assert o == Outcome(step.state, before.emitted + step.emitted);
      if before.state.phase == Polling {
        if step.state.phase == Done {
          assert o.emitted[..|o.emitted| - 1] == before.emitted;
        } else if step.emitted != [] {
          AllProgressAppend(isTerminal, before.emitted, step.emitted[0]);
          assert step.emitted == [step.emitted[0]];
        } else {
          assert o.emitted == before.emitted;
        }
      } else if before.state.phase != Creating {
        assert step == Outcome(before.state, []);
        assert o.emitted == before.emitted;
      }
    }
  }

  /** A well-formed progress notification extends an all-progress trace. */
  lemma AllProgressAppend(isTerminal: TransferStatus -> bool, notes: seq<Notification>, n: Notification)
    requires AllProgress(isTerminal, notes)
    requires n.Progress? && WellFormedProgress(isTerminal, n)
    ensures AllProgress(isTerminal, notes + [n])
  {
    forall i | 0 <= i < |notes + [n]|
      ensures (notes + [n])[i].Progress? && WellFormedProgress(isTerminal, (notes + [n])[i])
    {
      if i < |notes| {
        assert (notes + [n])[i] == notes[i];
      }
    }
  }

  /** Every session, at every point, obeys the callback rules. */
  lemma RunObeysRules(isTerminal: TransferStatus -> bool, events: seq<Event>)
    ensures TraceRules(isTerminal, Run(isTerminal, events).emitted)
  {
    RunShape(isTerminal, events);
    var notes := Run(isTerminal, events).emitted;
    forall i | 0 <= i < |notes|
      ensures (notes[i].CreationError? ==> |notes| == 1) &&
              (notes[i].Completion? ==> i == |notes| - 1 && Ends(isTerminal, notes[i].final)) &&
              (notes[i].Progress? ==> WellFormedProgress(isTerminal, notes[i]))
    {
      if Run(isTerminal, events).state.phase == Done && i < |notes| - 1 {
        assert notes[i] == notes[..|notes| - 1][i];
      }
    }
  }

  /**
   * `errorCallback` fires exactly when creation fails, with creation's error;
   * a failure later on never reaches it.
   */
  lemma CreationErrorIffCreationFailed(isTerminal: TransferStatus -> bool, events: seq<Event>, e: ApiError)
    ensures CreationError(e) in Run(isTerminal, events).emitted <==> FirstCreated(events) == Some(Failure(e))
  {
    RunShape(isTerminal, events);
    var o := Run(isTerminal, events);
    if o.state.phase == Done {
      assert o.emitted == o.emitted[..|o.emitted| - 1] + [o.emitted[|o.emitted| - 1]];
    }
  }

  /** After a failed creation, nothing but that one error is ever reported and the session is over. */
  lemma CreationFailureSilencesOtherCallbacks(isTerminal: TransferStatus -> bool, events: seq<Event>, e: ApiError)
    requires FirstCreated(events) == Some(Failure(e))
    ensures Run(isTerminal, events) == Outcome(State(Failed, 0), [CreationError(e)])
  {
    RunShape(isTerminal, events);
    FailedKeepsInitialIdentifier(isTerminal, events);
  }

  lemma {:induction false} FailedKeepsInitialIdentifier(isTerminal: TransferStatus -> bool, events: seq<Event>)
    ensures Run(isTerminal, events).state.phase in {Creating, Failed} ==> Run(isTerminal, events).state.identifier == 0
  {
    if events != [] {
      FailedKeepsInitialIdentifier(isTerminal, events[..|events| - 1]);
    }
  }

  /**
   * A seeding transfer is treated like any other: whether the `seeding` flag
   * is set never changes where the session goes, only its status does.
   */
  lemma SeedingDoesNotDecide(isTerminal: TransferStatus -> bool, s: State, t: Transfer, seeding: bool)
    ensures Step(isTerminal, s, Tick(Success(t))).state == Step(isTerminal, s, Tick(Success(t.(seeding := seeding)))).state
    ensures s.phase == Polling && !isTerminal(t.status) && t.error.None? ==> Step(isTerminal, s, Tick(Success(t))).state == s
  {
  }

  /** Every poll asks for the transfer that creation returned. */
  lemma PollsCreatedTransfer(isTerminal: TransferStatus -> bool, events: seq<Event>)
    requires PollRequest(Run(isTerminal, events).state).Some?
    ensures FirstCreated(events).Some? && FirstCreated(events).value.Success?
    ensures PollRequest(Run(isTerminal, events).state).value == FirstCreated(events).value.value.identifier
  {
    RunShape(isTerminal, events);
  }

  /** A failed fetch is reported once through `progressCallback` and does not end the session. */
  lemma FetchFailureIsProgress(isTerminal: TransferStatus -> bool, events: seq<Event>, e: ApiError)
    requires Run(isTerminal, events).state.phase == Polling
    ensures Run(isTerminal, events + [Tick(Failure(e))]) ==
            Outcome(Run(isTerminal, events).state, Run(isTerminal, events).emitted + [Progress(Some(e), None)])
  {
  }

  /**
   * A snapshot that ends the session, a terminal one or one reporting a
   * transfer error, is handed to `completionCallback` as fetched.
   */
  lemma CompletionCarriesFetchedSnapshot(isTerminal: TransferStatus -> bool, events: seq<Event>, t: Transfer)
    requires Run(isTerminal, events).state.phase == Polling
    requires Ends(isTerminal, t)
    ensures var o := Run(isTerminal, events + [Tick(Success(t))]);
      o.state.phase == Done &&
      o.emitted == Run(isTerminal, events).emitted + [Completion(t)] &&
      o.emitted[|o.emitted| - 1].final.error == t.error
  {
  }

  /** Once done or failed, a session never emits or changes again: completion fires at most once. */
  lemma {:induction false} EndedSessionIsSilent(isTerminal: TransferStatus -> bool, events: seq<Event>, later: seq<Event>)
    requires Run(isTerminal, events).state.phase in {Done, Failed}
    ensures Run(isTerminal, events + later) == Run(isTerminal, events)
  {
    if later != [] {
      var init := later[..|later| - 1];
      EndedSessionIsSilent(isTerminal, events, init);
      assert (events + later)[..|events + later| - 1] == events + init;
      var before := Run(isTerminal, events + init);
      assert before.emitted + [] == before.emitted;
    } else {
      assert events + later == events;
    }
  }

  /** No snapshot handed to `progressCallback` carries a transfer error. */
  lemma ProgressNeverCarriesTransferError(isTerminal: TransferStatus -> bool, events: seq<Event>, k: int)
    requires 0 <= k < |Run(isTerminal, events).emitted|
    requires Run(isTerminal, events).emitted[k].Progress? && Run(isTerminal, events).emitted[k].transfer.Some?
    ensures Run(isTerminal, events).emitted[k].transfer.value.error.None?
  {
    RunObeysRules(isTerminal, events);
  }

  /** The snapshot a notification carries, if any, is one that a fetch returned. */
  ghost predicate FromFetch(n: Notification, events: seq<Event>)
  {
    (n.Completion? ==> Tick(Success(n.final)) in events) &&
    (n.Progress? && n.transfer.Some? ==> Tick(Success(n.transfer.value)) in events)
  }

  /** Every snapshot a notification carries is one that a fetch returned. */
  lemma {:induction false} SnapshotsWereFetched(isTerminal: TransferStatus -> bool, events: seq<Event>)
    ensures forall n :: n in Run(isTerminal, events).emitted ==> FromFetch(n, events)
  {
    if events != [] {
      var prefix := events[..|events| - 1];
      var last := events[|events| - 1];
      SnapshotsWereFetched(isTerminal, prefix);
      var before := Run(isTerminal, prefix);
      var step := Step(isTerminal, before.state, last);
      assert events == prefix + [last];
      forall n | n in Run(isTerminal, events).emitted
        ensures FromFetch(n, events)
      {
        if n in before.emitted {
          assert FromFetch(n, prefix);
        } else {
          assert n in step.emitted;
        }
      }
    }
  }

  /**
   * When every fetched snapshot sets `error` exactly on a failed status, the
   * snapshot handed to `completionCallback` has its `error` set exactly when
   * the transfer failed, and nil otherwise.
   */
  lemma CompletionErrorIffFailed(isTerminal: TransferStatus -> bool, isFailed: TransferStatus -> bool,
                                 events: seq<Event>, k: int)
    requires FetchedConsistent(isFailed, events)
    requires 0 <= k < |Run(isTerminal, events).emitted| && Run(isTerminal, events).emitted[k].Completion?
    ensures var final := Run(isTerminal, events).emitted[k].final;
      final.error.Some? <==> isFailed(final.status)
  {
    var n := Run(isTerminal, events).emitted[k];
    SnapshotsWereFetched(isTerminal, events);
    assert FromFetch(n, events);
  }

  /** Completion notifications never exceed one. */
  lemma AtMostOneCompletion(isTerminal: TransferStatus -> bool, events: seq<Event>, i: int, j: int)
    requires 0 <= i < j < |Run(isTerminal, events).emitted|
    ensures !(Run(isTerminal, events).emitted[i].Completion? && Run(isTerminal, events).emitted[j].Completion?)
  {
    RunObeysRules(isTerminal, events);
  }

  /** One more event extends the run by one step. */
  lemma RunAppend(isTerminal: TransferStatus -> bool, events: seq<Event>, e: Event)
    ensures var before := Run(isTerminal, events);
      var step := Step(isTerminal, before.state, e);
      Run(isTerminal, events + [e]) == Outcome(step.state, before.emitted + step.emitted)
  {
  }

  /** Delivery of one more notification extends delivery of the earlier ones. */
  lemma DeliveredAppendOne(notes: seq<Notification>, n: Notification, hasProgress: bool, hasCompletion: bool)
    ensures Delivered(notes + [n], hasProgress, hasCompletion) ==
            Delivered(notes, hasProgress, hasCompletion) + Delivered([n], hasProgress, hasCompletion)
  {
    assert (notes + [n])[..|notes|] == notes;
    assert [n][..0] == [];
  }

  /**
   * What the caller has received after one more event: what it had before and
   * the delivered part of the step; the callback rules still hold.
   */
  lemma DeliveredAfterEvent(isTerminal: TransferStatus -> bool, events: seq<Event>, e: Event,
                            hasProgress: bool, hasCompletion: bool)
    ensures var before := Run(isTerminal, events);
      var step := Step(isTerminal, before.state, e);
      var after := Delivered(Run(isTerminal, events + [e]).emitted, hasProgress, hasCompletion);
      after == Delivered(before.emitted, hasProgress, hasCompletion) + Delivered(step.emitted, hasProgress, hasCompletion) &&
      TraceRules(isTerminal, after)
  {
    DeliveredStep(isTerminal, events, e, hasProgress, hasCompletion);
    DeliveredObeysRules(isTerminal, events + [e], hasProgress, hasCompletion);
  }

  /** Delivery after one more event is the earlier delivery and that of the step. */
  lemma DeliveredStep(isTerminal: TransferStatus -> bool, events: seq<Event>, e: Event,
                      hasProgress: bool, hasCompletion: bool)
    ensures var before := Run(isTerminal, events);
      var step := Step(isTerminal, before.state, e);
      Delivered(Run(isTerminal, events + [e]).emitted, hasProgress, hasCompletion) ==
      Delivered(before.emitted, hasProgress, hasCompletion) + Delivered(step.emitted, hasProgress, hasCompletion)
  {
    RunAppend(isTerminal, events, e);
    var before := Run(isTerminal, events);
    var step := Step(isTerminal, before.state, e);
    var all := Run(isTerminal, events + [e]).emitted;
    assert all == before.emitted + step.emitted;
    if step.emitted != [] {
      var n := step.emitted[0];
      assert step.emitted == [n];
      DeliveredAppendOne(before.emitted, n, hasProgress, hasCompletion);
    } else {
      assert all == before.emitted;
    }
  }

  /** What any session delivers obeys the callback rules. */
  lemma DeliveredObeysRules(isTerminal: TransferStatus -> bool, events: seq<Event>, hasProgress: bool, hasCompletion: bool)
    ensures TraceRules(isTerminal, Delivered(Run(isTerminal, events).emitted, hasProgress, hasCompletion))
  {
    RunObeysRules(isTerminal, events);
    DeliveredKeepsRules(isTerminal, Run(isTerminal, events).emitted, hasProgress, hasCompletion);
  }

  /**
   * The creation answer arriving: while creating, a failure is delivered to
   * `errorCallback` and fails the session, a success starts polling the
   * returned id; in any other phase nothing happens.
   */
  lemma AfterCreated(isTerminal: TransferStatus -> bool, events: seq<Event>, r: Result<Transfer, ApiError>,
                     hasProgress: bool, hasCompletion: bool)
    ensures var before := Run(isTerminal, events);
      var after := Run(isTerminal, events + [Created(r)]);
      var seen := Delivered(before.emitted, hasProgress, hasCompletion);
      var now := Delivered(after.emitted, hasProgress, hasCompletion);
      TraceRules(isTerminal, now) &&
      (before.state.phase == Creating && r.Failure? ==>
         after.state == State(Failed, before.state.identifier) && now == seen + [CreationError(r.error)]) &&
      (before.state.phase == Creating && r.Success? ==>
         after.state == State(Polling, r.value.identifier) && now == seen) &&
      (before.state.phase != Creating ==> after.state == before.state && now == seen)
  {
    DeliveredAfterEvent(isTerminal, events, Created(r), hasProgress, hasCompletion);
    RunAppend(isTerminal, events, Created(r));
  }

  /**
   * A fetch answer arriving: while polling, a failed fetch or a snapshot that
   * does not end the session is delivered to `progressCallback`, if present;
   * any other snapshot to `completionCallback`, if present, ending the
   * session. In any other phase nothing happens.
   */
  lemma AfterTick(isTerminal: TransferStatus -> bool, events: seq<Event>, f: Result<Transfer, ApiError>,
                  hasProgress: bool, hasCompletion: bool)
    ensures var before := Run(isTerminal, events);
      var after := Run(isTerminal, events + [Tick(f)]);
      var seen := Delivered(before.emitted, hasProgress, hasCompletion);
      var now := Delivered(after.emitted, hasProgress, hasCompletion);
      TraceRules(isTerminal, now) &&
      after.state.identifier == before.state.identifier &&
      (before.state.phase == Polling && f.Failure? ==>
         after.state == before.state &&
         now == seen + (if hasProgress then [Progress(Some(f.error), None)] else [])) &&
      (before.state.phase == Polling && f.Success? && !Ends(isTerminal, f.value) ==>
         after.state == before.state &&
         now == seen + (if hasProgress then [Progress(None, Some(f.value))] else [])) &&
      (before.state.phase == Polling && f.Success? && Ends(isTerminal, f.value) ==>
         after.state.phase == Done &&
         now == seen + (if hasCompletion then [Completion(f.value)] else [])) &&
      (before.state.phase != Polling ==> after.state == before.state && now == seen)
  {
    DeliveredAfterEvent(isTerminal, events, Tick(f), hasProgress, hasCompletion);
    RunAppend(isTerminal, events, Tick(f));
  }

  // ---------------------------------------------------------------------------
  // Properties of the delivery to optional callbacks

  /** With every callback present, everything emitted is delivered. */
  lemma {:induction false} DeliveredToAllCallbacks(notes: seq<Notification>)
    ensures Delivered(notes, true, true) == notes
  {
    if notes != [] {
      DeliveredToAllCallbacks(notes[..|notes| - 1]);
    }
  }

  /** Exactly the notifications whose callback is present are delivered. */
  lemma {:induction false} DeliveredMembers(notes: seq<Notification>, hasProgress: bool, hasCompletion: bool, n: Notification)
    ensures n in Delivered(notes, hasProgress, hasCompletion) <==>
            n in notes && (n.Progress? ==> hasProgress) && (n.Completion? ==> hasCompletion)
  {
    if notes != [] {
      var init := notes[..|notes| - 1];
      DeliveredMembers(init, hasProgress, hasCompletion, n);
      assert notes == init + [notes[|notes| - 1]];
    }
  }

  /** Dropping the notifications of absent callbacks keeps the callback rules. */
  lemma {:induction false} DeliveredKeepsRules(isTerminal: TransferStatus -> bool, notes: seq<Notification>, hasProgress: bool, hasCompletion: bool)
    requires TraceRules(isTerminal, notes)
    ensures TraceRules(isTerminal, Delivered(notes, hasProgress, hasCompletion))
    ensures |Delivered(notes, hasProgress, hasCompletion)| <= |notes|
  {
    if notes != [] {
      var init := notes[..|notes| - 1];
      var last := notes[|notes| - 1];
      assert TraceRules(isTerminal, init) by {
        forall i | 0 <= i < |init|
          ensures (init[i].CreationError? ==> |init| == 1) &&
                  (init[i].Completion? ==> i == |init| - 1 && Ends(isTerminal, init[i].final)) &&
                  (init[i].Progress? ==> WellFormedProgress(isTerminal, init[i]))
        {
          assert init[i] == notes[i];
        }
      }
      DeliveredKeepsRules(isTerminal, init, hasProgress, hasCompletion);
      var rest := Delivered(init, hasProgress, hasCompletion);
      if !((last.Progress? && !hasProgress) || (last.Completion? && !hasCompletion)) {
        var r := rest + [last];
        assert Delivered(notes, hasProgress, hasCompletion) == r;
        forall k | 0 <= k < |r|
          ensures (r[k].CreationError? ==> |r| == 1) &&
                  (r[k].Completion? ==> k == |r| - 1 && Ends(isTerminal, r[k].final)) &&
                  (r[k].Progress? ==> WellFormedProgress(isTerminal, r[k]))
        {
          if k < |rest| {
            DeliveredMembers(init, hasProgress, hasCompletion, r[k]);
            var m :| 0 <= m < |init| && init[m] == r[k];
            assert notes[m] == r[k];
          }
        }
      }
    }
  }
}

/**
 * The transfer monitor behind
 * `addTransferWithURL:saveFolderIdentifier:callbackURL:errorCallback:progressCallback:completionCallback:`
 * (PutKit/Methods/PIOAPI+Transfers.h): one session per call. The creation
 * request's answer arrives through `OnCreateResult`; each firing of the
 * repeating timer fetches the transfer with `getTransferForID:` and the answer
 * arrives through `OnTick`. The ghost `log` records every callback invocation,
 * and `Valid()` ties the session to the specification `Transfers.Run`.
 */
module TransferMonitor {
  import opened Wrappers
  import opened Transfers

  class MonitorSession {
    // The creation request.
    const url: string
    const saveFolderIdentifier: int
    const callbackURL: Option<string>

    // Which statuses end a transfer, and which optional callbacks were given.
    const isTerminal: TransferStatus -> bool
    const hasProgressCallback: bool
    const hasCompletionCallback: bool

    var phase: Phase
    var identifier: int   // the id returned by creation, once polling has begun

    ghost var events: seq<Event>
    ghost var log: seq<Notification>

    ghost predicate Valid()
      reads this
    {
      Run(isTerminal, events).state == State(phase, identifier) &&
      log == Delivered(Run(isTerminal, events).emitted, hasProgressCallback, hasCompletionCallback)
    }

    /** Starts a session; the creation request is issued and nothing has been reported yet. */
    constructor (url: string, saveFolderIdentifier: int, callbackURL: Option<string>,
                 isTerminal: TransferStatus -> bool, hasProgressCallback: bool, hasCompletionCallback: bool)
      ensures Valid() && phase == Creating && events == [] && log == []
      ensures this.url == url && this.saveFolderIdentifier == saveFolderIdentifier && this.callbackURL == callbackURL
      ensures this.isTerminal == isTerminal
      ensures this.hasProgressCallback == hasProgressCallback && this.hasCompletionCallback == hasCompletionCallback
    {
      this.url := url;
      this.saveFolderIdentifier := saveFolderIdentifier;
      this.callbackURL := callbackURL;
      this.isTerminal := isTerminal;
      this.hasProgressCallback := hasProgressCallback;
      this.hasCompletionCallback := hasCompletionCallback;
      phase := Creating;
      identifier := 0;
      events := [];
      log := [];
    }

    /**
     * The creation request answered. A failure goes to the mandatory
     * `errorCallback` and ends the session; a success starts polling the
     * returned transfer's id and reports nothing.
     */
    method OnCreateResult(r: Result<Transfer, ApiError>)
      requires Valid()
      modifies this
      ensures Valid() && TraceRules(isTerminal, log)
      ensures events == old(events) + [Created(r)]
      ensures old(phase) == Creating && r.Failure? ==>
                phase == Failed && identifier == old(identifier) && log == old(log) + [CreationError(r.error)]
      ensures old(phase) == Creating && r.Success? ==>
                phase == Polling && identifier == r.value.identifier && log == old(log)
      ensures old(phase) != Creating ==>
                phase == old(phase) && identifier == old(identifier) && log == old(log)
    {
      AfterCreated(isTerminal, events, r, hasProgressCallback, hasCompletionCallback);
      ghost var next := events + [Created(r)];
      ghost var after := Run(isTerminal, next);
      ghost var now := Delivered(after.emitted, hasProgressCallback, hasCompletionCallback);
      if phase == Creating {
        match r
        case Failure(e) =>
          phase := Failed;
          log := log + [CreationError(e)];
        case Success(t) =>
          phase := Polling;
          identifier := t.identifier;
      }
      events := next;
      assert after.state == State(phase, identifier) && log == now;
    }

    /**
     * One firing of the timer: `fetched` is the answer of `getTransferForID:`
     * for `identifier`. A failed fetch and a snapshot that neither is terminal
     * nor reports a transfer error go to `progressCallback`; any other snapshot
     * goes, unchanged, to `completionCallback` and stops the timer. Outside
     * polling nothing happens.
     */
    method OnTick(fetched: Result<Transfer, ApiError>)
      requires Valid()
      modifies this
      ensures Valid() && TraceRules(isTerminal, log)
      ensures events == old(events) + [Tick(fetched)]
      ensures identifier == old(identifier)
      ensures old(phase) == Polling && fetched.Failure? ==>
                phase == Polling &&
                log == old(log) + (if hasProgressCallback then [Progress(Some(fetched.error), None)] else [])
      ensures old(phase) == Polling && fetched.Success? && !Ends(isTerminal, fetched.value) ==>
                phase == Polling &&
                log == old(log) + (if hasProgressCallback then [Progress(None, Some(fetched.value))] else [])
      ensures old(phase) == Polling && fetched.Success? && Ends(isTerminal, fetched.value) ==>
                phase == Done &&
                log == old(log) + (if hasCompletionCallback then [Completion(fetched.value)] else [])
      ensures old(phase) != Polling ==> phase == old(phase) && log == old(log)
    {
      AfterTick(isTerminal, events, fetched, hasProgressCallback, hasCompletionCallback);
      ghost var next := events + [Tick(fetched)];
      ghost var after := Run(isTerminal, next);
      ghost var now := Delivered(after.emitted, hasProgressCallback, hasCompletionCallback);
      if phase == Polling {
        match fetched
        case Failure(e) =>
          if hasProgressCallback {
            log := log + [Progress(Some(e), None)];
          }
        case Success(t) =>
          if Ends(isTerminal, t) {
            phase := Done;
            if hasCompletionCallback {
              log := log + [Completion(t)];
            }
          } else if hasProgressCallback {
            log := log + [Progress(None, Some(t))];
          }
      }
      events := next;
      assert after.state == State(phase, identifier) && log == now;
    }

    /** The id the next firing of the timer fetches, while the session polls. */
    method PendingFetch() returns (id: Option<int>)
      requires Valid()
      ensures id.Some? <==> phase == Polling
      ensures id.Some? ==> FirstCreated(events).Some? && FirstCreated(events).value.Success? &&
                           id.value == FirstCreated(events).value.value.identifier
    {
      id := if phase == Polling then Some(identifier) else None;
      if id.Some? {
        PollsCreatedTransfer(isTerminal, events);
      }
    }
  }
}

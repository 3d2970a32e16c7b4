# PutKit transfer monitor and client-side rules, in Dafny

PutKit is an Objective-C client for the Put.io HTTP API. Almost all of it is
one-shot request wrappers. This project models the parts that carry rules of
their own. Only the public headers are modelled, so the model follows what
their doc comments promise.

- **Transfer monitor** (`transfers.dfy`, `monitor_session.dfy`). The method
  `addTransferWithURL:saveFolderIdentifier:callbackURL:errorCallback:progressCallback:completionCallback:`
  creates a transfer and then fetches it by id once a second. It reports
  through three callbacks:
  - `Transfers.Step` and `Transfers.Run` define the session as a pure
    specification. It reads a sequence of events: the answer to the creation
    request, then the answer to each poll. It emits the callback invocations.
  - `TransferMonitor.MonitorSession` is the imperative session. Its fields are
    `phase` (Creating / Polling / Done / Failed) and the polled `identifier`,
    and a ghost `log` holds the callbacks it has invoked. `Valid()` ties these
    to `Run`. A tick is an abstract step with no clock.
  - `errorCallback` is mandatory. The other two callbacks may be nil:
    `Delivered` drops what a nil callback would have received, and the phase
    moves the same way either way.
  - Transfer status stays abstract. The raw status value goes to a supplied
    `isTerminal`. A snapshot ends the session when its status is terminal or
    when it reports a transfer error: an error that arises after creation
    belongs to `completionCallback`, never to `progressCallback`. The
    `seeding` flag plays no part, so a seeding transfer is polled for as long
    as its status is not terminal and it reports no error.
  - The snapshot handed to `completionCallback` is one a fetch returned,
    unchanged. Whether its `error` is set exactly when the transfer failed is
    up to the server: given a classifier `isFailed` of the failed statuses,
    `CompletionErrorIffFailed` proves the promise for every session whose
    fetched snapshots set `error` exactly on a failed status.
- **Upload and search rules** (`files.dfy`). `uploadFileAtURL:` refuses a
  `.torrent` file and `uploadTorrentFileAtURL:` takes only one; a nil new name
  keeps the file's own name; search returns pages of 50 with a next page
  exactly when more matches remain.
- **Account settings** (`pio_account_settings.dfy`, `pk_account_settings.dfy`):
  validating initialisers (at most 2 language codes, default language = first
  code) and `Apply`, which says what posting the object does to the server's
  settings (PutKit: nil code list keeps, empty list clears; PutIOKit: the list
  is mandatory, so everything is replaced). The server may hold the PutKit
  folder id and invisibility unset (`NaN`, `NSNull`). All these records are immutable datatype values,
  matching their `readonly` properties.
- **MP4 conversion records** (`mp4_conversion.dfy`): the seven statuses and
  which optional fields (`NaN` in the header, `None` here) each status allows.

## Model

| member | source | states |
|---|---|---|
| Transfers.RunShape | PutKit/Methods/PIOAPI+Transfers.h:62-81 | The state after any events determines everything emitted so far. While creating, nothing has been emitted. After a failed creation, exactly that one error was emitted. While polling, only well-formed progress was emitted, and the polled id is the created transfer's id. When done, progress was followed by a single completion that carries a snapshot that is terminal or reports an error. |
| Transfers.RunObeysRules | PutKit/Methods/PIOAPI+Transfers.h:70-72 | After any sequence of events, the emitted notifications obey three rules. A creation error is the only notification of its session. A completion is the last notification and carries a snapshot that is terminal or reports an error. Each progress notification carries exactly one of a fetch error or a snapshot that is neither terminal nor reports an error. |
| Transfers.Step | PutKit/Methods/PIOAPI+Transfers.h:70-72 | Each event makes at most one callback invocation. A Done or Failed session ignores every event. The phase only moves from Creating to Polling or Failed, and from Polling to Done; a step that keeps polling keeps the polled id. |
| Transfers.Run | PutKit/Methods/PIOAPI+Transfers.h:70-72 | A session never invokes more callbacks than events it has received. |
| Transfers.CreationErrorIffCreationFailed | PutKit/Methods/PIOAPI+Transfers.h:70 | `errorCallback` receives an error e exactly when the creation request failed with e. A failure after creation never reaches it. |
| Transfers.CreationFailureSilencesOtherCallbacks | PutKit/Methods/PIOAPI+Transfers.h:70 | After a failed creation, the session is Failed for good. The single creation error is its only notification; no progress or completion follows. |
| Transfers.SeedingDoesNotDecide | PutKit/Models/PIOTransfer.h:103-113 | The `seeding` flag never decides whether a fetched snapshot ends the session. A seeding transfer with a non-terminal status and no error keeps the session polling. |
| Transfers.PollsCreatedTransfer | PutKit/Methods/PIOAPI+Transfers.h:53 | Whenever the session polls, creation succeeded, and the polled id is the identifier of the transfer that creation returned. |
| Transfers.FetchFailureIsProgress | PutKit/Methods/PIOAPI+Transfers.h:71 | A failed fetch while polling adds exactly one `progressCallback(error, nil)` and leaves the state unchanged, so the session keeps polling. |
| Transfers.CompletionCarriesFetchedSnapshot | PutKit/Methods/PIOAPI+Transfers.h:70-72 | A snapshot fetched while polling that is terminal or reports a transfer error ends the session (Done). It appends one completion that carries that snapshot unchanged, error field included. |
| Transfers.EndedSessionIsSilent | PutKit/Methods/PIOAPI+Transfers.h:70-72 | Once a session is Done or Failed, no further event changes its state or emits anything. |
| Transfers.AtMostOneCompletion | PutKit/Methods/PIOAPI+Transfers.h:72 | No two notifications of a session are both completions. |
| Transfers.ProgressNeverCarriesTransferError | PutKit/Methods/PIOAPI+Transfers.h:70-71 | No snapshot handed to `progressCallback` reports a transfer error; such errors go to `completionCallback`. |
| Transfers.SnapshotsWereFetched | PutKit/Methods/PIOAPI+Transfers.h:71-72 | Every snapshot handed to `progressCallback` or `completionCallback` is one that a fetch of the transfer returned. |
| Transfers.CompletionErrorIffFailed | PutKit/Methods/PIOAPI+Transfers.h:72 | If every fetched snapshot sets `error` exactly when its status is a failure, the snapshot handed to `completionCallback` has `error` set exactly when the transfer failed. |
| Transfers.DeliveredToAllCallbacks | PutKit/Methods/PIOAPI+Transfers.h:79-81 | With both optional callbacks present, every emitted notification is delivered. |
| Transfers.DeliveredMembers | PutKit/Methods/PIOAPI+Transfers.h:79-81 | A notification is delivered exactly when it was emitted and its callback is present. Creation errors are always delivered, because `errorCallback` is mandatory. |
| Transfers.DeliveredKeepsRules | PutKit/Methods/PIOAPI+Transfers.h:79-81 | Leaving out nil callbacks keeps the callback rules and never adds a notification. |
| Transfers.DeliveredObeysRules | PutKit/Methods/PIOAPI+Transfers.h:70-81 | Whatever a session delivers, with any combination of nil callbacks, obeys the callback rules. |
| Transfers.AfterCreated | PutKit/Methods/PIOAPI+Transfers.h:70 | When the creation answer arrives while creating, a failure is delivered to `errorCallback` and fails the session, keeping its id. A success starts polling the returned id and delivers nothing. In any other phase nothing changes. |
| Transfers.AfterTick | PutKit/Methods/PIOAPI+Transfers.h:71-72 | When a fetch answer arrives while polling, a failed fetch or a snapshot that does not end the session is delivered to `progressCallback` if present, and polling continues. Any other snapshot is delivered to `completionCallback` if present, and the session is Done. The polled id never changes, and in any other phase nothing changes. |
| TransferMonitor.MonitorSession.constructor | PutKit/Methods/PIOAPI+Transfers.h:76-81 | A new session keeps the creation request and the callbacks it was given. It is in the Creating phase and has reported nothing. |
| TransferMonitor.MonitorSession.OnCreateResult | PutKit/Methods/PIOAPI+Transfers.h:70 | A failed creation goes to `errorCallback` and moves the session to Failed. A successful one starts polling the returned transfer's id and reports nothing. Later creation answers change nothing. The log keeps obeying the callback rules. |
| TransferMonitor.MonitorSession.OnTick | PutKit/Methods/PIOAPI+Transfers.h:70-72 | A failed fetch, or a snapshot that is neither terminal nor reports an error, goes to `progressCallback`, if present, and polling continues. A terminal or error-bearing snapshot goes unchanged to `completionCallback`, if present, and the session is Done. Outside polling a tick changes nothing. The log keeps obeying the callback rules. |
| TransferMonitor.MonitorSession.PendingFetch | PutKit/Methods/PIOAPI+Transfers.h:91 | A tick fetches a transfer exactly while the session polls. The id fetched is the identifier of the transfer that creation returned. |
| Files.LastPathComponent | PutIOKit/Methods/PKAPI+Files.h:75 | The original file name contains no `/`. |
| Files.AfterLast | PutIOKit/Methods/PKAPI+Files.h:71 | The text after the last separator is a suffix of the input and contains no separator. It is either the whole input or is preceded by the separator. |
| Files.AfterLastUnique | PutIOKit/Methods/PKAPI+Files.h:71 | Those three properties determine the text after the last separator. |
| Files.TorrentExtensionIffSuffix | PutIOKit/Methods/PKAPI+Files.h:71 | A name has the extension `torrent` exactly when it ends with `.torrent`. |
| Files.IsTorrentFile | PutIOKit/Methods/PKAPI+Files.h:71-86 | A local file counts as a `.torrent` file exactly when its last path component ends with `.torrent`. |
| Files.StoredName | PutIOKit/Methods/PKAPI+Files.h:75 | A given new name is the stored name. With a nil one, the stored name contains no `/` and is a suffix of the file URL. |
| Files.UploadFile | PutIOKit/Methods/PKAPI+Files.h:70-83 | The regular upload rejects a file exactly when it is a `.torrent`. An accepted upload yields a file in the given folder. The stored name is the new name if one is given, else the original name. |
| Files.UploadTorrentFile | PutIOKit/Methods/PKAPI+Files.h:85-98 | The torrent upload rejects a file exactly when it is not a `.torrent`. An accepted upload yields a transfer. The stored name is the new name if one is given, else the original name. |
| Files.ExactlyOneUploadAccepts | PutIOKit/Methods/PKAPI+Files.h:71-86 | For every file URL, exactly one of the two upload methods accepts it. |
| Files.KeptNameIsOriginal | PutIOKit/Methods/PKAPI+Files.h:75 | With a nil new name, under either upload method, the stored name is the file URL's last path component and contains no `/`. The URL is that name, or ends with `/` followed by it. |
| Files.Search | PutIOKit/Methods/PKAPI+Files.h:49-68 | A page holds at most 50 files. It is a non-empty contiguous slice of the matches when the page is in range. It has a next page, numbered page+1, exactly when more matches follow. A page with a next page is full. |
| Files.FollowPagesFrom | PutIOKit/Methods/PKAPI+Files.h:50 | Following next-page links from any page in range returns every remaining match, in order. |
| Files.FollowPagesFromFirst | PutIOKit/Methods/PKAPI+Files.h:50 | Following next-page links from the first page returns every match exactly once, in order. |
| PIOAccountSettings.Make | PutKit/Models/PIOAccountSettings.h:36-59 | Construction fails exactly when more than 2 codes are given. Otherwise every field is stored as passed. The default language is present exactly when the list is non-empty, and it is the first code. |
| PIOAccountSettings.InitWithFolderCodesInvisible | PutKit/Models/PIOAccountSettings.h:48-59 | The designated initialiser fails exactly on more than 2 codes. Otherwise it stores the folder, the invisibility and the code list, nil included. The default language is the first code. |
| PIOAccountSettings.InitWithFolderInvisible | PutKit/Models/PIOAccountSettings.h:61-70 | Stores the folder and the invisibility. It has no code list, so it never fails. |
| PIOAccountSettings.InitWithFolderCodes | PutKit/Models/PIOAccountSettings.h:72-81 | Fails exactly on more than 2 codes. Otherwise it stores the folder and the codes, and the default language is the first code. |
| PIOAccountSettings.InitWithCodesInvisible | PutKit/Models/PIOAccountSettings.h:83-92 | Fails exactly on more than 2 codes. Otherwise it stores the codes and the invisibility, and the default language is the first code. |
| PIOAccountSettings.InitWithFolder | PutKit/Models/PIOAccountSettings.h:94-101 | Stores the folder only. It never fails. |
| PIOAccountSettings.InitWithCodes | PutKit/Models/PIOAccountSettings.h:103-110 | Fails exactly on more than 2 codes. Otherwise it stores the codes, and the default language is the first code. |
| PIOAccountSettings.InitWithInvisible | PutKit/Models/PIOAccountSettings.h:112-119 | Stores the invisibility only. It never fails. |
| PIOAccountSettings.Apply | PutKit/Models/PIOAccountSettings.h:52 | A nil code list keeps the server's list. A given list, the empty one included, replaces it. A given folder or invisibility replaces the server's; an omitted one keeps it, unset included. |
| PIOAccountSettings.ReadBack | PutKit/Models/PIOAccountSettings.h:36-46 | Settings read back always carry a code list, possibly empty, and the default language is its first code, absent exactly when the list is empty. The folder id and invisibility may be absent (`NaN`, `NSNull`) and are reported as the server holds them. |
| PIOAccountSettings.ApplyIdempotent | PutKit/Models/PIOAccountSettings.h:52 | Posting the same settings twice leaves the server as posting them once. |
| PIOAccountSettings.NilKeepsEmptyClears | PutKit/Models/PIOAccountSettings.h:52 | A nil code list keeps the server's list and default language. An empty list clears both. |
| PIOAccountSettings.ReadBackAfterApply | PutKit/Models/PIOAccountSettings.h:42-46 | After posting consistent settings, reading back returns every field they set. The default language read back is the first posted code. |
| PIOAccountSettings.MadeSettingsAreConsistent | PutKit/Models/PIOAccountSettings.h:42 | Every successfully built settings object has at most 2 codes, and its default language is their first code. |
| PKAccountSettings.Init | PutIOKit/Models/PKAccountSettings.h:36-59 | Construction fails exactly when more than 2 codes are given. Otherwise the folder, the invisibility and the codes are stored as passed. The default language is the first code, and it is present exactly when the list is non-empty. |
| PKAccountSettings.Apply | PutIOKit/Models/PKAccountSettings.h:46-59 | Posting replaces the server's folder, invisibility and code list with the object's. |
| PKAccountSettings.ApplyForgetsServer | PutIOKit/Models/PKAccountSettings.h:46-59 | The result of posting does not depend on the server's previous settings. There is no way to keep a field unchanged. |
| PKAccountSettings.ApplyIdempotent | PutIOKit/Models/PKAccountSettings.h:57-59 | Posting the same settings twice leaves the server as posting them once. |
| PKAccountSettings.DeclaredDefaultCodeUnmet | PutIOKit/Models/PKAccountSettings.h:42-53 | An empty code list is accepted, and the object built from it has no default language. This breaks the declared non-null property. |
| PKAccountSettings.DefaultCodePresentIffCodes | PutIOKit/Models/PKAccountSettings.h:42 | The default language is present exactly when the code list is non-empty. |
| MP4Conversion.MakeConversion | PutKit/Models/PIOMP4Conversion.h:37-44 | A record is built exactly when its fields suit its status: no percentage when queued, preparing or unavailable, and no size unless completed. A refusal names the offending field. |
| MP4Conversion.WaitingConversionIsEmpty | PutKit/Models/PIOMP4Conversion.h:40-43 | A well-formed queued, preparing or unavailable record carries neither a percentage nor a size. |
| MP4Conversion.SizeOnlyWhenCompleted | PutKit/Models/PIOMP4Conversion.h:43 | A well-formed record with a size is Completed. |

## Findings

| source | as written | input that shows it | evidently intended | confidence | as-written member | corrected member |
|---|---|---|---|---|---|---|
| PutIOKit/Models/PKAccountSettings.h:42-53 | `defaultSubtitleLanguageCode` is declared non-null and is the first code, but the initialiser rejects only lists longer than 2. | `subtitleLanguageCodes = @[]` | A nullable default language, as PutKit/Models/PIOAccountSettings.h:43 declares it. | medium, not executed | PKAccountSettings.DeclaredDefaultCodeUnmet | PKAccountSettings.Init |

## Left out

- Cancelling a monitor: the header offers no way to stop the polling. The returned task is only the creation request, so no cancellation is modelled.
- Timing: the `NSTimer`, the one-second interval, platform availability and thread dispatch are left out. A tick is one call of `OnTick`, with the fetch result as its argument, because the fetch itself is network I/O.
- Transfer status values: `PIOTransferStatus.h` is not part of this model. Statuses are raw integers classified by the supplied `isTerminal`.
- Floating-point and time fields of `PIOTransfer`, such as percentages, speeds, ratio, time remaining and time seeding. `setStartPosition:` is left out for the same reason.
- One-shot request wrappers: the list, get, rename, move, delete, share, events, friends, account, retry, cancel and clean methods. This includes the single-callback `addTransferWithURL:...callback:` and the PutIOKit transfer methods. Each only forwards one request.
- Server-side behaviour the client only forwards: search keyword syntax (`Files.Search` takes the server's ordered matches), subtitle auto-selection, the HLS URL format, and the "-1 means everyone" sharing sentinel.
- Authentication, endpoint constants, umbrella headers, and the plain records (files, events, subtitles, share recipients, account). This includes the account's total-size relation.
- `NSError` contents beyond a domain and a code.
- TransferMonitor.MonitorSession.OnCreateResult: a second creation answer, which cannot arrive in practice, is ignored rather than excluded.
- PIOAccountSettings.Apply: the header does not say what a convenience initialiser sends for a field it omits. The model keeps the server's value for an omitted folder or invisibility, by the same keep-or-replace rule the header gives for a nil code list.
- Transfers.CompletionErrorIffFailed: the failed statuses are a supplied classifier, and that the server sets `error` exactly on them is a hypothesis of the lemma, since the server is not part of this model.
- Files.IsTorrentFile: the extension is the text after the last `.` of the last `/`-separated component, compared case-sensitively. The model does not normalise URLs or drop a trailing `/` as `NSURL` would.
- Files.StoredName: a kept original name is the URL text after its last `/`, with percent escapes not decoded. A URL ending in `/` therefore stores an empty name, where `NSURL` would give the component before that `/`. `Files.KeptNameIsOriginal` states the same name.
- Implementation files: the `.m` files, including those defining the `extern` constants of `PIOEndpoints.h` and `PIOMP4Status.h`, are not part of this model.
- Files.Search: the header does not number pages. The model numbers them from 1, treats pages out of range as empty, and stands for the next-page URL by the page number it points to.
- MP4Conversion.MakeConversion: the string values of the `PIOMP4Status` constants are not part of this model. Status strings outside the seven declared constants, which the extensible enum permits, are not represented.

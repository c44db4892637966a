# MinuTAG upload backend: Drive concurrency limiter and name helpers

The backend receives a text document over HTTP, makes sure a folder named after
the professor exists in Google Drive, and uploads the document there. Every
Drive call runs under a concurrency limiter. This project models that limiter
and the two pure name helpers next to it, and proves their properties in Dafny.

- `wrappers.dfy`, module `Wrappers`: `Option`, standing for a value that may be
  `undefined` or `null`.
- `drive_limiter.dfy`, module `DriveLimiter`: the limiter of `index.js`, lines
  17-57. It has two parts.
  - The specification on values. `AcquireStep`, `ReleaseStep`, `WithSlot` and
    `InSlot` give one step each. `Run` replays any sequence of acquires and
    releases. The lemmas about `Run` state what holds of all sequences: the
    invariant, FIFO service, and how a burst of requests is admitted.
  - The class `Limiter`. Its fields `active` and `pending` are the
    module-level `let active` and `const pending` of the source, updated in
    place. Each method is proved equal to its step function. The ghost field
    `releaseCalls` counts calls of `releaseSlot`, to state "exactly once".
- `naming.dfy`, module `Naming`: the professor folder name and its quoting for
  the Drive search query (lines 94-98), and the temporary file name (line 135).

A waiting request's promise resolver is an abstract `WaiterId` token.
Resolving it is the token that `ReleaseSlot` returns, and `RunInSlot` passes
that token on as `granted`, since the release in the `finally` of
`withDriveSlot` is the only place a waiter is resumed. A queued `withDriveSlot` call
is `Suspended`; its body (`RunInSlot`, lines 52-56) runs once another call's
release returns its token as `granted`. `fn` is an abstract `Outcome`: a
value, or a thrown error that is passed through.

## Model

| member | source | states |
|---|---|---|
| `DriveLimiter.AcquireStep` | index.js:25-38 | A slot is granted exactly when `active < C`, and then `active` grows by one and the queue is untouched. The request is rejected with code `QUEUE_FULL` exactly when `active >= C` and the queue holds `Q` or more, and then nothing changes. Otherwise the waiter is appended at the back of the queue and `active` is unchanged. The invariant is preserved. |
| `DriveLimiter.ReleaseStep` | index.js:40-48 | With waiters, the oldest is removed and handed the slot, and `active` is unchanged. With none, `active` becomes `max(0, active - 1)`, so a release at rest is a no-op. The invariant is preserved for every pair of limits. |
| `DriveLimiter.Run` | index.js:22-48 | Replaying a sequence of acquires and releases yields one event per operation. |
| `DriveLimiter.RunRecordsEachOp` | index.js:22-48 | The event recorded for each operation is of the same kind, and an acquire's event names the same waiter. |
| `DriveLimiter.RunKeepsInvariant` | index.js:22-48 | From a state where `active <= C`, `len(pending) <= Q` and "waiters only when all slots are taken" hold, every sequence of acquires and releases keeps all three. |
| `DriveLimiter.ReachableStatesAreValid` | index.js:22-48 | Every state reached from `active = 0` and an empty queue has `active <= C`, at most `Q` waiters, and waiters only when `active == C`. |
| `DriveLimiter.RunConservesWaiters` | index.js:36-44 | Over any run, the initial queue followed by the waiters queued during the run equals the waiters handed a slot, in order, followed by the final queue. No waiter is lost, duplicated or overtaken. |
| `DriveLimiter.GrantsFollowArrivalOrder` | index.js:36-44 | From start, the waiters handed a slot are a prefix of the queued waiters in arrival order, and the rest are exactly the final queue. |
| `DriveLimiter.AcquireBurst` | index.js:27-36 | In a burst of acquires from a valid state, the first `C - active` callers are granted, the next `Q - len(pending)` are queued, and every later one is rejected with `QUEUE_FULL`. |
| `DriveLimiter.AcquireBurstFinal` | index.js:27-36 | After such a burst, `active` has grown by the number granted. The queued callers are appended to the queue in arrival order. |
| `DriveLimiter.OverloadRejectsOnlyTheLast` | index.js:18-36 | From start, of `C + Q + 1` simultaneous requests the first `C` run and the next `Q` wait in order. Exactly the last is rejected with `QUEUE_FULL`. The state ends with `active == C` and those `Q` waiters queued. |
| `DriveLimiter.DefaultLimitsRejectThe56th` | index.js:18-19 | With the default limits 5 and 50, of 56 simultaneous requests from start the first 5 run, the next 50 wait in order, and the 56th is rejected with `QUEUE_FULL`. |
| `DriveLimiter.WithSlot` | index.js:50-57 | Release runs once when a slot was free and `fn`'s outcome is returned unchanged. That release resumes the oldest waiter if there is one, and otherwise the call leaves the state as it found it. With a full queue, the result is the `QUEUE_FULL` error, no release runs and the state is unchanged. Otherwise the caller is queued, no release has run yet and nobody is resumed. The invariant is preserved. |
| `DriveLimiter.InSlot` | index.js:52-56 | Once the slot is held, `fn`'s value or error is returned unchanged and exactly one release runs. The slot passes to the oldest waiter, who is reported as resumed, with `active` unchanged. With nobody waiting, nobody is resumed and `active` becomes `max(0, active - 1)`. The invariant is preserved. |
| `DriveLimiter.Limiter.constructor` | index.js:18-23 | The limits are `C` and `Q`, and the limiter starts with no slot in use, an empty queue and no release yet. |
| `DriveLimiter.Limiter.AcquireSlot` | index.js:25-38 | Updates `active` and `pending` in place and returns what `AcquireStep` gives, keeping the invariant. |
| `DriveLimiter.Limiter.ReleaseSlot` | index.js:40-48 | Updates `active` and `pending` in place as `ReleaseStep` does, returns the waiter granted, and counts one release. |
| `DriveLimiter.Limiter.RunInSlot` | index.js:52-56 | Returns `fn`'s outcome and the waiter its release resumes, and leaves the state that `InSlot` gives, with exactly one release. |
| `DriveLimiter.Limiter.WithDriveSlot` | index.js:50-57 | Leaves the state, the call status, the waiter resumed and the number of releases that `WithSlot` gives: one release when granted, none when rejected or queued. From a valid state no waiter is resumed. |
| `Naming.Trim` | index.js:94-95 | The result is the input with its leading and trailing ECMAScript whitespace and line terminators cut. It is empty exactly when the input is blank. |
| `Naming.TrimOfIsUnique` | index.js:94-95 | Only one string is the input trimmed at both ends, so the declarative description determines `trim`. |
| `Naming.TrimIdempotent` | index.js:94-95 | Trimming twice gives the same as trimming once. |
| `Naming.FolderName` | index.js:94-96 | The folder name is never empty and neither starts nor ends with whitespace. An absent or blank professor name gives `SEM_NOME`. Any other name gives that name trimmed at both ends. |
| `Naming.FolderNameIdempotent` | index.js:94-96 | Choosing the folder name from an already chosen folder name gives it back. |
| `Naming.EscapeQuotes` | index.js:98 | The escaped name is longer than the name by the number of single quotes. Every single quote in it is immediately preceded by a backslash. |
| `Naming.UnescapeEscapeQuotes` | index.js:98 | Reading the escaped name back, with `\'` taken as a quote, gives the original name. |
| `Naming.QueryFolderName` | index.js:94-98 | The name written into the search query has the folder name's length plus its quote count. It reads back to the folder name, and each quote in it follows a backslash. |
| `Naming.ReplaceReserved` | index.js:135 | The result has the input's length. Each reserved character (backslash, slash, colon, asterisk, question mark, double quote, less-than, greater-than, vertical bar) becomes `_`, every other character is kept, and no reserved character remains. |
| `Naming.TempFileName` | index.js:135 | An absent or empty name gives `anotacoes.txt`. Otherwise the result has the input's length, keeps every other character, and has `_` where the input had a reserved character. The result never contains a reserved character and is never empty. |
| `Naming.ReplaceReservedKeepsClean` | index.js:135 | A name without reserved characters is left unchanged. |
| `Naming.TempFileNameIdempotent` | index.js:135 | Sanitising the temporary file name a second time changes nothing. |

## Left out

- The limits `C` and `Q` are taken as natural numbers. The source parses them with `Number(process.env...)`, which can give `NaN`, a fraction or a negative value. `RETRY_AFTER_SECONDS` feeds only the HTTP response and is not modelled.
- Real asynchronous suspension and resumption of promises is not modelled. Grants are sequential events: a queued `withDriveSlot` call returns `Suspended`, and its body is `RunInSlot`, which the caller runs after another call's `RunInSlot` returned its token as `granted`. The model does not check that the caller does this.
- `DriveLimiter.WithSlot` and `Limiter.WithDriveSlot` run a granted call's acquire, `fn` and release as one step, so `fn` settles before any other call starts. From a valid state a granted call finds the queue empty, so the release in its `finally` resumes nobody and `granted` is `None`. In the source, calls that arrive while `fn` is awaited queue up and that release resumes the oldest of them. The model expresses such an overlapping call as `AcquireSlot`, then the other calls, then `RunInSlot`, which returns the resumed waiter.
- No queue wait timeout and no cancellation of a waiter: the source has neither.
- Express routing, JSON body parsing, request validation and the 400/413/429/500 responses (index.js:12-15, 162-237) are HTTP glue.
- Google Drive calls are foreign network calls, and so is the OAuth2 client setup (index.js:59-88, 100-129, 141-160). This covers the folder search, the folder creation, the upload, and the find-or-create race between concurrent requests.
- Filesystem work is I/O: creating the temporary directory, writing and reading the file, and removing the directory (index.js:134, 136-138, 207-208). `path.join` is left out as well; the sanitised name may still be `.` or `..`.
- Console logging is not modelled.
- setup-drive-oauth.js is an interactive token bootstrap script, and is not part of this model.
- The string helpers take a string or nothing. In the source, a non-string truthy value (a number, say) would make `trim` or `replace` throw.
- Strings are sequences of Unicode scalar values. JavaScript strings are UTF-16 code units, and lone surrogates are not represented.
- `Naming.Unescape` reads back only `\'`. The source does not escape backslashes. A query reader that also takes `\\` as an escaped backslash would read a name containing `\'` or ending in `\` differently, and the round trip is not claimed for such a reader.

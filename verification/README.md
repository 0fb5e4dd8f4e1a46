# Galaxy DB API: verified model

A Dafny model of the parts of gxydb-api that keep state: the rotation of gateway
tokens, the life cycle of sessions, and the views of rooms and composites.
`dafny verify dfyconfig.toml` checks everything.

## What is modelled

**Gateway tokens** (`TokenLists`, `TokenMachine`, `TokenGuarantees`, `TokenWitness`,
`GatewayRows`, `Gateways`, `GatewayTokensManager`, `TokenCache`).
A gateway's database row keeps a list of encrypted tokens; the Janus server keeps a
token set of its own. `TokenMachine` is a machine of single steps: the server's answer, the
decision to rotate, each AddToken, RemoveToken and database save, the clock, other
users of the server, an abandoned sync. A remote call or a save may be refused, may succeed, or
may take effect although its reply is lost. `TokenGuarantees` proves what all runs
keep; what is promised of a token handed to a client holds after any past, restarts of the
gateway included, from the next successful sync on. `GatewayTokensManager` is the
synchronization itself, with the loops and calls of the source; a ghost log shows that its
execution is a run of the machine, whatever fails and whatever others do to the server
meanwhile. `TokenCache` adds the round over all gateways and the cache that serves clients.

**Sessions** (`SessionRows`, `SessionRuns`, `SessionLedger`, `AccountRuns`,
`Database`, `SessionManager`).
`SessionRows` has the columns, the two upserts and the two closing statements.
`SessionLedger` says what a run of enters, status updates, leaves and cleanings means in
terms of the events alone. `Database` is the mutable store with statements that may fail
and transactions that commit or roll back (an error, a failed commit, a panic).
`SessionManager` is the handlers, the account cache and the cleaner, with other transactions
between the cleaner's fetch and its update; every history it commits is a run to which the
ledger's theorems apply. `AccountRuns` treats the resolution of an account id over whole runs.

**Views** (`UserView`, `RoomView`, `RoomCaches`, `Composites`).
The choice of one session per user and the fold over the hash map of chosen sessions; the
two-index gateway cache and the room cache; replacing a composite's rooms and listing them.

Instants and durations are integers (nanoseconds for tokens). Assumed, as the source does: each
process's clock does not run backwards; a generated token identifier is neither on the gateway's
answer nor in the stored list; decryption inverts encryption; maxAge is not negative; but for
the save of a token list, a database statement or commit that reports an error has had no
effect. The handlers of `SessionManager` run one transaction at a time; enters that overlap are
treated as histories, where a close and its upsert are two events with others in between.
Messages are dated by the same clock as the cleaner's fetch. Whether the rows for a round or for
a cache reload can be fetched, and what other transactions run between the cleaner's two
statements, are parameters. Ghost counters count failed calls (`faults`) and saves reported as
failed although they took effect (`lost`), so that a contract can say what happens when there
are none. Columns excluded from an upsert by sqlboiler's `Infer` are the primary key, and by a
blacklist also the listed ones; columns not inserted take their defaults. Room uids are one
opaque string type (the source declares them both as int and as string).

## Findings

- A user inserted by a transaction that is rolled back stays in the user cache
  (`api/session.go:245`). When no call fails and every cached account has its row, this goes on exactly if the
  message is about no account, or the account has a row already, or it is a leaving event, or its room and
  gateway are known (`Harmless`, in `InTx` and `HandleProtocol`; over runs, `StepIsSoundIff`). Otherwise, once the entry
  is forgotten, the account gets another id (`RolledBackInsertChangesID`). Until then no enter or
  update of that account can commit: one that commits with a cached id has found that id in the table (`InTx`). So
  two committed enters of one account are always of one user (`EnterTwice`).
- The cleaner's update does not look at freshness again. It ends exactly the rows that were active and stale at the
  fetch; one of them is in use again, active and updated since the cutoff, exactly if the last event between fetch and
  update to concern it is a message naming it (`CleanerEndsInUseIff`). `CleanerMayEndInUse` has such a run.
- Two enters of one user that overlap may leave two sessions active (`OverlapMayLeaveTwo`): transactions begin at the
  default isolation level (`pkg/sqlutil/tx.go:26`), and the second one's close does not see the row of the first. The entered session is the user's only active one exactly if, of the messages
  committed between its close and its upsert, none has put the user into another session to stay
  (`OverlappedIsAloneIff`). The ledger's theorems hold of such histories too.
- A token list whose save takes effect but is reported as an error is not notified, and the cache goes on serving the
  previous token until the next change; only then can a changed row miss its notification (`Told`, in
  `SyncGatewayTokens` and `Round`).
- A null composite item, which the handler means to skip, panics in the insert loop exactly if all other items are
  known; the transaction is rolled back and the composite keeps its old rooms (`UpdateComposite`).
- A reload of the token cache stops at the first row with an unreadable token, disabled rows included,
  and leaves the gateways after it without a token (`Reload`).
- The earliest session of a room does not depend on the map's order exactly if no chosen session has the
  zero creation time, or all have (`FirstIgnoresOrderIff`). The column is not null and defaults to the database's clock,
  so the manager's own inserts give no zero time.
- A gateway ends with the kept tokens exactly if it lists no plaintext that is stored both expired and
  unexpired (`PlanConvergesIff`); distinct plaintexts, kept by all runs, rule that out.

## Model

| member | source | states |
|---|---|---|
| TokenLists.KeptIsSuffix | domain/gateways.go:224-253 | In a list with gaps over a day the unexpired tokens are a suffix, so the newest stored token is the newest kept one whenever any is kept |
| TokenMachine.EveryRunKeepsInv | domain/gateways.go:148-289 | In every reachable state, whatever calls and saves are refused or lose their reply and whatever others do to the gateway, stored tokens are sorted with gaps over 24h, have distinct plaintexts and no future dates, and no pending removal names an unexpired stored token or one about to be stored |
| TokenGuarantees.NoRunRemovesUnexpired | domain/gateways.go:222-286 | No step of any sync, complete or aborted, takes an unexpired stored token off the gateway or out of the list |
| TokenGuarantees.GracePeriod | domain/gateways.go:61-286 | After any past, gateway restarts included: a token handed out at t, when the last successful sync decided at most g ago, is accepted at t and until at least t + maxAge - 24h - g, if the gateway keeps its tokens and its token support from an idle instant before that sync on |
| TokenWitness.GraceIsTight | domain/gateways.go:222-286 | For every maxAge of at least a day there is a run in which the served token is gone one instant after that period |
| TokenGuarantees.PlanConvergesIff | domain/gateways.go:211-249 | The computed adds and removes turn the listed set into the kept plaintexts exactly when no listed plaintext is stored both expired and unexpired |
| TokenGuarantees.SelfHealing | domain/gateways.go:205-288 | From any gateway set, one undisturbed fault-free sync makes the gateway's tokens equal the stored ones, at least one, none expired when the sync began |
| TokenGuarantees.NothingToDoIff | domain/gateways.go:217-288 | The plan of a sync has nothing to call and nothing to save exactly when the gateway lists the stored tokens, none has expired and the newest is at most a day old |
| TokenGuarantees.SecondSyncDoesNothing | domain/gateways.go:205-288 | In every run, after one undisturbed sync further undisturbed ones only list, decide and finish, and change neither store, until a stored token expires or the newest is over a day old |
| TokenGuarantees.ListStaysShort | domain/gateways.go:223-260 | In every state of a run whose saves and successful ends follow their cutoff reading within lag, n stored tokens satisfy (n-1)*24h < maxAge + lag, once a sync has succeeded or if the first list did |
| TokenGuarantees.DeployedListIsShort | api/app.go:239-245 | With the deployed maxAge of 72 hours: at most three tokens, or four when syncs take up to 24 hours, once a sync has succeeded or if the first list had at most three |
| TokenGuarantees.DeployedGracePeriod | api/app.go:239-245 | With the deployed maxAge of 72 hours: a token handed out when a sync has just decided is good for 48 hours |
| GatewayRows.ActiveTokenIsNewest | domain/gateways.go:61-91 | The active token is the decrypted newest stored one, or the empty string where the column, the key or its value is missing or null or the list is empty; it fails exactly on bad JSON and on a newest token that cannot be decrypted |
| GatewayRows.TokenListIsStored | domain/gateways.go:148-170 | The token list is read except from bad JSON; a null column, a missing key and a null value are an empty list |
| GatewayTokensManager.Partition | domain/gateways.go:222-242 | Fails exactly when some token cannot be decrypted; otherwise yields the machine's missing, lapsed, kept and known tokens with unchanged ciphertexts |
| GatewayTokensManager.Rogues | domain/gateways.go:244-249 | Enumerates, in any order and each once, exactly the listed tokens the database does not know |
| GatewayTokensManager.TakeSurvey | domain/gateways.go:217-253 | Computes the machine's plan and rotation decision for the list, the answer and two clock readings |
| GatewayTokensManager.MintIfDue | domain/gateways.go:251-260 | Appends one fresh token with its gateway type's plugins exactly when due; gives up when it cannot be created |
| GatewayTokensManager.CreateToken | domain/gateways.go:291-323 | The gateway has the token unless it refused it, also when encryption fails afterwards; on success the sealed token opens to the given plaintext and carries the plugins of its gateway's type |
| GatewayTokensManager.PushAdds | domain/gateways.go:262-268 | Every missing token is added in turn, or the sync is abandoned at the first failure |
| GatewayTokensManager.PushRemoves | domain/gateways.go:269-273 | Every removal is tried; a failing one does not stop the others |
| GatewayTokensManager.SaveTokens | domain/gateways.go:275-288 | Replaces the token list and keeps all other properties when there is a change; otherwise writes nothing; an error leaves the row alone unless the save has lost its reply |
| GatewayTokensManager.DropTokens | domain/gateways.go:183-203 | Without token support the stored list is empty after success, and a change is told exactly if it was not empty before |
| GatewayTokensManager.GatewayTokensManager.SyncGatewayTokens | domain/gateways.go:148-289 | Extends the gateway's history by a run of the machine; reports a change exactly when it succeeded and the stored list was replaced, so a replaced list goes untold only if its save lost its reply; on a readable row it fails only if some call failed; success is a completed sync decided since the call, or an empty list where tokens are not supported; undisturbed success leaves both stores in agreement; on agreeing stores with nothing to expire or rotate an undisturbed sync calls, saves and reports nothing; after success the stored tokens are old ones and at most one new one, the last, with the plugins of the gateway's type; where nothing was stored, the column null included, a sync in which no call fails succeeds, and with token support stores exactly one token |
| TokenCache.GatewayTokenCache.Reload | api/cache.go:150-170 | Succeeds exactly when every row's active token is readable and then serves all of them; otherwise serves the rows before the first unreadable one |
| TokenCache.SyncEnabled | domain/gateways.go:133-142 | Disabled and removed gateways are left alone; only token lists of the others change; a notification is asked for only when one did, and when none is asked for every changed row's save had lost its reply; every readable gateway that is neither, with token support, is successfully synced unless one of its calls fails |
| TokenCache.Round | domain/gateways.go:124-146 | As for SyncEnabled; and after a successful notified reload, or when nothing was notified and no save lost its reply, every gateway is served the active token of its stored list; a notified reload succeeds exactly if the rows can be fetched and read |
| TokenCache.SyncAll | domain/gateways.go:116-146 | Runs a round exactly if none is in progress and the gateways can be fetched; nothing changes otherwise; served and stored tokens agree as for a round |
| TokenCache.Notify | api/app.go:150-161 | The reload succeeds exactly if the rows can be fetched and all are readable, and then serves every row |
| TokenCache.ServedTokenIsAccepted | api/cache.go:145-176 | The token the cache serves for a gateway is accepted there, and until the end of the grace period, once a sync has succeeded |
| TokenCache.RoundForClients | domain/gateways.go:124-146 | After a round that leaves the cache serving the rows, whatever the gateways' past, the token served for every enabled, readable gateway with token support and no failed call is accepted there, and until maxAge - 24h after the round began, as long as nobody takes tokens off the gateway |
| SessionRows.MadeUpsertColumns | models/sessions.go:1091-1111 | On conflict enter keeps only the row id; a status update keeps also created_at and properties; both clear removed_at |
| SessionRuns.RunLookup | api/session.go:165-293 | In every run rows carry their id, no key part is null, no key has two rows, updated_at is set, and each key's row follows from the events alone |
| SessionLedger.RunRefinesLedger | api/session.go:135-293 | After any run a key has a row exactly if a message ever named it, and is active exactly if the last event concerning it was a message naming it |
| SessionLedger.MarkedIffClosedSinceEnter | api/session.go:250-293 | A row carries the close mark exactly when its session was closed while active after its last enter or creation |
| SessionLedger.RowTellsLastMessage | api/session.go:285-338 | A row holds the data of the last message naming its key |
| SessionLedger.IdentityIsStable | models/sessions.go:1091-1111 | A key's row id never changes; its created_at changes only when it is entered |
| SessionLedger.EnterIsExact | api/session.go:165-193 | Entering leaves the user with exactly one active session, the entered one with the message's data; the user's other active sessions get removed_at and the close mark at the time of the close and keep the rest; all other rows stay |
| SessionLedger.StatusIsExact | api/session.go:274-293 | A status update writes the message's data into the row of the same user, gateway and gateway session, keeping its id, created_at and properties, or into a new row, and touches no other |
| SessionLedger.LeaveIsExact | api/session.go:250-272 | Leaving sets removed_at and the close mark of exactly the user's active sessions, keeping their other properties and columns |
| SessionLedger.OverlappedIsAloneIff | api/session.go:172-191 | With other transactions committed between its close and its upsert, an enter leaves its user alone in the entered session exactly if no message in between has put the user into another one to stay |
| SessionLedger.OverlapMayLeaveTwo | api/session.go:172-191 | There is a run in which two overlapping enters of one user leave both sessions active |
| SessionLedger.CleanerEndsInUseIff | api/session.go:382-434 | The update by fetched ids, any messages having come in between, gives removed_at and the clean mark to exactly the rows that were active and old at the fetch, under unchanged keys; such a session is in use again exactly if the last event in between to concern it is a message naming it |
| SessionLedger.CleanerMayEndInUse | api/session.go:414 | There is a run in which the cleaner ends a session in use |
| SessionLedger.CleaningIsByIDs | api/session.go:409-424 | The cleaning of a history, told by keys, is the update by the ids of the rows stale at the fetch |
| SessionLedger.HitsAreNamedLast | api/session.go:385-391 | A cleaning hits exactly the sessions whose last event was a message naming them and whose last message is older than the cutoff |
| SessionLedger.AtomicCleanIsExact | api/session.go:382-434 | Run atomically, cleaning ends exactly the active rows updated before the dead period |
| SessionLedger.ActiveSinceCleaning | api/session.go:337-434 | Whatever is active was updated no earlier than the dead period before the fetch of any past cleaning, also when other transactions came between fetch and update |
| SessionLedger.UntouchedIsInactive | common/config.go:50-51 | A session untouched for the dead period plus the age of the last cleaning is inactive |
| AccountRuns.ResolutionIsAFunction | api/session.go:213-248 | Under arbitrary eviction, if transactions that meet an account without a row commit, an account always resolves to the same id and never has a second row |
| AccountRuns.StepIsSoundIff | api/session.go:241-247 | With every cached account having its row, this goes on after a transaction exactly if it commits, or resolves no account, or the account had a row before |
| AccountRuns.RolledBackInsertChangesID | api/session.go:241-247 | A rolled-back insert and an eviction give one account two ids |
| Database.Db.Settle | pkg/sqlutil/tx.go:31-54 | Commits a finished body; an error, a failed commit or a panic restores all tables as of the begin |
| Database.Db.UpsertSession | models/sessions.go:1049-1155 | Updates the row holding the key or inserts one under a new serial number; refused without a user row |
| Database.Db.CloseSessions | api/session.go:250-272 | Ends exactly the user's active rows with a close mark |
| Database.Db.EndSessions | api/session.go:409-424 | Ends exactly the rows with the given ids with a clean mark |
| Database.Db.SelectStale | api/session.go:385-391 | Fetches exactly the active rows updated before the cutoff, each once |
| Database.Db.SelectPlacements | api/api_v1.go:363-364 | Returns each row of the composite once, ordered by position |
| SessionManager.SessionManager.GetInternalUserID | api/session.go:213-248 | Resolves through cache, table or insert as the account runs allow; refuses an uncached disabled user; when no call fails and the cache is sound, it inserts exactly for an account without a row |
| SessionManager.SessionManager.OnProtocolEnter | api/session.go:165-193 | Closes the user's sessions and writes the entered one as one ledger event, or says why not |
| SessionManager.SessionManager.DoUpsertSession | api/session.go:274-293 | A status update is one ledger event keeping created_at and properties |
| SessionManager.SessionManager.OnVideoroomLeaving | api/session.go:135-163 | Closes the sessions of the named user, a disabled one too; ignores a display that is no string |
| SessionManager.SessionManager.InTx | pkg/sqlutil/tx.go:25-55 | A job commits with its one event or leaves users and sessions exactly as before; it is one step of the account runs, no user row ever goes, a committed enter or update with a cached id had that id in the table, and when no call fails a sound cache stays sound exactly if the job was harmless |
| SessionManager.SessionManager.HandleProtocol | api/session.go:84-119 | A committed enter leaves its user alone in the entered session, a committed status update writes that session's row, and no other row changes otherwise; any failure changes neither users nor sessions; errors blame the right cause; without database faults, with a sound cache and an account not disabled, it commits exactly if room and gateway are known; its effect on users and cache is that of InTx |
| SessionManager.SessionManager.EnterTwice | api/session.go:165-248 | Two committed enters of one account are of one user, whatever is evicted, rolled back or committed in between |
| SessionManager.SessionManager.HandleEvent | api/session.go:49-82 | A committed leaving event ends exactly its user's active sessions, a disabled user's too; without database faults and with a sound cache it commits exactly if its display is not bad JSON |
| SessionManager.SessionManager.Sweep | api/session.go:402-439 | Ends exactly the sessions stale at the fetch, whatever messages have been committed since, or nothing |
| SessionManager.SessionManager.Report | api/session.go:441-457 | Sorts every cleaned session into dead or revived by its close mark |
| SessionManager.SessionManager.CleanSessions | api/session.go:382-478 | With arbitrary other transactions between fetch and update, ends exactly the sessions active and old at the fetch, told by the events, or none because there are none or the database failed; reports each of them once, as revived exactly if closed since its last enter |
| UserView.ShownAsSent | api/api_v1.go:584-617 | After any run a session is shown to clients exactly as its last message described it, with the account of its user row and the uid of its room row |
| UserView.ShownUnlessUncached | api/api_v1.go:584-617 | Showing a session fails exactly where its gateway is set and not cached; empty columns are shown as empty values |
| RoomView.ChooseSessions | api/api_v1.go:632-652 | Maps each user to the session latest by updated_at, or by created_at where that is null, the earliest among ties |
| RoomView.FoldChosen | api/api_v1.go:654-666 | Lists every chosen session once and folds questions and the first session over them, in any order of the map |
| RoomView.MakeRoom | api/api_v1.go:619-674 | One entry for each distinct user; no session of the user was updated, or created where updated_at is null, later than the one shown |
| RoomView.ViewsTellTheSame | api/api_v1.go:654-666 | Any two orders of the map give the same entries, questions, first session and number of users, which is the number of distinct users |
| RoomView.OneEntryEach | api/api_v1.go:654-666 | No two entries are of one user |
| RoomView.FirstIsMinimum | api/api_v1.go:661-663 | With non-zero creation times the first session's time is the minimum |
| RoomView.FirstIgnoresOrderIff | api/api_v1.go:661-663 | The first session's time is independent of the order exactly if no time is zero or all are |
| RoomCaches.GatewayCache.Reload | api/cache.go:91-108 | The indexes by id and by name are mutually inverse and hold exactly the table's rows |
| RoomCaches.RoomCache.Reload | api/cache.go:184-202 | Cached rooms are exactly enabled rows of the table under their uid |
| Composites.BuildRows | api/api_v1.go:454-474 | Succeeds exactly if all items but null ones are known, with a row per item at its position and null rows for null items; otherwise reports the first unknown gateway or room |
| Composites.AddCompositesRooms | models/composites.go:342-388 | Inserts all rows, panics at a null one, and never meets a duplicate key |
| Composites.UpdateComposite | api/api_v1.go:453-484 | Without database faults it commits exactly if every item is present and known, panics exactly if one is null and the others are known, and is rolled back otherwise; a commit gives the composite exactly the items' rows and leaves other composites theirs; otherwise nothing changes |
| Composites.ListComposite | api/api_v1.go:676-691 | Lists every row in order of position with its room's uid, its gateway's name, or the room's default one's where it is not cached, and its position; or panics on a missing or disabled room or where neither gateway is cached |
| Composites.OrderRecovers | api/api_v1.go:362-364 | Ordering by position recovers the sequence the rows were made from |
| Composites.RoundTrip | api/api_v1.go:453-484 | What was stored is listed again: same rooms and gateways, same order, positions from one, repeated rooms included |
| Composites.UpdateThenList | api/api_v1.go:362-385 | A committed update followed by a listing returns exactly the items |

## Left out

- GatewayTokensManager.CreateToken: the plugins the gateway associates with a token are not kept on the gateway's side; only the token set matters to a sync.
- GatewayTokensManager.GatewayTokensManager.SyncGatewayTokens: JSON null in place of the properties object or of a token entry, which the source dereferences, is not modelled; other unreadable JSON is. The in-memory row the source mutates before a save that fails is not kept, since every round fetches the rows again.
- Database.Db.SelectStale: stored properties are always valid JSON, so the report has no unreadable rows.
- Composites.ListComposite: the sessions shown with each room of a composite are those of MakeRoom and are not repeated.
- RoomView.MakeRoom: entries are the chosen session rows; UserView turns one into what clients see, without the constant fields, the e-mail, the username and the creation time.
- The listing of rooms, its sort by first session, and groups: sorting by a library call.
- Composites.UpdateComposite: finding the composite by name before the transaction, and appending the rows to the composite held in memory.
- V1GetComposite, whose rows have no defined order.
- The key of the prepared upsert statements and their cache in models/sessions.go.
- Setting single entries of the gateway and room caches, and the dynamic configuration cache.
- HTTP handlers, routing, JSON decoding, logging, metrics, MQTT, tickers and goroutines; data races on unlocked fields.
- The Janus client, PostgreSQL, AES-GCM and base64 beyond the contracts above.

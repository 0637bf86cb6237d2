# Letter IRL: verified models

Dafny models of the parts of Letter IRL where order, concurrency or bounds decide
whether the program is right, with proofs about them. Each module follows one source
file; algorithms that work in place are methods over arrays or class fields, protocols
are step relations whose every run is covered, and pure tables are functions.

- **Migrations** (`MigrationProtocol`, `MigrationSafety`, `MigrationRun`, `MigrationReadOrder`, `Names`):
  any number of deploy images against one database behind a transaction pooler. The steps are
  atomic statements under READ COMMITTED; a client may crash, time out on the lock, or lose the
  reply to its COMMIT. `MigrationRun` is `migrate()` itself, others running between its statements.
- **The logo** (`LevelSearch`, `GridSearch`, `LogoGrid`, `LogoNearest`, `LogoRaster`, `LogoPicture`,
  `LogoBuild`):
  the breadth-first search over arrays, proved against Chebyshev distance, then alpha, the trim box,
  the lifted blues and the copy loop.
- **Bounded caches** (`FixedWindow`, `InsertionOrder`, `SignInPool`, `VerificationBudget`): each agrees
  with an unbounded history, under a clock that never goes back.
- **Crash-safe and idempotent protocols** (`OptionPrices`, `CommandRuns`, `Outbox`, `Identity`,
  `IdentityRaces`, `ErasedAccounts`, `EmailClaims`).
- **Forms that must agree** (`Provisioning`, `GrantLists`, `Preflight`, `Products`, `Totp`, `TotpKeys`,
  `TotpRecords`, `TenantCheck`, `GivenAddress`), over the shared readers of settings in `Settings`, the option
  type in `Wrappers` and a few facts about sequences in `Collections`.

`dafny verify dfyconfig.toml` checks the whole project.

## Where the code and its words differ

- `src/auth/identity.ts:93-94` says the stored address is the claimed one once the upsert returns. A first
  arrival that loses its insert to another request of the same subject with a different address is answered
  its own (`IdentityRaces.LoserIsToldAnother`). It cannot happen to a subject for whom one address
  is given, and can to any other (`IdentityRaces.AnswerIsTheStoredAddress`).
- `src/auth/identity.ts:48-60` says an erased account is refused on every path. `createUser` gives back the row
  it finds after a lost insert without looking at `erased_at` (`src/services/userService.ts:151-153`), so a first
  arrival that loses its insert, and whose account is erased before it reads the row, is answered:
  `ErasedAccounts.ErasedAccountIsAnswered` is such a run. A sign-in that read its row before the erasure, and
  brings an address shaped like a placeholder, is answered too. `ErasedAccounts.ErasedRowAnswersExactly` says at
  which statements it happens, and `ErasedAccounts.AnsweredAfterErasureExactly` to which sign-ins. One that comes
  after the erasure is refused.
- An erased account row is meant never to change. Between a sign-in's read and its update an erasure can
  commit, and only the table constraint `users_erased_tombstone` then stops the update;
  `Identity.ErasedRowChangesExactly` gives the condition, `Identity.PlaceholderCanRewriteATombstone` an example
  of four steps, and `Identity.ErasedRowsNeverChange` the guarantee that remains.
- `src/admin/runtimeConfig.ts:249-251` refuses two operators with one secret, so that a code is accepted once
  (section 5.2 of RFC 6238). It compares base32 texts, and codes are made with the bytes they decode to
  (`src/admin/http/totp.ts:13-29`), which leave out the bits of an unfinished byte. Two texts of twenty-six characters
  that differ in the last two bits are accepted for two operators, and each code is accepted for both
  (`TotpRecords.LookalikesAreAccepted`, `TotpRecords.TwentySixCharactersLookAlike`). `TotpRecords.OneRecordPerSecret`
  gives the condition on the texts, and the texts `encodeBase32` writes meet it
  (`TotpRecords.CanonicalSecretsKeepTheirRecords`).
- `src/admin/provisioning.ts:676-681` takes the default EXECUTE from PUBLIC so that a function added later is not
  callable by the reader. The statement is for one schema, and PostgreSQL adds the defaults of a schema to those for
  every schema, which name PUBLIC unless someone changed them: a function created later is callable by PUBLIC if and
  only if they do, whatever the statements (`Provisioning.NewFunctionsArePublicExactly`), and as PostgreSQL comes the
  reader can call each one (`Provisioning.ReaderRunsNewFunctions`). Those there before are closed to it.
- `src/cli/runMaintenance.ts:474-475` says a provider outage holds or retries at most one batch a run. It retries at
  most one (`Outbox.DamageIsBounded`). One that begins inside a batch, after more letters were sent than it fails there,
  lets that batch carry and takes another: `Outbox.OutageTakesMoreThanABatch` is such a run, and
  `Outbox.OutageIsBounded` gives the bound, less than half a batch and one more.
- The bucket check at boot asks its variables whatever the service, and the preflight asks them only of the
  services an entry lists, on its conditions. For the manifest's four entries the two agree
  (`Preflight.BootIsContained`); `Preflight.BucketIsContainedExactly` says for which other entries they would.

## Model

| member | source | states |
|---|---|---|
| `MigrationSafety.RunsAreSerializable` | src/cli/migrate.ts:222-315 | After any interleaving of migrators with any directories, crashes, lock timeouts, failed statements and lost replies, the ledger is what the committed runs would leave one after another in commit order, and it is its initial content plus exactly the committed bodies |
| `MigrationSafety.BodiesCommitAtMostOnce` | src/cli/migrate.ts:230-313 | No file body is committed twice in any run of the system, nor one whose name was recorded at the start |
| `MigrationSafety.SuccessMeansRecorded` | src/cli/migrate.ts:292-323 | A run that reports success has committed exactly once and applied exactly the .sql files of its directory that the ledger did not hold at that commit, in the order of their character codes; every .sql file of the directory is in the ledger |
| `MigrationSafety.PendingArePending` | src/cli/migrate.ts:286-293 | What a committed run adds to the serial history is exactly the .sql files of its directory that the ledger before it lacked, each name before the next at the first character where they differ |
| `MigrationSafety.FailureMeansNothingCommitted` | src/cli/migrate.ts:324-332 | A run that throws committed nothing, if and only if its failure is not a lost reply to COMMIT |
| `MigrationSafety.LockLivesInATransaction` | src/cli/migrate.ts:230-263 | The lock is held only by an open transaction, is free when none is open, and at most one client is applying |
| `MigrationSafety.RerunIsIdle` | src/cli/migrate.ts:286-300 | Running the same image again commits nothing |
| `MigrationSafety.StepKeepsInv` | src/cli/migrate.ts:222-332 | Every statement, failure, crash or server-side end of any client keeps the protocol invariant |
| `MigrationSafety.CommitKeepsHistory` | src/cli/migrate.ts:286-315 | A commit by the lock holder is one serial run appended to the history |
| `MigrationSafety.OthersLeaveAlone` | src/cli/migrate.ts:230-263 | No step of another client changes a transaction that is open, or takes its lock or the committed ledger under it |
| `MigrationReadOrder.ReadingBeforeTheLockRunsABodyTwice` | src/cli/migrate.ts:276-286 | With the ledger read before the lock instead, two runs of an image commit the body of any one migration twice: the order is what the claim rests on |
| `MigrationRun.Database.Query` | src/cli/migrate.ts:255-290 | One statement of a run, with others running before it: it takes effect once, or leaves the run rolling back |
| `MigrationRun.Database.ApplyFile` | src/cli/migrate.ts:292-313 | One file of the loop is skipped when recorded, and otherwise executed and recorded, or the run fails |
| `MigrationRun.Database.SendCommit` | src/cli/migrate.ts:315-316 | A COMMIT that succeeds ends the run with its report; one that throws leaves the run rolling back, committed if and only if only the reply was lost |
| `MigrationRun.Database.Migrate` | src/cli/migrate.ts:177-333 | A migrate() that returns has committed every .sql file of its directory and reports those it applied in the order of their character codes; one that throws has committed nothing unless only the reply to COMMIT was lost; a connection given back holds no transaction |
| `Names.AscendingHasNoDuplicates` | src/cli/migrate.ts:288-291 | The sorted file list names each file once |
| `Names.LessIsCodeOrder` | src/cli/migrate.ts:288-291 | Of two names the one that comes first ends where they stop agreeing, or has the smaller character code there |
| `Names.MigrationsEndInSql` | src/cli/migrate.ts:288-290 | The files kept are exactly those whose name is something followed by .sql |
| `LevelSearch.NewNeighbourIsOneFurther` | scripts/build-widget-logo.ts:74-90 | A neighbour not yet queued is exactly one level beyond the vertex being expanded |
| `LevelSearch.QueueHasRoom` | scripts/build-widget-logo.ts:86-87 | A queue of distinct vertices that misses one has room for it: no queue write leaves the array |
| `LevelSearch.DryQueueAnswers` | scripts/build-widget-logo.ts:74-90 | When the queue runs dry every vertex has been queued exactly once and knows a right answer |
| `LevelSearch.VisitKeepsExpanding` | scripts/build-widget-logo.ts:83-88 | Visiting a neighbour keeps the order of levels and every answer right |
| `LevelSearch.Learn` | scripts/build-widget-logo.ts:85-87 | One array step: a vertex that knows nothing learns what its parent knows and joins the queue at the tail, and one that knows is left alone; the search invariant is kept |
| `GridSearch.ExpandRow` | scripts/build-widget-logo.ts:80-89 | The inner loop queues every square of one row around the vertex that is inside and new |
| `GridSearch.Solve` | scripts/build-widget-logo.ts:75-90 | The queue loop ends with every vertex queued once and answered |
| `LogoGrid.Image.StepNearer` | scripts/build-widget-logo.ts:74-78 | Every pixel that is not solid has a neighbour one Chebyshev step nearer to the solid pixels |
| `LogoGrid.Image.LeastBelowIsLeast` | scripts/build-widget-logo.ts:66-70 | The reference distance is the least over all solid pixels |
| `LogoNearest.GridObeysLaws` | scripts/build-widget-logo.ts:74-90 | The pixel grid obeys the laws the level search needs: levels are Chebyshev distances |
| `LogoNearest.Seed` | scripts/build-widget-logo.ts:65-71 | The first loop computes each pixel ink and queues exactly the solid pixels |
| `LogoNearest.FindNearest` | scripts/build-widget-logo.ts:56-90 | The search throws exactly when no pixel is solid, and otherwise every pixel knows a solid pixel at the least distance and is queued exactly once |
| `LogoRaster.NormOfSolid` | scripts/build-widget-logo.ts:96-107 | The reference norm of the alpha division is positive |
| `LogoRaster.AlphaIsTheClosestBlend` | scripts/build-widget-logo.ts:96-107 | A visible pixel alpha lies in [0,1] and is the blend of white toward its reference that comes closest of all blends |
| `LogoRaster.SolidKeepsItsColour` | scripts/build-widget-logo.ts:103-105 | A solid pixel keeps its own colour, fully opaque |
| `LogoRaster.Shade` | scripts/build-widget-logo.ts:92-108 | The colour and alpha arrays hold, for every pixel, its reference colour and its alpha |
| `LogoRaster.TrimBox` | scripts/build-widget-logo.ts:112-132 | The box is the smallest one around pixels above the threshold, padded and clamped to the image, and is not empty |
| `LogoRaster.LiftStaysAColour` | scripts/build-widget-logo.ts:134-141 | A lifted channel stays between the channel and 255 |
| `LogoRaster.LiftBlues` | scripts/build-widget-logo.ts:134-141 | Exactly the blue pixels are lifted, all others kept |
| `LogoRaster.CopyBox` | scripts/build-widget-logo.ts:143-155 | Every output pixel is the rounded pixel the box puts there; every read and write is in range |
| `LogoRaster.CopiedAreBytes` | scripts/build-widget-logo.ts:152-153 | Every byte written is between 0 and 255 |
| `LogoRaster.Render` | scripts/build-widget-logo.ts:143-155 | The buffer handed to the encoder is the box cut from the image, as bytes |
| `LogoBuild.Build` | scripts/build-widget-logo.ts:52-155 | Any decoded file either has no pixel with a channel at 105 or less, or gives the picture: nearest solid pixels, each pixel alpha, the frame, and every byte of both variants, told from the channels of the file (below) |
| `LogoBuild.DrawnIsPictured` | scripts/build-widget-logo.ts:52-155 | What the loops draw is that picture: each output pixel is the one of the image that lies there, painted with its reference and its alpha |
| `LogoPicture.AlphaIsRight` | scripts/build-widget-logo.ts:103-107 | A pixel with a channel at 105 or less stands for itself, opaque; one with every channel over 249 is clear; any other, drawn over white with its reference colour, is as close to itself as any alpha makes it |
| `LogoPicture.SolidExactly` | scripts/build-widget-logo.ts:65-71 | Solid and background pixels told from the channels |
| `LogoPicture.TrimBoxFrames` | scripts/build-widget-logo.ts:112-132 | The box leaves two pixels around everything with alpha over 0.03, where the image has them, and no more: each side lies two pixels off something that shows, or at the edge |
| `LogoPicture.CopiesArePainted` | scripts/build-widget-logo.ts:134-155 | A byte of the light variant is the reference channel; of the dark one the same, or where blue exceeds red the nearest byte to 34% of its way to white; the alpha bytes are nearest to 255 times the alpha |
| `LogoBuild.SameBox` | scripts/build-widget-logo.ts:143-146 | Both variants are cut to the same box |
| `SignInPool.TokenPool.RememberVerifiedToken` | src/auth/signInPool.ts:51-62 | Remembering keeps the bound of 20,000, the order by last remember and the agreement with an unbounded history of the calls, their times and expiries, which grows by one exactly when the token has not expired |
| `SignInPool.TokenPool.VerifiedAccount` | src/auth/signInPool.ts:65-76 | A named account is that of the token latest remember, less than ten minutes ago and before the token expiry; with both bounds met and fewer than 20,000 others remembered after it, it is named |
| `SignInPool.OthersOutrankOldest` | src/auth/signInPool.ts:58-61 | What is evicted was remembered before 20,000 others |
| `SignInPool.DropKeepsHold` | src/auth/signInPool.ts:58-75 | Dropping an expired or outranked token loses no answer that must be given |
| `SignInPool.ExemptionPool.EvictWindows` | src/auth/signInPool.ts:97-101 | Eviction drops windows from the front of the order only, which is by start, and no more than are over the bound; an open one only when every window held is open |
| `SignInPool.TailIsTheLatest` | src/auth/signInPool.ts:97-101 | What is left after evictions is the keys that came last, in their order |
| `SignInPool.ExemptionPool.TakeFor` | src/auth/signInPool.ts:90-105 | For an account whose open window was never evicted, an exemption is given exactly unless the account has taken 120 in a window it opened less than a minute ago |
| `SignInPool.AdmitsUnlessSpent` | src/auth/signInPool.ts:90-105 | The table that never forgets admits a call exactly unless the account has taken 120 in a window opened less than a minute ago |
| `SignInPool.ExemptionPool.AccountStaysWithinLimit` | src/auth/signInPool.ts:87-106 | Over any run such an account takes at most 120 exemptions a window and 240 in any 60 seconds |
| `SignInPool.TakeExemption` | src/auth/signInPool.ts:87-106 | The whole call over both maps: only a verified account is exempted, as above |
| `SignInPool.CountKeepsAgreement` | src/auth/signInPool.ts:92-105 | Counting one exemption keeps the map in agreement with the table that never forgets |
| `InsertionOrder.OrderedMap.MoveToEnd` | src/auth/signInPool.ts:55-57 | Deleting a key and setting it again moves it to the end of the iteration order and changes nothing else |
| `VerificationBudget.Budget.VerificationWait` | src/api/addressRequestApi.ts:75-90 | The table with its sweep answers every call as one that never forgets an entry: it makes a link wait exactly when the link has spent 10 checks in a window it opened less than 24 hours ago; nothing is swept from a table of 10,000, and nothing stale stays in a larger one that grows |
| `VerificationBudget.Budget.Sweep` | src/api/addressRequestApi.ts:83-87 | The sweep deletes exactly the entries whose window is over |
| `VerificationBudget.WaitIsLeast` | src/api/addressRequestApi.ts:75-81 | A non-zero answer is the least whole number of seconds after which the link next call succeeds, whatever other links do |
| `VerificationBudget.LinkStaysWithinBudget` | src/api/addressRequestApi.ts:67-90 | A link spends at most 10 checks a window and 20 in any 24 hours |
| `VerificationBudget.LinkGetsItsBudget` | src/api/addressRequestApi.ts:75-81 | And it gets its 10 checks in every window: a call waits exactly when they are spent |
| `FixedWindow.CallsStayWithinLimit` | src/api/addressRequestApi.ts:67-90 | Any fixed-window counter admits at most its limit a window and twice that in any span as long as a window |
| `FixedWindow.RefusesExactly` | src/api/addressRequestApi.ts:75-81 | A call is refused exactly when its key has opened a window that is not over and taken the limit in it |
| `FixedWindow.SpanHoldsTwoWindows` | src/auth/signInPool.ts:90-105 | No span as long as a window holds takes from more than two windows |
| `OptionPrices.Run` | scripts/create-option-prices.ts:149-184 | The loop does what its product-by-product specification says, wherever it stops |
| `OptionPrices.StoppedRunsThenOne` | scripts/create-option-prices.ts:105-184 | From any Stripe state, after any stopped or complete runs in one currency, a complete run over exactly the products asked for leaves each lookup key created at most once, every earlier Price unchanged, and under the key of each product created or kept an active one-time test-mode Price at the pinned amount in that currency, every other product refused for what is wrong with its Price, and nothing the script made refused unless Stripe made it live |
| `OptionPrices.RunsKeepOnce` | scripts/create-option-prices.ts:149-220 | Any number of runs, stopping at any call, a create with a lost reply included, keep the at-most-once invariant |
| `OptionPrices.CompleteRunSettles` | scripts/create-option-prices.ts:160-182 | In a complete run each verdict agrees with what Stripe holds afterwards, and the lines and the refused count follow from the verdicts |
| `OptionPrices.DecidesExactly` | scripts/create-option-prices.ts:105-126 | A product is given a Price exactly when it has none, keeps one exactly when it is that id, active, one-time, in test mode, in the currency and at the pinned amount, and is refused any other for the first of these that is wrong |
| `OptionPrices.CreatesWhatIsMissing` | scripts/create-option-prices.ts:160-182 | A complete run creates a Price for exactly the products that had none |
| `OptionPrices.AnsweredRunsComplete` | scripts/create-option-prices.ts:149-184 | A run stops only when a call to Stripe did not go well |
| `OptionPrices.RerunCreatesNothing` | scripts/create-option-prices.ts:105-126 | Once every product has a Price, a run changes nothing |
| `OptionPrices.DryRunForetells` | scripts/create-option-prices.ts:166-182 | A dry run changes nothing and names exactly the products a real run from the same state creates |
| `OptionPrices.KeysDiffer` | scripts/create-option-prices.ts:68-73 | Different products have different lookup keys |
| `OptionPrices.Stripe.CreatePrice` | scripts/create-option-prices.ts:207-229 | A create adds one Price under the key, and answers only for a test-mode Price whose reply arrives |
| `CommandRuns.OneBeginIsNew` | src/admin/auditService.ts:130-193 | Under any interleaving of transactions each key has one run, and exactly one begin is told it is new |
| `CommandRuns.OneMarkOneCompletion` | src/admin/auditService.ts:213-261 | At most one mark and one completion of a run succeed, and it is terminal exactly when its completion did |
| `CommandRuns.ReplaysAreTheSameCommand` | src/admin/auditService.ts:51-63 | A begin told it is a replay asked for exactly the run it was given |
| `CommandRuns.RunsOnlyAdvance` | src/admin/auditService.ts:213-261 | A run keeps its key and identity and only moves pending to running to terminal, or pending to terminal |
| `CommandRuns.TransactionsEnd` | src/admin/auditService.ts:130-261 | A commit makes exactly the writes of its transaction the table, a rollback none, and no other transaction is touched |
| `CommandRuns.StepKeepsInv` | src/admin/auditService.ts:130-261 | Every statement, commit or rollback of any caller keeps the invariant over rows, drafts and what callers were told |
| `CommandRuns.ViewTallies` | src/admin/auditService.ts:130-261 | What a caller was told fits the row it sees, its own uncommitted writes included |
| `CommandRuns.Table.BeginCommandRun` | src/admin/auditService.ts:130-193 | A begin returns the new run, the run it replays, or a conflict when the key holds another identity; its second statement always finds a row |
| `CommandRuns.Table.MarkCommandRunning` | src/admin/auditService.ts:213-231 | A mark succeeds only on a run that is pending for the caller when the statement runs, others having run before it, and then does exactly that; it conflicts only when there is none |
| `CommandRuns.Table.CompleteCommandRun` | src/admin/auditService.ts:233-261 | A completion is refused as invalid exactly when its error code does not fit its status, and succeeds only on a run not terminal for the caller when the statement runs |
| `Outbox.Service.DispatchDueMail` | src/cli/runMaintenance.ts:480-499 | The totals are the tally of exactly the letters taken, each claimed before time was up; every batch but the last carries, and the run ends paused, short, in trouble or out of time |
| `Outbox.Service.ProcessDueLetterJobs` | src/services/letterJobService.ts:1340-1348 | The claim loop takes the next letters in order up to the limit, and stops short only when none is left or time is up |
| `Outbox.DamageIsBounded` | src/cli/runMaintenance.ts:472-498 | At most one batch of retries, and less than two batches of failures and retries together |
| `Outbox.OneRejectionCarries` | src/cli/runMaintenance.ts:472-498 | A full batch of three or more with one rejected letter among sent ones does not stop the run, unless it has failed as many as a batch holds |
| `Outbox.OutageIsBounded` | src/cli/runMaintenance.ts:472-498 | From the letter at which the provider takes nothing more, the run takes at most one more batch beyond less than half of the one the outage began in |
| `Outbox.OutageTakesMoreThanABatch` | src/cli/runMaintenance.ts:472-498 | An outage that begins inside a batch fails more letters than a batch holds: an example with three to a batch |
| `Outbox.BatchesAreFew` | src/cli/runMaintenance.ts:480-499 | With finitely many letters due the run ends within due / batchLimit + 1 batches |
| `Outbox.CarriersAreFull` | src/cli/runMaintenance.ts:494-497 | Batches that let the run go on have no retry and, together, fewer failures than a batch holds |
| `Identity.StoredAddressesAreConfirmed` | src/auth/identity.ts:84-112 | Over every run, grants, promotions and gifts included, addresses are unique whatever their case, and each was confirmed by its own subject token, passed in its name for one of those, or is a tombstone placeholder |
| `Identity.NewRowsAreConfirmed` | src/services/userService.ts:123-265 | A row appears in two ways only, in each from an address nobody holds: its own subject sign-in inserts the one its token confirmed, or ensureAccountRowWithClient inserts the one it is passed, trimmed and not empty |
| `Identity.ErasedRowChangesExactly` | src/services/userService.ts:281-303 | An erased row changes exactly when a sign-in that read it before the erasure writes a confirmed address shaped like a placeholder |
| `Identity.TombstonesAreWrapped` | db/migrations/035_account_erasure.sql:29-29 | A placeholder is exactly something between erased- and @erased.invalid |
| `Identity.ErasedRowsNeverChange` | src/auth/identity.ts:48-60 | If no token confirms an address on the reserved domain, an erased row never changes, whatever was under way when it was erased |
| `Identity.PlaceholderCanRewriteATombstone` | src/services/userService.ts:167-187 | Otherwise it can: a concrete order of four steps moves a tombstone address |
| `IdentityRaces.AnswerIsTheStoredAddress` | src/auth/identity.ts:91-96 | Over every run, a subject for whom addresses of a set only are given, by its tokens or in its name, is always told the address its row holds (or its row is erased) if and only if the set does not hold two addresses |
| `IdentityRaces.LoserIsToldAnother` | src/services/userService.ts:146-153 | A run from the empty table in which two first arrivals with two addresses end with one told its own address while the row holds the other |
| `IdentityRaces.OnlyTheLoserIsToldAnother` | src/services/userService.ts:146-153 | Of a row not erased only a sign-in that lost its insert is told another address than the one stored, and it is the one it brought |
| `ErasedAccounts.ErasedAccountIsAnswered` | src/services/userService.ts:146-153 | A run in which an account is erased between a sign-in lost insert and its read, and the sign-in is answered |
| `ErasedAccounts.ErasedRowAnswersExactly` | src/auth/identity.ts:48-60 | A statement answers a sign-in of an erased account exactly when it is the read after a lost insert, or the update of a placeholder-shaped address nobody else holds |
| `ErasedAccounts.AnsweredAfterErasureExactly` | src/auth/identity.ts:48-60 | A sign-in of an erased account is answered in some continuation if and only if it is answered already, is losing its insert, or updates to a placeholder-shaped address that nobody else holds or every holder can leave: one not erased by its erasure, a tombstone by a chain of such updates under way, the last of which finds no tombstone in its way |
| `Identity.Accounts.PrepareAuthenticatedUser` | src/auth/identity.ts:84-156 | With others running between its statements: an account that exists unerased is never refused, one erased before is always refused, an erased one is answered only to a sign-in that found no row (or brings a placeholder-shaped address), an account that was there is told its stored address, and a sign-in is refused for want of a confirmed address only, and without an account always, when the claims of its token confirm none |
| `Identity.Accounts.GetOrCreateUser` | src/services/userService.ts:165-187 | The upsert stores the address in a row that was there, or leaves a row with an address its subject confirmed or was passed in its name, or erased; or says the account is erased or the address held |
| `Identity.Accounts.CreateUser` | src/services/userService.ts:123-160 | The insert that does nothing on conflict, and how the conflict is named: linked only when the address is held, an unknown failure only when it is not |
| `Settings.BlanksAre` | src/utils/envSettings.ts:45-45 | Text is trimmed of exactly the white space and line terminators of JavaScript |
| `Settings.CasesPair` | src/utils/envSettings.ts:45-45 | Case changes pair the letters off in the order of the alphabet |
| `EmailClaims.SilenceIsNotConfirmation` | src/auth/verifiedEmail.ts:114-157 | Every confirmation rests on the verdict beside the address (email_verified for email, the namespaced verdict for the namespaced address); without that claim the token confirms nothing |
| `EmailClaims.ReadsWhatIsStated` | src/auth/verifiedEmail.ts:114-157 | The address and verdict read are those the claims state: the standard pair where email carries an address, the namespaced pair otherwise |
| `EmailClaims.ConfirmedIsRead` | src/auth/verifiedEmail.ts:130-157 | An address is read as confirmed exactly when its own pair states it and true |
| `EmailClaims.StandardClaimDecides` | src/auth/verifiedEmail.ts:130-157 | While the standard claim carries an address, nothing but it and its own verdict matters |
| `Provisioning.BuildAdminGrantStatements` | src/admin/provisioning.ts:606-684 | The loops push exactly the declared statements in order |
| `Provisioning.ProvisionsExactly` | src/admin/provisioning.ts:192-488 | From any prior privileges each of the two roles ends with exactly the table and column privileges declared |
| `Provisioning.OthersKeepTheirs` | src/admin/provisioning.ts:680-681 | No other role is touched, but PUBLIC may no longer run the functions there are; of the defaults for functions created later, only what the schema added for PUBLIC, on those of the role that provisions, is gone |
| `Provisioning.NewFunctionsRunExactly` | src/admin/provisioning.ts:681-681 | A role may run a function created after the statements exactly when a default they leave names it or PUBLIC |
| `Provisioning.NewFunctionsArePublicExactly` | src/admin/provisioning.ts:676-681 | From any prior state, PUBLIC may run a function that the provisioning role creates later if and only if the default for every schema grants it, whatever the statements |
| `Provisioning.ReaderRunsNewFunctions` | src/admin/provisioning.ts:676-681 | With the defaults PostgreSQL comes with the reader may run every function created after the statements, by whichever role, and none that was there before |
| `Provisioning.ProvisioningIsIdempotent` | src/admin/provisioning.ts:606-684 | Executing the statements twice is executing them once |
| `Provisioning.ReaderReadsItsListsOnly` | src/admin/provisioning.ts:192-360 | The reader can select a column exactly when its lists name the table or the column |
| `Provisioning.ReaderOnlyAppends` | src/admin/provisioning.ts:641-675 | The reader writes nothing but audit events, and neither role can update, delete or truncate them |
| `Provisioning.TableWritesGive` | src/admin/provisioning.ts:657-668 | The statements built for one table grant exactly its declared writes |
| `Provisioning.GrantsOnlyAdd` | src/admin/provisioning.ts:606-668 | A list of grants adds what its statements grant and takes nothing |
| `GrantLists.TrailingRevokeRemovesNothing` | src/admin/provisioning.ts:675-675 | The trailing revoke takes back nothing the lists granted |
| `GrantLists.ContentIsWithheld` | src/admin/provisioning.ts:223-340 | The reader can never select letter content, recipients, what a draft says or shows (text, images, signature, stationery, validation results), return addresses, token hashes or ledger descriptions |
| `GrantLists.RunIdentityIsFixed` | src/admin/provisioning.ts:642-643 | Neither role can update the columns that say which command a run is, whatever it held before |
| `Preflight.DiffManifest` | scripts/preflight-cutover.ts:75-159 | The loop reports exactly the entries considered and not satisfied, required and advisory apart |
| `Preflight.NotesTellTheTruth` | scripts/preflight-cutover.ts:118-151 | A note that says why something is required, or that a flag is set, is true, and names the switches of that entry |
| `Preflight.PresencePass` | src/config/deploymentConfig.ts:1427-1462 | The boot loop reports exactly the entries it demands and cannot resolve |
| `Preflight.ValidateBucket` | src/config/deploymentConfig.ts:1223-1251 | The bucket check reports nothing outside production, the memory store alone when it is set, and otherwise exactly the bucket entries unresolved |
| `Preflight.BootMissesOnlyEmptyValues` | src/config/deploymentConfig.ts:893-902 | After a clean preflight, whatever boot finds missing is a variable set to nothing |
| `Preflight.CleanPreflightPassesBoot` | src/config/deploymentConfig.ts:1427-1462 | With no value empty the presence pass adds no error, for every manifest, environment and service |
| `Preflight.CleanPreflightPassesBuckets` | src/config/deploymentConfig.ts:1223-1251 | Nor does the bucket check, but for a store set to memory, when the preflight always demands every bucket variable of the service |
| `Preflight.SkippedBucketIsMissed` | src/config/deploymentConfig.ts:1242-1251 | A bucket variable the preflight skips, for its service, its advisory mark, its mode, a condition or a flag, is missing at boot in an environment that the preflight finds clean |
| `Preflight.BucketIsContainedExactly` | src/config/deploymentConfig.ts:1242-1251 | A bucket variable is never missing at boot after a clean preflight with no empty value if and only if the preflight always demands it of the service, every other entry having a name that is neither its nor its gates |
| `Preflight.LabelDecidesMode` | src/config/deploymentConfig.ts:925-963 | After a clean preflight the label alone decides the mode, production for any value but development |
| `Preflight.BootIsContained` | src/config/deploymentConfig.ts:1412-1462 | A service that boots where it was preflighted has every variable the presence pass and the bucket check ask; only a store set to memory is left to report |
| `Preflight.BootMissesWhatPreflightReports` | src/config/deploymentConfig.ts:1427-1462 | The other way round: with no value empty and no switch set and off, boot misses exactly the variables the preflight reports, of those no other rule checks |
| `Preflight.ParityIsShown` | scripts/preflight-cutover.ts:88-118 | An advisory variable is listed wherever neither it nor an alias is set, whatever its conditions, and the label is asked for in every environment |
| `Preflight.ModesAre` | src/config/deploymentConfig.ts:925-963 | The mode is test or development only for an environment without a label or labelled development, by NODE_ENV |
| `Products.SingleRowAgrees` | src/config/products.ts:478-524 | One product row is the one row with its code in the full table, or none exactly when the code is not sold |
| `Products.ConfiguredExactly` | src/config/products.ts:478-500 | The table holds exactly a row for every pack, and for every Pay and Send product whose flag is on while Pay and Send is, with its price id, its pinned amount and its currency |
| `Products.CurrencyFallsBack` | src/config/products.ts:357-370 | Pay and Send is priced in its own currency, else in that of the store, else in dollars |
| `Products.MatchIsExact` | src/config/products.ts:447-465 | An option is matched by a product exactly when the product sells the pages, size and service it asks for, defaults filled in |
| `Products.StoredServiceFailsClosed` | src/config/products.ts:77-80 | A stored service text that is not empty, standard or one of the two sold services matches no product, and one that is matches a product of that service only |
| `Products.OfferedOptionsArePriced` | src/api/capabilitiesApi.ts:326-328 | Every option a preview offers is sold at a published price, and its configured row has the same amount and currency |
| `Products.OfferedExactly` | src/config/roomToWrite.ts:22-29 | Longer letters and other card sizes are offered exactly with their flag, the own renderer and Pay and Send on; certified mail with its flag and Pay and Send |
| `Products.PublishedPricesAreReachable` | src/api/capabilitiesApi.ts:173-178 | A price is published exactly when some offered option is sold through its product |
| `Products.PublishedIsOffered` | src/config/roomToWrite.ts:22-29 | The previews offer the option each published product sells |
| `Products.JitCodesDiffer` | src/config/products.ts:242-334 | No two Pay and Send products share a code |
| `TotpRecords.OneRecordPerSecret` | src/admin/runtimeConfig.ts:76-94 | Every accepted environment keeps one counter record for each key its operators codes are made with, if and only if no two operators texts keep the same bits without being one text |
| `TotpRecords.LookalikesAreAccepted` | src/admin/runtimeConfig.ts:229-251 | Two strong texts that differ and look alike, set as the secrets of two operators in any environment without a shared secret, are accepted, and the operators have one key under two counter keys, so that one code is accepted once for each |
| `TotpRecords.TwentySixCharactersLookAlike` | src/admin/http/totp.ts:13-29 | Any twenty-five characters followed by an A, by a B, or by two As are three such texts |
| `TotpRecords.CanonicalSecretsKeepTheirRecords` | src/admin/runtimeConfig.ts:76-94 | When every operator text is canonical (no surplus character, no dropped bit set, no zero byte last) each key has one record |
| `TotpKeys.SameKeyExactly` | src/admin/http/totp.ts:13-29 | Two texts decode to one HMAC key exactly when they keep the same bits, unset bits past the end of the shorter counted as equal unless the key is hashed |
| `TotpKeys.DecodeBase32` | src/admin/http/totp.ts:13-29 | The shifting loop over 32-bit numbers yields the whole bytes at the front of the text bits, and refuses exactly the texts with another character |
| `TotpKeys.EncodeBase32` | src/admin/http/totp.ts:31-44 | The encoding loop spells the bytes and then zero bits up to a whole character, and decoding gives the bytes back |
| `TotpKeys.OnlyTheseDoNotCount` | src/admin/http/totp.ts:13-14 | Exactly blanks, padding and hyphens are left out of the text, wherever they are, and letters are read as capitals |
| `TotpKeys.AlphabetIs` | src/admin/http/totp.ts:11-11 | The alphabet of base32, in order (section 6 of RFC 4648) |
| `TotpKeys.DecodesTheTestVector` | src/admin/http/totp.ts:13-29 | A vector of section 10 of RFC 4648: MY decodes to the byte of f |
| `TotpKeys.EncodedIsCanonical` | src/admin/http/totp.ts:31-44 | What the encoding writes is canonical, unless its last byte is zero |
| `TotpKeys.CanonicalTextsDiffer` | src/admin/http/totp.ts:13-44 | Two canonical texts that keep the same bits are one text |
| `Totp.OneRecordPerText` | src/admin/runtimeConfig.ts:76-94 | Two operators who have a secret have the same text if and only if they have the same counter key |
| `Totp.AcceptedHaveOwnKeys` | src/admin/runtimeConfig.ts:229-251 | In every accepted environment no two entries of the table share a text and no owner is named like the shared key |
| `Totp.OwnTextsOnly` | src/admin/runtimeConfig.ts:253-272 | Without the shared secret, as in production, each operator with a secret has a text no one else holds, under their own key |
| `Totp.ParseTotp` | src/admin/runtimeConfig.ts:227-272 | Exactly the acceptable environments are accepted; the table read is the one they state, and production never reads the shared secret |
| `Totp.ReadSecrets` | src/admin/runtimeConfig.ts:227-248 | The entries are accepted exactly when each names a listed login once with a secret strong enough |
| `Totp.CheckLogins` | src/admin/runtimeConfig.ts:171-191 | The login list is accepted exactly when it holds one to twenty distinct logins |
| `Totp.FewerValues` | src/admin/runtimeConfig.ts:249-251 | The table has fewer values than keys exactly when two entries share a text |
| `Totp.LoginsAreNotTheSharedKey` | src/admin/contracts.ts:72-77 | No login is the shared counter key |
| `Totp.BlanksDoNotCount` | src/admin/runtimeConfig.ts:236-236 | A secret reads the same with a blank put anywhere in it |
| `Totp.PaddingDoesNotCount` | src/admin/runtimeConfig.ts:236-236 | A secret reads the same with padding after it, so the same secret padded differently compares equal |
| `Totp.CaseDoesNotCount` | src/admin/runtimeConfig.ts:236-236 | A secret reads the same in lower case |
| `TenantCheck.SameFormMeansSameContent` | scripts/check-auth0-tenant.ts:89-98 | Two texts have one canonical form exactly when they differ only in line endings, trailing whitespace of lines and trailing blank lines |
| `TenantCheck.NormalizeIsIdempotent` | scripts/check-auth0-tenant.ts:89-98 | The canonical form is a fixed point |
| `TenantCheck.NormalizingKeepsContent` | scripts/check-auth0-tenant.ts:89-98 | Normalizing loses nothing of the content |
| `TenantCheck.UnifiedSplitsIntoLines` | scripts/check-auth0-tenant.ts:92-93 | Rewriting line endings and then splitting at newlines is splitting at all three line endings |
| `TenantCheck.CheckPostLoginFlow` | scripts/check-auth0-tenant.ts:105-145 | Every result is good exactly when each bound Action is one of the two files, deployed and equipped, and the linking Action runs before the claim Action; and each result is true of what it speaks of, its verdict that of its line |
| `TenantCheck.CheckAction` | scripts/check-auth0-tenant.ts:108-133 | The results for one Action are good exactly when it matches, is deployed and, if it links, has its dependency and secrets; each names what it checked (the first SDK version, exactly the missing secrets) and is good exactly when that is right |
| `GivenAddress.TidyIsTidy` | src/api/addressRequestApi.ts:156-158 | Tidying makes a text tidy, and changes nothing exactly when it is tidy |
| `GivenAddress.TidyKeepsWords` | src/api/addressRequestApi.ts:156-158 | Tidying keeps every character that is not blank, and blanks exactly where there were some between two of them |
| `GivenAddress.ZipsAre` | src/api/addressRequestApi.ts:57-57 | A ZIP code is accepted exactly when it is five digits, or five and four with a hyphen |
| `GivenAddress.NineDigitsAreHyphenated` | src/api/addressRequestApi.ts:58-59 | Nine digits are taken for a ZIP+4, and any other text stands as typed |
| `GivenAddress.GivenAddressOf` | src/api/addressRequestApi.ts:185-225 | The address answered is the one address the body gives; otherwise the fields reported are exactly the wrong ones, and the unprintable ones exactly those of them the printer cannot print |
| `GivenAddress.AcceptedIsFixed` | src/api/addressRequestApi.ts:185-225 | An accepted address, given back, is accepted again unchanged |

## Left out

- Migrations: the SQL of each file is one atomic body that touches neither the ledger nor the transaction; `CREATE TABLE IF NOT EXISTS` is part of the ledger read; names are ordered by character code; a session-level lock leaked by other software is not modelled, nor a COMMIT that the server carries out after its client has given up.
- Logo: decoding, resizing and encoding are the image library's; colours and alpha are reals, so rounding of doubles is not modelled.
- Sign-in pool: the Authorization header is already parsed and its token trimmed; the SHA-256 digest is taken to be injective, here and in the verification budget.
- Option prices: arguments, key checks, redaction and the output file; report sentences are verdicts; Stripe is a map from lookup keys to Prices that no one else changes during a run.
- Command runs: audit events, timestamps, correlation ids and result JSON; the input schemas but for the completion's; a statement that waits for another transaction either finds it ended or fails; the purge of runs two years old (`db/migrations/064_admin_command_retention.sql`), after which a key can begin anew.
- Outbox: what happens to a claimed letter, and the two sweeps before the claim loop; one run claims a letter at most once.
- Identity: the erasure's other writes and its gates; of `ensureAccountRowWithClient` the credits and the transaction of its caller (it is one atomic step here); case is folded for the letters A to Z only, here and wherever text is lowered or raised.
- Provisioning: identifier checks, role attributes and membership, grants by another grantor; the named tables exist; one schema.
- Preflight: fetching names from Railway; the dedicated boot rules other than the bucket check; of the manifest only the bucket entries and the label are written out, the rest being any.
- Products: names, descriptions and formatted amounts; the credential's digest is taken to be injective.
- TotpKeys: the digest of HMAC; a key over sixty-four bytes is hashed, and two such keys, or one and a shorter one, are taken to hash apart.
- Totp: the rest of the runtime configuration, whose problems only make fewer environments acceptable.
- Tenant check: domains, tokens, the Management API grants and the printed lines; the code hash is taken to be injective.
- Given address: Unicode character classes and the printer's alphabet are rules passed in; the verification by the provider that follows.
- HTTP, the MCP tools, the payment and letter services, and the one-branch flag readers not used above.

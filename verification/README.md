# Ferum: a verified model of its core rules

Ferum is a forum server. This project models the parts of it whose correctness depends on many
calls working together, and proves what holds of every run of them:

- **Themes** (`templates.dfy`, `first_party.dfy`, `theme_loader.dfy`, `theme_order.dfy`,
  `theme_clash.dfy`, `theme_chain.dfy`): the built-in templates are loaded or the start-up fails;
  uploaded themes are loaded on top of them in passes, each theme all or nothing, until a pass loads
  nothing; a walk up the parents of the active theme picks the template of a page.
- **Posts** (`attachment_keys.dfy`, `permissions.dfy`, `posts.dfy`, `post_usecase.dfy`,
  `post_guards.dfy`, `post_history.dfy`, `post_properties.dfy`): create, edit, delete, approve,
  reject and upload, with the reference counts of attachments, reply and post counters, creation
  events and the upload quota.
- **Accounts** (`accounts.dfy`, `account_usecase.dfy`, `account_history.dfy`,
  `account_properties.dfy`): lockout, sessions and bans over one clock and one expiring cache.
- **Roles** (`auth_user.dfy`, `rbac.dfy`): the permission cache against the relations it is loaded
  from, and role assignment.
- **Plugins** (`config_templates.dfy`, `plugins.dfy`, `plugin_history.dfy`): the rows a plugin owns
  against its status, and the substitution that fills webhook URLs.
- **Trust scores** (`trust_score.dfy`, `trust_history.dfy`): reactions and warnings whose score
  updates run later, in any order, each clamped to 0..100.
- **Seeding** (`seed.dfy`) and the **forum index** (`forum_index.dfy`).

Each use case is a class whose methods change its fields as the program changes its tables. A
method is proved against a specification function (`Refusal`: the error returned; `Step`: the new
state), and the theorems are about `Run`, any sequence of steps. Each call is one atomic step with
its own time; spawned score updates are steps of their own. Answers of parts that are not modelled
(plugin hooks, rendering, the keyword blacklist, password checks) are arguments of the call.

What the calls answer and store is stated a second time without these specification functions:
`…Answers` lists the checks of a call in order, in the fields of its rows, and the history theorems
say what every field holds after any run in terms of the calls made (`ContentIsLatest`,
`DeletedIff`, `PublishedIff`, `GrantIsHistory`, `BanIsHistory`, `StatusIsHistory`, and others).

Where the program does less than one would expect, the model follows the program and says exactly
when the property holds:

- An attachment's reference count is exact if and only if the file has been free of live
  embedders at some moment since it was stored; a URL posted before its file is stored is never
  counted (`ReferenceCounts`, `EarlyEmbedUndercounts`).
- A rejected post can still be approved; the counters are exact up to such approvals
  (`CountersFollowPosts`).
- Score updates are clamped, so scores are not conserved; for a list of calls they are, under every
  schedule of the updates, if and only if all gains and all losses due each fit in the range
  (`ScoreConservedIff`).
- Approving and rejecting do not check the caller's own ban (`BannedCallerChangesIff`).
- Whoever has the rights to warn and to post in a category may post there without being able to
  see it, in a staff category or, as a new member, in a members' category (`PostersCanView`,
  `PostersUnseen`).
- A temporary ban that ends in the past leaves an earlier cached flag in place (`FlagAgreesIff`,
  `TempBanAgreesIff`). The HTTP handler refuses such a ban
  (backend/crates/ferum-web/src/handlers/moderation/api/users.rs:51-53), so the use case meets one
  only in a direct call or if the clock passes the end in between.
- A parent cycle of two or more themes yields a chain without the default theme
  (`DefaultLastIffWalkStops`); the page still renders, by a fallback (`NearestThemeRenders`).
- Which themes load is independent of the order they come in where no theme overwrites a
  first-party template or no inheritance can cycle, and in general if and only if any two themes
  that would both load next can be brought together again (`NoClashConfluent`, `AcyclicConfluent`,
  `OrderIrrelevantIff`, `OrderMattersOnClash`).
- A script plugin whose runtime fails to start, when it is activated or when it is configured, is
  left in error with its UI slots in place (`SlotsOnlyWhileActiveIff`).
- The guard for the last administrator counts assignments that will expire; an administrator is
  assured for good if and only if no call revokes the only one without expiry (`AdminAssuredIff`).

## Model

| member | source | states |
|---|---|---|
| Templates.LoadsIffLoadable | backend/crates/ferum-web/src/tera_engine.rs:94-112 | A batch loads into a sound environment exactly when every template parses, every extends or import target is known or in the batch, and the batch has no cycle. |
| Templates.AddMonotone | backend/crates/ferum-web/src/tera_engine.rs:96-112 | A theme that loads now still loads after other themes were committed: a retry never comes too late. |
| FirstPartyTemplates.LoadFirstParty | backend/crates/ferum-web/src/tera_engine.rs:57-92 | What succeeds has registered exactly the default theme and the other built-in files, and is sound; a default theme that does not load and any file that does not parse abort the start-up, and for distinct names nothing else does but a file that does not load over those before it. |
| FirstPartyTemplates.FirstPartyRegisters | backend/crates/ferum-web/src/tera_engine.rs:57-84 | The names registered are those of the default theme and the files and no others, each with its own template, or its last if a name comes twice. |
| FirstPartyTemplates.FirstPartyFailsIff | backend/crates/ferum-web/src/tera_engine.rs:62-92 | With distinct names the start-up is aborted if and only if the default theme does not load or some file does not load over it and the files before; a file that does not parse always aborts it. |
| FirstPartyTemplates.FirstPartyIsSound | backend/crates/ferum-web/src/tera_engine.rs:57-92 | The environment the retry loop starts from is sound. |
| ThemeLoader.CommitStep | backend/crates/ferum-web/src/tera_engine.rs:111-119 | Committing one theme keeps the environment sound, holding exactly the committed themes, all of which every closed set contains. |
| ThemeLoader.OnePass | backend/crates/ferum-web/src/tera_engine.rs:102-127 | A pass commits and defers what trying the themes in order does, keeps the loop's invariant, and either defers fewer themes than it was given or changes nothing and has every one of them fail. |
| ThemeLoader.ReportSkipped | backend/crates/ferum-web/src/tera_engine.rs:129-141 | Reports exactly the skipped themes, and finds an error for every one of them, at the cost of one more batch add each. |
| ThemeLoader.RetryInPasses | backend/crates/ferum-web/src/tera_engine.rs:101-145 | Every skipped theme fails against the final environment and is reported; without name clashes the outcome is the least closed set; passes and batch adds, those for the report included, are counted exactly and bounded. |
| ThemeLoader.RetryBounds | backend/crates/ferum-web/src/tera_engine.rs:101-145 | For n themes, at most n passes and n(n+1)/2 + 1 batch adds. |
| ThemeLoader.OrphanTriedTwice | backend/crates/ferum-web/src/tera_engine.rs:129-141 | A single theme that does not load takes two batch adds, so the one more is needed. |
| ThemeLoader.BuildTera | backend/crates/ferum-web/src/tera_engine.rs:48-163 | The start-up fails exactly if the first-party templates do; otherwise the result is that of retrying the themes in the given order over the first-party environment, with the bounds and the outcome of the retry loop. |
| ThemeLoader.CommittedIsLeastClosed | backend/crates/ferum-web/src/tera_engine.rs:94-145 | The committed themes are the least set closed under: every template parses and every target is first-party, in its own batch or in a theme of the set, with no cycle in the batch. |
| ThemeLoader.OrderDoesNotMatter | backend/crates/ferum-web/src/tera_engine.rs:96-101 | Two outcomes over the same themes commit the same themes and build the same environment. |
| ThemeLoader.CommittedIffLoadable | backend/crates/ferum-web/src/tera_engine.rs:94-145 | A theme ends up committed exactly when it is loadable over the rest of the final environment. |
| ThemeLoader.AllOrNothing | backend/crates/ferum-web/src/tera_engine.rs:111-118 | Every template of a committed theme is registered as it is, and no template of a skipped one. |
| ThemeOrder.OrderIrrelevantIff | backend/crates/ferum-web/src/tera_engine.rs:94-145 | For any themes, clashing or not: every order of the input comes to the same committed themes and environment exactly if, wherever two themes would both load next, committing either leaves a way to a common state. |
| ThemeOrder.FinalHasOrder | backend/crates/ferum-web/src/tera_engine.rs:101-145 | Every state that can be reached by loading one theme at a time, and where no other theme loads, is what some order of the input comes to. |
| ThemeClash.NoClashConfluent | backend/crates/ferum-web/src/tera_engine.rs:96-101 | Where no theme has a template named like a first-party one that condition holds, so the order does not matter. |
| ThemeClash.AcyclicConfluent | backend/crates/ferum-web/src/tera_engine.rs:96-101 | Nor does it matter, clash or not, where the inheritance edges of all first-party and theme templates together have no cycle. |
| ThemeClash.OrderMattersOnClash | backend/crates/ferum-web/src/tera_engine.rs:101-118 | For any two first-party templates under different slugs, two themes that overwrite them each load alone and shut the other out, so the order matters. |
| ThemeClash.OrderNeedNotMatterOnClash | backend/crates/ferum-web/src/tera_engine.rs:101-118 | Two others that overwrite them both load, in either order. |
| ThemeChain.ResolveChain | backend/crates/ferum-application/src/usecases/theme_usecase.rs:52-78 | Stops on any finite theme table, with a duplicate-free walk along parent links, ended by the default theme or by a parent already visited. |
| ThemeChain.ChainFollowsTable | backend/crates/ferum-application/src/usecases/theme_usecase.rs:52-78 | Each step of the walk is a row of the table, and it stops only at the default theme, at a theme without a row or its own parent, or before one visited already. |
| ThemeChain.DefaultLastIffWalkStops | backend/crates/ferum-application/src/usecases/theme_usecase.rs:52-78 | The chain ends in the default theme exactly when the walk up the parents ends; in a cycle the default theme is nowhere in the chain. |
| ThemeChain.MissingPrefix | backend/crates/ferum-web/src/tera_engine.rs:184-187 | Counts the leading candidates that are not registered; the next one, if any, is. |
| ThemeChain.RegisteredIffSupplied | backend/crates/ferum-web/src/tera_engine.rs:286-309 | A theme's page is registered exactly when the theme's slug is first-party with that file or a committed theme with that file. |
| ThemeChain.NearestThemeRenders | backend/crates/ferum-web/src/handlers/pages/mod.rs:165-174 | Every page of the default theme renders, with the template of the nearest theme of the chain that supplies it. |
| AttachmentKeys.ExtractAttachmentKeys | backend/crates/ferum-application/src/usecases/post_usecase.rs:792-801 | The leftmost non-overlapping scan misses nothing: it returns the key at every position where a URL starts. |
| AttachmentKeys.KeysInIff | backend/crates/ferum-application/src/usecases/post_usecase.rs:792-801 | A key is found exactly when it is well-shaped and its URL occurs anywhere in the text. |
| AttachmentKeys.NoOverlap | backend/crates/ferum-application/src/usecases/post_usecase.rs:792-801 | No attachment URL starts strictly inside another. |
| AttachmentKeys.AcceptedUploadIsKey | backend/crates/ferum-application/src/storage_utils.rs:5-29 | The storage key of every accepted image type has the shape the scan looks for. |
| AttachmentKeys.UploadedUrlIsFound | backend/crates/ferum-application/src/usecases/post_usecase.rs:146-151 | The URL an upload returns is found in any surrounding text. |
| AttachmentKeys.KeysEqualIff | backend/crates/ferum-application/src/storage_utils.rs:5-22 | Accepted uploads share a key if and only if their digests are equal and their types are too, up to the two names of JPEG. |
| PostUseCases.PostUseCase.IncrementRef | backend/crates/ferum-infrastructure/src/repositories/stored_file_repository.rs:152-162 | Adds one to the count of a stored key and does nothing for a key without a row. |
| PostUseCases.PostUseCase.DecrementRef | backend/crates/ferum-infrastructure/src/repositories/stored_file_repository.rs:56-84 | Takes one from the count of a stored key, not below zero. |
| PostUseCases.PostUseCase.UpdateReplyStats | backend/crates/ferum-infrastructure/src/repositories/thread_repository.rs:624-642 | Adds a delta to the thread's reply count, with no floor. |
| PostUseCases.PostUseCase.IncrementPostCount | backend/crates/ferum-infrastructure/src/repositories/user_repository.rs:632-646 | Adds a delta to the author's post count, not below zero. |
| PostUseCases.PostUseCase.SyncAttachmentRefs | backend/crates/ferum-application/src/usecases/post_usecase.rs:166-183 | Looping over the two set differences, in any order, gives each key the change its appearing or disappearing asks for, once. |
| PostUseCases.PostUseCase.Create | backend/crates/ferum-application/src/usecases/post_usecase.rs:308-447 | Refuses in the order of the checks; otherwise stores the post, takes its references, and counts and announces it unless it is pending. |
| PostUseCases.PostUseCase.Edit | backend/crates/ferum-application/src/usecases/post_usecase.rs:450-510 | Refuses in the order of the checks; otherwise replaces the content and moves the references from the old keys to the new. |
| PostUseCases.PostUseCase.Delete | backend/crates/ferum-application/src/usecases/post_usecase.rs:513-575 | Soft deletes, gives back the references, and uncounts the post unless it was pending. |
| PostUseCases.PostUseCase.ApprovePost | backend/crates/ferum-application/src/usecases/post_usecase.rs:627-669 | Publishes a pending post, deleted or not, counts it and announces it. |
| PostUseCases.PostUseCase.RejectPost | backend/crates/ferum-application/src/usecases/post_usecase.rs:672-697 | Soft deletes a pending post and gives back its references unless it was deleted already. |
| PostUseCases.PostUseCase.UploadAttachment | backend/crates/ferum-application/src/usecases/post_usecase.rs:96-152 | Refuses in the order of the checks, the quota last; otherwise stages a row with count zero, leaving an existing row alone, and returns the URL of a stored key. |
| PostGuards.ViewAnswers | backend/crates/ferum-application/src/permission.rs:16-42 | Who sees a category: a guest only public ones, with the answers in order; a staff category is denied by saying it is not there. |
| PostGuards.PostingAnswers | backend/crates/ferum-application/src/permission.rs:55-87 | Who may post in a category: the checks in order, and which of them the right to warn there stands in for. |
| PostGuards.CreateAnswers | backend/crates/ferum-application/src/usecases/post_usecase.rs:308-372 | Every check of a creation in order, the first that fails deciding. |
| PostGuards.EditAnswers | backend/crates/ferum-application/src/usecases/post_usecase.rs:450-496 | Every check of an edit in order: an author edits within the window, whoever may edit any thread of the category at any time, nobody a deleted post. |
| PostGuards.DeleteAnswers | backend/crates/ferum-application/src/usecases/post_usecase.rs:513-542 | Every check of a deletion in order: an author with the right to delete own posts, or whoever may delete any in the category. |
| PostGuards.ModerateAnswers | backend/crates/ferum-application/src/usecases/post_usecase.rs:627-642 | Approving and rejecting take a pending post and the right to view reports in its category. |
| PostGuards.UsageCounts | backend/crates/ferum-infrastructure/src/repositories/stored_file_repository.rs:23-54 | The usage is the number and the total size of the uploader's rows since the given time. |
| PostGuards.UploadAnswers | backend/crates/ferum-application/src/usecases/post_usecase.rs:96-141 | Every check of an upload in order, with the accepted types, the size limits and the quota. |
| PostHistory.ContentIsLatest | backend/crates/ferum-application/src/usecases/post_usecase.rs:497-509 | In every run a post has the content of the latest allowed call that created or edited it. |
| PostHistory.EditChangesOnly | backend/crates/ferum-application/src/usecases/post_usecase.rs:497-509 | An allowed edit changes the content of its post and reference counts of stored keys; every other post and field stays. |
| PostHistory.PostOrigin | backend/crates/ferum-application/src/usecases/post_usecase.rs:383-393 | In every run the thread, author and time of a post are those of the allowed call that created it. |
| PostHistory.DeletedIff | backend/crates/ferum-application/src/usecases/post_usecase.rs:544-552 | In every run a post is deleted if and only if a deletion or a rejection of it was allowed. |
| PostHistory.PublishedIff | backend/crates/ferum-application/src/usecases/post_usecase.rs:715-749 | In every run a post is published if and only if it did not have to wait, by author, content and category, or an approval of it was allowed. |
| PostHistory.DeletionsAnnounced | backend/crates/ferum-application/src/usecases/post_usecase.rs:554-559 | In every run a deletion is announced once for a post that was deleted, and never for one that was rejected. |
| PostHistory.StoredIffUploaded | backend/crates/ferum-application/src/usecases/post_usecase.rs:143-151 | In every run a key has a row if and only if an allowed upload had it. |
| PostHistory.NewImageNewRow | backend/crates/ferum-application/src/usecases/post_usecase.rs:143-151 | An allowed upload adds a row of its own, with its uploader, size and time, if and only if no earlier allowed upload had the same contents and type. |
| Permissions.PostersCanView | backend/crates/ferum-application/src/permission.rs:16-87 | Someone who may post may not see the category exactly in two cases, a staff category without the right to view reports and a members' category for a new member without the global right to post; both need the right to warn there. |
| Permissions.PostersUnseen | backend/crates/ferum-application/src/permission.rs:16-87 | Both cases occur, the second even with the right to view reports. |
| PostProperties.RunContinues | backend/crates/ferum-application/src/usecases/post_usecase.rs:450-697 | However a run goes on, no post is lost, moved, unpublished or brought back, and a deleted one keeps its content. |
| PostProperties.FlaggedPostWaits | backend/crates/ferum-application/src/usecases/post_usecase.rs:715-729 | A post the blacklist flags is stored pending unless its author is staff, and is neither counted nor announced. |
| PostProperties.PublishedWasApproved | backend/crates/ferum-application/src/usecases/post_usecase.rs:627-642 | In every run a post that was pending and is published now was approved in between by an allowed call. |
| PostProperties.BannedCallerChangesIff | backend/crates/ferum-application/src/usecases/post_usecase.rs:627-697 | A call by a banned caller changes the state exactly if it is an allowed approval, or an allowed rejection of a post not yet deleted; the approval publishes. |
| PostProperties.StepMovesTogether | backend/crates/ferum-application/src/usecases/post_usecase.rs:156-183 | One call moves the live embedders of a key by at most one, and its count with them. |
| PostProperties.CountIsLiveLessLowWater | backend/crates/ferum-application/src/usecases/post_usecase.rs:154-183 | In every run a key's count is its live embedders less the fewest it has had since it was stored. |
| PostProperties.ReferenceCounts | backend/crates/ferum-application/src/usecases/post_usecase.rs:154-183 | A count never exceeds the live embedders, and equals them exactly if the key was free of them at some moment since it was stored. |
| PostProperties.DecrementMeetsZeroIff | backend/crates/ferum-application/src/usecases/post_usecase.rs:178-182 | A call that takes away a live embedder meets a count of zero exactly where every live embedder predates the file and has lasted since; once the file has been free, the count is positive and falls by one. |
| PostProperties.StoredFirstIsExact | backend/crates/ferum-application/src/usecases/post_usecase.rs:143-151 | If the key is written into posts only after its file is stored, the count is always exact. |
| PostProperties.EarlyEmbedUndercounts | backend/crates/ferum-application/src/usecases/post_usecase.rs:395-397 | A run where the URL is posted before the file is stored ends with count zero and a live embedder. |
| PostProperties.StepMovesCounter | backend/crates/ferum-application/src/usecases/post_usecase.rs:399-408 | Every call moves a thread's or author's counter and the published live posts together, up to approvals of deleted posts. |
| PostProperties.CountersFollowPosts | backend/crates/ferum-application/src/usecases/post_usecase.rs:561-572 | In every run reply and post counts are the published live posts plus the approvals of deleted ones; the floor at zero never acts. |
| PostProperties.PublishedIffAnnouncedOnce | backend/crates/ferum-application/src/usecases/post_usecase.rs:399-421 | In every run a post has been announced exactly once if it is published and never while it is pending. |
| PostProperties.NewRowKeepsQuota | backend/crates/ferum-application/src/usecases/post_usecase.rs:130-141 | A row that passed the check over the last 24 hours keeps the bound for every 24-hour window, whatever the clock did. |
| PostProperties.UploadsStayWithinQuota | backend/crates/ferum-application/src/usecases/post_usecase.rs:125-149 | In every run every 24-hour window holds at most 50 rows and 100 MiB of an account that uploads without staff permissions. |
| Accounts.PrefixIsPerUser | backend/crates/ferum-application/src/usecases/mod.rs:26-32 | The prefix wiped for one user starts a session key only if the key is that user's. |
| Accounts.SessionKeysDiffer | backend/crates/ferum-application/src/usecases/mod.rs:26-32 | Session keys are equal only for the same user and the same token digest. |
| AccountUseCases.AccountUseCase.IncrementFailedLogin | backend/crates/ferum-infrastructure/src/repositories/user_repository.rs:276-301 | Stores and returns the count plus one. |
| AccountUseCases.AccountUseCase.Login | backend/crates/ferum-application/src/usecases/auth_usecase.rs:214-302 | Locked, wrong password, unverified and banned accounts are refused in that order; only a login that passes all of them resets the count and opens a session. |
| AccountUseCases.AccountUseCase.RefreshAccessToken | backend/crates/ferum-application/src/usecases/auth_usecase.rs:307-337 | Answers by the session key, the user's existence and the ban, in that order. |
| AccountUseCases.AccountUseCase.Logout | backend/crates/ferum-application/src/usecases/auth_usecase.rs:342-345 | Ends exactly the session of the token. |
| AccountUseCases.AccountUseCase.WipeSessions | backend/crates/ferum-application/src/usecases/admin_usecase.rs:382-383 | Ends every session under the user's prefix and drops the cached roles. |
| AccountUseCases.AccountUseCase.Ban | backend/crates/ferum-application/src/usecases/admin_usecase.rs:331-397 | Stores the ban, sets the flag for its remaining time (a year if permanent, no time if past) and ends the sessions. |
| AccountUseCases.AccountUseCase.TempBan | backend/crates/ferum-application/src/usecases/moderation_usecase.rs:323-393 | Stores the ban, sets the flag only if it ends in the future, and ends the sessions. |
| AccountUseCases.AccountUseCase.Unban | backend/crates/ferum-application/src/usecases/admin_usecase.rs:400-422 | Clears the stored ban and the flag. |
| AccountHistory.LoginAnswers | backend/crates/ferum-application/src/usecases/auth_usecase.rs:214-291 | The answers of a login in order: unknown, locked, wrong password with or without reaching the lock, unverified, under a ban. |
| AccountHistory.LoginSucceedsIff | backend/crates/ferum-application/src/usecases/auth_usecase.rs:214-291 | A login succeeds if and only if the account exists, is not locked, has a password that matches, is verified and is not under a ban. |
| AccountHistory.CountIsFailures | backend/crates/ferum-application/src/usecases/auth_usecase.rs:239-270 | In every run the stored count is that of the wrong passwords since the last successful login. |
| AccountHistory.BarredRun | backend/crates/ferum-application/src/usecases/auth_usecase.rs:260-291 | While an account is unverified, or under a ban at each login, no login lowers its count or opens or prolongs a session for it, whatever else is called. |
| AccountHistory.UnverifiedRun | backend/crates/ferum-application/src/usecases/auth_usecase.rs:260-270 | In particular an account that starts unverified stays so in every run, keeps at least its count and gets no session. |
| AccountHistory.RefreshAnswers | backend/crates/ferum-application/src/usecases/auth_usecase.rs:307-322 | A refresh needs a live entry under the session key, then the user, then no ban in force. |
| AccountHistory.BanAnswers | backend/crates/ferum-application/src/usecases/moderation_usecase.rs:330-357 | The checks of the ban calls in order; unbanning asks no plugin. |
| AccountHistory.BanIsHistory | backend/crates/ferum-application/src/usecases/admin_usecase.rs:363-413 | In every run the stored ban and its end are what the latest ban call that was not refused said. |
| AccountHistory.BanForgetsRoles | backend/crates/ferum-application/src/usecases/admin_usecase.rs:382-383 | A ban drops the cached roles of its user and of nobody else. |
| AccountProperties.AllowanceStep | backend/crates/ferum-application/src/usecases/auth_usecase.rs:239-270 | Each call uses up the failed check it makes; only a successful login grants more. |
| AccountProperties.LockoutBound | backend/crates/ferum-application/src/usecases/auth_usecase.rs:227-270 | From any state, within any time span T, at most N failed checks per successful login and N more, plus floor(T/D), whatever else is called. |
| AccountProperties.NoLockoutNoBound | backend/crates/ferum-application/src/usecases/auth_usecase.rs:246-253 | With a lockout of no length any number of checks can fail at one instant. |
| AccountProperties.FlagMatchesBan | backend/crates/ferum-domain/src/auth_user.rs:28-33 | After any run whose last ban call on the user left no earlier flag over, the cached flag is live exactly while the stored ban is in force, but for the very instant it ends and after a permanent ban's first year. |
| AccountProperties.FlagAgreesIff | backend/crates/ferum-application/src/usecases/moderation_usecase.rs:359-377 | After any run, whatever the expiries, flag and ban agree at every later instant but those exactly if the last ban call on the user was not a temporary ban past already over a flag that outlived it. |
| AccountProperties.TempBanAgreesIff | backend/crates/ferum-application/src/usecases/moderation_usecase.rs:371-377 | A temporary ban leaves flag and ban agreeing exactly when it ends in the future or no earlier flag outlives the call. |
| AccountProperties.BanAgrees | backend/crates/ferum-application/src/usecases/admin_usecase.rs:374-381 | The administrator's ban leaves them agreeing whenever it ends. |
| AccountProperties.SessionsFollowHistory | backend/crates/ferum-application/src/usecases/auth_usecase.rs:293-299 | In every interleaving the cache holds a session exactly while its latest login has been followed by neither its logout nor a ban of its user. |
| AccountProperties.NoSessionUnderBan | backend/crates/ferum-application/src/usecases/admin_usecase.rs:378-383 | A user with a session is not under a ban. |
| AccountProperties.RefreshIffSession | backend/crates/ferum-application/src/usecases/auth_usecase.rs:307-337 | In every interleaving a refresh succeeds exactly when the latest of login, logout and ban is the login and the session has not expired. |
| Rbac.RolePermissionCache.Load | backend/crates/ferum-infrastructure/src/role_permission_cache.rs:76-88 | A role carries a key exactly when some row says so, in any row order; a key's minimum trust is that of its first row. |
| Rbac.RolePermissionCache.ResolveGlobal | backend/crates/ferum-infrastructure/src/role_permission_cache.rs:91-105 | The keys of some global assignment's role, and no others. |
| Rbac.RolePermissionCache.ResolveCategory | backend/crates/ferum-infrastructure/src/role_permission_cache.rs:108-122 | Per category, the keys of some assignment scoped to it, and no others. |
| Rbac.HasPermInIffGranted | backend/crates/ferum-domain/src/auth_user.rs:41-47 | The per-item check holds exactly when some global or matching assignment's role is granted the key by the rows. |
| Rbac.FilterMatchesCheck | backend/crates/ferum-domain/src/auth_user.rs:52-73 | Filtering by the permitted categories keeps exactly what the per-item check allows. |
| Rbac.RoleUseCase.AssignRole | backend/crates/ferum-application/src/usecases/role_usecase.rs:158-182 | Assigns only a role all of whose permissions the actor holds in the scope, once per user, role and scope. |
| Rbac.RoleUseCase.RevokeRole | backend/crates/ferum-application/src/usecases/role_usecase.rs:185-210 | Revokes an existing assignment, except the last global holder of the admin role. |
| Rbac.AssignAnswers | backend/crates/ferum-application/src/usecases/role_usecase.rs:163-177 | The checks of an assignment in order: the right, the role, every permission of it held in the scope, and no assignment there yet. |
| Rbac.RevokeAnswers | backend/crates/ferum-application/src/usecases/role_usecase.rs:192-207 | The checks of a revocation in order; the guard counts the users who hold the administrator role globally and unexpired. |
| Rbac.GrantIsHistory | backend/crates/ferum-application/src/usecases/role_usecase.rs:179-209 | In every run an assignment is in the table, with the expiry its call carried, if and only if the latest allowed call on it assigned it, or it was there from the start and none named it. |
| Rbac.HeldUntilExpiry | backend/crates/ferum-application/src/usecases/role_usecase.rs:179-181 | A permission held in a scope through one assignment alone is held until the expiry of the call that assigned it, and no longer. |
| Rbac.NoNewAuthority | backend/crates/ferum-application/src/usecases/role_usecase.rs:166-177 | With role contents fixed, no run makes a permission effective in a scope where nobody held it at the start, even with stale claims. |
| Rbac.StepKeepsAdmin | backend/crates/ferum-application/src/usecases/role_usecase.rs:194-207 | No call takes away the last global administrator at the time it is made. |
| Rbac.RunKeepsAdmin | backend/crates/ferum-application/src/usecases/role_usecase.rs:158-210 | If no global assignment of the administrator role expires, a run that starts with a global administrator always keeps one. |
| Rbac.AdminForeverIff | backend/crates/ferum-application/src/usecases/role_usecase.rs:194-207 | There will be a global administrator at every time exactly if one has no expiry. |
| Rbac.AdminAssuredIff | backend/crates/ferum-application/src/usecases/role_usecase.rs:158-210 | With expiry, a run that starts with an administrator for good stays assured of one at every time and after every call exactly if none of its calls revokes the only one without expiry. |
| Rbac.ExpiryLosesAdmin | backend/crates/ferum-application/src/usecases/role_usecase.rs:194-207 | The guard lets such a call through while another assignment is active that will expire; once it has, there is no administrator. |
| ConfigTemplates.ResolveConfigTemplate | backend/crates/ferum-application/src/usecases/plugin_usecase.rs:717-728 | The loop applies one replacement per string entry, in iteration order. |
| ConfigTemplates.ReplaceFills | backend/crates/ferum-application/src/usecases/plugin_usecase.rs:721-724 | Replacing one placeholder in the text fills exactly the holes of its key. |
| ConfigTemplates.SequentialIsSimultaneous | backend/crates/ferum-application/src/usecases/plugin_usecase.rs:717-728 | With no opening brace in text and values and brace-free keys, filling one key at a time equals filling all at once. |
| ConfigTemplates.OrderDoesNotMatter | backend/crates/ferum-application/src/usecases/plugin_usecase.rs:717-728 | So the iteration order of the config does not matter. |
| ConfigTemplates.UnresolvedIffMissing | backend/crates/ferum-application/src/usecases/plugin_usecase.rs:531-547 | The result still contains an opening exactly when some placeholder's field is missing or not a string. |
| ConfigTemplates.BracedValuesDependOnOrder | backend/crates/ferum-application/src/usecases/plugin_usecase.rs:717-728 | An opening brace in a value can make the order matter. |
| Plugins.WebhookWrittenIff | backend/crates/ferum-application/src/usecases/plugin_usecase.rs:516-570 | A webhook row is written exactly when it has an event, all its fields are configured and the URL is acceptable, and carries the URL filled all at once. |
| Plugins.PluginUseCase.RegisterHooksFromManifest | backend/crates/ferum-application/src/usecases/plugin_usecase.rs:463-496 | Replaces the hook rows by the manifest's hooks that were granted, in order. |
| Plugins.PluginUseCase.RegisterUiSlotsFromManifest | backend/crates/ferum-application/src/usecases/plugin_usecase.rs:498-506 | Replaces the slot rows by the manifest's. |
| Plugins.PluginUseCase.RegisterManifestWebhooks | backend/crates/ferum-application/src/usecases/plugin_usecase.rs:510-573 | Adds the rows of the definitions that resolve, deleting none first. |
| Plugins.PluginUseCase.ReloadPlugin | backend/crates/ferum-infrastructure/src/plugins/registry.rs:498-530 | Puts an active script plugin whose runtime does not start in error and changes nothing else. |
| Plugins.PluginUseCase.RegisterExtracted | backend/crates/ferum-application/src/usecases/plugin_usecase.rs:81-157 | Stores a new plugin as inactive, or in error with the failure reported if its schema could not be provisioned. |
| Plugins.PluginUseCase.Configure | backend/crates/ferum-application/src/usecases/plugin_usecase.rs:162-191 | Stores a config that has every required field and reloads the plugin. |
| Plugins.PluginUseCase.Activate | backend/crates/ferum-application/src/usecases/plugin_usecase.rs:201-243 | Does nothing to an active plugin; otherwise writes the rows of its tier and sets it active before the reload. |
| Plugins.PluginUseCase.Deactivate | backend/crates/ferum-application/src/usecases/plugin_usecase.rs:247-276 | Takes away webhooks and slots and leaves the hook rows. |
| Plugins.PluginUseCase.Uninstall | backend/crates/ferum-application/src/usecases/plugin_usecase.rs:283-358 | Removes the plugin and all its rows, only under its own slug. |
| Plugins.PluginUseCase.UpdateUiSlotPlacement | backend/crates/ferum-application/src/usecases/plugin_usecase.rs:439-459 | Renames and reorders one of the plugin's own slot rows, under a name that is not blank. |
| PluginHistory.PluginAnswers | backend/crates/ferum-application/src/usecases/plugin_usecase.rs:81-459 | What each call answers, as the list of its checks in order. |
| PluginHistory.RegisteredAs | backend/crates/ferum-application/src/usecases/plugin_usecase.rs:140-191 | In every run a plugin is there if and only if registered and not uninstalled since, with tier, manifest and grants of the registration and the config last stored. |
| PluginHistory.StatusIsHistory | backend/crates/ferum-application/src/usecases/plugin_usecase.rs:201-276 | In every run the status is given by the later of activation and deactivation, the last reload and the outcome of provisioning. |
| PluginHistory.HooksAreHistory | backend/crates/ferum-application/src/usecases/plugin_usecase.rs:463-496 | In every run the hook rows are those of manifest and grants once the plugin was activated, and stay. |
| PluginHistory.WebhooksAreHistory | backend/crates/ferum-application/src/usecases/plugin_usecase.rs:510-573 | In every run the webhook rows are those of the config in force when the plugin was switched on, whatever is configured later, and none while it is off. |
| PluginHistory.SlotsAreHistory | backend/crates/ferum-application/src/usecases/plugin_usecase.rs:439-506 | In every run a slot row is the manifest's, under the name and at the place last given to it since it was written. |
| PluginHistory.WebhooksAre | backend/crates/ferum-application/src/usecases/plugin_usecase.rs:510-573 | The webhook rows are exactly those of the definitions that give one. |
| Plugins.RunRowsMatch | backend/crates/ferum-application/src/usecases/plugin_usecase.rs:201-276 | In every run webhooks exist only for active manifest plugins, slots only for active plugins or script plugins in error, and every hook row is both asked for and granted. |
| Plugins.ActivationWritesExactly | backend/crates/ferum-application/src/usecases/plugin_usecase.rs:216-226 | Activation in any run leaves exactly the rows of manifest, grants and config, none of them twice over. |
| Plugins.ReactivationChangesNothing | backend/crates/ferum-application/src/usecases/plugin_usecase.rs:260-270 | Activate, deactivate, activate leaves the plugin as one activation does, placements in between undone. |
| Plugins.RunSlotsMatch | backend/crates/ferum-application/src/usecases/plugin_usecase.rs:162-276 | In every run status and slots follow the history of reloads: while active or after a noticed failure a row for each of the manifest's slots, placed as the administrator chose, and none otherwise. |
| Plugins.SlotsOnlyWhileActiveIff | backend/crates/ferum-infrastructure/src/plugins/registry.rs:504-527 | In every run a plugin has slots without being active exactly if its manifest has slots, it is a script plugin with a runtime, and its last effective reload, by activation or configuration, failed. |
| Plugins.SlotsOnlyWhileActive | backend/crates/ferum-application/src/usecases/plugin_usecase.rs:264-270 | In runs whose runtimes all start, slots exist only while the plugin is active. |
| TrustScore.ScoreUseCase.Add | backend/crates/ferum-application/src/usecases/reaction_usecase.rs:64-146 | Refuses in the order of the checks; otherwise adds a missing reaction and spawns two points for a helpful or insightful one. |
| TrustScore.ScoreUseCase.Remove | backend/crates/ferum-application/src/usecases/reaction_usecase.rs:149-183 | Removes the reaction and spawns minus two points only if there was such a one. |
| TrustScore.ScoreUseCase.WarnUser | backend/crates/ferum-application/src/usecases/moderation_usecase.rs:278-320 | Spawns minus five points. |
| TrustScore.ScoreUseCase.ExecuteTask | backend/crates/ferum-infrastructure/src/repositories/user_repository.rs:648-666 | Runs one pending update, any of them, with the sum clamped to 0..100. |
| TrustHistory.ReactAnswers | backend/crates/ferum-application/src/usecases/reaction_usecase.rs:64-183 | The checks of reacting and taking back in order; only a new reaction asks the plugins. |
| TrustHistory.WarnAnswers | backend/crates/ferum-application/src/usecases/moderation_usecase.rs:278-296 | The checks of a warning in order. |
| TrustHistory.ReactionIsHistory | backend/crates/ferum-application/src/usecases/reaction_usecase.rs:118-172 | In every run a reaction is there if and only if the latest allowed call about it gave it, or it was there at the start and none was about it. |
| TrustHistory.SpawnsExactly | backend/crates/ferum-application/src/usecases/reaction_usecase.rs:134-180 | A call spawns two points for a new helpful or insightful reaction, two less for one taken back, five less for a warning, nothing otherwise, and scores change only when an update runs. |
| TrustScore.ScoreBooksBalance | backend/crates/ferum-application/src/usecases/reaction_usecase.rs:134-180 | In every run and schedule, score, pending updates and what the clamp has cost move by two per helpful or insightful reaction and minus five per warning. |
| TrustScore.GivenAndTakenBackAtMaximum | backend/crates/ferum-infrastructure/src/repositories/user_repository.rs:648-666 | At the maximum a reaction given and taken back costs two points. |
| TrustScore.EveryOrderExactIff | backend/crates/ferum-infrastructure/src/repositories/user_repository.rs:648-666 | A list of updates gives its exact sum in every order if and only if gains alone and losses alone stay in the range. |
| TrustScore.RunsAreDrains | backend/crates/ferum-application/src/usecases/reaction_usecase.rs:137-143 | A run of updates applies each pending one once, in the order it executes them. |
| TrustScore.AnyOrderRuns | backend/crates/ferum-application/src/usecases/reaction_usecase.rs:137-143 | Every order of a user's updates is the order of some run. |
| TrustScore.DrainedScoreExactIff | backend/crates/ferum-application/src/usecases/moderation_usecase.rs:311-317 | Draining what is pending gives the exact score in every run if and only if pending gains alone and losses alone stay in the range. |
| TrustScore.ScheduleSpawnsTheSame | backend/crates/ferum-application/src/usecases/reaction_usecase.rs:134-143 | When updates run changes neither the reactions nor the updates that a list of calls spawns. |
| TrustScore.NothingLostIff | backend/crates/ferum-application/src/usecases/reaction_usecase.rs:134-180 | For a list of calls with updates executed anywhere between or after them, no schedule loses a point to the clamp if and only if all gains due, pending and spawned, and all losses due each stay in the range. |
| TrustScore.ScoreConservedIff | backend/crates/ferum-application/src/usecases/reaction_usecase.rs:134-180 | In every schedule score plus pending updates moves by two per helpful or insightful reaction and minus five per warning, if and only if that condition holds. |
| Seeding.SeedBulkPosts | backend/crates/ferum-infrastructure/src/bulk_seed_service.rs:837-879 | Generates eighteen rows per thread, thread by thread, the first by the thread's author. |
| Seeding.SeededRows | backend/crates/ferum-infrastructure/src/bulk_seed_service.rs:844-878 | Row by row: the opening post by the thread's author, the replies by the users in turn, running numbers and stock sentences. |
| Seeding.TimeOrderIsSeedOrder | backend/crates/ferum-infrastructure/src/bulk_seed_service.rs:844-868 | For any number of threads, sorting by time gives back generation order: blocks lie three minutes apart or more, the opening post is first, nothing is dated now or later. |
| Seeding.ThreadStats | backend/crates/ferum-infrastructure/src/bulk_seed_service.rs:901-909 | The fold gives exactly the threads with posts, each with its number of posts and the time of its latest. |
| Seeding.ThreadTable.SyncStats | backend/crates/ferum-infrastructure/src/bulk_seed_service.rs:884-925 | Every thread with posts gets one reply less than posts and its latest time; the others keep their row. |
| Seeding.SeededThreadStats | backend/crates/ferum-infrastructure/src/bulk_seed_service.rs:901-922 | Whatever order the rows come back in, a seeded thread ends with 17 replies and the time of its own last post. |
| Seeding.FirstRowWins | backend/crates/ferum-infrastructure/src/bulk_seed_service.rs:103-117 | A stored row is never replaced, and of several new rows with one key the first is kept. |
| Seeding.Database.InsertInChunks | backend/crates/ferum-infrastructure/src/bulk_seed_service.rs:119-132 | Inserting in chunks of any size leaves the table as one insertion of all rows would. |
| ForumIndex.GroupBy | backend/crates/ferum-application/src/usecases/category_usecase.rs:136-153 | Filling the map row by row gives each key exactly its rows, in order. |
| ForumIndex.TakeGroups | backend/crates/ferum-application/src/usecases/category_usecase.rs:155-191 | Removing each group as it is used gives every top-level category its own groups all the same. |
| ForumIndex.GetForumIndex | backend/crates/ferum-application/src/usecases/category_usecase.rs:101-220 | The index equals the direct definition: visible top-level categories in order, each with its visible children, counts and own threads; the early returns change nothing. |
| ForumIndex.CountIsLastReport | backend/crates/ferum-application/src/usecases/category_usecase.rs:133-185 | The count shown for a category is the last one reported for it, zero if there is none. |
| ForumIndex.FilterPlaces | backend/crates/ferum-application/src/usecases/category_usecase.rs:105-109 | A selection keeps the order of what it selects and drops nothing else, element by element. |
| ForumIndex.AllVisibleShown | backend/crates/ferum-application/src/usecases/category_usecase.rs:101-191 | Every category that passes its visibility check is shown, a nested one if its parent is. |
| ForumIndex.ChildShownOnce | backend/crates/ferum-application/src/usecases/category_usecase.rs:144-170 | A visible nested category is listed in exactly one place, under its own parent, if that is a visible top-level category, and nowhere otherwise. |
| ForumIndex.NothingHiddenShown | backend/crates/ferum-application/src/permission.rs:16-42 | Everything listed passes its own visibility check. |
| ForumIndex.ThreadsRelabelled | backend/crates/ferum-application/src/usecases/category_usecase.rs:172-217 | The threads of an item are the recent threads of its category, in order, with its slug and name and their own tags. |

## Left out

- ThemeLoader.OrderDoesNotMatter: speaks of themes that do not clash with a first-party template; ThemeOrder.OrderIrrelevantIff covers the rest.
- PostProperties.CountersFollowPosts: covers the posts made by the post use case; a thread's opening post and the release of references when a whole thread is deleted belong to the thread use case.
- PostProperties.UploadsStayWithinQuota: covers accounts that store files only as post attachments; avatars, covers and plugin media are stored by other use cases.
- PostProperties.ReferenceCounts: a stored file's row is never removed; the clean-up job that deletes rows is not modelled.
- AccountProperties.LockoutBound: covers logins; a password reset or a manual unlock, which also clear the count, are not calls of the model.
- AccountProperties.FlagMatchesBan: covers a cache that keeps exact expiry times, as the in-memory cache does; the Redis cache rounds a lifetime down to whole seconds.
- AccountProperties.RefreshIffSession: tokens are unforgeable and told apart by their digest; the token's own expiry claim and its leeway, which outlives the cache entry, are not modelled.
- Plugins.RunRowsMatch: the ids and timestamps of rows and the in-memory dispatch table are not modelled.
- TrustScore.ScoreBooksBalance: a post's author never changes, and the thread of a reacted post exists.
- ForumIndex.GetForumIndex: category ids are distinct, as the primary key makes them.
- The template engine's parser, files that cannot be read, and the directory walk that groups files by slug: grouping is a premise.
- Rendering, mention events, email, registration, password reset, trust promotion and the last-seen update.
- Hashing: digests are arguments, and equal digests stand for equal contents or tokens.
- Keyword matching, image signatures, webhook URL checks and password checks: their outcomes are arguments of the calls.
- Failures of the database or the cache that the program logs and ignores: assumed not to happen.
- Races between the check and the write of one call: every call is one step.
- Integer widths, Unicode trimming and lower-casing: content lengths count characters, blank means ASCII white space.
- Role, permission and category editing; moderation reports; watch and mute; bookmarks, follows, notifications, search and tags beyond the index.
- Plugin media, schemas, logs and disk clean-up, the circuit breaker and the script sandbox.
- Seeded users, threads and reactions, whose rows are computed from their index alone.

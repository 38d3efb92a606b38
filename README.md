# PeerConnect service core in Dafny

This project models the business logic of PeerConnect, a peer question-and-answer
site for students, and the sign-in card in front of it.

Students post *doubts* (questions). Peers answer them in up to three steps, and a
verified answer earns its author credibility. A per-user, per-day quota limits
posting. The quota is five doubts plus one extra for every answer the user gave
that day. Before a doubt is stored, a keyword heuristic looks for existing doubts
with a similar title.

The model has seven modules:

- `Records` (records.dfy): the rows of the store's five tables (users, doubts,
  answers, notifications, daily tracking), the service's errors, and a `Result`
  type.
- `Seqs` (seqs.dfy): the JavaScript array operations the service relies on:
  `filter`, `findIndex`, and `sort` with a newest-first comparator.
- `Text` (text.dfy): `toLowerCase()` and `split(/\s+/)`, including the leading and
  trailing empty pieces JavaScript produces.
- `Similarity` (similarity.dfy): the duplicate-title check. It uses the eleven stop
  words, keywords longer than two characters, and matches counted with their
  repeats.
- `Quota` (quota.dfy): the daily tracking table and its invariant. Nobody has
  posted more on a day than five plus the bonus they earned that day.
- `DbService` (db_service.dfy): the store as a class with one sequence field per
  table. It has the methods `postDoubt`, `postAnswer`, `verifyAnswer` and
  `markNotificationsRead`, and the read-only `login`, `getDoubts`, `getAnswers`
  and `getNotifications`.
- `Auth` (auth_form.dfy): the sign-in card's modes `login`, `forgot`, `reset` and
  `success`. It covers the submit handler and the three buttons that switch modes,
  both as a class whose fields are the component's state and as pure transition
  functions. Signing in goes through the service's `login`.

Each service call runs as one atomic step on the in-memory store. The caller
supplies the clock reading `now` and the calendar date `today`. A doubt's and an
answer's id is `now`. The new-answer notification's id is `now + 1`. Timestamps
are whole numbers.

Some behaviour the model states follows the code and may surprise a reader:

- The stop list is exactly the eleven words at services/dbService.ts:106.
- `verifyAnswer` has no Mentor-role check. That check is only in the answer list's
  button.
- `postAnswer` does not check that `step1` is non-empty. That check is only in the
  answer form.
- `postDoubt` has no `checkSimilarity` option. It reads `force` and `checkOnly`
  from the doubt payload. With `checkOnly` it skips the quota gate.
- Verifying the same answer twice pays the author twice (`DbService.VerifyTwice`).

## Model

| member | source | states |
|---|---|---|
| Seqs.FilterMembers | services/dbService.ts:199-203 | `filter` keeps exactly the elements that pass the test |
| Seqs.FilterCounts | services/dbService.ts:199-203 | `filter` keeps each passing element as often as it occurs and drops the rest |
| Seqs.FindIndex | services/dbService.ts:93 | `findIndex` returns the first position whose element passes, or -1 exactly when none does |
| Seqs.Insert | services/dbService.ts:85 | the result holds the old elements plus exactly the inserted one |
| Seqs.InsertKeepsOrder | services/dbService.ts:85 | inserting into a newest-first list keeps it newest-first |
| Seqs.SortNewestFirst | services/dbService.ts:85 | the sort with comparator `b - a` yields a newest-first permutation of its input |
| Text.LowerChar | services/dbService.ts:107 | lower-casing maps A-Z to a-z, leaves every other character alone and keeps whitespace whitespace |
| Text.LowerIdempotent | services/dbService.ts:107 | lower-casing twice is lower-casing once |
| Text.FirstSpaceSpec | services/dbService.ts:107 | the first piece of a split contains no whitespace and ends at a whitespace character or at the end |
| Text.SpaceRunEndSpec | services/dbService.ts:107 | the separator `\s+` consumes a maximal run of whitespace |
| Text.WordsHaveNoSpace | services/dbService.ts:107 | no piece of `split(/\s+/)` contains whitespace |
| Text.WordsKeepEveryOtherChar | services/dbService.ts:107 | the pieces of `split(/\s+/)`, run together, are the input without its whitespace |
| Text.SplitJoinRoundTrip | services/dbService.ts:107 | splitting words joined by single spaces gives the words back |
| Text.LowerJoin | services/dbService.ts:107 | lower-casing a space-joined title lower-cases each of its words |
| Similarity.KeywordsAreLongNonStopTokens | services/dbService.ts:106-108 | a keyword is a lower-cased title token longer than two characters that is not one of the eleven stop words, kept with its repeats |
| Similarity.SimilarDoubtsAreTheSimilarOnes | services/dbService.ts:109-113 | a stored doubt is reported exactly when at least two keywords occur among its title's tokens |
| Similarity.FewKeywordsNeverSimilar | services/dbService.ts:111-112 | a title with fewer than two keywords matches nothing |
| Similarity.ExistingSideFilterIrrelevant | services/dbService.ts:110-111 | leaving stop words and short tokens in the stored title does not change the match count |
| Similarity.SimilarityIgnoresCase | services/dbService.ts:107-111 | the check does not depend on the case of either title |
| Similarity.TitleWordsOfJoin | services/dbService.ts:107-111 | a title of non-empty words joined by single spaces has those words, lower-cased, as its tokens |
| Similarity.TwoSharedKeywordsMakeSimilar | services/dbService.ts:109-113 | "A B C" is similar to "A B" whenever the lower-cased A and B are keywords |
| Similarity.RepeatedKeywordCountsTwice | services/dbService.ts:109-113 | matches count repeats and only the new title is filtered, so the relation is not symmetric |
| Similarity.NewtonRaphsonExample | services/dbService.ts:105-114 | the literal title "Newton-Raphson Convergence Proof" is similar to the literal title "Newton-Raphson Convergence" |
| Quota.FindTrack | services/dbService.ts:93 | the tracking lookup finds the first record for the user and date, or -1 exactly when there is none |
| Quota.Lookup | services/dbService.ts:78 | the lookup returns the first record for the user and date, and a missing record reads as nothing posted and no bonus |
| Quota.LookupAfterUpdate | services/dbService.ts:128 | updating a record's counters in place moves no lookup |
| Quota.LookupAfterAppend | services/dbService.ts:95 | appending a record for another key moves no other lookup |
| Quota.RecordPostCounts | services/dbService.ts:93-128 | a post raises the poster's count for the day by exactly one, keeps the bonus, and keeps one record per user and date |
| Quota.GrantBonusCounts | services/dbService.ts:160-165 | an answer raises the answerer's bonus for the day by exactly one, keeps the count, and keeps one record per user and date |
| Quota.RecordPostElsewhere | services/dbService.ts:93-128 | a post leaves the record of every other user and date as it was |
| Quota.GrantBonusElsewhere | services/dbService.ts:160-165 | an answer leaves the record of every other user and date as it was |
| Quota.RecordPostFrame | services/dbService.ts:93-128 | a post changes at most the poster's record for the day and adds at most one record |
| Quota.GrantBonusFrame | services/dbService.ts:160-165 | an answer changes at most the answerer's record for the day and adds at most one record |
| Quota.LazyRecordPost | services/dbService.ts:93-98 | the lazily pushed zero record reads like the lookup, and bumping it at the found index is the recorded post |
| Quota.RecordPostKeepsQuota | services/dbService.ts:99-103 | a post the limit gate lets through keeps every record within five plus its bonus |
| Quota.GrantBonusKeepsQuota | services/dbService.ts:160-165 | an answer keeps every record within five plus its bonus |
| Quota.ReplayKeepsQuota | services/dbService.ts:99-165 | after any run of posts and answers, nobody's count for a day exceeds five plus that day's bonus |
| DbService.UserIndex | services/dbService.ts:136 | finds the first user with the id, or -1 exactly when there is none |
| DbService.UserNamed | services/dbService.ts:74 | finds the first user with the name, or -1 exactly when there is none |
| DbService.DoubtIndex | services/dbService.ts:137 | finds the first doubt with the id, or -1 exactly when there is none |
| DbService.AnswerIndex | services/dbService.ts:173 | finds the first answer with the id, or -1 exactly when there is none |
| DbService.Login | services/dbService.ts:71-80 | fails with AUTH_ERR exactly when no account has the username; otherwise returns the first account with that name, with today's count and allowance |
| DbService.LoginShowsAllowance | services/dbService.ts:77-79 | the allowance login shows is at least five and covers what was posted today |
| DbService.GetDoubts | services/dbService.ts:82-86 | every doubt, each as often as stored, newest first |
| DbService.GetAnswers | services/dbService.ts:199-203 | exactly the answers to the doubt, each as often as stored |
| DbService.GetAnswersAppend | services/dbService.ts:199-203 | the list keeps storage order: an answer stored last comes last in its doubt's list, and other doubts' lists are unchanged |
| DbService.GetNotifications | services/dbService.ts:205-211 | exactly the user's notifications, each as often as stored, newest first |
| DbService.MarkRead | services/dbService.ts:216-218 | the user's notifications become read and nothing else about any notification changes |
| DbService.MarkReadClearsFeed | services/dbService.ts:213-221 | afterwards the user's feed is all read and as long as before |
| DbService.MarkReadLeavesOthers | services/dbService.ts:213-221 | every other user's feed is exactly as before |
| DbService.MarkReadIdempotent | services/dbService.ts:216-218 | marking twice is marking once |
| DbService.SeedNewtonFlagged | services/dbService.ts:31-40 | on a fresh store, the title "Newton-Raphson Convergence Proof" reports the seeded Newton-Raphson doubt as similar |
| DbService.AcademicDatabase.constructor | services/dbService.ts:21-57 | a fresh store holds the four seeded users, the two seeded doubts and empty tables |
| DbService.AcademicDatabase.PostDoubt | services/dbService.ts:88-131 | LIMIT_ERR with the limit when the gate is shut and `checkOnly` is off; otherwise the similar doubts unless `force`; otherwise `checkOnly` success; otherwise one doubt appended and the day's count raised. Only the last changes the store, and the quota invariant holds throughout |
| DbService.AcademicDatabase.PostAnswer | services/dbService.ts:133-168 | a missing doubt or the author's own doubt is refused with the store unchanged; otherwise one unverified answer, one notification to the doubt's owner, and the answerer's bonus raised |
| DbService.AcademicDatabase.RaiseBonus | services/dbService.ts:160-165 | the answerer's record for today is created with bonus one or has its bonus raised by one |
| DbService.AcademicDatabase.VerifyAnswer | services/dbService.ts:170-197 | an unknown answer is refused; otherwise it is marked verified, and an existing author gains fifty points and one notification naming the doubt |
| DbService.AcademicDatabase.MarkNotificationsRead | services/dbService.ts:213-221 | the stored notifications become their marked version and no other table changes |
| DbService.VerifyTwice | services/dbService.ts:170-197 | verifying an answer twice pays its author one hundred points and sends two notifications |
| Auth.ValidateEmailIsDomainSuffix | components/AuthForm.tsx:20 | an address passes exactly when it is some name followed by "@sonatech.ac.in" |
| Auth.UsernameOf | components/AuthForm.tsx:38 | the username is the longest prefix of the address without an '@' |
| Auth.UsernameOfCollegeAddress | components/AuthForm.tsx:20-38 | a college address built from a name gives that name back as the username |
| Auth.Submit | components/AuthForm.tsx:22-63 | a submit changes only the mode and the error; an error keeps the mode; the mode moves only from forgot to reset or from reset to success; signing in happens only from login mode |
| Auth.LoginSubmit | components/AuthForm.tsx:26-43 | the address is checked before the password, and signing in succeeds exactly when both pass and an account has the address's name |
| Auth.PasswordOnlyLength | components/AuthForm.tsx:31-39 | any two passwords of eight characters or more sign in alike |
| Auth.ForgotSubmit | components/AuthForm.tsx:44-50 | a valid reset address moves to reset; an invalid one stays in forgot with its message |
| Auth.ResetSubmit | components/AuthForm.tsx:51-62 | the length is checked first, then a mismatch gives its own message, and the mode becomes success exactly when the new password is long enough and confirmed |
| Auth.Press | components/AuthForm.tsx:73-164 | "Forgot password?" goes to forgot, the other two buttons go to login, and only the two in-form buttons clear the error |
| Auth.StepMoves | components/AuthForm.tsx:65-164 | every action follows the mode graph; reset has no way back, and success is left only by "Return to Login" |
| Auth.RunKeepsInput | components/AuthForm.tsx:22-164 | no run of submits and clicks changes what was typed |
| Auth.RunGuards | components/AuthForm.tsx:44-62 | reset or success is reached only with a valid reset address, and success only with a confirmed new password of eight or more characters |
| Auth.AuthForm.constructor | components/AuthForm.tsx:11-18 | the card opens in login mode with the demo account filled in |
| Auth.AuthForm.HandleSubmit | components/AuthForm.tsx:22-63 | the handler's new state and sign-in result are those of `Submit` |
| Auth.AuthForm.ReturnToLoginClicked | components/AuthForm.tsx:73 | the success screen's button goes back to login and keeps the error |
| Auth.AuthForm.ForgotPasswordClicked | components/AuthForm.tsx:139 | login goes to forgot with the error cleared |
| Auth.AuthForm.BackToLoginClicked | components/AuthForm.tsx:164 | forgot goes back to login with the error cleared |

## Left out

- Persistence and delays: the store lives in memory. `localStorage`, JSON loading and saving, the parse error, and the random network delay are not modelled.
- Loading works on a copy that is saved only on success. The model's methods change the store only on their success paths.
- Concurrency: each operation is one atomic step.
- Clock and calendar: `Date.now()` ids, ISO timestamps and today's date are parameters. Timestamps are whole numbers, and sorting compares them directly.
- DbService.AcademicDatabase.PostDoubt: requires a known user. The source reads the user only on the storing path (services/dbService.ts:125-126), where an unknown id crashes. LIMIT_ERR, the similar-doubts result and the `checkOnly` success are returned for an unknown user too, and the model does not cover those calls.
- DbService.AcademicDatabase.PostAnswer: requires a known user. The source reports a missing doubt before crashing on an unknown user.
- Payload spread: `...doubtData` (services/dbService.ts:126) stores every field of the payload in the saved doubt, including `checkOnly`, `force` and the `checkSimilarity` flag the post form sends (components/PostDoubt.tsx:22-28). `Records.Doubt` keeps only the content fields. A payload is assumed not to carry `id`, `userId` or `username`, so the spread overwrites none of them. The form's own `force` travels in a third argument that `postDoubt` ignores (components/PostDoubt.tsx:52-56).
- DbService.AcademicDatabase.constructor: only the fresh-store case is modelled. Seeding is skipped in the source when the storage key already exists.
- The optional `notifications` table (`db.notifications || []`) is always present, possibly empty.
- Seqs.SortNewestFirst: inserting ahead of equal keys is meant to keep ties in their stored order, as JavaScript's stable sort does, but that is not proved. Only the newest-first order and the multiset are.
- DbService.GetDoubts: `sort` reorders the loaded copy in place. The model returns the sorted sequence. That the sort keeps equal timestamps in their stored order is not proved.
- DbService.GetNotifications: that the sort keeps equal timestamps in their stored order is not proved.
- Text.LowerChar: lower-cases only A to Z. JavaScript's `toLowerCase` also lower-cases letters of other alphabets.
- String lengths count characters. JavaScript's `.length` counts UTF-16 code units, which differs for characters outside the Basic Multilingual Plane. This affects the keyword length and the password length checks.
- Auth: the async call to `login` is answered directly from the given tables. The `onLogin` callback is modelled as the account the handler returns. Each submit is one atomic step. The source waits 400-800 ms for `login` (components/AuthForm.tsx:39), and during that wait "Forgot password?" can still be clicked. The source can then call `onLogin` or show the credentials error while already in forgot mode. Clicks during a pending login are not modelled, and `Auth.Submit`'s "signing in happens only from login mode" relies on this.
- Auth.Available: the browser's own checks stop a submit before `handleSubmit` runs. These are the `required` fields and the `type="email"` inputs (components/AuthForm.tsx:104, 109, 123, 154, 159, 182, 193). The model lets every submit outside the success screen reach `Submit`, including one with an empty field.
- Auth: the input fields' change handlers and the show-password toggle (components/AuthForm.tsx:108, 122, 127, 158, 181, 192) only overwrite one field and are not modelled. Typed values are the form's fields.
- Rendering, styling and every other component (navigation bar, toasts, whiteboard, dashboard, feed) are not part of this model.

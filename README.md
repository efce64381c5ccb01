# Traveltrek membership core in Dafny

This project models the server core of Traveltrek, a membership-based travel
service. Members buy a 1-, 3- or 5-year plan that entitles them to a number
of travel days. Operators activate the plan, which allocates a per-year
member number, extend it and grant extra days or destinations. Members sign in with
an e-mail or with their member number. Profile and password changes are
confirmed through one-time codes. A chat assistant is rate-limited and falls
back to canned keyword replies when the language model is unavailable.

The model has one Dafny module per source file:

- `OtpService` is the in-memory one-time-code store, a class over a map.
- `RateLimitService` is the per-user fixed-window chat limiter, a class over a map.
- `AdminMiddleware` is the role gate and its three presets.
- `Persistence` holds the database tables as one object, `Database`. Its
  invariant `Valid` is the set of unique constraints the handlers rely on.
- `MembershipIds` is the member-number allocator.
- `MembershipController` holds the member-facing membership handlers:
  enrolment, lazy expiry, plan choice, plan list, payment and cancellation.
- `AdminController` holds the operator handlers: activation, rejection,
  extension, plan configuration and custom overrides.
- `AuthController` holds registration, both logins, first-time password
  setup and the forgotten-password flow, plus the onboarding membership.
- `UserController` holds the code-confirmed profile and password changes.
- `DestinationController` and `BrochureController` hold the catalogue
  tables, each a class over a map.
- `AiService` is the keyword fallback of the chat assistant.
- `Wrappers`, `Text` and `Decimal` are shared helpers:
  - `Option` and the HTTP reply type `Response`;
  - JavaScript `trim`, ASCII lower-casing, substring search and ordering by a text key;
  - decimal rendering, zero padding and parsing.

Every handler is a method on the `Database` object and, where it uses codes,
on the `OtpStore` object. Its `ensures` clauses give the HTTP status, the
message and the complete new state for every branch the handler takes.

Values from outside the handler are parameters:

- the clock is `now` (milliseconds) and `year`;
- `Math.random()` is `draw`, in [0, 1);
- a bcrypt hash is `hashed`, and bcrypt comparison is `compare`;
- the e-mail format check is `isEmail`;
- the row ids the database generates are fresh-id parameters.

A route's role gate is the handler's precondition, for example
`AdminMiddleware.Ops(Some(caller))`.

## Model

| member | source | states |
|---|---|---|
| OtpService.OtpNumber | backend/src/services/otpService.ts:23-25 | the drawn code lies between 100000 and 999999 |
| OtpService.GenerateOtp | backend/src/services/otpService.ts:23-25 | a code is six decimal digits, never starting with 0, reading back as a number in 100000..999999 |
| OtpService.StoreKeyInjective | backend/src/services/otpService.ts:29 | keys `userId:field` of different (user, purpose) pairs differ when user ids have no colon |
| OtpService.AfterStore | backend/src/services/otpService.ts:27-35 | storing sets exactly the (user, purpose) entry, expiring five minutes later, replacing the earlier one; other entries are kept |
| OtpService.VerifyTransition | backend/src/services/otpService.ts:37-57 | verification succeeds iff an entry exists, has not expired and holds the code; success hands back the stored value and removes the entry; an expired entry is removed; a wrong code keeps it |
| OtpService.Swept | backend/src/services/otpService.ts:14-21 | the sweep keeps exactly the unexpired entries, unchanged |
| OtpService.OtpStore.constructor | backend/src/services/otpService.ts:11 | the store starts empty |
| OtpService.OtpStore.StoreOtp | backend/src/services/otpService.ts:27-35 | the store after `storeOtp` is `AfterStore` of the old store |
| OtpService.OtpStore.VerifyOtp | backend/src/services/otpService.ts:37-57 | the reply and the new store are those of `VerifyTransition` on the old store |
| OtpService.OtpStore.SweepExpired | backend/src/services/otpService.ts:14-21 | the loop leaves exactly `Swept` of the old store |
| OtpService.StoreThenVerify | backend/src/services/otpService.ts:27-57 | a code stored and then verified no later than its expiry instant succeeds, returns the stored value, and is gone afterwards |
| OtpService.VerifyIsSingleUse | backend/src/services/otpService.ts:54-56 | after a successful verification the same code is refused |
| OtpService.ExpiredCodeRefused | backend/src/services/otpService.ts:45-48 | after five minutes even the right code is refused and the entry dropped |
| OtpService.WrongCodeKeepsEntry | backend/src/services/otpService.ts:50-52 | a wrong guess is refused but the right code still works later within the window |
| OtpService.ReissueInvalidatesEarlierCode | backend/src/services/otpService.ts:27-35 | a second request for the same purpose invalidates the first code |
| OtpService.VerifyIsolated | backend/src/services/otpService.ts:37-57 | verifying one (user, purpose) leaves every other entry as it was |
| RateLimitService.CheckTransition | backend/src/services/rateLimitService.ts:25-44 | with no open window a new one starts, allowed with 9 left; a full window denies with 0 left and no change; otherwise the count rises by one; other users untouched; counts stay in 1..10 |
| RateLimitService.Swept | backend/src/services/rateLimitService.ts:16-23 | the sweep keeps exactly the windows not yet past their reset instant |
| RateLimitService.RateLimiter.constructor | backend/src/services/rateLimitService.ts:9 | the limiter starts empty |
| RateLimitService.RateLimiter.CheckRateLimit | backend/src/services/rateLimitService.ts:25-44 | the decision and new store are those of `CheckTransition`; counts stay within 1..10 |
| RateLimitService.RateLimiter.GetRateLimitInfo | backend/src/services/rateLimitService.ts:46-52 | read-only; full allowance and no reset instant without an open window, otherwise what is left and the reset instant; always 0..10 |
| RateLimitService.RateLimiter.SweepExpired | backend/src/services/rateLimitService.ts:16-23 | the loop leaves exactly `Swept` of the old store |
| RateLimitService.RunChecks | backend/src/services/rateLimitService.ts:25-44 | one decision per request in a sequence of checks |
| RateLimitService.WithinOpenWindow | backend/src/services/rateLimitService.ts:30-43 | inside an open window with count c, the i-th further request is allowed iff c + i < 10, with the window's reset instant and the matching remaining count; the count ends at min(c + n, 10) |
| RateLimitService.ExactlyTenPerWindow | backend/src/services/rateLimitService.ts:12-44 | a fresh window admits exactly the first ten requests within a minute and denies the rest |
| RateLimitService.RunIsolated | backend/src/services/rateLimitService.ts:25-44 | one user's requests leave every other user's window unchanged |
| AdminMiddleware.EffectiveRole | backend/src/middleware/adminMiddleware.ts:13 | an empty role counts as USER |
| AdminMiddleware.Gate | backend/src/middleware/adminMiddleware.ts:7-32 | no caller gets 401; the request passes iff the effective role is in the allowed list (default ADMIN, OPS, SUPPORT); otherwise 403, whose body carries that role and that list |
| AdminMiddleware.PresetsNested | backend/src/middleware/adminMiddleware.ts:35-41 | admin-only implies ops implies support; the default list equals support; each preset admits exactly its named roles |
| AdminMiddleware.UserRoleExcluded | backend/src/middleware/adminMiddleware.ts:5-41 | a USER or empty role gets 403 from every preset and from the default, the reply naming the role USER and the route's list |
| MembershipIds.NextCounter | backend/src/controllers/authController.ts:288-292 | the upsert leaves 1 for a new year and one more than the stored value otherwise |
| MembershipIds.MembershipIdShape | backend/src/controllers/authController.ts:295-296 | for a four-digit year and a counter below a million, the number has ten digits, starts with the year, and reads back as year * 10^6 + counter |
| MembershipIds.MembershipIdInjective | backend/src/controllers/authController.ts:295-296 | different (year, counter) pairs give different numbers |
| MembershipIds.MembershipIdIncreasing | backend/src/controllers/authController.ts:284-297 | within a year a larger counter gives a larger number |
| MembershipIds.GenerateMembershipId | backend/src/controllers/authController.ts:284-297 | advances that year's counter, returns the number built from the new value, and changes nothing else |
| MembershipIds.SuccessiveAllocationsIncrease | backend/src/controllers/authController.ts:284-297 | two allocations in one year give consecutive counters and increasing numbers |
| MembershipController.DerivedStatus | backend/src/controllers/membershipController.ts:110-117 | a read reports EXPIRED instead of the stored status iff the record is ACTIVE and past its end date |
| MembershipController.RemainingDays | backend/src/controllers/membershipController.ts:120 | plan days plus extra days (none = 0) minus used days, negative iff overused |
| MembershipController.LazyExpiryIdempotent | backend/src/controllers/membershipController.ts:110-117 | writing the derived status back is a fixed point |
| MembershipController.ExpiryIsPermanent | backend/src/controllers/membershipController.ts:110-117 | once a read reports EXPIRED, every later read does |
| MembershipController.ExpiryKeepsRemainingDays | backend/src/controllers/membershipController.ts:110-120 | the expiry write-back does not change the remaining days |
| MembershipController.EnrolledMembership | backend/src/controllers/membershipController.ts:50-60 | a new request is PENDING and UNPAID with the plan's days and price, no dates, no number, and remaining days equal to the plan days |
| MembershipController.ResetToPending | backend/src/controllers/membershipController.ts:181-194 | re-choosing resets status, payment, dates and used days for the new plan and keeps number, extra days and destinations |
| MembershipController.ActivePlans | backend/src/controllers/membershipController.ts:223-226 | exactly the active plans |
| MembershipController.DefaultPlans | backend/src/controllers/membershipController.ts:229-241 | the three active defaults 1Y/6 days/9999, 3Y/18/24999, 5Y/30/39999, with unique plan types |
| MembershipController.ActivePlanOfType | backend/src/controllers/membershipController.ts:26-28 | finds the active plan of that type, or reports that none exists |
| MembershipController.PlanOfType | backend/src/controllers/membershipController.ts:171-173 | finds the plan of that type, active or not, or reports that none exists |
| MembershipController.EnrollMembership | backend/src/controllers/membershipController.ts:7-83 | a missing field, a known e-mail or an unknown plan gives 400 and creates nothing; otherwise a password-less USER and its PENDING request are created together, with reply 201 |
| MembershipController.GetMembership | backend/src/controllers/membershipController.ts:86-142 | no membership lists the active plans by type; otherwise returns the record with its derived status, stores that status and reports the remaining days; nothing else changes |
| MembershipController.ChoosePlan | backend/src/controllers/membershipController.ts:145-218 | an invalid type, an ACTIVE or PENDING record, or a missing plan gives 400 with nothing changed; otherwise the record is reset or created as a PENDING request, reply 201 |
| MembershipController.GetPlans | backend/src/controllers/membershipController.ts:221-248 | lists the active plans by type; with none active it seeds the defaults, and fails with 500 iff a default plan type already exists |
| MembershipController.InactivePlansBreakGetPlans | backend/src/controllers/membershipController.ts:229-241 | a table holding one inactive 1Y plan has no active plan and clashes with the seed |
| MembershipController.GetPlansSeedingEmptyTable | backend/src/controllers/membershipController.ts:221-248 | corrected list: seeds only an empty table, never fails, always lists exactly the active plans |
| MembershipController.MarkPaymentDone | backend/src/controllers/membershipController.ts:251-293 | 404 without a record, 400 unless PENDING; otherwise appends a SUCCESS payment of the snapshot amount and marks the record PAID, still PENDING |
| MembershipController.CancelMembership | backend/src/controllers/membershipController.ts:296-319 | 404 without a record, 400 unless PENDING; otherwise deletes exactly the caller's record |
| AdminController.AddDays | backend/src/controllers/adminController.ts:177-181 | adding positive days moves an instant later, negative days earlier |
| AdminController.AddYears | backend/src/controllers/adminController.ts:97 | adding a positive number of years moves an instant later |
| AdminController.YearsFor | backend/src/controllers/adminController.ts:93-95 | 3 for 3Y, 5 for 5Y, 1 otherwise |
| AdminController.Activated | backend/src/controllers/adminController.ts:99-109 | the activated record is ACTIVE and PAID with the number, starts now, ends the plan's years later, and is otherwise unchanged |
| AdminController.ActiveUntilEndDate | backend/src/controllers/adminController.ts:93-109 | an activated membership reads ACTIVE up to its end instant and EXPIRED after it |
| AdminController.Extended | backend/src/controllers/adminController.ts:173-181 | non-zero additional days are added to the plan days; non-zero extension days move an existing end date; nothing else changes |
| AdminController.ExtendAddsRemainingDays | backend/src/controllers/adminController.ts:173-175 | extending by d plan days adds exactly d remaining days |
| AdminController.WithOverrides | backend/src/controllers/adminController.ts:260-262 | supplied extra days and destination list replace the stored ones; absent ones are kept |
| AdminController.OverrideSetsRemainingDays | backend/src/controllers/adminController.ts:260-262 | setting extra days c makes the remaining days plan days + c − used days |
| AdminController.LifecycleScenario | backend/src/controllers/adminController.ts:69-196 | enrol in 1Y, activate, extend by 5 and override destinations: ACTIVE, PAID, a one-year end date, 11 days remaining |
| AdminController.ActivateMembership | backend/src/controllers/adminController.ts:69-129 | 404 for an unknown record and 400 for an ACTIVE one, with nothing changed; otherwise the counter advances and the record is activated with the new number, or 500 if that number is taken, with the counter still advanced |
| AdminController.RejectMembership | backend/src/controllers/adminController.ts:132-155 | 404 for an unknown record; otherwise that record is deleted whatever its status and the reason echoed |
| AdminController.ExtendMembership | backend/src/controllers/adminController.ts:158-196 | 404 for an unknown record; otherwise the record becomes `Extended` of it |
| AdminController.AdminDefaultPlans | backend/src/controllers/adminController.ts:207-213 | the two defaults 1Y/6 days/9999 and 3Y/18/24999 |
| AdminController.GetPlanConfigs | backend/src/controllers/adminController.ts:199-225 | seeds an empty table with the two defaults, then lists every plan, inactive ones included, by type |
| AdminController.PatchedPlan | backend/src/controllers/adminController.ts:228-252 | each supplied field replaced, a description sent as null cleared, the row id and plan type kept |
| AdminController.PatchLaws | backend/src/controllers/adminController.ts:228-252 | an empty plan patch changes nothing; patching is idempotent |
| AdminController.UpdatePlanConfig | backend/src/controllers/adminController.ts:228-252 | an unknown plan id gives 500 with nothing changed; otherwise the plan is patched |
| AdminController.UpdateMembership | backend/src/controllers/adminController.ts:255-275 | as written: looks up the membership by row id; a miss gives 500; otherwise applies `WithOverrides` |
| AdminController.UserIdMissesMembership | backend/src/routes/adminRoutes.ts:44 | a user's id, as the route passes it, does not find that user's membership |
| AdminController.UpdateMembershipOfUser | backend/src/controllers/adminController.ts:255-275 | corrected: the overrides go to the membership of the user in the path; only a user without one gets 500 |
| AuthController.ProfileOf | backend/src/controllers/authController.ts:57-63 | the reply echoes the row's id, name, e-mail, phone and role |
| AuthController.Register | backend/src/controllers/authController.ts:8-70 | schema failure gives 400 and a registered e-mail 409, both creating nothing; otherwise one USER row with the password hash, not password-set, reply 201 |
| AuthController.OnboardingMembership | backend/src/services/onboardingService.ts:10-20 | the onboarding record is 1Y, 6 days, status 'inactive' (not PENDING, ACTIVE or EXPIRED), with no dates |
| AuthController.TriggerOnboarding | backend/src/services/onboardingService.ts:6-37 | creates the onboarding record; if one exists, the failure is swallowed and nothing changes |
| AuthController.Login | backend/src/controllers/authController.ts:72-125 | 400 on schema failure; success iff a user with that e-mail has a hash the password matches; unknown e-mail or wrong password 401; no hash 500 |
| AuthController.LoginDoesNotRevealAccounts | backend/src/controllers/authController.ts:91-99 | unknown e-mail and wrong password give the same reply |
| AuthController.MemberLogin | backend/src/controllers/authController.ts:128-205 | 400 without a number, 401 for an unknown one; a non-ACTIVE membership is refused with its status; an ACTIVE one without a set password goes to setup; a session opens iff ACTIVE, password set, supplied and matching |
| AuthController.SetMemberPassword | backend/src/controllers/authController.ts:208-281 | each listed check gives its 400/404; e-mails compare ignoring case; only the owner's password hash and password-set flag change |
| AuthController.SetupThenSignIn | backend/src/controllers/authController.ts:128-281 | after an ACTIVE member sets a password, member login with it opens a session |
| AuthController.ForgotPassword | backend/src/controllers/authController.ts:304-344 | 400 without an e-mail; an unknown e-mail gets the generic reply and stores nothing; a known one gets a fresh code stored for (user, forgot_password) |
| AuthController.ResetPassword | backend/src/controllers/authController.ts:347-389 | the password becomes the new hash only when the new password has at least 6 characters and the reset code verifies; the code is consumed as `verifyOtp` says; nothing else changes |
| UserController.AppliedChange | backend/src/controllers/userController.ts:148-152 | writing a verified value sets name, phone or the password hash, keeping id and e-mail; any other field cannot be written |
| UserController.ToUpperChar | backend/src/controllers/userController.ts:165 | lower-case ASCII letters are upper-cased, other characters kept |
| UserController.Capitalised | backend/src/controllers/userController.ts:165 | same length, first character upper-cased, rest kept |
| UserController.ContactOf | backend/src/controllers/userController.ts:152-162 | the reply selects the id, name, e-mail and phone of the updated row |
| UserController.RequestProfileChange | backend/src/controllers/userController.ts:88-130 | only name or phone; 400 for a blank value and 404 for an unknown caller, storing nothing; otherwise the trimmed value is stored with a fresh code |
| UserController.VerifyProfileChange | backend/src/controllers/userController.ts:133-172 | 400 for missing fields or a failed code; on a valid code the value stored at request time is written and the reply names the field; a missing row or unwritable field gives 500 after the code is consumed |
| UserController.RequestedValueIsApplied | backend/src/controllers/userController.ts:88-172 | a name/phone change requested and verified in time writes the trimmed requested value, and the code cannot be reused |
| UserController.RequestPasswordChange | backend/src/controllers/userController.ts:175-215 | a password shorter than 6 gives 400 and an unknown caller 404; otherwise the hash is stored with a fresh code under "password" |
| UserController.VerifyPasswordChange | backend/src/controllers/userController.ts:218-246 | 400 without a code or for a failed one; on a valid code the stored hash becomes the password and nothing else changes |
| Text.Trim | backend/src/controllers/userController.ts:97 | the result is the input with its leading and trailing whitespace removed |
| Text.TrimEmptyIffBlank | backend/src/controllers/userController.ts:97 | a value trims to empty iff it is all whitespace |
| Text.ToLower | backend/src/services/aiService.ts:151 | same length, each character lower-cased |
| Text.SortedValues | backend/src/controllers/destinationController.ts:6-8 | the values of a table, each once, ordered by a text key |
| DestinationController.View | backend/src/controllers/destinationController.ts:11-14 | the reply row is the stored row with its month list parsed |
| DestinationController.ParseAll | backend/src/controllers/destinationController.ts:11-14 | the parsed list exists iff every row parses, and then holds the views in order |
| DestinationController.ParseAllKeepsOrder | backend/src/controllers/destinationController.ts:4-21 | parsing keeps a name order |
| DestinationController.Patched | backend/src/controllers/destinationController.ts:82-89 | each supplied field replaced, a supplied month list stored as a list, the id kept |
| DestinationController.PatchLaws | backend/src/controllers/destinationController.ts:82-89 | an empty destination patch changes nothing; patching is idempotent |
| DestinationController.StatusOrDefault | backend/src/controllers/destinationController.ts:59 | an absent or empty status becomes 'available' |
| DestinationController.DestinationTable.DestinationById | backend/src/controllers/destinationController.ts:23-45 | 404 for an unknown id, 500 when its months do not parse, otherwise the parsed row |
| DestinationController.DestinationTable.GetAllDestinations | backend/src/controllers/destinationController.ts:4-21 | succeeds iff every row parses, then lists each row once, parsed and ordered by name; otherwise 500 |
| DestinationController.DestinationTable.CreateDestination | backend/src/controllers/destinationController.ts:48-75 | stores the new row with the default status; reply 201; reading it back gives the reply |
| DestinationController.DestinationTable.UpdateDestination | backend/src/controllers/destinationController.ts:77-107 | 500 for an unknown id; otherwise the row is patched, and the reply is 500 if the stored months then fail to parse |
| DestinationController.DestinationTable.DeleteDestination | backend/src/controllers/destinationController.ts:109-122 | deletes exactly that row; 500 for an unknown id |
| BrochureController.InsertNewest | backend/src/controllers/brochureController.ts:8-10 | inserting into a newest-first list keeps it newest first and adds exactly one element |
| BrochureController.BrochureTable.GetAllBrochures | backend/src/controllers/brochureController.ts:6-16 | every brochure exactly once, newest first |
| BrochureController.BrochureTable.CreateBrochure | backend/src/controllers/brochureController.ts:19-36 | 400 without a title or URL; otherwise the brochure is stored as given, reply 201 |
| BrochureController.BrochureTable.DeleteBrochure | backend/src/controllers/brochureController.ts:39-52 | deletes exactly that brochure; 500 for an unknown id |
| AiService.PlanLabel | backend/src/services/aiService.ts:157 | '1-Year' for 1Y, '3-Year' for every other plan type |
| AiService.InSeasonOnly | backend/src/services/aiService.ts:176-183 | exactly the destinations available this month, and no more of them than the input holds |
| AiService.InSeasonOnlyAppend | backend/src/services/aiService.ts:176-183 | filtering a concatenation is the concatenation of the filtered parts, so order and repeats are kept |
| AiService.InSeasonOnlySingle | backend/src/services/aiService.ts:176-183 | one destination is kept iff it is in season |
| AiService.Names | backend/src/services/aiService.ts:186 | the names of the given destinations, in order |
| AiService.FallbackResponse | backend/src/services/aiService.ts:146-218 | the rules fire in order (days left, expiry, availability, how it works, unused days) on the lower-cased message, each with its values; the default iff none matches |
| AiService.CaseInsensitive | backend/src/services/aiService.ts:151 | a message and its lower-cased form get the same reply |
| AiService.DaysReplyIgnoresExtraDays | backend/src/services/aiService.ts:154-160 | the days reply quotes the membership page's remaining days minus the operator's extra days |

## Left out

- Handlers outside the membership core are not modelled:
  - `googleAuth`, which depends on Google token verification;
  - the admin listings and statistics (`getAllUsers`, `getAllMemberships`, `getDashboardStats`);
  - `getProfile`, `updateProfile` and `updateFcmToken`;
  - the chat controller, uploads and the language-model calls (`getAIResponse`, `getAIResponseStream`, `buildUserContext`).
- Timers: the two `setInterval` sweeps are the methods `SweepExpired(now)`. When they run is not modelled.
- Time: the clock is the parameter `now`. `setFullYear` is modelled as adding 365-day years, so leap days are ignored, and `setDate` as adding days of exactly 86 400 000 ms, so local-time shifts at daylight-saving changes are ignored. `AdminController.AddYears` is weaker than calendar arithmetic for this reason.
- `AdminController.AddDays`: `setDate(getDate() + n)` is modelled as n days of exactly 86 400 000 ms; a local-time shift at a daylight-saving change is not modelled.
- Text:
  - lower- and upper-casing cover ASCII letters only;
  - strings are sequences of characters with no Unicode normalisation;
  - the database ordering of names and plan types is modelled as code-point order.
- JSON: the stored `bestMonths` text of a destination is either a parsed month list or unparseable text. The JSON codec itself is not modelled.
- Tokens, hashing, e-mail, push and WhatsApp notifications are not modelled:
  - a success reply stands for an issued token;
  - bcrypt is the parameters `hashed` and `compare`;
  - notification calls cannot change a reply, so they are dropped.
- Concurrency and transactions are not modelled. Each handler runs alone. `enrollMembership`'s transaction is modelled as all-or-nothing.
- Schema defaults that the handlers rely on but do not write are assumptions:
  - a new user's role is USER and it is not password-set;
  - the onboarding record's payment status is UNPAID;
  - plan types, e-mails, member numbers and counter years are unique.
- Database failures other than the unique-key and missing-row cases the handlers provoke are not modelled. This includes connection loss and invalid column values.
- `DestinationController.DestinationTable.UpdateDestination`: a field sent as an explicit JSON `null` is treated like an absent field.
- `AdminController.UpdatePlanConfig`: a `null` sent for a field the table does not allow to be empty (name, days, price, active flag) makes the database refuse the update with 500; the patch cannot express such a value.
- `AdminController.WithOverrides`: an override sent as an explicit JSON `null` clears the stored value in the source; here it is treated like an absent override.
- `UserController.AppliedChange`: only the fields a code can be stored for are modelled as writable (name, phone, password). Any other field, such as forgot_password, is an update that fails.
- `AiService.FallbackResponse`: the reply texts are represented by which reply was chosen and the values it quotes. The expiry date is not formatted, and the current month name is a parameter.
- `AdminController.ActivateMembership`: the activation e-mail, WhatsApp and push notices are not modelled. They cannot change the reply.

## Findings

| source | as written | input that shows it | evidently intended | confidence | as-written member | corrected member |
|---|---|---|---|---|---|---|
| backend/src/controllers/membershipController.ts:229-241 | the three default plans are written whenever no plan is *active* | a plan table holding only an inactive 1Y plan: writing the defaults violates the unique plan type, so every call answers 500 "Failed to get plans" | write the defaults only into an empty table, as `getPlanConfigs` does (adminController.ts:207) | high that it fails; not executed | MembershipController.GetPlans, MembershipController.InactivePlansBreakGetPlans | MembershipController.GetPlansSeedingEmptyTable |
| backend/src/controllers/adminController.ts:255-275 | the membership is looked up by its own row id | the route `/users/:id/membership` (adminRoutes.ts:44) passes a user id, such as "u1" whose membership row is "m1": nothing is found and the reply is 500 | look the membership up by its owner's user id | medium (depends on the caller passing a user id); not executed | AdminController.UpdateMembership, AdminController.UserIdMissesMembership | AdminController.UpdateMembershipOfUser |

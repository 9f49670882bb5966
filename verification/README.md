# Kavyakala backend core, modelled in Dafny

Kavyakala is an Express/Mongoose backend for a poetry site. Users sign up, verify their
e-mail through a mailed link, and log in to receive a JSON Web Token. They follow poets and
like and comment on writings. Admins manage users, and they protect the last active admin.
This project models that core in Dafny:

- the User, Writing (with its comments) and Poet records: their setters, enums, defaults,
  required checks and the password hook (`user_model.dfy`, `content_model.dfy`);
- the users collection as the handlers see it through Mongoose: `findOne`, `countDocuments`,
  `create` with its unique indexes, and `save` (`user_store.dfy`). The poets and writings
  collections are classes in `content_model.dfy`;
- the bearer-token middleware and `signToken` (`auth_middleware.dfy`);
- the handlers of the auth, admin, writing and poet controllers (`auth_controller.dfy`,
  `admin_controller.dfy`, `writing_controller.dfy`, `poet_controller.dfy`);
- the JavaScript built-ins they rely on: `trim`, ASCII `toLowerCase`, `split`, the
  comma-list parsing and `filter` (`common.dfy`);
- token generation over Node's crypto (`crypto.dfy`).

Each state-changing handler is written twice. (Login and the two list handlers change
nothing. They are step or filter functions only.)

1. A step function from the collections before the request to the collections after it,
   plus the reply and any mail sent. The properties are proved about these functions as
   lemmas.
2. A method that does the same work on the collection objects (`UserCollection`,
   `PoetCollection`, `WritingCollection`), changing the fetched document field by field as
   the handler does. Its postcondition ties the new state and the reply to the step
   function, and it keeps the collection's invariant. For users, that invariant is: unique
   emails and handles, consistent token fields, and ids below the next id.

Outside inputs are parameters:

- from the request environment (`Env`): the clock, the 32 random bytes of a token, the
  bcrypt salt, whether the SMTP send succeeded, `JWT_EXPIRES`, and the request's origin;
- the crypto primitives (SHA-256, bcrypt): function values. What the proofs need of them
  is stated as predicates, and the lemmas take those predicates as hypotheses. Both are
  idealisations: SHA-256 has no collisions, and bcrypt's compare accepts exactly the hashed
  password (real bcrypt reads only a password's first 72 bytes);
- `jwt.sign` and `jwt.verify`: function values.

When several documents match a `findOne`, the model returns the one with the least id. The
database leaves that choice open.

Main results:

- Follow and unfollow keep each poet's `followersCount` equal to the number of users
  following it (`FollowKeepsCountsExact`, `UnfollowKeepsCountsExact`).
- Likes stay consistent with the list of likers.
- The last active admin can be neither deactivated, re-roled nor deleted.
- A verification link works once and expires after 24 hours. Resending a verification
  mail invalidates the previous link.
- A signup followed by its mailed link verifies the account and logs it in.

Note also that deleting a user does not lower the counts of the poets it followed.

## Model

| member | source | states |
|---|---|---|
| Common.Trim | models/User.js:7 | the trim setter: the result has no outer whitespace, and is empty exactly when the input is all whitespace |
| Common.TrimDropsOnlyOuterSpace | models/User.js:7 | the trimmed string is a contiguous slice of the input, and everything dropped before and after it is whitespace |
| Common.TrimIdempotent | models/User.js:8 | trimming twice is trimming once |
| Common.Utf16Length | models/User.js:10 | a string's JavaScript length: between its character count and twice it, the character count when no character is beyond the Basic Multilingual Plane, and twice it when every character is |
| Common.ToLower | models/User.js:8 | the lowercase setter keeps the length and lower-cases character by character |
| Common.ToLowerIdempotent | controllers/authController.js:52-53 | lower-casing an already lower-cased key changes nothing |
| Common.Split | controllers/poetController.js:41 | `split(',')` gives at least one piece, and no piece holds the separator |
| Common.JoinSplit | controllers/poetController.js:41 | joining the pieces of a split with the separator gives the string back |
| Common.SplitJoin | controllers/poetController.js:41 | splitting pieces joined by a separator they lack gives the pieces back |
| Common.TrimAll | controllers/writingController.js:18 | `.map(s => s.trim())` trims each element and keeps the length |
| Common.DropEmpty | controllers/writingController.js:18 | `.filter(Boolean)` keeps exactly the non-empty strings; a list with no empty string is kept whole |
| Common.DropEmptyConcat | controllers/writingController.js:18 | filtering a concatenation is the concatenation of the filtered parts, so the kept strings stay in order |
| Common.ParseCommaList | controllers/writingController.js:18 | every parsed item is non-empty, trimmed and comma-free; an all-blank input gives no items |
| Common.ParseJoinedList | controllers/writingController.js:18 | clean items joined with commas parse back to exactly those items |
| Common.ParseSingleItem | controllers/poetController.js:41 | a comma-free text parses to its trimmed self, or to nothing when blank |
| Common.RemoveAll | controllers/poetController.js:126 | the filter drops every occurrence of the id, keeps all other elements in order, and changes nothing when the id is absent |
| Common.RemoveAllKeepsNoDuplicates | controllers/writingController.js:81 | filtering a list without repetitions leaves it without repetitions |
| Common.RemoveAllAppended | controllers/writingController.js:81 | appending an absent id and filtering it out gives the list back |
| Common.CountAtMostOne | controllers/writingController.js:66-67 | a list without repetitions holds any id at most once |
| Common.Hex | controllers/authController.js:9 | `toString('hex')` gives two lower-case hex digits per byte |
| Common.UnhexHex | controllers/authController.js:9 | decoding the hex string gives the bytes back |
| Common.HexInjective | controllers/authController.js:9 | two byte strings have the same hex text exactly when they are equal |
| Crypto.GenerateVerificationToken | controllers/authController.js:8-12 | the raw token is 64 lower-case hex characters, and the stored value is its SHA-256 hex |
| Crypto.DistinctSeedsDistinctTokens | controllers/authController.js:8-12 | different random bytes give different raw tokens, and different hashes when SHA-256 has no collisions |
| UserModel.ParseRole | models/User.js:11 | the role enum accepts exactly "user", "subadmin" and "admin" |
| UserModel.ParseRoleName | models/User.js:11 | every role's name passes the enum check as that role |
| UserModel.AstralPasswordLongEnough | models/User.js:10 | a password of three emoji counts six, enough for minlength 6 |
| UserModel.Instantiate | models/User.js:6-17 | a new document: name trimmed; email and handle lower-cased and trimmed; active; no token; empty follow and like lists |
| UserModel.PreSave | models/User.js:19-24 | the hook changes only the password, only when it was modified, and then bcrypt-compare accepts exactly the old plain text |
| UserModel.IssueToken | controllers/authController.js:64-67 | issuing sets both token fields and changes no other field; the record then verifies with that hash exactly until the expiry |
| UserModel.Consume | controllers/authController.js:184-187 | after verification the record is verified, holds no token, and no hash verifies it; every other field is unchanged |
| UserStore.FindOne | controllers/authController.js:56-57 | findOne returns nothing exactly when no document matches, else a matching document (the least id) |
| UserStore.FindOneUnique | controllers/authController.js:138-140 | when exactly one document matches, findOne returns it |
| UserStore.CountPositive | controllers/adminController.js:10 | the active-admin count is positive exactly when an active admin exists |
| UserStore.AnotherActiveAdmin | controllers/adminController.js:10-13 | with two or more active admins, one other than any given id exists |
| UserStore.UpdateKeepsActiveAdmins | controllers/authController.js:65-67 | rewriting a record without touching role or isActive leaves the active admins as they were |
| UserStore.InsertKeepsActiveAdmins | controllers/authController.js:88-95 | inserting anything but an active admin leaves the active admins as they were |
| UserStore.DemoteActiveAdmins | controllers/adminController.js:65 | turning a record into a non-active-admin removes exactly that id from the active admins |
| UserStore.RemoveActiveAdmins | controllers/adminController.js:95 | deleting a record removes exactly that id from the active admins |
| UserStore.ActivateKeepsActiveAdmins | controllers/adminController.js:54 | activating a record loses no active admin |
| UserStore.Created | models/User.js:19-24 | the stored document is the instantiated one with a hashed password that only the submitted password matches |
| UserStore.Create | models/User.js:6-24 | create fails validation, or hits a unique index on email or handle (compared after the setters), or stores the hashed document |
| UserStore.UpdateKeepsWellFormed | models/User.js:8-9 | rewriting a record with the same email and handle keeps the unique keys and the token fields consistent |
| UserStore.InsertKeepsWellFormed | models/User.js:8-9 | inserting a record with a free email and handle keeps the unique keys |
| UserStore.RemoveKeepsWellFormed | controllers/adminController.js:95 | deleting a record keeps the store well formed |
| UserStore.UserCollection.Insert | controllers/authController.js:88-95 | the document is stored under a fresh id, the invariant is kept, nothing else changes |
| UserStore.UserCollection.Save | controllers/authController.js:67 | the fetched document is written back under its id, keeping the invariant |
| UserStore.UserCollection.Remove | controllers/adminController.js:95 | findByIdAndDelete removes exactly that id, keeping the invariant |
| AuthMiddleware.SignToken | middleware/auth.js:3-4 | the token carries id and role, expiring after JWT_EXPIRES when set, else "7d" |
| AuthMiddleware.BearerToken | middleware/auth.js:8 | a token is extracted exactly when the header starts with "Bearer ", and is what follows it |
| AuthMiddleware.BearerRoundTrip | middleware/auth.js:8 | whatever follows the prefix comes back out unchanged |
| AuthMiddleware.BearerCaseSensitive | middleware/auth.js:8 | for every token, a lower-case "bearer " prefix yields none; any header shorter than the prefix yields none; a missing header yields none; "Bearer " alone yields the empty token |
| AuthMiddleware.RequireAuth | middleware/auth.js:6-17 | continues exactly with a non-empty bearer token that verifies, with its payload as the user; otherwise 401 |
| AuthMiddleware.UnauthorizedWithoutVerify | middleware/auth.js:8-9 | a missing or empty token is 401 whatever the verifier says |
| AuthMiddleware.RequireRole | middleware/auth.js:19-23 | 401 without a user, 403 for a role outside the list, otherwise continue |
| AuthMiddleware.GuardedDecision | middleware/auth.js:6-23 | the two gates chained let a request through exactly with a verifying token whose role is listed |
| AuthMiddleware.SignedTokenPasses | middleware/auth.js:3-17 | a token the server signed, sent back as a bearer token, passes when its role is listed |
| AuthController.TokenLivesOneDay | controllers/authController.js:14-15 | a token issued at t is accepted at now exactly when now < t + 86 400 000 ms |
| AuthController.LinkCarriesToken | controllers/authController.js:36-41 | the mailed link's last path segment is the raw token, whichever base URL is used |
| AuthController.SignupRouting | controllers/authController.js:46-128 | 400 exactly with a missing field; 409 or 200 exactly when the lower-cased email or handle exists; mail only with 200 or 201 |
| AuthController.SignupRejectsVerified | controllers/authController.js:59-62 | a 409 means the account found is verified |
| AuthController.SignupRefreshesUnverified | controllers/authController.js:63-84 | a 200 rotates only the found unverified account's token, to a fresh hash with a 24-hour expiry, and mails its link |
| AuthController.SignupCreatesOneUser | controllers/authController.js:87-123 | a 201 adds exactly one account with free keys under the fresh id, whether or not the mail was delivered |
| AuthController.RotatedIsPending | controllers/authController.js:98-101 | a freshly issued token leaves the record holding its hash, pending until 24 hours from now |
| AuthController.SignupAccountKeys | controllers/authController.js:88-95 | the new account's email and handle are stored normalised, and only the submitted password matches its hash |
| AuthController.SignupAccountShape | controllers/authController.js:88-101 | the new account is an active, unverified user with normalised keys, a pending 24-hour token and a password only the submitted one matches |
| AuthController.SignupKeepsInvariants | controllers/authController.js:46-128 | signup keeps keys unique and tokens consistent, and leaves the active admins alone |
| AuthController.VerifySucceedsIff | controllers/authController.js:168-198 | verification succeeds exactly when a user holds the token's hash unexpired; only that user is verified and its token cleared; failure changes nothing |
| AuthController.VerifyIsSingleUse | controllers/authController.js:175-187 | following the same link a second time is refused |
| AuthController.ExpiredTokenRejected | controllers/authController.js:175-182 | a link whose holders have all expired is refused and changes nothing |
| AuthController.VerifyKeepsInvariants | controllers/authController.js:184-187 | verification keeps the store well formed and the active admins unchanged |
| AuthController.ResendRouting | controllers/authController.js:206-233 | 400 without an email; 404 for an unknown email; 400 for a verified account; otherwise rotate that account's token and mail it |
| AuthController.ResendInvalidatesPrevious | controllers/authController.js:219-222 | after a resend the old link is refused and the new one works for 24 hours |
| AuthController.ResendKeepsInvariants | controllers/authController.js:219-222 | resending keeps the store well formed and the active admins unchanged |
| AuthController.LoginUnknownAccount | controllers/authController.js:138-142 | no account under the key is 401 Invalid credentials |
| AuthController.LoginForAccount | controllers/authController.js:142-160 | a wrong password is 401 whatever the account state, then disabled 403, then unverified 403, else a session for id and role |
| AuthController.LoginSucceeds | controllers/authController.js:155-160 | the one account under the key, with the right password, active and verified, is signed in with its profile |
| AuthController.LoginOkMeansAllChecksPassed | controllers/authController.js:131-160 | a session is issued only to a found account that passed the password, active and verified checks |
| AuthController.CreateSubadminOutcome | controllers/authController.js:254-275 | 409 exactly when the lower-cased email or handle exists; a 201 adds exactly one account with free keys |
| AuthController.SubadminAccountShape | controllers/authController.js:265-272 | the subadmin is verified, active, holds no token, and has normalised keys and a matching password |
| AuthController.CreateSubadminKeepsInvariants | controllers/authController.js:262-272 | creating a subadmin keeps the store well formed and the active admins unchanged |
| AuthController.NewAccountCanLogIn | controllers/authController.js:136-160 | a fresh active, verified account with free keys logs in under its lower-cased email |
| AuthController.CreatedSubadminCanLogIn | controllers/authController.js:265-272 | a subadmin created here logs in straight away with its password |
| AuthController.SignupThenVerify | controllers/authController.js:97-104 | following the signup link within 24 hours verifies the new account and signs it in as a user |
| AuthController.VerifiedSignupCanLogIn | controllers/authController.js:131-160 | after verification the submitted email and password log the new account in |
| AuthController.IssueFreshToken | controllers/authController.js:64-69 | the fetched document gets both token fields overwritten, and the link for the raw token is built |
| AuthController.Signup | controllers/authController.js:46-128 | performs signup on the collection: new state, reply and mail as the signup step gives them |
| AuthController.VerifyEmail | controllers/authController.js:168-198 | performs verifyEmail on the collection as the verify step gives it |
| AuthController.ResendVerification | controllers/authController.js:206-244 | performs resendVerification on the collection as the resend step gives it |
| AuthController.CreateSubadmin | controllers/authController.js:254-275 | performs the auth routes' createSubadmin on the collection |
| AdminController.EnsureNotLastAdmin | controllers/adminController.js:5-16 | 404 for an unknown id; 400 exactly for an admin target while at most one admin is active; otherwise go ahead |
| AdminController.GuardLeavesAnotherAdmin | controllers/adminController.js:9-13 | when the guard passes an admin target, another active admin exists |
| AdminController.AssignableRole | controllers/adminController.js:75-77 | only "user" and "subadmin" are accepted, never admin |
| AdminController.SetActiveEffect | controllers/adminController.js:49-68 | activate and deactivate succeed exactly when the guard passes, and then change only the target's isActive |
| AdminController.DeactivateKeepsAnAdmin | controllers/adminController.js:60-68 | a deactivation removes only the target from the active admins, and some active admin always remains |
| AdminController.ActivateKeepsAdmins | controllers/adminController.js:49-57 | an activation loses no active admin |
| AdminController.ChangeRoleEffect | controllers/adminController.js:72-86 | a bad role is 400 before the guard; otherwise success exactly when the guard passes, changing only the target's role |
| AdminController.ChangeRoleMakesNoAdmin | controllers/adminController.js:72-86 | no admin is created, and some active admin always remains |
| AdminController.DeleteEffect | controllers/adminController.js:89-99 | delete succeeds exactly when the guard passes, removes only the target, and some active admin always remains |
| AdminController.LastAdminProtected | controllers/adminController.js:9-13 | the sole active admin cannot be deactivated, re-roled or deleted: 400, store unchanged |
| AdminController.ActivationBlockedByGuard | controllers/adminController.js:49-57 | as written, activating an inactive admin while one admin is active is refused with the last-admin message |
| AdminController.ActivateStepCorrected | controllers/adminController.js:49-57 | corrected activation succeeds exactly for an existing user, and an activated admin is active |
| AdminController.ActivateCorrectedEffect | controllers/adminController.js:49-57 | corrected activation changes only isActive, loses no active admin, and agrees with the original whenever the guard passes |
| AdminController.PanelCreateSubadminOutcome | controllers/adminController.js:19-37 | 400 for a missing field; 409 exactly for the keys as given; a 201 adds one active, unverified subadmin with free keys |
| AdminController.PanelSubadminCannotLogIn | controllers/adminController.js:29 | as written, the new subadmin's login with the right password is 403 Email not verified |
| AdminController.PanelCreateSubadminStepCorrected | controllers/adminController.js:19-37 | a corrected creation yields a verified subadmin |
| AdminController.PanelCorrectedSubadminCanLogIn | controllers/adminController.js:19-37 | the corrected panel stores what the auth routes' createSubadmin stores, and the subadmin logs in |
| AdminController.CheckNotLastAdmin | controllers/adminController.js:5-16 | computes the guard's verdict from the collection |
| AdminController.SetActive | controllers/adminController.js:49-68 | performs activate or deactivate on the collection as the step gives it |
| AdminController.ActivateCorrected | controllers/adminController.js:49-57 | performs corrected activation on the collection |
| AdminController.ChangeRole | controllers/adminController.js:72-86 | performs changeRole on the collection |
| AdminController.DeleteUser | controllers/adminController.js:89-99 | performs delete on the collection |
| AdminController.PanelCreateSubadmin | controllers/adminController.js:19-37 | performs the panel's createSubadmin as written |
| AdminController.PanelCreateSubadminCorrected | controllers/adminController.js:19-37 | performs the corrected panel createSubadmin |
| ContentModel.ParseLanguage | models/Writing.js:15 | the language enum accepts exactly "hi" and "en" |
| ContentModel.ParseLanguageName | models/Writing.js:15 | every language's name passes the enum check |
| ContentModel.ParseLanguages | models/Poet.js:12-16 | an array passes exactly when every element is "hi" or "en", element by element |
| ContentModel.ParseVisibility | models/Writing.js:17 | the visibility enum accepts exactly "public", "followers" and "private" |
| ContentModel.ParseVisibilityName | models/Writing.js:17 | every visibility's name passes the enum check |
| ContentModel.InstantiateWriting | models/Writing.js:10-26 | create succeeds exactly with a non-blank trimmed title, a body and enum values; no likes, not featured, no comments |
| ContentModel.TrimField | models/Poet.js:6-7 | the trim setter on an optional field |
| ContentModel.InstantiatePoet | models/Poet.js:4-20 | create succeeds exactly with a non-blank trimmed name and enum languages; aka and era trimmed; no followers |
| ContentModel.PoetToJson | models/Poet.js:25-29 | the transform renames `_id` to `id` and keeps every other key |
| ContentModel.PoetJsonRoundTrip | models/Poet.js:28 | the transform loses nothing from a stored document |
| ContentModel.PoetJsonRoundTripWithVirtual | models/Poet.js:25-29 | with the `id` virtual in the input, renaming back returns every field but the virtual |
| ContentModel.WritingCollection.Insert | controllers/writingController.js:49-56 | stores a writing with a consistent counter under a fresh id |
| ContentModel.WritingCollection.Save | controllers/writingController.js:69 | writes a fetched writing back, keeping every counter consistent |
| ContentModel.PoetCollection.Insert | controllers/poetController.js:43-52 | stores a poet under a fresh id |
| ContentModel.PoetCollection.Save | controllers/poetController.js:90 | writes a fetched poet back |
| WritingController.WithLike | controllers/writingController.js:66-70 | the caller is among the likers afterwards; an existing like changes nothing, else the count is one more |
| WritingController.WithoutLike | controllers/writingController.js:80-85 | the caller is gone from the likers; the count is recomputed only if the list shrank |
| WritingController.LikeKeepsCounter | controllers/writingController.js:64-72 | a like keeps likes equal to the number of distinct likers, and is idempotent |
| WritingController.UnlikeKeepsCounter | controllers/writingController.js:78-87 | an unlike keeps the counter consistent, takes one off exactly when the caller had liked, and is idempotent |
| WritingController.UnlikeUndoesLike | controllers/writingController.js:61-87 | unliking right after a first like restores the writing |
| WritingController.LikeUnlikeEffect | controllers/writingController.js:61-87 | 404 for an unknown writing; otherwise only that writing changes, and the reply is its new count |
| WritingController.CommenterName | controllers/writingController.js:104 | the handle when present, else "User" |
| WritingController.AddCommentRouting | controllers/writingController.js:97-103 | blank content is 400 before the 404 lookup; both change nothing |
| WritingController.AddCommentAppends | controllers/writingController.js:104-109 | the comment is valid, by the caller, trimmed, and appended after the existing ones |
| WritingController.ServerSessionsCommentAsUser | controllers/writingController.js:104 | the server's session tokens carry no handle, so comments are signed "User" |
| WritingController.ToggleFeaturedTwice | controllers/writingController.js:113-119 | toggling negates that writing's flag only, and twice is the identity |
| WritingController.CreateWritingDefaults | controllers/writingController.js:45-57 | 400 without title or body; language and visibility as given, else Hindi and public; no categories; author is the caller; counter consistent |
| WritingController.WritingListFilter | controllers/writingController.js:4-20 | public only; poetId and q passed on when non-empty; language unless "all"; featured is the text "true"; categories are exactly the parsed comma list, present when it is non-empty |
| WritingController.CategoriesRoundTrip | controllers/writingController.js:17-20 | clean category names joined with commas filter on exactly those names |
| WritingController.BlankCategoriesIgnored | controllers/writingController.js:17-20 | a categories value of commas and spaces adds no filter |
| WritingController.Like | controllers/writingController.js:61-72 | performs like on the collection as the step gives it, keeping counters consistent |
| WritingController.Unlike | controllers/writingController.js:75-87 | performs unlike on the collection |
| WritingController.AddComment | controllers/writingController.js:97-110 | performs addComment on the collection |
| WritingController.ToggleFeatured | controllers/writingController.js:113-119 | performs toggleFeatured on the collection |
| WritingController.CreateWriting | controllers/writingController.js:45-58 | performs create on the collection |
| PoetController.Followed | controllers/poetController.js:105-110 | the poet is followed afterwards; the count rises by one exactly when it was not followed before |
| PoetController.Unfollowed | controllers/poetController.js:125-129 | the poet is gone from the list; the count drops by one exactly when it was followed and positive |
| PoetController.FollowIdempotent | controllers/poetController.js:105-129 | following or unfollowing twice is doing it once, and a non-negative count stays non-negative |
| PoetController.UnfollowUndoesFollow | controllers/poetController.js:95-134 | unfollowing right after a first follow restores poet and user |
| PoetController.FollowRouting | controllers/poetController.js:95-134 | 404 for an unknown poet before 401 for a missing user; otherwise only that poet and that user change |
| PoetController.FollowKeepsCountsExact | controllers/poetController.js:105-110 | follow keeps every poet's count equal to its number of followers |
| PoetController.UnfollowKeepsCountsExact | controllers/poetController.js:125-131 | unfollow keeps every poet's count equal to its number of followers |
| PoetController.PatchLanguages | controllers/poetController.js:63-65 | a string is parsed as a comma list, an array is taken as given |
| PoetController.CreateLanguages | controllers/poetController.js:39-50 | at least one language: the parsed list when non-empty, else ["hi"] |
| PoetController.CreatePoetDefaults | controllers/poetController.js:36-57 | created exactly with a non-blank name and enum languages; Hindi by default; featured is the truthiness of the field; no followers; else 400 |
| PoetController.UpdatePoetEffect | controllers/poetController.js:60-76 | an invalid patch is 400 before the 404, and both change nothing; otherwise only that poet changes, each sent field takes the value sent (name, aka and era trimmed, languages the enum values of the items sent), and each field left out keeps its value |
| PoetController.BlankLanguagesDefaultOnCreate | controllers/poetController.js:39-50 | on create, a languages string of only commas and spaces gives a poet whose languages are exactly Hindi |
| PoetController.BlankLanguagesEmptyOnUpdate | controllers/poetController.js:62-69 | on update, the same string leaves the poet with no language at all |
| PoetController.ToggleFeaturedTwice | controllers/poetController.js:86-92 | toggling negates that poet's flag only, and twice is the identity |
| PoetController.PoetListFilter | controllers/poetController.js:5-15 | language and era filter unless absent or "all"; featured is the text "true"; a non-empty q is passed on as the text searched |
| PoetController.Follow | controllers/poetController.js:95-112 | performs follow on both collections as the step gives it |
| PoetController.Unfollow | controllers/poetController.js:115-134 | performs unfollow on both collections |
| PoetController.CreatePoet | controllers/poetController.js:36-57 | performs create on the poets collection |
| PoetController.UpdatePoet | controllers/poetController.js:60-76 | performs update on the poets collection |
| PoetController.ToggleFeatured | controllers/poetController.js:86-92 | performs toggleFeatured on the poets collection |

## Left out

- The User schema declares no `isVerified`, `verificationTokenHash` or `verificationTokenExpires`. Under Mongoose's strict mode these writes would be dropped. The model stores them as the controllers use them.
- Sending mail (utils/mailer.js) is not part of this model. Its success is an input, and the HTML template is not modelled.
- The redirect URL after verification, with the token after `#` and the `next` parameter, is not modelled; the reply carries the signed token.
- JWT internals (signature, expiry checking) are not modelled. `jwt.sign` and `jwt.verify` are function values, and `verify` is not given a clock.
- AuthMiddleware.SignedTokenPasses: the conclusion holds only for a token still within its `expiresIn` (seven days by default). The hypothesis AuthMiddleware.VerifiesOwnTokens says every signed token verifies, with no clock. A token past its expiry is rejected by the source with 401 "Invalid token", and this lemma says nothing about it.
- bcrypt and SHA-256 internals are not modelled; they are function values with stated hypotheses.
- Crypto.BcryptCorrect: an idealisation. Real bcrypt ignores everything after a password's first 72 UTF-8 bytes, so two long passwords that share those bytes match each other. The "only the submitted password matches" conclusions therefore hold only for passwords of at most 72 UTF-8 bytes. Those conclusions are in UserModel.PreSave, UserStore.Created, AuthController.SignupAccountKeys, AuthController.SignupAccountShape, AuthController.SubadminAccountShape and AuthController.LoginForAccount ("a wrong password is 401"). The log-in lemmas use only the "accepts the hashed password" direction, which real bcrypt has.
- Regex matching and sorting of list results are not modelled. The list handlers are modelled down to the filter they build.
- Concurrency between requests is not modelled; requests run one at a time. So the second 404 after `findByIdAndUpdate`/`findByIdAndDelete` in the admin handlers cannot occur and is not modelled.
- Mongoose casting of query values is not modelled. Mongoose runs a schema's `trim` and `lowercase` setters on a query filter's values when it casts them, but UserStore.Query and AdminController.PanelQuery compare keys as given. So a key with outer whitespace or capitals diverges. For example, signup with email " a@x.com" while an unverified "a@x.com" exists. Mongoose's lookup finds the account, and the source re-sends the link with 200. The model's lookup misses it, `create` hits the unique index, and the model replies 500.
- CastError on a malformed ObjectId and re-validation on `save()` are not modelled. Every save is taken to succeed.
- Update setters are taken to run on `$set`.
- Ids are natural numbers handed out in order.
- The Common.ToLower model lower-cases ASCII letters only, because JavaScript's full Unicode case mapping is out of scope.
- The following handlers are not modelled, because they only read:
  - `me`, `listUsers`, `listComments`, `getOne`;
  - the `featured` list endpoints, and the id-renaming map of list results.
- Poet `remove` is a plain delete and is not modelled. Neither is the notice controller.
- Query parameters are modelled as single strings; repeated parameters (arrays) are not modelled.
- A non-array `categories` body value is not modelled.
- A non-boolean `featured` in a poet update is not modelled (PoetPatch.featured is a boolean).
- Routes, app wiring, the database connection and the seed script are not modelled.
- The admin routes' `requireAuth` and `requireRole('admin')` are modelled in AuthMiddleware, and the handlers take the caller as already authorised.
- The 500 replies of caught exceptions are modelled only where a modelled operation can fail. Those are the create calls.
- AuthController.SignupThenVerify: the conclusion holds only when no other account holds the same token hash. That is an explicit hypothesis, not a collision-resistance argument.

## Findings

| source | as written | input that shows it | evidently intended | confidence | as-written member | corrected member |
|---|---|---|---|---|---|---|
| controllers/adminController.js:49-57 | activation runs ensureNotLastAdmin, which refuses any admin target while at most one admin is active | users 0 (active admin) and 1 (deactivated admin); activate 1 is 400 "Cannot modify/delete the last active admin" | activation cannot remove an active admin, so only a missing user should be refused | not executed | AdminController.ActivationBlockedByGuard | AdminController.ActivateStepCorrected |
| controllers/adminController.js:26-29 | the panel's createSubadmin stores the subadmin without isVerified, and sends no verification mail | create a subadmin from the panel, then log in with its email and password: 403 Email not verified | subadmins bypass e-mail verification (as the auth routes' createSubadmin sets isVerified true), so the subadmin should log in | not executed | AdminController.PanelSubadminCannotLogIn | AdminController.PanelCreateSubadminStepCorrected |

The seed script (scripts/seedAdmin.js:12-18) creates its admin without `isVerified` too. By the same reading, the seeded admin gets 403 "Email not verified" at login. The seed script is not part of this model, so no member shows this.

# Wardrobe image backend — a Dafny model

The backend stores a user's profile picture, clothing photos and outfit
photos in one flat, prefix-addressed object store. It emulates folders with
keys of the form `userimages/{uid}/profileimage/profileImage_{t}`,
`userimages/{uid}/clothes/{category}_{t}` and
`userimages/{uid}/outfit/{n}_myoutfit_{t}`. It keeps accounts in an external
identity provider. This project models:

- the input validators: the password policy and the upload MIME filter;
- the key scheme and the category parse that reads a category back out of a
  clothes key;
- the bucket as a class over a map from key to `{contentType, category,
  timeCreated}`, with `Upload`, `DeleteFiles` and `GetFiles`;
- every image handler of `src/server.js` as a method on that bucket: its
  guards, its store calls and the status it answers;
- the account-deletion cascade;
- the request guards of `src/dump.js`: the two token middlewares, the
  `/token` credential check, sign-up and password change.

The identity provider, the JWT library and store failures are inputs. The
`Identity` record is a set of total functions, one per provider call.
`StoreFaults` says which store call throws. A failed store call has no
effect. The formatted upload time `t` is an opaque string. The store's
creation time `now` is an integer.

Modules:

- `Wrappers`: `Option`.
- `Text`: the JavaScript `split` idioms and decimal rendering of numbers.
- `Validation`: the password policy, the MIME filter, and what the upload
  middleware leaves in `req.file`.
- `Keys`: key and prefix constructors, the category parse, and disjointness
  of the key families.
- `Providers`: the oracle records, call traces and replies.
- `Storage`: the bucket, listings, and the latest-by-creation-time fold.
- `Server`: the handlers of `src/server.js`.
- `Auth`: the guards of `src/dump.js`.

Three behaviours of the code are worth stating outright, since they are not
what a reader of the handlers might expect:

- **Outfit listing order.** The outfit listing's sort at `src/server.js:554`
  compares a field the entries never carry, so it leaves the listing order
  unchanged. It is not a descending sort by creation time.
- **Rejected uploads.** A file refused by the MIME filter is not answered
  with a media-type error. `req.file` is left undefined, so reading its
  `mimetype` throws inside the handler's `try`, and the answer is 500. In the
  profile upload this happens before anything is deleted.
- **Latest profile image.** The latest-file fold keeps the later element
  when two creation times are equal.

Every route of `src/dump.js` registered after `app.use(userAuth)`
(`src/dump.js:39`) runs only once the `auth` header has verified as an ID
token; the route models apply `Auth.UserAuth` first and answer 401 otherwise.

## Model

| member | source | states |
|---|---|---|
| Text.FirstField | src/server.js:387 | `split('_')[0]`: the result is a prefix of the input with no separator, followed in the input by the separator unless it is all of it |
| Text.FirstFieldOfJoin | src/server.js:387 | the first field of `a + sep + b` is `a` when `a` has no separator |
| Text.FirstFieldOfJoinTruncates | src/server.js:387 | the first field of `a + sep + b` is a strict prefix of `a` when `a` holds the separator |
| Text.LastField | src/server.js:385-386 | the last element of `split('/')`: a suffix of the input with no separator, preceded in the input by the separator unless it is all of it |
| Text.LastFieldOfJoin | src/server.js:385-386 | the last field of `a + sep + b` is `b` when `b` has no separator |
| Text.SecondField | src/dump.js:13 | `split(' ')[1]`: absent exactly when there is no space; otherwise the text after the first space up to the next one |
| Text.SecondFieldOfJoin | src/dump.js:13 | the second field of `a + sep + b` is the first field of `b` when `a` has no separator |
| Text.DigitChar | src/server.js:460 | a digit character whose value is the digit |
| Text.Decimal | src/server.js:460 | the rendering of a number in a template string: non-empty digits, with a leading `0` only for zero |
| Text.DecimalRoundTrip | src/server.js:460 | reading the rendered digits back gives the number |
| Text.DecimalInjective | src/server.js:460 | different numbers render differently |
| Validation.Matches | src/server.js:58-61 | a regular-expression character-class test holds exactly when some character is in the class |
| Validation.IsPasswordValid | src/server.js:54-66 | accepted exactly when the password has at least 8 characters, an ASCII capital and a character of the fixed symbol set |
| Validation.PasswordExamples | src/server.js:54-66 | `short1!` is refused for length, `LongEnough1!` is accepted, and the passwords lacking a capital or a symbol are refused |
| Validation.FileFilter | src/server.js:39-50 | accepts exactly `image/png`, `image/jpeg` and `image/jpg`; a refusal sets the error message and an acceptance does not |
| Validation.ReceivedFile | src/server.js:52 | the handler sees a file exactly when one was sent with an accepted MIME type, and then it is that file |
| Keys.UserFolder | src/server.js:70 | the user's folder lies under `userimages/` and ends with `/` |
| Keys.ProfilePrefix | src/server.js:124 | the purge prefix of a profile upload lies in the user's folder |
| Keys.ProfileFolder | src/server.js:180 | the profile listing prefix extends the purge prefix |
| Keys.ProfileKey | src/server.js:112 | a profile key lies in the profile folder |
| Keys.ClothesPrefix | src/server.js:321 | the clothes listing prefix lies in the user's folder |
| Keys.ClothesKey | src/server.js:255 | a clothes key lies under the clothes prefix |
| Keys.OutfitFolder | src/server.js:459 | the outfit folder lies in the user's folder and ends with `/` |
| Keys.OutfitKey | src/server.js:460 | an outfit key lies in the outfit folder |
| Keys.ParseCategory | src/server.js:385-389 | the parsed category contains neither `_` nor `/` |
| Keys.ParseClothesKey | src/server.js:385-389 | the parse of a clothes key reads only its basename `{category}_{t}` |
| Keys.ParseCategoryRoundTrip | src/server.js:385-389 | parsing the clothes key of `(uid, c, t)` gives back `c` when `c` has no `_` or `/` and `t` has no `/` |
| Keys.ParseCategoryTruncates | src/server.js:385-389 | a category with `_` parses back to a strict prefix of itself |
| Keys.OutfitKeyInjective | src/server.js:460 | two outfit keys of one user with different numbers differ, whatever their times |
| Keys.KindsDisjoint | src/server.js:123-127 | profile, clothes and outfit keys of a user lie under disjoint prefixes |
| Keys.UserFoldersDisjoint | src/server.js:70-75 | no key in another user's folder starts with this user's folder, when neither uid contains `/` |
| Storage.PublicUrl | src/server.js:129 | the public URL is the bucket's URL base followed by the key |
| Storage.PublicUrlInjective | src/server.js:129 | different keys have different URLs |
| Storage.Bucket.constructor | src/server.js:10 | the handle to the shared bucket; the model's bucket starts empty, and no handler contract depends on its contents |
| Storage.Bucket.Upload | src/server.js:127 | inserts or overwrites exactly one key |
| Storage.WithoutPrefix | src/server.js:123-125 | what `deleteFiles` leaves: exactly the keys not under the prefix, each with its object |
| Storage.Bucket.DeleteFiles | src/server.js:123-125 | removes exactly the keys under the prefix and keeps every other object |
| Storage.Bucket.GetFiles | src/server.js:181-183 | lists every key under the prefix exactly once, with its metadata, and changes nothing |
| Storage.DeleteClearsPrefix | src/server.js:123-125 | after deleting a prefix nothing remains under any longer prefix |
| Storage.UploadKeysUnder | src/server.js:266 | an upload adds its key to a prefix's keys exactly when the key is under it |
| Storage.Later | src/server.js:194-198 | the `reduce` callback returns one of its two files, one at least as new as both, and the current one on a tie |
| Storage.Latest | src/server.js:194-198 | the fold picks a listed file whose creation time no other listed file exceeds |
| Storage.LatestIsLastNewest | src/server.js:194-198 | on ties, the fold picks the last of the newest files in listing order |
| Server.OrUncategorized | src/server.js:330 | `category \|\| 'Uncategorized'` keeps a non-empty category and shows exactly `Uncategorized` for an empty one |
| Server.ProfileReplaceLeavesOne | src/server.js:123-127 | after a profile upload exactly one key is in the profile folder, holding the new object, and every key outside the purged prefix keeps its object |
| Server.UploadProfileImage | src/server.js:82-153 | 400 without a uid; 404 for an unknown user; 500 before any store call for a refused file; otherwise a purge then an upload; success answers the new key's URL with the store replaced as above; a failed purge changes nothing |
| Server.GetProfileImage | src/server.js:155-222 | 400, 404 and 500 guards; 404 on an empty folder; otherwise the URL of an object no other in the folder is newer than |
| Server.ReplaceThenGetProfile | src/server.js:82-222 | fetching right after an upload answers the URL the upload returned, whatever the folder held |
| Server.UploadClothes | src/server.js:224-293 | 400 without a uid or category; 404 for an unknown user; success answers the key's URL and category and adds or overwrites that one key; a failure changes nothing; no key is ever removed |
| Server.MetadataView | src/server.js:323-332 | the unfiltered `map` keeps the listing's length and order, each entry with the file's name, its public URL and a non-empty category |
| Server.MetadataViewDescribes | src/server.js:323-332 | the unfiltered view has one entry per listed object, with its metadata category or `Uncategorized` |
| Server.ListClothes | src/server.js:295-353 | 400, 404 and 500 guards; otherwise every clothes object of the user exactly once, whatever the `category` query |
| Server.CategoryView | src/server.js:383-397 | the `filter` then `map` never yields more entries than the listing has files |
| Server.CategoryViewFilters | src/server.js:383-397 | the filtered view holds an entry for exactly the listed files whose key-derived category is the requested one |
| Server.CategoryViewCounts | src/server.js:383-397 | the filter keeps exactly the listed names of the category, and on a listing without repeated names yields one entry per such name |
| Server.ListClothesByCategory | src/server.js:355-427 | 400, 404 and 500 guards; 404 when no key names the category; otherwise one entry for each matching object and nothing else |
| Server.UploadsKeepCategoriesAgreed | src/server.js:255-266 | uploads keep the metadata category and the key-derived category of every clothes object equal, when categories have no `_` or `/` |
| Server.FolderCount | src/server.js:609-625 | the count is the number of objects under the prefix |
| Server.UploadOutfit | src/server.js:429-497 | 400, 404 and 500 guards; success stores the new object under the outfit number one past the folder's count and answers its URL; a failure changes nothing |
| Server.OutfitKeysBelow | src/server.js:459-460 | a key numbered past the number of uploads was not written by them |
| Server.OutfitKeysCount | src/server.js:459-460 | N sequential uploads write N distinct keys, all in the outfit folder |
| Server.UploadOutfitsInOrder | src/server.js:459-471 | sequential uploads into an empty outfit folder are numbered 1..N in order and leave exactly those N keys |
| Server.OutfitView | src/server.js:538-554 | the `map` keeps the listing's length and order (the `sort` leaves it as is), each entry with the file's name, URL, a non-empty category and its creation time |
| Server.ListOutfits | src/server.js:499-574 | 400, 404 and 500 guards; 404 on an empty folder; otherwise every outfit object exactly once, with category and creation time |
| Server.DeleteStorageFolder | src/server.js:68-80 | removes exactly the user's `userimages/{uid}/` tree |
| Server.DeleteAccount | src/server.js:576-598 | resolves the uid by email first; an unknown email answers 500 with no deletion; the storage folder is deleted before the identity, and a failed storage deletion answers 500 without deleting the identity; 200 exactly when both deletions succeed |
| Server.AccountDeletionClearsUser | src/server.js:70-75 | after the storage step no profile, clothes or outfit key of the user remains |
| Server.AccountDeletionSparesOthers | src/server.js:70-75 | the storage step keeps every object of another user when neither uid contains `/` |
| Auth.AuthenticateToken | src/dump.js:6-20 | no header answers 401; otherwise the second space-separated field is verified; failure answers 403; success yields the verified user |
| Auth.BearerHeader | src/dump.js:13 | a `Bearer <token>` header passes exactly when the token verifies, with its user |
| Auth.GetAccount | src/dump.js:68-78 | 401 unless `userAuth` passes; then behind the token middleware, answers the decoded user or its 401/403 |
| Auth.UserAuth | src/dump.js:22-37 | passes exactly when the `auth` header verifies as an ID token, with the decoded token; 401 otherwise |
| Auth.IssueTokenAsWritten | src/dump.js:41-66 | as written the route never issues a token: 401 unless `userAuth` passes, 500 for the credentials `email` / `pass`, 401 otherwise |
| Auth.IssueToken | src/dump.js:41-66 | as intended: a one-hour bearer token exactly when `userAuth` passes and the credentials are `email` / `pass`; 401 otherwise |
| Auth.TokenRouteNeverIssues | src/dump.js:44-46 | where the intended route issues a token, the route as written answers 500 |
| Auth.Signup | src/dump.js:80-118 | 401 with no provider call unless `userAuth` passes; then a weak password answers 400 with no provider call; otherwise exactly one `createUser` call, 200 on its success and 500 on its failure |
| Auth.SignupGuardsProvider | src/dump.js:87-102 | every password sign-up hands the provider satisfies the policy |
| Auth.SignupExample | src/dump.js:87-94 | `short1!` is refused with no call; `LongEnough1!` reaches `createUser` once `userAuth` passes |
| Auth.ChangePassword | src/dump.js:120-142 | 401 with no provider call unless `userAuth` passes; then looks the uid up by email and passes the new password on unchanged; 500 on either failure |
| Auth.ChangePasswordSkipsPolicy | src/dump.js:120-128 | a password sign-up refuses with 400 is accepted by the password change when the provider takes it |

## Left out

- Upload temp files: multer's disk storage, the `images` directory, the `Date.now()` file names and `fs.unlinkSync` (`src/server.js:24-37`, 131, 270, 475) are file-system I/O. The handler gets only the file's MIME type.
- Time: the current time and its `moment.tz` formatting are not modelled. The formatted time `t` is a parameter. The 12-hour `hh` format can give two uploads the same key, and the map update then overwrites the older object.
- Server.ListOutfits: `created` carries the object's raw creation time. The model does not render it as a local-time string.
- Listing order: `GetFiles` returns the listing in an unspecified order. The contracts state which objects are listed, not their order.
- Metadata fetches: the parallel `getMetadata` calls of the listings (`Promise.all`) are a sequential map over the listing. A failure of any of them is folded into the listing failure `listFails`.
- Concurrency: the count-then-write race of outfit numbering, and readers between the purge and the upload of a profile image, are not modelled. Handlers run one at a time.
- Partial deletion: a `deleteFiles` that removes some objects and then throws is not modelled. A failed store call changes nothing.
- Request fields: absent or non-string body and path fields are not modelled. A missing path parameter is the empty string. Password lengths count characters, not UTF-16 code units.
- Server.ListClothes: the `category` read from the query (`src/server.js:298`) is never used. The model takes it and ignores it.
- Auth.IssueToken: the signed token is a parameter. `jwt.sign`, its payload and the secret key are not modelled.
- Auth.UserAuth: the `verifyIdToken` call it makes is not recorded in the call traces of `Auth.Signup` and `Auth.ChangePassword`; those traces list the calls the route itself makes after the gate.
- Provider internals: `jwt.verify` and the identity provider's `getUser`, `getUserByEmail`, `createUser`, `updateUser`, `deleteUser` and `verifyIdToken` are oracle functions. `checkUserExists` (`src/server.js:600-607`) is the oracle `getUser`, with a thrown error read as false.
- Configuration: `firebase/config.js` and `firebase/configStorage.js` only initialise the SDKs and are not part of this model.
- Express wiring: `app.listen`, the body parsers and the JSON envelopes are not modelled beyond the status code and the returned URL, category, items or user.

## Findings

| source | as written | input that shows it | evidently intended | confidence | as-written member | corrected member |
|---|---|---|---|---|---|---|
| src/dump.js:46 | `jwt.sign({username}, …)` names a `username` that neither `src/dump.js` nor `src/server.js` declares, so valid credentials raise a reference error and the default error handler answers 500 | a request that passes `userAuth` with body `{email: "email", password: "pass"}` | the valid credentials obtain the one-hour bearer token of lines 48-58 | medium, not executed (`src/dump.js` also uses `app` and `admin` without declaring them, so it may be pasted into a scope that declares `username`) | Auth.IssueTokenAsWritten | Auth.IssueToken |

# Concordium login plugin: a verified model of its login state machine

The Joomla system plugin `Concordium` lets a visitor log in by signing a
challenge with a Concordium wallet. This project models, in Dafny, the
server side of that exchange:

- the **nonce table**: one row per account address, holding a nonce,
  `created_at` and an optional `user_id`;
- the **`nonce` task**, which reuses a live nonce or draws and saves a new
  six-digit one;
- the **`auth` task**, which checks a signature over the stored nonce's
  message, writes the session slots `account_address` and `user_id`, and
  logs in the linked user;
- **account-to-user linking** (`linkUserToAccountAddress`,
  `onUserAfterSave`, `onUserLogin`) and **logout**;
- the **post-login return URL** rules for the site and the administrator;
- **AccountTransactionSignature**, the per-credential wrapper around the
  submitted signature map, with `getData` and `count`.

Modules:

- `Wrappers`, `Errors` (wrappers.dfy): Option/Result and one error constructor per exception message.
- `Decimal` (decimal.dfy): digit strings, `sprintf("%06d")` and reading digits back.
- `Php` (php.dfy): PHP truthiness of strings and ids, and the `(int)` cast.
- `NonceStore` (nonce_store.dfy): rows, expiry, the message template and the challenge rule `Challenge`.
- `ReturnUrl` (return_url.dfy): the frontend and administrator return rules.
- `Concordium` (concordium.dfy): the session, the `auth` rule `AuthStep`, the linking rule `Link`, and class `Plugin`. The class holds the table and the session; its methods update them step by step as the handlers do.
- `TransactionSignature` (account_transaction_signature.dfy): class `AccountTransactionSignature` over a PHP ordered array.

The handler methods of `Plugin` end with their new state equal to a spec
function of the old state: `IssueNonce` to `Challenge`, `Authenticate` to
`AuthStep`, `LogIn` to `LoginStep`, `LinkUserToAccountAddress` to `Link` and
`OnUserLogout` to `Logout`. `OnUserAfterSave` and `OnUserLogin` equal `Link`
when their guards hold and change nothing otherwise. The properties are
proved about those functions.

Inputs the model takes as values:

- The current time, the expiry length (the `nonce_expired` duration) and the random draw are integer parameters.
- Whether a table save succeeds is a boolean parameter.
- Signature verification is a function `verify` from message to boolean. The signatures and the account info are fixed inside it.
- The node's answers, `User::load`, the login event's verdict, `Uri::isInternal`, the multilanguage switch, the menu-item language and `Route::_` are fields of `AuthEnv`.

Behaviour of the code worth knowing:

- Every failure of the `auth` task is a thrown exception, modelled as `Err`. No failure is a normal `false` return.
- The client posts the signed `text` with the `auth` request, but the plugin never reads it. The model has no such input. The message checked is always built from the stored nonce.
- The session `user_id` is copied from the record before the node is contacted and before verification. So it stays set even when authentication then fails.
- The `auth` task never looks at `created_at`. Expiry only decides, in the `nonce` task, whether a new nonce is drawn. A signature over an expired but still stored nonce therefore logs the user in (`ExpiredNonceStillAuthenticates`).
- A verified address whose record has no user is still an error. By then `account_address` is already in the session, which is what later lets registration or a normal login link the user.

## Model

| member | source | states |
|---|---|---|
| Decimal.NatToString | plugins/system/concordium/src/Extension/Concordium.php:387-388 | the decimal spelling of an integer is a non-empty digit string that reads back as the integer and has a leading zero only when it is a single digit |
| Decimal.NatToStringLength | plugins/system/concordium/src/Extension/Concordium.php:242 | a number below 10^k has at most k digits, so a draw up to 999999 fits in six |
| Decimal.ParseIgnoresLeadingZeros | plugins/system/concordium/src/Extension/Concordium.php:242 | zero padding does not change the value of a digit string |
| Decimal.ZeroPadded | plugins/system/concordium/src/Extension/Concordium.php:242 | `sprintf("%0<width>d", n)` is a digit string reading back as `n`, as long as `width` or the number's own spelling, whichever is longer, and starts with `0` when padding was added |
| Decimal.FormatNonce | plugins/system/concordium/src/Extension/Concordium.php:242 | `sprintf("%06d", draw)` for a draw in 0..999999 is exactly six decimal digits that read back as the draw |
| Decimal.FormatNonceInjective | plugins/system/concordium/src/Extension/Concordium.php:242 | two draws give the same nonce exactly when they are equal |
| Php.IntCastReadsSpelling | plugins/system/concordium/src/Extension/Concordium.php:387-388 | `(int)` of the decimal spelling of any value up to PHP_INT_MAX, with or without leading zeros, gives that value back, so `"7"` and `"007"` both name item 7 |
| NonceStore.NonceMessage | plugins/system/concordium/src/Extension/Concordium.php:583-586 | the message is the template's prefix, then exactly the nonce, then the suffix |
| NonceStore.NonceMessageInjective | plugins/system/concordium/src/Extension/Concordium.php:583-586 | the nonce message determines the nonce: equal messages iff equal nonces |
| NonceStore.ExpiryBoundary | plugins/system/concordium/src/Extension/Concordium.php:219-225 | a nonce is live up to and including `created_at + expiry`, expired one step later, and stays expired as time goes on |
| NonceStore.Challenge | plugins/system/concordium/src/Extension/Concordium.php:209-258 | the returned nonce is the one stored for the address; a failed save changes nothing and returns the error; a changed table has the new row at `created_at = now` with a six-digit nonce; other rows, and the address's `user_id`, are untouched; a new row has no user; well-formed tables stay well formed |
| NonceStore.ChallengeReusesLiveNonce | plugins/system/concordium/src/Extension/Concordium.php:216-233 | when a record exists and `now <= created_at + expiry`, the stored nonce is returned and the table is unchanged, whatever the draw or the save outcome |
| NonceStore.ChallengeIssuesFreshNonce | plugins/system/concordium/src/Extension/Concordium.php:235-255 | when no record exists or it is expired, a successful save writes the formatted draw with `created_at = now` and the old `user_id`; a failed save writes nothing and raises the error |
| NonceStore.ChallengeRepeatWithinWindow | plugins/system/concordium/src/Extension/Concordium.php:216-258 | asking again within the window of the issued nonce returns the same nonce and saves nothing |
| NonceStore.ChallengeRepeatAfterExpiry | plugins/system/concordium/src/Extension/Concordium.php:219-255 | asking again after the window returns the new draw and moves `created_at` to the new time |
| ReturnUrl.Contains | plugins/system/concordium/src/Extension/Concordium.php:431 | the `strpos(...) !== false` test holds exactly when the substring occurs at some index |
| ReturnUrl.LanguageSuffix | plugins/system/concordium/src/Extension/Concordium.php:390-406 | nothing is appended when multilanguage is off or the menu item's language is `*`; otherwise `&lang=` followed by the language, empty when the lookup found no row |
| ReturnUrl.ItemUrl | plugins/system/concordium/src/Extension/Concordium.php:385-419 | the menu-item URL is never empty, so the profile-page fallback never replaces it |
| ReturnUrl.ItemUrlNamesItem | plugins/system/concordium/src/Extension/Concordium.php:387-388 | the menu-item URL starts with `index.php?Itemid=` followed by the item's digits |
| ReturnUrl.FrontendNumericReturn | plugins/system/concordium/src/Extension/Concordium.php:385-408 | a numeric return becomes `index.php?Itemid=N` plus the language suffix, where N reads back as the given number (saturated at PHP_INT_MAX) |
| ReturnUrl.FrontendTextReturn | plugins/system/concordium/src/Extension/Concordium.php:409-419 | a non-numeric return is kept only when internal and non-empty; otherwise it becomes the profile page |
| ReturnUrl.FrontendReturn | plugins/system/concordium/src/Extension/Concordium.php:385-419 | the frontend target is never empty and is the profile page, a menu-item URL, or the given return when it is internal |
| ReturnUrl.AdminReturn | plugins/system/concordium/src/Extension/Concordium.php:424-435 | the administrator target is `index.php` unless the return is internal and contains no `tmpl=component` anywhere, in which case it is the return |
| Concordium.FetchAccountInfo | plugins/system/concordium/src/Extension/Concordium.php:276-347 | the account info is obtained exactly when the server type is JSON-RPC or gRPC and both node calls answer |
| Concordium.AuthStep | plugins/system/concordium/src/Extension/Concordium.php:259-497 | no record: error, nothing changes; otherwise the session `user_id` is the record's; `account_address` is set exactly when the stored nonce's message verifies; success iff record, node, verification, linked user, user load and login all pass; verified but unlinked is AccountNotFound or AccountNotFoundRegistrationAllowed; the user is logged in only on success, and it is the linked user; a success redirects to the routed frontend return on the site and to the administrator return otherwise, and on the site it has stored that return and honoured remember-me; remember-login is turned on only by a successful site login that asked for it; a verified, linked address ends exactly as `LoginStep` from the session with `user_id` and `account_address` set, so a refused site login has stored the computed return and is LoginRejected; every failure leaves the logged-in user and remember-login as they were; a verified but unlinked address changes only `user_id` and `account_address`; the return URL is stored only on the site, for a linked user that loads |
| Concordium.LoginStep | plugins/system/concordium/src/Extension/Concordium.php:362-484 | for a verified, linked address: success iff the user loads and no login handler refuses; an unloadable user is JoomlaAccountNotFound with the session unchanged; a loaded user whom a login handler refuses is LoginRejected; the plugin's own slots are not touched; only success logs this user in; on the site a loaded user's return is stored as `users.login.form.return` before the login event, and never in the administrator; the redirect is `Route::_` of the frontend return on the site and the administrator return unrouted; remember-login is set by, and only by, a successful frontend login that asked for it |
| Concordium.AuthErrorsBeforeAddress | plugins/system/concordium/src/Extension/Concordium.php:269-360 | a node failure or a failed verification raises its error and leaves the session as before except for the copied `user_id` |
| Concordium.AuthChecksStoredNonce | plugins/system/concordium/src/Extension/Concordium.php:351-358 | a signature over another nonce's message fails and does not set `account_address` |
| Concordium.AuthReplayable | plugins/system/concordium/src/Extension/Concordium.php:259-497 | the reply of the auth task does not depend on the session it starts from; with the table unwritten, a repeated auth gives the same redirect or the same error, so the nonce is not rotated |
| Concordium.ExpiredNonceStillAuthenticates | plugins/system/concordium/src/Extension/Concordium.php:259-360 | a record the `nonce` task would replace as expired still authenticates: the auth task never checks `created_at` |
| Concordium.Link | plugins/system/concordium/src/Extension/Concordium.php:609-638 | no session address: nothing; missing record: error, nothing changes; a record without a user gets `user_id` written, with the same id put in the session, exactly when the save succeeds, and a failed save is SaveFailed with nothing changed; a record that already has a user is left alone; only `user_id` is ever written; an error changes nothing |
| Concordium.LinkWriteOnce | plugins/system/concordium/src/Extension/Concordium.php:625-636 | after a link has written a user, a later link with any id changes nothing |
| Concordium.Logout | plugins/system/concordium/src/Extension/Concordium.php:591-600 | with an account address in session both plugin slots are cleared and nothing else changes; otherwise the session is unchanged; afterwards linking is disabled |
| Concordium.FalsySlotsInHandlers | plugins/system/concordium/src/Extension/Concordium.php:591-636 | a session address of null, `""` or `"0"` counts as none, so linking and logout change nothing and linking is disabled; a record whose `user_id` is 0 counts as unlinked, so a successful link writes the new id over it |
| Concordium.RouteOf | plugins/system/concordium/src/Extension/Concordium.php:188-209 | the plugin handles a request only when option is `concordium`; a non-POST to it is denied; a POST to it runs the nonce branch exactly for task `nonce` and the auth branch exactly for task `auth` |
| Concordium.Plugin.IssueNonce | plugins/system/concordium/src/Extension/Concordium.php:209-258 | the table becomes `Challenge` of the old table; the reply is the message of the returned nonce or the save error; the session is unchanged |
| Concordium.Plugin.Authenticate | plugins/system/concordium/src/Extension/Concordium.php:259-497 | the table is never written; the session and the reply are `AuthStep` of the old state |
| Concordium.Plugin.LogIn | plugins/system/concordium/src/Extension/Concordium.php:362-484 | the session and the reply are `LoginStep` of the old session |
| Concordium.Plugin.LinkUserToAccountAddress | plugins/system/concordium/src/Extension/Concordium.php:609-638 | table, session and result are `Link` of the old state |
| Concordium.Plugin.OnUserAfterSave | plugins/system/concordium/src/Extension/Concordium.php:556-574 | links the saved user only with an address and no user id in session and a non-empty id; otherwise nothing changes |
| Concordium.Plugin.OnUserLogin | plugins/system/concordium/src/Extension/Concordium.php:647-672 | links the logged-in user only with an address and no user id in session, a non-empty username and a known id; otherwise nothing changes |
| Concordium.Plugin.OnUserLogout | plugins/system/concordium/src/Extension/Concordium.php:591-600 | the session becomes `Logout` of the old one; the table is unchanged |
| Concordium.Plugin.OnAfterRoute | plugins/system/concordium/src/Extension/Concordium.php:182-524 | dispatch: foreign requests untouched, non-POST denied, unknown tasks give an empty reply, the nonce and auth tasks give exactly `Challenge` and `AuthStep` |
| TransactionSignature.Lookup | plugins/system/concordium/src/Request/AccountTransactionSignature/AccountTransactionSignature.php:20 | a key is found exactly when some entry has it, and the value found belongs to such an entry |
| TransactionSignature.Put | plugins/system/concordium/src/Request/AccountTransactionSignature/AccountTransactionSignature.php:20 | array assignment keeps every key in place; an existing key is overwritten with the keys exactly as before, and a new key is appended at the end |
| TransactionSignature.PutLookup | plugins/system/concordium/src/Request/AccountTransactionSignature/AccountTransactionSignature.php:20 | after assigning `$k`, reading `$k` gives the value assigned and every other key reads as before |
| TransactionSignature.PutKeepsDistinct | plugins/system/concordium/src/Request/AccountTransactionSignature/AccountTransactionSignature.php:20 | assignment keeps the keys distinct |
| TransactionSignature.Wrapped | plugins/system/concordium/src/Request/AccountTransactionSignature/AccountTransactionSignature.php:16-22 | one entry per input entry, same key, same position, value wrapped from that input value |
| TransactionSignature.WrappedKeepsKeys | plugins/system/concordium/src/Request/AccountTransactionSignature/AccountTransactionSignature.php:18-21 | the wrapped array has the input's keys in the input's order and keeps them distinct |
| TransactionSignature.WrappedLookup | plugins/system/concordium/src/Request/AccountTransactionSignature/AccountTransactionSignature.php:20 | the entry found at a key is the wrapped input value at that key, and a key is found exactly when it was submitted |
| TransactionSignature.DistinctKeyCount | plugins/system/concordium/src/Request/AccountTransactionSignature/AccountTransactionSignature.php:40-43 | with distinct keys, the number of entries equals the number of keys |
| TransactionSignature.AccountTransactionSignature.constructor | plugins/system/concordium/src/Request/AccountTransactionSignature/AccountTransactionSignature.php:16-22 | after the `foreach`, `data` is the wrapped input, in insertion order |
| TransactionSignature.AccountTransactionSignature.GetData | plugins/system/concordium/src/Request/AccountTransactionSignature/AccountTransactionSignature.php:29-32 | returns one entry per submitted key, same keys in the same order, the entry at each position wrapped from the submitted value; reads only |
| TransactionSignature.AccountTransactionSignature.Count | plugins/system/concordium/src/Request/AccountTransactionSignature/AccountTransactionSignature.php:40-43 | the count equals the number of submitted entries and of distinct keys (0 for an empty input); reads only |

## Left out

- Signature verification is a boolean input. `Helper::verifyMessageSignature`, `AccountInfo` and `CredentialSignature` are not part of this model. Nor are SHA-256, Ed25519, address decoding or the account and credential thresholds. So the use of `count()` in the account-threshold check is not modelled either.
- The JSON-RPC and gRPC clients are network I/O. Only whether each call answers is modelled.
- Login event dispatch, `AuthenticationResponse`, `User::load`, `onUserAfterLogin` and `Route::_` are framework calls. They enter as inputs. Plugins that rewrite `users.login.form.return` during dispatch are not modelled: the redirect uses the value the plugin set.
- `Text::sprintf` and the language file are modelled as a template split at its `%s`. The exception texts are modelled as error constructors. The table's `getError()` text is not carried.
- `Date`, `DateInterval` and the `nonce_expired` parameter are modelled as integer times and an integer duration.
- `rand(0, 999999)` is modelled as a parameter in that range.
- A failed table save is assumed to leave the row as it was.
- Php.IntCast: modelled on a 64-bit build.
- ReturnUrl.FrontendReturn: PHP's `is_numeric` also accepts signs, decimals, exponents and surrounding whitespace. The model treats only non-empty runs of ASCII digits as numeric. A return such as `" 5"` or `"5.0"` therefore takes the non-numeric branch in the model.
- Requests to the same address can run at the same time and race on the table. The model treats each handler as one atomic step.
- UI is not modelled: login buttons, CSS/JS injection, the captcha removal in `onContentPrepareForm`, and the "account linked" notice.
- Output is not modelled: logging, HTTP headers and status codes, JSON encoding and `app->close()`.
- The browser wallet script, the dependency-injection wiring, the build tooling and `NormalAccountCredential` (a data holder) are not part of this model.

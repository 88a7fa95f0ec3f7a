# zero2prod (axum): the newsletter core in Dafny

This project models the core of a mailing-list service. It has five parts:

- **Subscriber names.** `SubscriberName::parse` accepts a display name unless:
  - it is blank;
  - it has more than 256 grapheme clusters;
  - it contains one of ten forbidden characters.
- **The subscription store.** This is a class over the `subscriptions` rows and the `subscription_tokens` map.
  - `subscribe` inserts one row.
  - `confirm` resolves a token and marks the bound subscriber `'confirmed'`.
  - `get_confirmed_subscribers` lists the confirmed rows as per-row results.
- **Newsletter publishing.**
  - Extraction of HTTP Basic credentials in the case-sensitive `Basic ` form of section 2 of RFC 7617.
  - The mapping of failures to 401 or 500.
  - The sequential fan-out loop, which skips invalid emails and stops at the first failed send.
- **The admin password change.** A fixed chain of guards, each with its own `cperror` message, comes before the one call that stores the new password.
- **Configuration.** This covers:
  - the environment names and their parser;
  - the default environment;
  - the SSL-mode choice;
  - the email client's timeout.

The database, the email gateway and the libraries are parameters:

- Each SQL statement's outcome is a `DbOutcome`.
- The gateway is `gateway: nat -> bool`, which says whether the k-th send succeeds.
- Base64 decoding, UTF-8 validation, grapheme segmentation, `SubscriberEmail::parse`, `validate_credentials`, `get_username` and `authentication::change_password` are function parameters.
- Methods that send or call out record what they did as a log: `sent`, or `calls`.

The `subscribe` handler is much smaller than a full registration flow, and the model keeps it so:
- It runs one INSERT of the form strings as given. It validates neither the name nor the email.
- It writes no confirmation token.
- It leaves `status` to the table's default, which `Store.defaultStatus` stands for.

`Scenario.SubscribeConfirmPublish` therefore starts from a token table fixed in advance and a default of `"pending_confirmation"`.

Files:

- `wrappers.dfy`: `Option`, `Result`, `DbOutcome` and the status codes.
- `authentication.dfy`: the credential types.
- `subscriber_name.dfy`, `subscriptions.dfy`, `newsletters.dfy`, `admin_password.dfy` and `configuration.dfy`: one file per source file of the core.
- `scenario.dfy`: the end-to-end scenario.

## Model

| member | source | states |
|---|---|---|
| Domain.TrimStart | src/domain/subscriber_name.rs:8 | The result is a suffix of the input. Everything dropped is whitespace, and the result does not start with whitespace. |
| Domain.TrimEnd | src/domain/subscriber_name.rs:8 | The result is a prefix of the input. Everything dropped is whitespace, and the result does not end with whitespace. |
| Domain.Trim | src/domain/subscriber_name.rs:8 | The trimmed name is empty exactly when every character is Unicode White_Space. |
| Domain.GraphemeCountAtMostLength | src/domain/subscriber_name.rs:9 | A segmentation into non-empty clusters has no more clusters than the string has characters. |
| Domain.AsciiGraphemeCount | src/domain/subscriber_name.rs:9 | A printable-ASCII string has exactly one cluster per character. |
| Domain.ContainsForbiddenCharacters | src/domain/subscriber_name.rs:10-11 | True exactly when some character of the string is one of the ten forbidden ones. |
| Domain.Parse | src/domain/subscriber_name.rs:7-17 | The name is accepted iff it has a non-whitespace character, at most 256 clusters and no forbidden character. An accepted name stores the input unchanged (untrimmed), and `AsRef` returns it. Every rejection carries "invalid subscriber name". |
| Domain.SubscriberName.AsRef | src/domain/subscriber_name.rs:20-24 | Gives back the string `Parse` accepted, unchanged; stated by `Parse`'s second ensures (`r.Ok? ==> r.value.AsRef() == s`). |
| Domain.A256GraphemeNameIsValid | src/domain/subscriber_name.rs:30-34 | Exactly 256 `a`s is accepted, under any valid segmentation. |
| Domain.ANameLongerThan256GraphemesIsInvalid | src/domain/subscriber_name.rs:36-40 | 257 `a`s is rejected. |
| Domain.ShortNamesAreNeverTooLong | src/domain/subscriber_name.rs:9-12 | For names of at most 256 characters, only blankness and forbidden characters decide. |
| Domain.WhitespaceOnlyNamesAreInvalid | src/domain/subscriber_name.rs:42-46 | Any all-whitespace name is rejected, the empty one included. |
| Domain.EmptyAndSpaceNamesAreInvalid | src/domain/subscriber_name.rs:42-52 | `""` and `" "` are rejected. |
| Domain.NamesWithForbiddenCharactersAreInvalid | src/domain/subscriber_name.rs:54-60 | A forbidden character anywhere, or alone, makes the name invalid. |
| Domain.ValidNamesAreValid | src/domain/subscriber_name.rs:62-66 | "Ursula Le Guin" is accepted and stored as given. |
| Subscriptions.MarkConfirmed | src/routes/subscriptions_confirm.rs:66-72 | The UPDATE sets status 'confirmed' on exactly the rows with the given id. Every other row and every other column is unchanged, and the row count stays the same. |
| Subscriptions.MarkConfirmedIsIdempotent | src/routes/subscriptions_confirm.rs:66-72 | Confirming twice leaves the same rows as confirming once. |
| Subscriptions.MarkConfirmedIsMonotonic | src/routes/subscriptions_confirm.rs:66-72 | A row is confirmed afterwards iff it was confirmed before or is the target. Nothing but the status changes, so a status never moves back. |
| Subscriptions.LookupToken | src/routes/subscriptions_confirm.rs:41-55 | A token yields a subscriber id iff it is a key of the token table, and then the one id bound to it. |
| Subscriptions.MarkConfirmedTouchesOneRow | src/routes/subscriptions_confirm.rs:66-72 | With unique ids, at most one row changes. |
| Subscriptions.Store.constructor | src/routes/subscriptions_confirm.rs:41-47 | An empty `subscriptions` table over a given token table and status default. |
| Subscriptions.Store.Subscribe | src/routes/subscriptions.rs:16-35 | A successful INSERT appends exactly one row (the fresh id, the form's email and name, the clock's time, the default status) and gives 200. A failed INSERT gives 500 and adds nothing. The token table never changes, and a fresh id keeps ids unique. |
| Subscriptions.Store.SubscriberIdFromToken | src/routes/subscriptions_confirm.rs:37-56 | The query fails iff the SELECT fails. Otherwise it gives the token's subscriber id, or none. |
| Subscriptions.Store.ConfirmSubscriber | src/routes/subscriptions_confirm.rs:62-81 | A successful UPDATE gives `Ok(())` and the rows become `MarkConfirmed` of the old rows. A failed one gives the error and changes nothing. |
| Subscriptions.Store.Confirm | src/routes/subscriptions_confirm.rs:14-31 | A failed lookup gives 500 with no update. An unknown token gives 401 with no change. A known token gives 200 and confirms exactly the bound subscriber, or gives 500 if the UPDATE fails. The token table is only read. |
| Subscriptions.Store.ConfirmTwice | src/routes/subscriptions_confirm.rs:14-31 | Confirming the same token twice gives 200 both times, and the final rows are those of a single confirmation. |
| Newsletters.IndexOfColon | src/routes/newsletters.rs:124 | The position of the first ':', or none iff there is no ':'. |
| Newsletters.SplitCredentials | src/routes/newsletters.rs:124-132 | It fails iff there is no ':', with "Missing password". Otherwise decoded == username + ":" + password, and the username has no ':'. |
| Newsletters.SplitCredentialsRoundTrip | src/routes/newsletters.rs:124-137 | Splitting `username:password` gives back both parts whenever the username has no ':', even when the password contains colons. |
| Newsletters.BasicAuthentication | src/routes/newsletters.rs:110-138 | Each step has its own error: a missing header, a header that is not visible ASCII, no exact `Basic ` prefix, a failed base64 decode, a payload that is not UTF-8. Once both decoders succeed, the result is the split of the decoded payload at its first ':', so a payload without ':' is refused with "Missing password". |
| Newsletters.HeaderToStr | src/routes/newsletters.rs:111-115 | `to_str` succeeds iff every byte is visible ASCII or tab, and then reads each byte as the character of the same code. |
| Newsletters.NonBasicHeaderIsRefused | src/routes/newsletters.rs:116-118 | A header that does not start with exactly `Basic ` is refused with that step's message. |
| Newsletters.BasicAuthenticationExtracts | src/routes/newsletters.rs:110-138 | `Basic <b64>`, where `<b64>` decodes to `user:pass`, yields exactly those credentials. |
| Newsletters.IntoResponse | src/routes/newsletters.rs:45-57 | `AuthError` gives 401 with `WWW-Authenticate: Basic realm="publish"`. `UnexpectedError` gives a bare 500. |
| Newsletters.Authenticate | src/routes/newsletters.rs:72-81 | It gives a user id iff the extraction succeeds and the credentials validate. An extraction failure or invalid credentials give `AuthError`. Only an unexpected validation error gives `UnexpectedError`. |
| Newsletters.ExtractionFailureIsUnauthorized | src/routes/newsletters.rs:49-53 | Whichever extraction step fails, the response is 401 with `WWW-Authenticate: Basic realm="publish"`. |
| Newsletters.ConfirmedRows | src/routes/newsletters.rs:147-153 | `WHERE status = 'confirmed'`: never more rows than stored. |
| Newsletters.OkEmails | src/routes/newsletters.rs:85-106 | The emails of the `Ok` entries, in order: never more than the entries. |
| Newsletters.ConfirmedRowsCount | src/routes/newsletters.rs:147-153 | Each confirmed row is listed as often as it is stored, and no other row is listed. |
| Newsletters.ConfirmedRowsAppend | src/routes/newsletters.rs:147-156 | The filter keeps the order of the rows it is given: it distributes over concatenation. |
| Newsletters.ToEntry | src/routes/newsletters.rs:157-160 | A row becomes `Ok` with the parsed email iff its email parses, and otherwise `Err` with the parser's error. |
| Newsletters.GetConfirmedSubscribers | src/routes/newsletters.rs:144-164 | It fails (`UnexpectedError`) iff the SELECT fails. Otherwise there is one entry per confirmed row, in order, and a row whose email does not parse becomes an `Err` entry. |
| Newsletters.PendingSubscribersAreNotListed | src/routes/newsletters.rs:149-151 | A row that is not confirmed is never listed, and every listed row is a stored, confirmed one. |
| Newsletters.OkEmailsOfPrefix | src/routes/newsletters.rs:85-106 | The valid emails of a prefix of the entries are a prefix of the valid emails of all of them. |
| Newsletters.OkEmailsMembership | src/routes/newsletters.rs:85-106 | An email is among those the loop sends to iff some entry is `Ok` with that email. |
| Newsletters.RecipientsAreConfirmed | src/routes/newsletters.rs:144-164 | A valid recipient is exactly the parsed email of a confirmed row. In particular, it is the email of a stored row whose status is 'confirmed'. |
| Newsletters.SentOnlyToConfirmed | src/routes/newsletters.rs:85-106 | Every send in the order of the confirmed subscribers goes to a stored, confirmed row whose email parses. |
| Newsletters.SendToAll | src/routes/newsletters.rs:85-107 | Each `Ok` entry, in order, gets one send with (email, title, text, html), and `Err` entries are skipped. The result is 200 iff every send succeeds, and then every valid email got the issue. Otherwise it is `UnexpectedError` right after the first failing send, and nothing later is attempted. |
| Newsletters.PublishNewsletter | src/routes/newsletters.rs:67-108 | Nothing is sent when authentication or the SELECT fails. Every extraction failure is `AuthError`. Otherwise the fan-out of `SendToAll` runs over the confirmed subscribers of the store. Every recipient is the parsed email of a stored row whose status is 'confirmed', so a pending subscriber is never sent the issue. |
| AdminPassword.Utf8Width | src/routes/admin/password/post.rs:101-107 | A scalar takes 1 to 4 bytes, and 1 exactly when it is ASCII. |
| AdminPassword.Utf8Length | src/routes/admin/password/post.rs:101-107 | `String::len` lies between the character count and four times it. |
| AdminPassword.AsciiUtf8Length | src/routes/admin/password/post.rs:101-107 | For ASCII, the byte length is the character count. |
| AdminPassword.NewPasswordIsTooShort | src/routes/admin/password/post.rs:101-103 | True iff the password is under 12 bytes, which needs fewer than 12 characters. |
| AdminPassword.NewPasswordIsTooLong | src/routes/admin/password/post.rs:105-107 | True iff the password is over 128 bytes, which needs more than 32 characters. |
| AdminPassword.LengthGuards | src/routes/admin/password/post.rs:101-107 | Both length guards pass iff the byte length is in 12..128. Any 12 characters are long enough, and at most 32 characters are never too long. |
| AdminPassword.SixTwoByteCharactersAreLongEnough | src/routes/admin/password/post.rs:101-103 | The minimum counts bytes: six two-byte characters pass it. |
| AdminPassword.ChangePasswordErrorResponse | src/routes/admin/password/post.rs:109-117 | 303 to `/admin/password`, with the message in the `cperror` cookie. |
| AdminPassword.ChangePassword | src/routes/admin/password/post.rs:23-99 | Always 303. No session redirects to `/login` with no call made. Mismatched fields are refused before any call. The password is stored iff every guard passes, and as the last call. Once every guard passes, the success message appears iff the store succeeds; the success message never appears otherwise. |
| AdminPassword.FirstFailure | src/routes/admin/password/post.rs:34-98 | None iff every guard in the list passes. |
| AdminPassword.FirstFailureIsFirst | src/routes/admin/password/post.rs:34-98 | Otherwise the message is that of a failing guard all of whose predecessors pass. |
| AdminPassword.GuardChain | src/routes/admin/password/post.rs:34-98 | The seven guards in the handler's order. All of them pass iff every guard in front of the change passes and the change succeeds. |
| AdminPassword.FirstFailingGuardDecides | src/routes/admin/password/post.rs:34-98 | For a signed-in user, the cookie message is that of the first failing guard in the fixed order (mismatch, lookup, wrong password, unexpected error, too short, too long, store failure), or the success message. |
| Configuration.AsStr | src/configuration.rs:59-66 | The name is "local" exactly for `Local` and "production" exactly for `Production`. |
| Configuration.TryFrom | src/configuration.rs:68-78 | Accepts exactly "local" and "production". Any other string gives "`s` is not a valid environment". |
| Configuration.TryFromAsStr | src/configuration.rs:59-78 | `try_from(as_str(e)) == Ok(e)` for both environments. |
| Configuration.AsStrTryFrom | src/configuration.rs:59-78 | Whenever `try_from(s)` succeeds, `as_str` of its result is `s`. |
| Configuration.AsStrIsInjective | src/configuration.rs:59-66 | The two environments have distinct names. |
| Configuration.TryFromIsCaseSensitive | src/configuration.rs:71-77 | "Local" and "PRODUCTION" are refused. |
| Configuration.SelectEnvironment | src/configuration.rs:106-109 | Unset means `Local`. A set value succeeds iff `try_from` accepts it, naming that environment. Otherwise it fails with the `expect` message "Failed to parse APP_ENVIRONMENT". |
| Configuration.WithoutDb | src/configuration.rs:87-99 | SSL is `Require` iff `require_ssl`, otherwise `Prefer`. Host, username, password and port are copied. |
| Configuration.FromMillis | src/configuration.rs:49-51 | A normalised `Duration`: nanos below 10^9, and the total equal to the milliseconds × 10^6 ns. |
| Configuration.Timeout | src/configuration.rs:49-51 | The timeout is exactly `timeout_milliseconds` milliseconds. |
| Scenario.HeaderIsBasic | src/routes/newsletters.rs:111-115 | The header bytes of `Basic dXNlcjpwYXNz` read back as that string. |
| Scenario.CallerIsAuthenticated | src/routes/newsletters.rs:72-81 | With those bytes and matching decoders, the caller authenticates. |
| Scenario.OneRecipient | src/routes/newsletters.rs:144-164 | One confirmed row gives exactly its email as the valid recipient. |
| Scenario.SubscribeConfirmPublish | src/routes/subscriptions.rs:16-35 | Subscribing, confirming by token and publishing gives 200 and exactly one send, to ursula_le_guin@gmail.com, with ("Issue 1", "hi", "<p>hi</p>"). |

## Left out

- Base64 decoding (section 4 of RFC 4648) and UTF-8 validation are function parameters, not reimplementations. Only their results matter to `basic_authentication`.
- Grapheme segmentation (Unicode UAX #29) is a parameter `graphemes`. The lemmas assume only what `IsGraphemeSegmentation` states: non-empty clusters that concatenate to the name, and no cluster joining two printable ASCII characters.
- `SubscriberEmail::parse`, `validate_credentials`, `get_username`, `authentication::change_password` and `EmailClient::send_email` are not part of this model. They are oracle parameters.
- The database is not modelled beyond the two tables. Transactions, isolation, any unique-email constraint and the migration defining the `status` default are absent. A statement's failure is an input, and the default is `Store.defaultStatus`.
- Token creation does not exist in the modelled code. The token table is given state that no operation writes.
- The "Missing username" branch of `basic_authentication` is unreachable (the first part of `splitn` always exists), so it has no model.
- The `anyhow` error chains are reduced to message strings. The cause recorded for a failed `get_confirmed_subscribers` query (`"sqlx::Error"`) is a label, not the library's text.
- Logging, tracing spans and `.await` suspension points are absent. Session storage and the signed cookie jar are reduced to the session's `user_id` and the `cperror` value.
- `with_db` (the database name and `log_statements`) and the config-file and environment layering of `get_configuration` are not modelled, because they only drive foreign builders. Only the default environment selection and its failure are modelled.
- `EmailClientSettings::sender` only forwards to `SubscriberEmail::parse`, which is not part of this model.
- Newsletters.ConfirmedRows: its own contract states only the length bound. Its content and order are stated by `ConfirmedRowsCount`, `ConfirmedRowsAppend` and `PendingSubscribersAreNotListed`.
- Newsletters.OkEmails: its own contract states only the length bound. Its contents are stated by `OkEmailsMembership`, and its order by `OkEmailsOfPrefix` and `SendToAll`.
- Newsletters.GetConfirmedSubscribers: the SELECT has no `ORDER BY`, so the database promises no order, and a row may move after the UPDATE. The model fixes the fetch order to the order of `Store.rows`. Send order and fail-fast are stated for that order. Which rows, and how often each, also hold for any order (`ConfirmedRowsCount`, `RecipientsAreConfirmed`).
- Configuration.SelectEnvironment: when `expect` panics, its message is "Failed to parse APP_ENVIRONMENT" followed by `: ` and the `Debug` form of `try_from`'s error. The model keeps only the first part, because Rust's `Debug` escaping of strings is not modelled.

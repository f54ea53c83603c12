# Entitlement core of the VividMedi clinical assistant

A Dafny model of the part of `app.py` that decides who may generate and how
often. It covers four things:

- **User directory.** The `users` table holds one row per e-mail, a plan
  (`free` or `pro`), and the payment provider's customer and subscription
  references.
- **Usage ledger.** The `usage` table holds one counter per
  `(actor_type, actor_id)`.
- **Quota policy.** A request is resolved to a signed-in user or a guest.
  Guests get 10 generations, free users 11, and pro users 1,000,000. Every
  attempt is counted before it is checked.
- **Payment side.** Checkout creates a customer reference only for a user
  who has none. Webhooks move users to `pro` on a completed checkout and back
  to `free` on a terminal subscription status.

The storage is modelled as values. The users table is a sequence of rows in
insertion order, so `fetchone()` is "the first matching row". The ledger is a
map. Every operation is a pure function from the old state to the new state
and its answer. Anything the code gets from outside becomes a parameter:

- the uid recovered from a bearer token;
- the session's `user_id` and the guest cookie;
- the fresh uuid hex and the timestamp;
- the customer returned by the provider and the checkout URL;
- the event produced by signature verification.

The modules follow the code's sections:

| module | file | code it models |
|---|---|---|
| `Common` | common.dfy | `None`/`NULL`, `COALESCE`, first-match lookup |
| `Text` | text.dfy | `str.strip()`, `str.lower()`, `in`, `str(int)`, `normalise_card_type` |
| `Users` | users.dfy | `create_or_get_user_by_email`, `upgrade_user_to_pro`, the row updates of checkout and webhook |
| `Usage` | usage.dfy | `usage_get`, `usage_incr` |
| `Quota` | quota.dfy | `get_authed_user`, `actor_and_limit`, `quota_block_payload`, `enforce_quota_or_402`, `/api/me` |
| `Billing` | billing.dfy | `stripe_create_checkout_session` (customer reference), `stripe_webhook` (dispatch) |

## Model

| member | source | states |
|---|---|---|
| `Common.Coalesce` | app.py:297-298 | A given value replaces the stored one; an absent one (SQL `NULL`) keeps it |
| `Common.FirstIndex` | app.py:167 | The index returned is the first row satisfying the condition; no row satisfies it when none is returned |
| `Text.Strip` | app.py:264 | The result is a contiguous slice of the input with only white space (Python's `isspace` set) around it, and it does not start or end with white space |
| `Text.StripTrimmed` | app.py:264 | A string that does not start or end with white space is unchanged by stripping, so stripping is idempotent |
| `Text.StripEmptyIffBlank` | app.py:264-266 | Stripping leaves nothing exactly when the input is all white space, which is when the e-mail guard raises |
| `Text.Lower` | app.py:264 | Lower-casing keeps the length and maps every character on its own: ASCII capitals to their lower-case letters, everything else unchanged |
| `Text.LowerFixesLowered` | app.py:264 | Lower-casing yields a string with no upper-case letter, and it fixes exactly those strings |
| `Text.Contains` | app.py:230-233 | `sub in s` holds exactly when `sub` occurs in `s` at some index |
| `Text.NormaliseCardType` | app.py:226-234 | The result is empty exactly when the input is blank. Any mention of "gold" gives "Gold"; otherwise any mention of "white" gives "White". Any other text gives the stripped, lower-cased text with its first character capitalised: lower-casing the result gives that text back, and everything after the first character is unchanged |
| `Text.NormaliseCardTypeIdempotent` | app.py:226-234 | Normalising an already normalised card type changes nothing ("Gold", "White" and capitalised words are fixed points) |
| `Text.IntToDecimal` | app.py:365 | The decimal text of an integer is non-empty and starts with `-` exactly for a negative number. The rest is decimal digits with no leading zero, except for 0 itself |
| `Text.IntDecimalRoundTrip` | app.py:365 | The decimal text of any integer in the paywall copy reads back as that integer |
| `Users.PlanName` | app.py:352 | The stored plan text is `"pro"` exactly for the pro plan and `"free"` exactly for the free plan |
| `Users.NormaliseEmailIdempotent` | app.py:264 | A normalised e-mail is stripped and lower-case, so it is its own normal form and a valid stored key |
| `Users.FindById` | app.py:167 | The lookup returns the first row with that id; no row has that id when it returns nothing |
| `Users.FindByEmail` | app.py:269 | The lookup returns the first row with that e-mail; no row has it when it returns nothing |
| `Users.FindByCustomer` | app.py:770 | The lookup returns the first row carrying that customer reference; no row carries it when it returns nothing |
| `Users.UpsertByEmail` | app.py:263-266 | An e-mail that is empty after strip and lower-case is rejected with the missing-e-mail error; any other is looked up or inserted under its normalised form |
| `Users.UpsertByKey` | app.py:268-289 | A known e-mail returns the same row, with only name and picture refreshed (each only by a non-empty input), and adds no row; rows with other e-mails are unchanged. A new e-mail appends exactly one row: id `usr_` plus the fresh hex, the normalised e-mail, the given name and picture, `free`, verified, no payment references, stamped with the given time. An id collision is the primary-key error, and happens only for a new e-mail |
| `Users.UpsertKeepsValid` | app.py:116-128 | Upserting a valid key keeps ids unique, e-mails unique and normalised. The row returned is the one a lookup by its e-mail finds, at its old index or appended at the end |
| `Users.UpsertTwiceSameUser` | app.py:263-289 | Once an upsert succeeds, upserting an e-mail with the same normal form returns the same id and adds no row |
| `Users.UpgradeToPro` | app.py:291-303 | The user with that id is on `pro`. A given customer or subscription reference replaces the stored one, and an absent one keeps it. Profile columns and every other user are unchanged |
| `Users.UpgradeIdempotent` | app.py:291-303 | Upgrading twice with the same arguments equals upgrading once |
| `Users.DowngradeToFree` | app.py:787 | Only the plan of the rows with that id changes, to `free` |
| `Users.SetCustomerRef` | app.py:723 | Only the customer reference of the rows with that id changes, to the given one |
| `Users.BillingUpdatesKeepValid` | app.py:116-128 | Upgrade, downgrade and customer linking keep the table's unique keys |
| `Usage.UsageGet` | app.py:309-317 | The count read is 0 for an empty actor id or an actor with no counter, and the stored counter otherwise |
| `Usage.UsageIncr` | app.py:319-340 | The stored and returned count is the old count (0 if none) plus the increment. A following read returns it. An empty actor id returns 0 and records nothing. No other actor's counter appears, disappears or changes |
| `Usage.IncrAdditive` | app.py:319-340 | Two increments in a row equal one increment by their sum |
| `Usage.IncrIsolated` | app.py:309-340 | Reading another actor's counter after an increment gives the value from before it |
| `Quota.ResolveUid` | app.py:163-168 | A uid resolves exactly when it is non-empty and some row has it, and it resolves to that row |
| `Quota.GetAuthedUser` | app.py:170-180 | A user is found exactly when the bearer uid or the session uid resolves. When the bearer resolves, its user wins over the session's |
| `Quota.ActorAndLimit` | app.py:342-356 | A signed-in user is metered under their (non-empty) id, with 1,000,000 on `pro` and 11 on any other plan. Anyone else is a guest metered under the cookie id with 10 |
| `Quota.QuotaBlockPayload` | app.py:358-379 | The reported count is `min(used, limit)`, never above the limit, and the copy line carries the same numbers. The promo is present exactly for visitors who are not signed in, who are offered sign-up; signed-in users are offered their account |
| `Quota.Gated` | app.py:381-386 | For an actor already resolved, the attempt is counted first. It is denied exactly when the new count exceeds the allowance, so an empty id is never denied. A denial is the `quota_block_payload` paywall for the new count, so it reports the allowance as the count and offers the account page or sign-up as the actor is signed in or not |
| `Quota.EnforceQuota` | app.py:381-386 | Every attempt is counted first. It is denied exactly when the new count exceeds the allowance, so an empty id is never denied. A denial is the `quota_block_payload` paywall for the new count, so it reports the allowance as the count and offers the account page or sign-up as the actor is signed in or not |
| `Quota.AttemptsStep` | app.py:381-386 | A run of requests with the same credentials is the gate of the first request, followed by the run that starts from the ledger it left |
| `Quota.AttemptsCount` | app.py:381-386 | Over consecutive attempts by one actor with a non-empty id, from a starting count `c`, attempt `k+1` leaves the counter at `c+k+1` and is denied exactly when that exceeds the allowance, so denied attempts keep counting |
| `Quota.GuestDeniedFromEleventh` | app.py:355-356 | A new guest with a cookie is served on attempts 1–10 and denied from attempt 11 on |
| `Quota.FreeUserDeniedFromTwelfth` | app.py:352 | A new free-plan user is served on attempts 1–11 and denied from attempt 12 on |
| `Quota.ProUserServedUpToSentinel` | app.py:352 | A pro user is never denied while the count stays within 1,000,000 |
| `Quota.CookielessGuestNeverDenied` | app.py:319-321 | A guest without a cookie is never counted and never denied, however many attempts are made |
| `Quota.ApiMe` | app.py:631-644 | `used` is the resolved actor's stored count and `limit` its allowance. `remaining` is `max(0, limit - used)`: never negative, summing with `used` to the limit while under it, and 0 at or over it. A signed-in user sees their e-mail and stored plan text; otherwise there is no e-mail and the plan reads "guest" |
| `Quota.MeForecastsGate` | app.py:643 | The next gated request goes through exactly when `/api/me` reports some remaining |
| `Billing.CreateCheckoutSession` | app.py:701-740 | Missing configuration and a missing user are answered before anything is written. A signed-in user gets a customer exactly when one is stored (non-empty) or the provider creates one. A stored reference is reused with nothing written. A new reference is written to that user's row only, and kept even if opening the session fails. With a customer, the answer is the session URL, or the provider error when opening the session fails |
| `Billing.LinkedUserCarriesCustomer` | app.py:716-724 | After a customer is linked, the same credentials resolve to a user carrying that customer |
| `Billing.CheckoutReusesCustomer` | app.py:713-724 | Retrying checkout with the same credentials reuses the linked customer, whatever the provider would hand out, and writes nothing |
| `Billing.EventTarget` | app.py:765-770 | An event's target is the first row carrying its non-empty customer reference. There is no target exactly when the event names no customer or no row carries it |
| `Billing.IsTerminal` | app.py:782-786 | A status ends a subscription exactly when it is present and, lower-cased, is canceled, unpaid or incomplete_expired. A missing status never does |
| `Billing.ApplyEvent` | app.py:760-790 | No webhook event changes any profile column or the row count. A missing or unknown customer, a non-terminal status or any other event type changes nothing at all |
| `Billing.CheckoutCompletedUpgrades` | app.py:764-776 | A completed checkout for a known customer puts that user on `pro` with the event's customer. A subscription the event names is recorded; with none, the stored one is kept. The profile is unchanged, and so is every other user |
| `Billing.TerminalChangeDowngrades` | app.py:779-788 | A deleted or updated subscription whose lower-cased status is canceled, unpaid or incomplete_expired changes only the plan of a known customer's user, to `free`. No other user changes |
| `Billing.UpgradeKeepsTargetId` | app.py:768-776 | After the upgrade, a lookup by the same customer still finds a row with the upgraded id |
| `Billing.ReplayIdempotent` | app.py:760-790 | Redelivering any event leaves the users as delivering it once |
| `Billing.ApplyEventKeepsValid` | app.py:116-128 | Webhook events keep the table's unique keys |
| `Billing.HandleWebhook` | app.py:746-790 | Without a webhook secret, or with a signature that fails, nothing changes. Otherwise the event is applied and acknowledged |
| `Billing.WebhookReplayIdempotent` | app.py:746-790 | Delivering the same webhook twice leaves the users as delivering it once |

## Left out

- HTTP plumbing is not modelled. This covers Flask routing, request and response objects, JSON bodies and status codes, cookies, and minting the guest cookie (`ensure_guest_cookie`). The guest id, bearer uid and session uid are plain inputs.
- SQLite connections and SQL text are replaced by a sequence of rows and a map. `usage_incr` reads and then writes on its own connection, which is not atomic. The model runs calls one at a time and claims nothing about lost updates under concurrency.
- Token signing and expiry (`sign_token`/`verify_token`) and webhook signature checks (`construct_event`) are cryptographic or foreign calls. Each is an input: an optional uid, or an optional verified event.
- The payment provider's customer and checkout-session calls are inputs, and their failures are modelled.
- The language-model call and the Whisper/ffmpeg transcription are not modelled. They are foreign calls outside the entitlement logic.
- Locks and lazy model loading (`get_whisper_model`) are concurrency and are not modelled.
- These environment values are not modelled: float settings, `now_awst`, `uuid4` (the fresh hex is a parameter), `datetime.utcnow()` (the timestamp is a parameter) and the `updated_at` column of `usage`.
- Prompt constants and templates (`build_generate_prompt`, `build_consult_prompt`, `build_dva_header`) are text templating. `extract_field` depends on regular-expression semantics. None of these are modelled.
- The start-up configuration guards (app.py:86-94) are environment handling. The checkout and webhook endpoints' own "missing key" answers are modelled (app.py:703-706, 748). The language-model endpoints' API-key guards (app.py:798, 825) and the sign-in endpoint's client-id guard (app.py:652) belong to endpoints this model leaves out.
- The sign-in and sign-out endpoints (`auth_google`, `auth_logout`) are not modelled. This includes the creator-e-mail auto-upgrade. They wrap Google verification around `create_or_get_user_by_email`, which is modelled.
- Text.Lower: case mapping covers ASCII letters only, not the rest of Python's Unicode `lower()`/`upper()`. E-mails, statuses and card types with non-ASCII capitals are lowered less than Python would lower them. `Text.NormaliseCardTypeIdempotent` holds for this ASCII case mapping only. Under Python's full mapping a first letter can upper-case to two characters, so normalising twice can differ: "ßa" gives "SSa", which then gives "Ssa".
- Usage.UsageIncr: counters are unbounded integers. SQLite's 64-bit `INTEGER` overflow is not modelled, because reaching it would take more than 2^63 requests.
- Users.PlanName: the `plan` column is the enum free | pro, because the code writes only those two values. A different text put there by hand would get the free limit in `actor_and_limit`, the same as `free`.
- Quota.QuotaBlockPayload: the button captions, headline and the last two copy lines are fixed texts. The contract states only their actions and the first copy line.
- A lookup by customer reference returns the first row in insertion order. SQLite does not promise an order without `ORDER BY`. This only matters if two users share a customer reference, which the schema does not forbid.

## Behaviour worth knowing

- `usage_incr` reads the counter and then updates or inserts it in separate statements (app.py:323-339). Two concurrent increments can therefore lose one.
- Only a completed checkout writes the subscription reference (app.py:771-775). Subscription-change events change only the plan (app.py:787).
- Checkout creates a new customer when the stored reference is missing and also when it is the empty string (app.py:713-716).
- A new e-mail can still fail to insert if the freshly drawn id is already taken, which is SQLite's primary-key error (app.py:278-285). This is modelled as `DuplicateId`.

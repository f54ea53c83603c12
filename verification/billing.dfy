/**
 The payment side of `app.py`: the customer-reference rule of the
 checkout endpoint (`stripe_create_checkout_session`) and the plan
 transitions driven by the payment provider's webhook (`stripe_webhook`).

 Calls into the provider are parameters: the outcome of creating a
 customer, the URL of the checkout session (none when the call raised),
 and the event that signature verification yields (none when it raised).
 */
module Billing {
  import opened Common
  import opened Text
  import opened Users
  import opened Quota

  /** The payment settings read from the environment (empty when unset). */
  datatype Config = Config(secretKey: string, priceId: string, webhookSecret: string)

  /** What the checkout endpoint answers. */
  datatype CheckoutResponse =
    | CheckoutUrl(url: string)   // 200 with the hosted checkout page
    | MissingSecretKey           // 500, STRIPE_SECRET_KEY unset
    | MissingPriceId             // 500, STRIPE_PRICE_ID_PRO unset
    | NotAuthenticated           // 401
    | ProviderError              // 500, a provider call raised

  /** The table after a checkout request, the customer the checkout session
      was opened for (if the request got that far), and the answer. */
  datatype Checkout = Checkout(users: Table, customer: Option<string>, response: CheckoutResponse)

  /** A stored customer reference counts only when non-empty
      (a missing and an empty reference are treated alike). */
  predicate HasCustomer(u: User) {
    u.customerRef.Some? && u.customerRef.value != ""
  }

  /** Opening the checkout session for a known customer. */
  function OpenSession(t: Table, customer: string, sessionUrl: Option<string>): Checkout {
    Checkout(t, Some(customer), if sessionUrl.Some? then CheckoutUrl(sessionUrl.value) else ProviderError)
  }

  /** `stripe_create_checkout_session`: a signed-in user's stored customer
      reference is reused untouched; only a user without one gets a new
      customer (`newCustomer`, none when creation raised), which is stored
      before the session is opened and kept even if opening then fails. */
  function CreateCheckoutSession(
    t: Table, cfg: Config, req: Request, newCustomer: Option<string>, sessionUrl: Option<string>)
    : (r: Checkout)
    ensures r.response == MissingSecretKey <==> cfg.secretKey == ""
    ensures r.response == MissingPriceId <==> cfg.secretKey != "" && cfg.priceId == ""
    ensures r.response == NotAuthenticated <==>
      cfg.secretKey != "" && cfg.priceId != "" && GetAuthedUser(t, req).None?
    ensures r.response.CheckoutUrl? ==> r.customer.Some? && sessionUrl == Some(r.response.url)
    // a configured, signed-in request gets a customer exactly when it has a
    // stored one or the provider created one, and then the session outcome
    ensures cfg.secretKey != "" && cfg.priceId != "" && GetAuthedUser(t, req).Some? ==>
      (r.customer.Some? <==> HasCustomer(GetAuthedUser(t, req).value) || newCustomer.Some?)
    ensures r.customer.Some? ==>
      r.response == (if sessionUrl.Some? then CheckoutUrl(sessionUrl.value) else ProviderError)
    // an existing reference is reused and nothing is written
    ensures r.customer.Some? ==> GetAuthedUser(t, req).Some?
    ensures r.customer.Some? && GetAuthedUser(t, req).Some? && HasCustomer(GetAuthedUser(t, req).value) ==>
      r.users == t && r.customer == GetAuthedUser(t, req).value.customerRef
    // a new reference is written to that user's row only
    ensures r.customer.Some? && GetAuthedUser(t, req).Some? && !HasCustomer(GetAuthedUser(t, req).value) ==>
      r.customer == newCustomer && r.users == SetCustomerRef(t, GetAuthedUser(t, req).value.id, newCustomer.value)
    ensures r.customer.None? ==> r.users == t
  {
    if cfg.secretKey == "" then Checkout(t, None, MissingSecretKey)
    else if cfg.priceId == "" then Checkout(t, None, MissingPriceId)
    else
      match GetAuthedUser(t, req)
      case None => Checkout(t, None, NotAuthenticated)
      case Some(u) =>
        if HasCustomer(u) then OpenSession(t, u.customerRef.value, sessionUrl)
        else
          match newCustomer
          case None => Checkout(t, None, ProviderError)
          case Some(c) => OpenSession(SetCustomerRef(t, u.id, c), c, sessionUrl)
  }

  /** After a checkout linked customer `c`, the signed-in user of the same
      request now carries `c`. */
  lemma LinkedUserCarriesCustomer(t: Table, req: Request, c: string)
    requires GetAuthedUser(t, req).Some?
    ensures var t' := SetCustomerRef(t, GetAuthedUser(t, req).value.id, c);
      GetAuthedUser(t', req).Some? && GetAuthedUser(t', req).value.customerRef == Some(c)
  {
    var id := GetAuthedUser(t, req).value.id;
    var t' := SetCustomerRef(t, id, c);
    FindByIdStable(t, t', req.bearerUid.GetOr(""));
    FindByIdStable(t, t', req.sessionUid.GetOr(""));
  }

  /** Retrying checkout never creates a second customer: once a request has
      linked a non-empty customer, the same request reuses it whatever the
      provider would hand out, and writes nothing. */
  lemma CheckoutReusesCustomer(
    t: Table, cfg: Config, req: Request, newCustomer: Option<string>, sessionUrl: Option<string>,
    newCustomer2: Option<string>, sessionUrl2: Option<string>)
    requires CreateCheckoutSession(t, cfg, req, newCustomer, sessionUrl).customer.Some?
    requires CreateCheckoutSession(t, cfg, req, newCustomer, sessionUrl).customer.value != ""
    ensures var first := CreateCheckoutSession(t, cfg, req, newCustomer, sessionUrl);
      var second := CreateCheckoutSession(first.users, cfg, req, newCustomer2, sessionUrl2);
      second.users == first.users && second.customer == first.customer
  {
    var u := GetAuthedUser(t, req).value;
    if !HasCustomer(u) {
      LinkedUserCarriesCustomer(t, req, newCustomer.value);
    }
  }

  /** A webhook event as far as the handler reads it: `type`, and the
      `customer`, `subscription` and `status` of `data.object`. */
  datatype Event = Event(kind: string, customer: Option<string>, subscription: Option<string>, status: Option<string>)

  /** The event type that upgrades. */
  const CheckoutCompleted: string := "checkout.session.completed"

  /** The event types that may downgrade. */
  const SubscriptionDeleted: string := "customer.subscription.deleted"
  const SubscriptionUpdated: string := "customer.subscription.updated"

  /** The subscription statuses that end a subscription. */
  const TerminalStatuses: set<string> := {"canceled", "unpaid", "incomplete_expired"}

  /** An event type that may downgrade. */
  predicate IsSubscriptionChange(kind: string) {
    kind == SubscriptionDeleted || kind == SubscriptionUpdated
  }

  /** The status, lower-cased (a missing status reads as empty), is one of
      the statuses that end a subscription. */
  function IsTerminal(status: Option<string>): (b: bool)
    ensures b <==> status.Some? && Lower(status.value) in TerminalStatuses
  {
    assert Lower("") == "";
    Lower(status.GetOr("")) in TerminalStatuses
  }

  /** The customer an event names, if any; an empty one names nobody. */
  function EventCustomer(e: Event): Option<string> {
    if e.customer.Some? && e.customer.value != "" then e.customer else None
  }

  /** The user an event is about: the first row with the event's customer. */
  function EventTarget(t: Table, e: Event): (r: Option<nat>)
    ensures r.Some? ==> r.value < |t| && EventCustomer(e).Some? && t[r.value].customerRef == EventCustomer(e)
    ensures r.Some? ==> forall j :: 0 <= j < r.value ==> t[j].customerRef != EventCustomer(e)
    ensures r.None? <==>
      EventCustomer(e).None? || forall j :: 0 <= j < |t| ==> t[j].customerRef != EventCustomer(e)
  {
    if EventCustomer(e).None? then None else FindByCustomer(t, EventCustomer(e).value)
  }

  /** The event calls for a change: a completed checkout, or a subscription
      change to a terminal status, for a customer some user carries. */
  predicate Acts(t: Table, e: Event) {
    && EventTarget(t, e).Some?
    && (e.kind == CheckoutCompleted || (IsSubscriptionChange(e.kind) && IsTerminal(e.status)))
  }

  /** The dispatch of `stripe_webhook` on a verified event. The two `if`
      blocks of the source test different event types, so at most one runs. */
  function ApplyEvent(t: Table, e: Event): (r: Table)
    ensures |r| == |t|
    ensures forall i :: 0 <= i < |t| ==> SameProfile(r[i], t[i])
    ensures !Acts(t, e) ==> r == t
  {
    match EventTarget(t, e)
    case None => t
    case Some(i) =>
      if e.kind == CheckoutCompleted then UpgradeToPro(t, t[i].id, e.customer, e.subscription)
      else if IsSubscriptionChange(e.kind) && IsTerminal(e.status) then DowngradeToFree(t, t[i].id)
      else t
  }

  /** A completed checkout for a known customer puts that user on `pro`,
      records the subscription if the event names one, and touches no
      other user. */
  lemma CheckoutCompletedUpgrades(t: Table, e: Event)
    requires e.kind == CheckoutCompleted && EventTarget(t, e).Some?
    ensures var i := EventTarget(t, e).value; var r := ApplyEvent(t, e);
      && r[i].plan == Pro
      && r[i].customerRef == e.customer
      && (e.subscription.Some? ==> r[i].subscriptionRef == e.subscription)
      && (e.subscription.None? ==> r[i].subscriptionRef == t[i].subscriptionRef)
      && SameProfile(r[i], t[i])
      && forall j :: 0 <= j < |t| && t[j].id != t[i].id ==> r[j] == t[j]
  {
  }

  /** A subscription change to a terminal status for a known customer puts
      that user on `free` and touches no other user. */
  lemma TerminalChangeDowngrades(t: Table, e: Event)
    requires IsSubscriptionChange(e.kind) && IsTerminal(e.status) && EventTarget(t, e).Some?
    ensures var i := EventTarget(t, e).value; var r := ApplyEvent(t, e);
      && r[i] == t[i].(plan := Free)
      && forall j :: 0 <= j < |t| && t[j].id != t[i].id ==> r[j] == t[j]
  {
  }

  /** After an upgrade of the first row carrying `c`, the first row carrying
      `c` has the same id. */
  lemma UpgradeKeepsTargetId(t: Table, c: string, sub: Option<string>)
    requires FindByCustomer(t, c).Some?
    ensures var id := t[FindByCustomer(t, c).value].id;
      var t' := UpgradeToPro(t, id, Some(c), sub);
      FindByCustomer(t', c).Some? && t'[FindByCustomer(t', c).value].id == id
  {
    var i := FindByCustomer(t, c).value;
    var id := t[i].id;
    var t' := UpgradeToPro(t, id, Some(c), sub);
    assert t'[i].customerRef == Some(c);
    var j := FindByCustomer(t', c).value;
    if j < i {
      // row j did not carry c before the upgrade but does now, so the upgrade touched it
      assert t[j].customerRef != Some(c);
      assert t'[j] != t[j];
    }
  }

  /** Redelivering an event has no further effect. */
  lemma ReplayIdempotent(t: Table, e: Event)
    ensures ApplyEvent(ApplyEvent(t, e), e) == ApplyEvent(t, e)
  {
    var r := ApplyEvent(t, e);
    if Acts(t, e) {
      var i := EventTarget(t, e).value;
      var c := EventCustomer(e).value;
      var id := t[i].id;
      if e.kind == CheckoutCompleted {
        UpgradeKeepsTargetId(t, c, e.subscription);
        UpgradeIdempotent(t, id, e.customer, e.subscription);
      } else {
        FirstIndexAgrees(t, r, (u: User) => u.customerRef == Some(c), (u: User) => u.customerRef == Some(c));
        assert DowngradeToFree(r, id) == r;
      }
    }
  }

  /** Webhook events keep the table's constraints. */
  lemma ApplyEventKeepsValid(t: Table, e: Event)
    requires Valid(t)
    ensures Valid(ApplyEvent(t, e))
  {
    KeysKeptValid(t, ApplyEvent(t, e));
  }

  /** What the webhook endpoint answers. */
  datatype WebhookResponse =
    | Handled                // 200 "OK", whether or not anything changed
    | MissingWebhookSecret   // 500
    | BadSignature           // 400

  /** The table after a webhook delivery, and the answer. */
  datatype Webhook = Webhook(users: Table, response: WebhookResponse)

  /** `stripe_webhook`: refuses everything without a webhook secret,
      rejects a delivery whose signature does not verify (`verified` is
      none) without touching any user, and otherwise applies the event. */
  function HandleWebhook(t: Table, cfg: Config, verified: Option<Event>): (r: Webhook)
    ensures r.response == MissingWebhookSecret <==> cfg.webhookSecret == ""
    ensures r.response == BadSignature <==> cfg.webhookSecret != "" && verified.None?
    ensures r.response != Handled ==> r.users == t
    ensures r.response == Handled ==> r.users == ApplyEvent(t, verified.value)
  {
    if cfg.webhookSecret == "" then Webhook(t, MissingWebhookSecret)
    else if verified.None? then Webhook(t, BadSignature)
    else Webhook(ApplyEvent(t, verified.value), Handled)
  }

  /** Delivering the same webhook twice leaves the users as delivering it once. */
  lemma WebhookReplayIdempotent(t: Table, cfg: Config, verified: Option<Event>)
    ensures HandleWebhook(HandleWebhook(t, cfg, verified).users, cfg, verified).users
         == HandleWebhook(t, cfg, verified).users
  {
    if verified.Some? {
      ReplayIdempotent(t, verified.value);
    }
  }
}

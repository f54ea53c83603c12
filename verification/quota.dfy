/**
 Actor resolution and the quota gate of `app.py`: who a request counts
 against (`get_authed_user`, `actor_and_limit`), the increment-then-check
 gate in front of every generation (`enforce_quota_or_402`), the paywall
 payload it answers with (`quota_block_payload`), and the remaining-count
 view of `/api/me`.

 A request is reduced to what the code reads from it: the uid that
 `verify_token` recovers from the bearer token (none when the header is
 missing, malformed, forged or expired), the `user_id` of the session,
 and the guest cookie (empty when absent).
 */
module Quota {
  import opened Common
  import opened Text
  import opened Users
  import opened Usage

  /** Total generations for a visitor who is not signed in. */
  const GuestLimit: int := 10
  /** Total generations for a signed-in user on the free plan. */
  const FreeLimit: int := 11
  /** The "effectively unlimited" allowance of the pro plan. */
  const ProLimit: int := 1_000_000

  /** The credential evidence of one request. */
  datatype Request = Request(bearerUid: Option<string>, sessionUid: Option<string>, guestId: string)

  /** `uid` names an existing user (a missing or empty uid names nobody). */
  predicate Resolves(t: Table, uid: Option<string>) {
    uid.Some? && uid.value != "" && FindById(t, uid.value).Some?
  }

  /** The row a uid names: nobody for a missing or empty uid, otherwise the
      first row with that id. */
  function ResolveUid(t: Table, uid: Option<string>): (r: Option<User>)
    ensures r.Some? <==> Resolves(t, uid)
    ensures r.Some? ==> r.value.id == uid.value && r.value in t
  {
    if uid.None? || uid.value == "" then None
    else
      match FindById(t, uid.value)
      case None => None
      case Some(i) => Some(t[i])
  }

  /** `get_authed_user`: the bearer token's user if it names one, else the
      session's user if that names one, else nobody. */
  function GetAuthedUser(t: Table, req: Request): (r: Option<User>)
    ensures r.Some? <==> Resolves(t, req.bearerUid) || Resolves(t, req.sessionUid)
    ensures r.Some? ==> r.value in t && r.value.id != ""
    ensures Resolves(t, req.bearerUid) ==> r.value.id == req.bearerUid.value
    ensures !Resolves(t, req.bearerUid) && Resolves(t, req.sessionUid) ==> r.value.id == req.sessionUid.value
  {
    var viaBearer := ResolveUid(t, req.bearerUid);
    if viaBearer.Some? then viaBearer else ResolveUid(t, req.sessionUid)
  }

  /** Who a request is metered against, and the allowance. */
  datatype Actor = Actor(kind: ActorKind, id: string, limit: int, user: Option<User>)

  /** `actor_and_limit`: a signed-in user is metered under their id with
      1_000_000 on `pro` and 11 otherwise; anybody else is a guest metered
      under the guest cookie with 10. */
  function ActorAndLimit(t: Table, req: Request): (a: Actor)
    ensures a.user == GetAuthedUser(t, req)
    ensures a.user.Some? ==> a.kind == UserActor && a.id == a.user.value.id && a.id != ""
    ensures a.user.Some? && a.user.value.plan == Pro ==> a.limit == 1_000_000
    ensures a.user.Some? && a.user.value.plan != Pro ==> a.limit == 11
    ensures a.user.None? ==> a.kind == GuestActor && a.id == req.guestId && a.limit == 10
  {
    match GetAuthedUser(t, req)
    case Some(u) => Actor(UserActor, u.id, if u.plan == Pro then ProLimit else FreeLimit, Some(u))
    case None => Actor(GuestActor, req.guestId, GuestLimit, None)
  }

  /** A call-to-action button of the paywall. */
  datatype Cta = Cta(text: string, action: string)

  /** The JSON body of the 402 answer. */
  datatype BlockPayload = BlockPayload(
    error: string,
    used: int,
    limit: int,
    headline: string,
    copy: seq<string>,
    primary: Cta,
    secondary: Cta,
    promo: Option<string>)

  /** The fixed texts of the paywall. */
  const Headline: string := "Free limit reached"
  const UpgradeLine: string := "Upgrade to Pro for unlimited access."
  const ProLine: string := "Pro includes higher limits, priority processing, and ongoing updates."
  const PromoLine: string := "Create a free account to unlock 1 extra generation today."

  /** The first line of the paywall copy. */
  function UsedLine(shown: int, limit: int): string {
    "You\U{2019}ve used " + IntToDecimal(shown) + "/" + IntToDecimal(limit) + " free generations."
  }

  /** `quota_block_payload`: reports the count capped at the limit, offers
      sign-up and the extra-generation promo to visitors who are not
      signed in, and the account page to those who are. */
  function QuotaBlockPayload(used: int, limit: int, isLoggedIn: bool): (p: BlockPayload)
    ensures p.error == "quota_exceeded" && p.limit == limit
    ensures p.used <= limit
    ensures used <= limit ==> p.used == used
    ensures used >= limit ==> p.used == limit
    ensures |p.copy| == 3 && p.copy[0] == UsedLine(p.used, p.limit)
    ensures p.primary.action == "upgrade"
    ensures p.secondary.action == (if isLoggedIn then "account" else "signup")
    ensures p.promo.Some? <==> !isLoggedIn
  {
    var shown := if used <= limit then used else limit;
    var copy := [
      UsedLine(shown, limit),
      UpgradeLine,
      ProLine];
    BlockPayload(
      "quota_exceeded",
      shown,
      limit,
      Headline,
      copy,
      Cta("Upgrade to Pro", "upgrade"),
      if isLoggedIn then Cta("Account", "account") else Cta("Create account", "signup"),
      if isLoggedIn then None else Some(PromoLine))
  }

  /** The ledger after one gated request, and the paywall if it was denied. */
  datatype Gate = Gate(ledger: Ledger, blocked: Option<BlockPayload>)

  /** The gate applied to a resolved actor: the attempt is always counted
      first; it is denied exactly when the count after it exceeds the
      allowance, and the denial reports the allowance as the count. An
      actor with an empty id is never counted and never denied. */
  function Gated(l: Ledger, a: Actor): (g: Gate)
    requires a.limit >= 0
    ensures g.ledger == UsageIncr(l, a.kind, a.id, 1).ledger
    ensures g.blocked.Some? <==> a.id != "" && UsageGet(l, a.kind, a.id) + 1 > a.limit
    ensures g.blocked.Some? ==>
      && g.blocked.value.used == a.limit
      && g.blocked.value.limit == a.limit
      && (g.blocked.value.promo.Some? <==> a.user.None?)
    // the denial is the paywall for the count this attempt reached
    ensures g.blocked.Some? ==>
      g.blocked.value == QuotaBlockPayload(UsageGet(l, a.kind, a.id) + 1, a.limit, a.user.Some?)
  {
    var inc := UsageIncr(l, a.kind, a.id, 1);
    if inc.used > a.limit then Gate(inc.ledger, Some(QuotaBlockPayload(inc.used, a.limit, a.user.Some?)))
    else Gate(inc.ledger, None)
  }

  /** `enforce_quota_or_402`: the gate applied to the actor the request
      resolves to. */
  function EnforceQuota(t: Table, l: Ledger, req: Request): (g: Gate)
    ensures var a := ActorAndLimit(t, req);
      && g.ledger == UsageIncr(l, a.kind, a.id, 1).ledger
      && (g.blocked.Some? <==> a.id != "" && UsageGet(l, a.kind, a.id) + 1 > a.limit)
    ensures var a := ActorAndLimit(t, req);
      g.blocked.Some? ==>
        && g.blocked.value.used == a.limit
        && g.blocked.value.limit == a.limit
        && (g.blocked.value.promo.Some? <==> a.user.None?)
    ensures var a := ActorAndLimit(t, req);
      g.blocked.Some? ==>
        g.blocked.value == QuotaBlockPayload(UsageGet(l, a.kind, a.id) + 1, a.limit, a.user.Some?)
  {
    Gated(l, ActorAndLimit(t, req))
  }

  /** `n` gated attempts in a row by one actor. */
  function Run(l: Ledger, a: Actor, n: nat): (gs: seq<Gate>)
    requires a.limit >= 0
    ensures |gs| == n
    decreases n
  {
    if n == 0 then []
    else
      var g := Gated(l, a);
      [g] + Run(g.ledger, a, n - 1)
  }

  /** `n` gated requests in a row with the same credentials; element `k` is
      the outcome of attempt `k + 1`. */
  function Attempts(t: Table, l: Ledger, req: Request, n: nat): (gs: seq<Gate>)
    ensures |gs| == n
  {
    Run(l, ActorAndLimit(t, req), n)
  }

  /** A run of requests is the gate of the first request followed by the
      run that starts from the ledger it left. */
  lemma AttemptsStep(t: Table, l: Ledger, req: Request, n: nat)
    requires n > 0
    ensures var gs := Attempts(t, l, req, n);
      gs[0] == EnforceQuota(t, l, req) && gs[1..] == Attempts(t, gs[0].ledger, req, n - 1)
  {
    var gs := Attempts(t, l, req, n);
    assert gs == [gs[0]] + Run(gs[0].ledger, ActorAndLimit(t, req), n - 1);
  }

  /** Over a run of attempts by one actor with a non-empty id, attempt
      `k + 1` lifts the counter from its starting value `c` to `c + k + 1`,
      and is denied exactly when that exceeds the allowance: denied attempts
      keep counting. */
  lemma {:induction false} AttemptsCount(l: Ledger, a: Actor, n: nat)
    requires a.id != "" && a.limit >= 0
    decreases n
    ensures forall k :: 0 <= k < n ==>
      UsageGet(Run(l, a, n)[k].ledger, a.kind, a.id) == UsageGet(l, a.kind, a.id) + k + 1
    ensures forall k :: 0 <= k < n ==>
      (Run(l, a, n)[k].blocked.Some? <==> UsageGet(l, a.kind, a.id) + k + 1 > a.limit)
  {
    if n > 0 {
      var g := Gated(l, a);
      var c := UsageGet(l, a.kind, a.id);
      assert UsageGet(g.ledger, a.kind, a.id) == c + 1;
      AttemptsCount(g.ledger, a, n - 1);
      var gs := Run(l, a, n);
      var rest := Run(g.ledger, a, n - 1);
      assert gs == [g] + rest;
      forall k | 0 <= k < n
        ensures UsageGet(gs[k].ledger, a.kind, a.id) == c + k + 1
        ensures gs[k].blocked.Some? <==> c + k + 1 > a.limit
      {
        if k > 0 {
          assert gs[k] == rest[k - 1];
          assert UsageGet(rest[k - 1].ledger, a.kind, a.id) == c + 1 + (k - 1) + 1;
          assert rest[k - 1].blocked.Some? <==> c + 1 + (k - 1) + 1 > a.limit;
        }
      }
    }
  }

  /** A request carrying no credential that names a user. */
  predicate Anonymous(t: Table, req: Request) {
    !Resolves(t, req.bearerUid) && !Resolves(t, req.sessionUid)
  }

  /** A new guest with a cookie is served on attempts 1 to 10 and denied
      from attempt 11 on. */
  lemma GuestDeniedFromEleventh(t: Table, l: Ledger, req: Request, n: nat)
    requires Anonymous(t, req) && req.guestId != ""
    requires ActorKey(GuestActor, req.guestId) !in l
    ensures var gs := Attempts(t, l, req, n);
      forall k :: 0 <= k < n ==> (gs[k].blocked.Some? <==> k + 1 >= 11)
  {
    var a := ActorAndLimit(t, req);
    assert a.id == req.guestId && a.kind == GuestActor && a.limit == 10;
    assert UsageGet(l, a.kind, a.id) == 0;
    AttemptsCount(l, a, n);
    assert Attempts(t, l, req, n) == Run(l, a, n);
  }

  /** A new signed-in user on the free plan is served on attempts 1 to 11
      and denied from attempt 12 on. */
  lemma FreeUserDeniedFromTwelfth(t: Table, l: Ledger, req: Request, n: nat)
    requires GetAuthedUser(t, req).Some? && GetAuthedUser(t, req).value.plan == Free
    requires ActorKey(UserActor, GetAuthedUser(t, req).value.id) !in l
    ensures var gs := Attempts(t, l, req, n);
      forall k :: 0 <= k < n ==> (gs[k].blocked.Some? <==> k + 1 >= 12)
  {
    var a := ActorAndLimit(t, req);
    assert a.id == GetAuthedUser(t, req).value.id && a.kind == UserActor && a.limit == 11;
    assert UsageGet(l, a.kind, a.id) == 0;
    AttemptsCount(l, a, n);
    assert Attempts(t, l, req, n) == Run(l, a, n);
  }

  /** A pro user starting from any count `c` is never denied while the count
      stays within the 1_000_000 sentinel. */
  lemma ProUserServedUpToSentinel(t: Table, l: Ledger, req: Request, n: nat)
    requires GetAuthedUser(t, req).Some? && GetAuthedUser(t, req).value.plan == Pro
    requires UsageGet(l, UserActor, GetAuthedUser(t, req).value.id) + n <= 1_000_000
    ensures forall k :: 0 <= k < n ==> Attempts(t, l, req, n)[k].blocked.None?
  {
    var a := ActorAndLimit(t, req);
    assert a.id == GetAuthedUser(t, req).value.id && a.kind == UserActor && a.limit == 1_000_000;
    AttemptsCount(l, a, n);
    assert Attempts(t, l, req, n) == Run(l, a, n);
  }

  /** A guest without a cookie is neither counted nor ever denied. */
  lemma {:induction false} CookielessGuestNeverDenied(t: Table, l: Ledger, req: Request, n: nat)
    requires Anonymous(t, req) && req.guestId == ""
    decreases n
    ensures forall k :: 0 <= k < n ==> Attempts(t, l, req, n)[k].blocked.None?
    ensures forall k :: 0 <= k < n ==> Attempts(t, l, req, n)[k].ledger == l
  {
    if n > 0 {
      CookielessGuestNeverDenied(t, l, req, n - 1);
      var gs := Attempts(t, l, req, n);
      AttemptsStep(t, l, req, n);
      forall k | 1 <= k < n ensures gs[k].blocked.None? && gs[k].ledger == l {
        assert gs[k] == gs[1..][k - 1];
      }
    }
  }

  /** The JSON body of `/api/me`. */
  datatype Me = Me(loggedIn: bool, email: Option<string>, plan: string, used: int, limit: int, remaining: int)

  /** `/api/me`: the signed-in state, the plan (`"guest"` for visitors),
      the stored count, the allowance and `max(0, limit - used)`. */
  function ApiMe(t: Table, l: Ledger, req: Request): (m: Me)
    ensures m.loggedIn <==> GetAuthedUser(t, req).Some?
    ensures m.loggedIn ==>
      && m.email == Some(GetAuthedUser(t, req).value.email)
      && m.plan == PlanName(GetAuthedUser(t, req).value.plan)
    ensures !m.loggedIn ==> m.email.None?
    ensures m.used == UsageGet(l, ActorAndLimit(t, req).kind, ActorAndLimit(t, req).id)
    ensures m.plan == "guest" <==> !m.loggedIn
    ensures m.limit == ActorAndLimit(t, req).limit
    ensures m.remaining >= 0
    ensures m.used <= m.limit ==> m.used + m.remaining == m.limit
    ensures m.used >= m.limit ==> m.remaining == 0
  {
    var u := GetAuthedUser(t, req);
    var a := ActorAndLimit(t, req);
    var used := UsageGet(l, a.kind, a.id);
    Me(u.Some?,
       if u.Some? then Some(u.value.email) else None,
       if u.Some? then PlanName(u.value.plan) else "guest",
       used,
       a.limit,
       if a.limit - used > 0 then a.limit - used else 0)
  }

  /** What `/api/me` shows predicts the gate: the next gated request goes
      through exactly when some generations remain. */
  lemma MeForecastsGate(t: Table, l: Ledger, req: Request)
    ensures EnforceQuota(t, l, req).blocked.None? <==> ApiMe(t, l, req).remaining > 0
  {
  }
}

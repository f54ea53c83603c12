/**
 The user directory (`users` table of `app.py`): one row per registered
 e-mail address, with the plan (`free` or `pro`) and the two payment
 provider references used by checkout and by webhook reconciliation.

 The table is a sequence of rows in insertion order, so that a
 single-row query is the first matching row, and an update by a column
 value touches every matching row, as SQL does.
 */
module Users {
  import opened Common
  import opened Text

  /** The `plan` column: only `'free'` and `'pro'` are ever written. */
  datatype Plan = Free | Pro

  /** The text stored in the `plan` column. */
  function PlanName(p: Plan): (r: string)
    ensures r == "pro" <==> p == Pro
    ensures r == "free" <==> p == Free
  {
    match p
    case Free => "free"
    case Pro => "pro"
  }

  /** One row of the `users` table. `customerRef` and `subscriptionRef` are
      the nullable `stripe_customer_id` and `stripe_subscription_id`. */
  datatype User = User(
    id: string,
    email: string,
    name: string,
    picture: string,
    plan: Plan,
    emailVerified: bool,
    customerRef: Option<string>,
    subscriptionRef: Option<string>,
    createdAt: string)

  type Table = seq<User>

  /** The columns no plan or billing update ever writes. */
  predicate SameProfile(a: User, b: User) {
    && a.id == b.id && a.email == b.email && a.name == b.name && a.picture == b.picture
    && a.emailVerified == b.emailVerified && a.createdAt == b.createdAt
  }

  /** The address with surrounding white space removed and lower-cased; a
      missing address reads as empty. */
  function NormaliseEmail(e: string): string {
    Lower(Strip(e))
  }

  /** An e-mail as stored: non-empty, stripped and lower-case. */
  predicate IsEmailKey(e: string) {
    e != [] && IsTrimmed(e) && IsLowered(e)
  }

  /** A normalised e-mail is stripped and lower-case, so it is its own
      normal form, and a non-empty one is a valid stored key. */
  lemma NormaliseEmailIdempotent(e: string)
    ensures IsTrimmed(NormaliseEmail(e)) && IsLowered(NormaliseEmail(e))
    ensures NormaliseEmail(NormaliseEmail(e)) == NormaliseEmail(e)
    ensures NormaliseEmail(e) != [] ==> IsEmailKey(NormaliseEmail(e))
  {
    var s := Strip(e);
    LowerKeepsSpaces(s);
    StripTrimmed(Lower(s));
    LowerFixesLowered(s);
    LowerFixesLowered(Lower(s));
  }

  /** The table's constraints: `id` is the primary key, `email` is unique,
      and every stored e-mail is a normalised, non-empty address. */
  predicate Valid(t: Table) {
    && (forall i, j :: 0 <= i < j < |t| ==> t[i].id != t[j].id)
    && (forall i, j :: 0 <= i < j < |t| ==> t[i].email != t[j].email)
    && (forall i :: 0 <= i < |t| ==> IsEmailKey(t[i].email))
  }

  /** The first row with this id, if any. */
  function FindById(t: Table, id: string): (r: Option<nat>)
    ensures r.Some? ==> r.value < |t| && t[r.value].id == id
    ensures r.Some? ==> forall j :: 0 <= j < r.value ==> t[j].id != id
    ensures r.None? <==> forall j :: 0 <= j < |t| ==> t[j].id != id
  {
    FirstIndex(t, (u: User) => u.id == id)
  }

  /** The first row with this e-mail, if any. */
  function FindByEmail(t: Table, email: string): (r: Option<nat>)
    ensures r.Some? ==> r.value < |t| && t[r.value].email == email
    ensures r.Some? ==> forall j :: 0 <= j < r.value ==> t[j].email != email
    ensures r.None? <==> forall j :: 0 <= j < |t| ==> t[j].email != email
  {
    FirstIndex(t, (u: User) => u.email == email)
  }

  /** The first row carrying this customer reference, if any. */
  function FindByCustomer(t: Table, customer: string): (r: Option<nat>)
    ensures r.Some? ==> r.value < |t| && t[r.value].customerRef == Some(customer)
    ensures r.Some? ==> forall j :: 0 <= j < r.value ==> t[j].customerRef != Some(customer)
    ensures r.None? <==> forall j :: 0 <= j < |t| ==> t[j].customerRef != Some(customer)
  {
    FirstIndex(t, (u: User) => u.customerRef == Some(customer))
  }

  /** An update by id: applies `f` to every row with that id. */
  function UpdateById(t: Table, id: string, f: User -> User): (r: Table)
    ensures |r| == |t|
    ensures forall i :: 0 <= i < |t| && t[i].id == id ==> r[i] == f(t[i])
    ensures forall i :: 0 <= i < |t| && t[i].id != id ==> r[i] == t[i]
  {
    seq(|t|, i requires 0 <= i < |t| => if t[i].id == id then f(t[i]) else t[i])
  }

  /** An update that keeps every row's id finds the same row by id. */
  lemma FindByIdStable(t: Table, t': Table, id: string)
    requires |t'| == |t|
    requires forall i :: 0 <= i < |t| ==> t'[i].id == t[i].id
    ensures FindById(t', id) == FindById(t, id)
  {
    FirstIndexAgrees(t, t', (u: User) => u.id == id, (u: User) => u.id == id);
  }

  /** An update that keeps every row's id and e-mail keeps the table valid. */
  lemma KeysKeptValid(t: Table, t': Table)
    requires Valid(t)
    requires |t'| == |t|
    requires forall i :: 0 <= i < |t| ==> t'[i].id == t[i].id && t'[i].email == t[i].email
    ensures Valid(t')
  {
  }

  /** The row change made by `upgrade_user_to_pro`. */
  function UpgradeRow(u: User, customer: Option<string>, subscription: Option<string>): User {
    u.(plan := Pro,
       customerRef := Coalesce(customer, u.customerRef),
       subscriptionRef := Coalesce(subscription, u.subscriptionRef))
  }

  /** `upgrade_user_to_pro`: the user with this id is on `pro`; a customer or
      subscription reference that is given replaces the stored one, an absent
      one (SQL `NULL` under `COALESCE`) keeps it; nothing else changes. */
  function UpgradeToPro(t: Table, id: string, customer: Option<string>, subscription: Option<string>): (r: Table)
    ensures |r| == |t|
    ensures forall i :: 0 <= i < |t| && t[i].id == id ==>
      && r[i].plan == Pro
      && SameProfile(r[i], t[i])
      && r[i].customerRef == (if customer.Some? then customer else t[i].customerRef)
      && r[i].subscriptionRef == (if subscription.Some? then subscription else t[i].subscriptionRef)
    ensures forall i :: 0 <= i < |t| && t[i].id != id ==> r[i] == t[i]
  {
    UpdateById(t, id, (u: User) => UpgradeRow(u, customer, subscription))
  }

  /** Upgrading twice with the same arguments is upgrading once. */
  lemma UpgradeIdempotent(t: Table, id: string, customer: Option<string>, subscription: Option<string>)
    ensures UpgradeToPro(UpgradeToPro(t, id, customer, subscription), id, customer, subscription)
         == UpgradeToPro(t, id, customer, subscription)
  {
  }

  /** The webhook's downgrade: every row with this id goes to the free plan. */
  function DowngradeToFree(t: Table, id: string): (r: Table)
    ensures |r| == |t|
    ensures forall i :: 0 <= i < |t| && t[i].id == id ==> r[i] == t[i].(plan := Free)
    ensures forall i :: 0 <= i < |t| && t[i].id != id ==> r[i] == t[i]
  {
    UpdateById(t, id, (u: User) => u.(plan := Free))
  }

  /** Checkout's linking: every row with this id gets the customer reference. */
  function SetCustomerRef(t: Table, id: string, customer: string): (r: Table)
    ensures |r| == |t|
    ensures forall i :: 0 <= i < |t| && t[i].id == id ==> r[i] == t[i].(customerRef := Some(customer))
    ensures forall i :: 0 <= i < |t| && t[i].id != id ==> r[i] == t[i]
  {
    UpdateById(t, id, (u: User) => u.(customerRef := Some(customer)))
  }

  /** Plan and billing updates keep the table's constraints. */
  lemma BillingUpdatesKeepValid(t: Table, id: string, customer: Option<string>, subscription: Option<string>, ref: string)
    requires Valid(t)
    ensures Valid(UpgradeToPro(t, id, customer, subscription))
    ensures Valid(DowngradeToFree(t, id))
    ensures Valid(SetCustomerRef(t, id, ref))
  {
    KeysKeptValid(t, UpgradeToPro(t, id, customer, subscription));
    KeysKeptValid(t, DowngradeToFree(t, id));
    KeysKeptValid(t, SetCustomerRef(t, id, ref));
  }

  /** Why an upsert raised: `ValueError("Missing email")`, or the primary-key
      violation SQLite raises if the freshly drawn id is already taken. */
  datatype UserError = MissingEmail | DuplicateId

  /** The table after an upsert and the row it returns. */
  datatype Upserted = Upserted(users: Table, user: User)

  /** The refresh of a known e-mail: every row with that e-mail gets the
      new name and picture, each falling back to the first matching row's
      value when the new one is empty. */
  function Refresh(t: Table, i: nat, name: string, picture: string): (r: Table)
    requires i < |t|
    ensures |r| == |t|
    ensures forall j :: 0 <= j < |t| && t[j].email == t[i].email ==>
      r[j] == t[j].(name := if name != "" then name else t[i].name,
                    picture := if picture != "" then picture else t[i].picture)
    ensures forall j :: 0 <= j < |t| && t[j].email != t[i].email ==> r[j] == t[j]
  {
    seq(|t|, j requires 0 <= j < |t| =>
      if t[j].email == t[i].email
      then t[j].(name := if name != "" then name else t[i].name,
                 picture := if picture != "" then picture else t[i].picture)
      else t[j])
  }

  /** The row inserted for a new e-mail. */
  function NewUser(email: string, name: string, picture: string, freshHex: string, now: string): User {
    User("usr_" + freshHex, email, name, picture, Free, true, None, None, now)
  }

  /** The lookup-or-insert of `create_or_get_user_by_email` for the
      normalised address `e`: refreshes the row of a known e-mail (a
      non-empty name or picture overwrites the stored one), or inserts a
      new `free` row with id `"usr_" + freshHex` stamped `now`. */
  function UpsertByKey(t: Table, e: string, name: string, picture: string, freshHex: string, now: string)
    : (r: Result<Upserted, UserError>)
    ensures r != Err(MissingEmail)
    ensures r == Err(DuplicateId) <==> FindByEmail(t, e).None? && FindById(t, "usr_" + freshHex).Some?
    ensures r.Ok? ==> r.value.user.email == e
    // a known e-mail: same row, same id, no new row, only name and picture refreshed
    ensures r.Ok? && FindByEmail(t, e).Some? ==>
      var i := FindByEmail(t, e).value;
      && |r.value.users| == |t|
      && r.value.user == r.value.users[i]
      && r.value.user == t[i].(name := if name != "" then name else t[i].name,
                               picture := if picture != "" then picture else t[i].picture)
      && forall j :: 0 <= j < |t| && t[j].email != e ==> r.value.users[j] == t[j]
    // a new e-mail: exactly one row appended, on the free plan
    ensures r.Ok? && FindByEmail(t, e).None? ==>
      && r.value.users == t + [r.value.user]
      && r.value.user == User("usr_" + freshHex, e, name, picture, Free, true, None, None, now)
  {
    match FindByEmail(t, e)
    case Some(i) =>
      var t' := Refresh(t, i, name, picture);
      Ok(Upserted(t', t'[i]))
    case None =>
      if FindById(t, "usr_" + freshHex).Some? then Err(DuplicateId)
      else
        var row := NewUser(e, name, picture, freshHex, now);
        Ok(Upserted(t + [row], row))
  }

  /** `create_or_get_user_by_email`: rejects an address that is empty once
      stripped and lower-cased, and otherwise looks up or inserts the
      normalised address. */
  function UpsertByEmail(t: Table, email: string, name: string, picture: string, freshHex: string, now: string)
    : (r: Result<Upserted, UserError>)
    ensures r == Err(MissingEmail) <==> NormaliseEmail(email) == []
    ensures NormaliseEmail(email) != [] ==> r == UpsertByKey(t, NormaliseEmail(email), name, picture, freshHex, now)
  {
    var e := NormaliseEmail(email);
    if e == [] then Err(MissingEmail) else UpsertByKey(t, e, name, picture, freshHex, now)
  }

  /** Appending a row whose id and e-mail are new keeps the table valid. */
  lemma InsertKeepsValid(t: Table, row: User)
    requires Valid(t)
    requires IsEmailKey(row.email)
    requires FindById(t, row.id).None? && FindByEmail(t, row.email).None?
    ensures Valid(t + [row])
  {
    var t' := t + [row];
    forall i, j | 0 <= i < j < |t'| ensures t'[i].id != t'[j].id && t'[i].email != t'[j].email {
      assert t'[i] == t[i];
      if j < |t| { assert t'[j] == t[j]; }
    }
    forall i | 0 <= i < |t'| ensures IsEmailKey(t'[i].email) {
      if i < |t| { assert t'[i] == t[i]; }
    }
  }

  /** Refreshing a known e-mail keeps the table valid and keeps the
      refreshed row where a lookup by that e-mail finds it. */
  lemma RefreshKeepsValid(t: Table, i: nat, name: string, picture: string)
    requires Valid(t) && i < |t|
    ensures Valid(Refresh(t, i, name, picture))
    ensures FindByEmail(Refresh(t, i, name, picture), t[i].email) == Some(i)
  {
    var t' := Refresh(t, i, name, picture);
    assert forall j :: 0 <= j < |t| ==> t'[j].id == t[j].id && t'[j].email == t[j].email;
    KeysKeptValid(t, t');
  }

  /** Inserting a new e-mail keeps the table valid; the new row is the one
      a lookup by its e-mail finds. */
  lemma InsertNewKeepsValid(t: Table, e: string, name: string, picture: string, freshHex: string, now: string)
    requires Valid(t) && IsEmailKey(e) && FindByEmail(t, e).None?
    requires FindById(t, "usr_" + freshHex).None?
    ensures var row := NewUser(e, name, picture, freshHex, now);
      Valid(t + [row]) && FindByEmail(t + [row], e) == Some(|t|)
  {
    var row := NewUser(e, name, picture, freshHex, now);
    InsertKeepsValid(t, row);
    assert (t + [row])[|t|] == row;
  }

  /** A keyed upsert keeps the table's constraints (given a valid table
      and a valid key), and the returned row sits in the new table at the
      index a lookup by its e-mail finds. */
  lemma UpsertKeepsValid(t: Table, e: string, name: string, picture: string, freshHex: string, now: string)
    requires Valid(t) && IsEmailKey(e)
    requires UpsertByKey(t, e, name, picture, freshHex, now).Ok?
    ensures var r := UpsertByKey(t, e, name, picture, freshHex, now).value;
      && Valid(r.users)
      && FindByEmail(r.users, e) == Some(if FindByEmail(t, e).Some? then FindByEmail(t, e).value else |t|)
      && r.users[FindByEmail(r.users, e).value] == r.user
  {
    match FindByEmail(t, e)
    case Some(i) =>
      RefreshKeepsValid(t, i, name, picture);
    case None =>
      InsertNewKeepsValid(t, e, name, picture, freshHex, now);
  }

  /** Signing in twice with e-mails that normalise alike never adds a
      second row: when the first upsert succeeds, the second returns the
      same id and leaves the row count alone. */
  lemma UpsertTwiceSameUser(
    t: Table, email: string, name: string, picture: string, freshHex: string, now: string,
    email2: string, name2: string, picture2: string, freshHex2: string, now2: string)
    requires Valid(t)
    ensures
      var first := UpsertByEmail(t, email, name, picture, freshHex, now);
      first.Ok? && NormaliseEmail(email2) == NormaliseEmail(email) ==>
        var second := UpsertByEmail(first.value.users, email2, name2, picture2, freshHex2, now2);
        && second.Ok?
        && second.value.user.id == first.value.user.id
        && |second.value.users| == |first.value.users|
  {
    var first := UpsertByEmail(t, email, name, picture, freshHex, now);
    if first.Ok? && NormaliseEmail(email2) == NormaliseEmail(email) {
      var e := NormaliseEmail(email);
      NormaliseEmailIdempotent(email);
      UpsertKeepsValid(t, e, name, picture, freshHex, now);
      var u := first.value;
      assert UpsertByEmail(u.users, email2, name2, picture2, freshHex2, now2)
          == UpsertByKey(u.users, e, name2, picture2, freshHex2, now2);
    }
  }
}

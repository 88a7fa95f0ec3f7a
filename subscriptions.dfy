/** The two tables the subscription handlers work on, and the handlers that
    change them: `subscribe` (src/routes/subscriptions.rs) inserts a row into
    `subscriptions`; `confirm` (src/routes/subscriptions_confirm.rs) looks a
    token up in `subscription_tokens` and marks the bound subscriber
    confirmed. The database itself is outside the model: each statement's
    success or failure is passed in as a `DbOutcome`. */
module Subscriptions {
  import opened Wrappers
  import opened Http

  /** A `uuid::Uuid`. */
  type SubscriberId = nat

  /** A `chrono::DateTime<Utc>`. */
  type Timestamp = int

  /** The status `confirm_subscriber` writes. */
  const CONFIRMED: string := "confirmed"

  /** One row of `subscriptions`. */
  datatype Subscription = Subscription(
    id: SubscriberId,
    email: string,
    name: string,
    subscribedAt: Timestamp,
    status: string)

  /** The UPDATE of `confirm_subscriber`: every row whose id is `id` gets
      status 'confirmed'; all other rows, and all other columns, stay. */
  function MarkConfirmed(rows: seq<Subscription>, id: SubscriberId): (r: seq<Subscription>)
    ensures |r| == |rows|
    ensures forall i :: 0 <= i < |rows| && rows[i].id == id ==> r[i] == rows[i].(status := CONFIRMED)
    ensures forall i :: 0 <= i < |rows| && rows[i].id != id ==> r[i] == rows[i]
  {
    if rows == [] then []
    else
      var head := if rows[0].id == id then rows[0].(status := CONFIRMED) else rows[0];
      [head] + MarkConfirmed(rows[1..], id)
  }

  /** Confirming a subscriber that is already confirmed changes nothing. */
  lemma {:induction false} MarkConfirmedIsIdempotent(rows: seq<Subscription>, id: SubscriberId)
    ensures MarkConfirmed(MarkConfirmed(rows, id), id) == MarkConfirmed(rows, id)
  {
    if rows != [] {
      MarkConfirmedIsIdempotent(rows[1..], id);
    }
  }

  /** The UPDATE only ever moves a status to 'confirmed': a confirmed row
      stays confirmed, and ids, emails, names and timestamps stay put. */
  lemma MarkConfirmedIsMonotonic(rows: seq<Subscription>, id: SubscriberId, i: nat)
    requires i < |rows|
    ensures MarkConfirmed(rows, id)[i].status == CONFIRMED <==>
      rows[i].status == CONFIRMED || rows[i].id == id
    ensures MarkConfirmed(rows, id)[i].(status := rows[i].status) == rows[i]
  {
  }

  /** Keys of `subscription_tokens` are unique, so a token names at most one
      subscriber. */
  function LookupToken(tokens: map<string, SubscriberId>, token: string): (r: Option<SubscriberId>)
    ensures r.Some? <==> token in tokens
    ensures r.Some? ==> r.value == tokens[token]
  {
    if token in tokens then Some(tokens[token]) else None
  }

  predicate IdsAreUnique(rows: seq<Subscription>) {
    forall i, j :: 0 <= i < j < |rows| ==> rows[i].id != rows[j].id
  }

  predicate IdIsUsed(rows: seq<Subscription>, id: SubscriberId) {
    exists i :: 0 <= i < |rows| && rows[i].id == id
  }

  /** With unique ids the UPDATE touches at most one row. */
  lemma MarkConfirmedTouchesOneRow(rows: seq<Subscription>, id: SubscriberId, i: nat, j: nat)
    requires IdsAreUnique(rows)
    requires i < |rows| && j < |rows|
    requires MarkConfirmed(rows, id)[i] != rows[i] && MarkConfirmed(rows, id)[j] != rows[j]
    ensures i == j
  {
  }

  /** The `subscriptions` and `subscription_tokens` tables. */
  class Store {
    /** `subscriptions`; the model takes this order as the order a SELECT
        without `ORDER BY` returns the rows in. */
    var rows: seq<Subscription>
    /** `subscription_tokens`: subscription_token -> subscriber_id. No code
        of this core writes it. */
    var tokens: map<string, SubscriberId>
    /** The value the table gives `status` when an INSERT leaves it out. */
    const defaultStatus: string

    /** Every status is either the insert default or 'confirmed'. */
    ghost predicate Valid()
      reads this
    {
      forall i :: 0 <= i < |rows| ==> rows[i].status in {defaultStatus, CONFIRMED}
    }

    constructor (defaultStatus: string, tokens: map<string, SubscriberId>)
      ensures Valid()
      ensures this.defaultStatus == defaultStatus && this.tokens == tokens && rows == []
    {
      this.defaultStatus := defaultStatus;
      this.tokens := tokens;
      this.rows := [];
    }

    /** `subscribe`: a single INSERT of (id, email, name, subscribed_at) with
        the form strings as given (the handler validates nothing); `id` is
        the freshly generated uuid and `now` the clock's reading. A failed
        INSERT adds nothing and gives 500. The token table is not touched. */
    method Subscribe(id: SubscriberId, email: string, name: string, now: Timestamp, insert: DbOutcome)
      returns (code: StatusCode)
      requires Valid()
      modifies this
      ensures Valid()
      ensures tokens == old(tokens)
      ensures insert.Succeeded? ==>
        code == OK && rows == old(rows) + [Subscription(id, email, name, now, defaultStatus)]
      ensures insert.Failed? ==> code == INTERNAL_SERVER_ERROR && rows == old(rows)
      ensures !IdIsUsed(old(rows), id) && IdsAreUnique(old(rows)) ==> IdsAreUnique(rows)
    {
      match insert {
        case Succeeded =>
          rows := rows + [Subscription(id, email, name, now, defaultStatus)];
          code := OK;
        case Failed =>
          code := INTERNAL_SERVER_ERROR;
      }
    }

    /** `get_subscriber_id_from_token`: the SELECT either fails or yields the
        subscriber id bound to `token`, if there is one. */
    function SubscriberIdFromToken(token: string, lookup: DbOutcome): (r: Result<Option<SubscriberId>, DbFailure>)
      reads this
      ensures r.Err? <==> lookup.Failed?
      ensures r.Ok? ==> r.value == LookupToken(tokens, token)
    {
      match lookup
      case Failed => Err(SqlxError)
      case Succeeded => Ok(LookupToken(tokens, token))
    }

    /** `confirm_subscriber`: the UPDATE sets status 'confirmed' on the rows
        with id `id`; when the statement fails, no row changes. */
    method ConfirmSubscriber(id: SubscriberId, update: DbOutcome) returns (r: Result<(), DbFailure>)
      requires Valid()
      modifies this
      ensures Valid()
      ensures tokens == old(tokens)
      ensures update.Succeeded? ==> r == Ok(()) && rows == MarkConfirmed(old(rows), id)
      ensures update.Failed? ==> r == Err(SqlxError) && rows == old(rows)
    {
      match update {
        case Succeeded =>
          rows := MarkConfirmed(rows, id);
          r := Ok(());
        case Failed =>
          r := Err(SqlxError);
      }
    }

    /** `confirm`: a failed lookup gives 500 without any UPDATE; an unknown
        token gives 401; a known one confirms the bound subscriber and gives
        200, or 500 when the UPDATE fails. The token is only read, so it
        stays usable. */
    method Confirm(token: string, lookup: DbOutcome, update: DbOutcome) returns (code: StatusCode)
      requires Valid()
      modifies this
      ensures Valid()
      ensures tokens == old(tokens)
      ensures lookup.Failed? ==> code == INTERNAL_SERVER_ERROR && rows == old(rows)
      ensures lookup.Succeeded? && token !in tokens ==> code == UNAUTHORIZED && rows == old(rows)
      ensures lookup.Succeeded? && token in tokens && update.Succeeded? ==>
        code == OK && rows == MarkConfirmed(old(rows), tokens[token])
      ensures lookup.Succeeded? && token in tokens && update.Failed? ==>
        code == INTERNAL_SERVER_ERROR && rows == old(rows)
    {
      var id := SubscriberIdFromToken(token, lookup);
      match id {
        case Err(_) =>
          return INTERNAL_SERVER_ERROR;
        case Ok(None) =>
          return UNAUTHORIZED;
        case Ok(Some(subscriberId)) =>
          var confirmed := ConfirmSubscriber(subscriberId, update);
          if confirmed.Err? {
            return INTERNAL_SERVER_ERROR;
          }
          return OK;
      }
    }

    /** Confirming the same token twice: both calls give 200 and the second
        leaves the state the first produced. */
    method ConfirmTwice(token: string) returns (first: StatusCode, second: StatusCode)
      requires Valid()
      requires token in tokens
      modifies this
      ensures Valid()
      ensures first == OK && second == OK
      ensures tokens == old(tokens)
      ensures rows == MarkConfirmed(old(rows), tokens[token])
    {
      first := Confirm(token, Succeeded, Succeeded);
      second := Confirm(token, Succeeded, Succeeded);
      MarkConfirmedIsIdempotent(old(rows), tokens[token]);
    }
  }
}

// The notification payload, and NotificationService: the multicast push and the handling of its
// per-token responses.
module Notifications {
  import opened Common
  import opened Entities
  import opened Database
  import opened Devices

  /** `NotificationType.ToString()`: the enum member's name. */
  function TypeText(t: NotificationType): (r: string)
    ensures |r| > 0
  {
    match t
    case CreateEvent => "CreateEvent"
    case ShareEvent => "ShareEvent"
    case UpdateEssentialsEvent => "UpdateEssentialsEvent"
    case UpdateDetailsEvent => "UpdateDetailsEvent"
    case UpdatePhotos => "UpdatePhotos"
    case ConfirmEvent => "ConfirmEvent"
    case DeclineEvent => "DeclineEvent"
    case DeleteEvent => "DeleteEvent"
    case DeleteEventForAll => "DeleteEventForAll"
    case UpdateProfile => "UpdateProfile"
    case CreateCommunity => "CreateCommunity"
  }

  /** Different kinds are written differently, so a receiver can tell them apart. */
  lemma TypeTextInjective(a: NotificationType, b: NotificationType)
    ensures TypeText(a) == TypeText(b) ==> a == b
  {
  }

  /** The keys a notification payload can carry. */
  const PayloadKeys: set<string> := {"type", "hash", "title", "body", "profileHash"}

  /**
   * Notification.ToDictionary: "type" (from the constructor argument, not the mutable Type) and
   * "hash" always, then "title", "body" and "profileHash" each exactly when the field is set.
   */
  method ToDictionary(n: Notification) returns (data: map<string, string>)
    ensures data.Keys <= PayloadKeys
    ensures "type" in data && data["type"] == TypeText(n.createdType)
    ensures "hash" in data && data["hash"] == IdText(n.objectId)
    ensures ("title" in data <==> n.title.Some?) && (n.title.Some? ==> data["title"] == n.title.value)
    ensures ("body" in data <==> n.body.Some?) && (n.body.Some? ==> data["body"] == n.body.value)
    ensures ("profileHash" in data <==> n.profileId.Some?) && (n.profileId.Some? ==> data["profileHash"] == IdText(n.profileId.value))
  {
    data := map["type" := TypeText(n.createdType), "hash" := IdText(n.objectId)];
    if n.title.Some? {
      data := data["title" := n.title.value];
    }
    if n.body.Some? {
      data := data["body" := n.body.value];
    }
    if n.profileId.Some? {
      data := data["profileHash" := IdText(n.profileId.value)];
    }
  }

  // ----- the push provider's answer -----

  /** FirebaseAdmin's MessagingErrorCode. */
  datatype MessagingErrorCode =
    | Internal
    | InvalidArgument
    | QuotaExceeded
    | SenderIdMismatch
    | ThirdPartyAuthError
    | Unavailable
    | Unregistered

  /** `MessagingErrorCode.ToString()`: the .NET member name. */
  function CodeText(c: MessagingErrorCode): (r: string)
    ensures |r| > 0
  {
    match c
    case Internal => "Internal"
    case InvalidArgument => "InvalidArgument"
    case QuotaExceeded => "QuotaExceeded"
    case SenderIdMismatch => "SenderIdMismatch"
    case ThirdPartyAuthError => "ThirdPartyAuthError"
    case Unavailable => "Unavailable"
    case Unregistered => "Unregistered"
  }

  /** The class of the inner exception: a FirebaseMessagingException, a GoogleApiException, or another. */
  datatype InnerKind =
    | FirebaseMessagingError(code: Option<MessagingErrorCode>)
    | GoogleApiError(httpStatus: int)
    | OtherError

  datatype InnerException = InnerException(message: string, kind: InnerKind)

  datatype SendException = SendException(message: string, inner: Option<InnerException>)

  /** One entry of the BatchResponse, in the order of the tokens sent. */
  datatype SendResponse = SendResponse(isSuccess: bool, exception: Option<SendException>)

  const BadRequest: int := 400

  /** The message markers of a token that will never work again. */
  predicate PermanentMessage(m: string)
  {
    Contains(m, "messaging/not-registered") || Contains(m, "messaging/invalid-argument")
  }

  /** The error codes that mean the token is bad. */
  predicate PermanentCode(c: MessagingErrorCode)
  {
    c == Unregistered || c == InvalidArgument || c == SenderIdMismatch
  }

  /** What the inner exception says about the token, the three tests taken in the source's order. */
  predicate PermanentInner(e: InnerException)
  {
    PermanentMessage(e.message)
    || (e.kind.FirebaseMessagingError? && e.kind.code.Some? && PermanentCode(e.kind.code.value))
    || (e.kind.GoogleApiError? && e.kind.httpStatus == BadRequest)
  }

  /**
   * IsTokenInvalidOrExpired, with the error code compared as an enum value: false without an
   * exception or an inner exception; true for a not-registered or invalid-argument message, an
   * Unregistered, InvalidArgument or SenderIdMismatch code, or an HTTP 400 from the Google API.
   */
  function IsTokenInvalidOrExpired(response: SendResponse): (r: bool)
    ensures r <==> (response.exception.Some? && response.exception.value.inner.Some?
      && PermanentInner(response.exception.value.inner.value))
  {
    if response.exception.None? then false
    else
      var inner := response.exception.value.inner;
      if inner.None? then false
      else if PermanentMessage(inner.value.message) then true
      else if inner.value.kind.FirebaseMessagingError? && inner.value.kind.code.Some?
        && PermanentCode(inner.value.kind.code.value) then true
      else inner.value.kind.GoogleApiError? && inner.value.kind.httpStatus == BadRequest
  }

  /** IsTokenInvalidOrExpired as written: the code's ToString() compared to upper-case wire names. */
  function IsTokenInvalidOrExpiredAsWritten(response: SendResponse): bool
  {
    if response.exception.None? then false
    else
      var inner := response.exception.value.inner;
      if inner.None? then false
      else if PermanentMessage(inner.value.message) then true
      else if inner.value.kind.FirebaseMessagingError? && inner.value.kind.code.Some?
        && (var text := CodeText(inner.value.kind.code.value);
            text == "UNREGISTERED" || text == "INVALID_ARGUMENT" || text == "SENDER_ID_MISMATCH") then true
      else inner.value.kind.GoogleApiError? && inner.value.kind.httpStatus == BadRequest
  }

  /** No member name of MessagingErrorCode is written in upper case with underscores. */
  lemma NoCodeMatchesWireName(c: MessagingErrorCode)
    ensures CodeText(c) != "UNREGISTERED" && CodeText(c) != "INVALID_ARGUMENT" && CodeText(c) != "SENDER_ID_MISMATCH"
  {
    match c
    case Internal =>
    case InvalidArgument =>
    case QuotaExceeded =>
    case SenderIdMismatch =>
    case ThirdPartyAuthError =>
    case Unavailable =>
    case Unregistered =>
  }

  /** As written, the error code never decides: only the message and the HTTP status do. */
  lemma AsWrittenIgnoresCode(response: SendResponse)
    ensures IsTokenInvalidOrExpiredAsWritten(response) <==> (response.exception.Some? && response.exception.value.inner.Some?
      && (PermanentMessage(response.exception.value.inner.value.message)
          || (response.exception.value.inner.value.kind.GoogleApiError? && response.exception.value.inner.value.kind.httpStatus == BadRequest)))
  {
    if response.exception.Some? && response.exception.value.inner.Some? {
      var kind := response.exception.value.inner.value.kind;
      if kind.FirebaseMessagingError? && kind.code.Some? {
        NoCodeMatchesWireName(kind.code.value);
      }
    }
  }

  /** A failure with code Unregistered whose inner message lacks both markers. */
  const UnregisteredPlain: SendResponse :=
    SendResponse(false, Some(SendException("Send failed",
      Some(InnerException("Token not registered", FirebaseMessagingError(Some(Unregistered)))))))

  /** An Unregistered token whose message lacks the marker is kept as written, removed as intended. */
  lemma UnregisteredTokenKeptAsWritten()
    ensures !IsTokenInvalidOrExpiredAsWritten(UnregisteredPlain) && IsTokenInvalidOrExpired(UnregisteredPlain)
  {
    AsWrittenIgnoresCode(UnregisteredPlain);
    assert !PermanentMessage("Token not registered");
  }

  /** Which classification decides: the source's as written, or the corrected one. */
  datatype Classifier = AsWritten | Corrected

  /** The classification the handler applies to a failed response. */
  function Invalid(c: Classifier, response: SendResponse): bool
  {
    if c.AsWritten? then IsTokenInvalidOrExpiredAsWritten(response) else IsTokenInvalidOrExpired(response)
  }

  // ----- HandleFailedNotifications -----

  /** The key sequence of the token dictionary, in insertion order: the multicast's addressees. */
  function Keys(table: seq<TokenOwner>): (r: seq<string>)
    ensures |r| == |table| && forall i :: 0 <= i < |table| ==> r[i] == table[i].token
  {
    seq(|table|, i requires 0 <= i < |table| => table[i].token)
  }

  /** Response `i` can be attributed: it succeeded, or `Keys.ElementAt(i)` exists. */
  predicate Attributable(table: seq<TokenOwner>, responses: seq<SendResponse>, i: int)
    requires 0 <= i < |responses|
  {
    responses[i].isSuccess || i < |table|
  }

  /** Response `i` failed permanently: its token is to be removed from its owner. */
  predicate Permanent(c: Classifier, table: seq<TokenOwner>, responses: seq<SendResponse>, i: int)
    requires 0 <= i < |responses|
  {
    !responses[i].isSuccess && i < |table| && Invalid(c, responses[i])
  }

  /** How far the loop gets: the first failed response without a key, or the end. */
  function Reach(table: seq<TokenOwner>, responses: seq<SendResponse>): (n: nat)
    ensures n <= |responses|
    ensures forall i :: 0 <= i < n ==> Attributable(table, responses, i)
    ensures n < |responses| ==> !Attributable(table, responses, n)
  {
    ReachFrom(table, responses, 0)
  }

  function ReachFrom(table: seq<TokenOwner>, responses: seq<SendResponse>, start: nat): (n: nat)
    requires start <= |responses|
    requires forall i :: 0 <= i < start ==> Attributable(table, responses, i)
    ensures start <= n <= |responses|
    ensures forall i :: 0 <= i < n ==> Attributable(table, responses, i)
    ensures n < |responses| ==> !Attributable(table, responses, n)
    decreases |responses| - start
  {
    if start == |responses| || !Attributable(table, responses, start) then start
    else ReachFrom(table, responses, start + 1)
  }

  /** The users collection after response `i`: a permanent failure pulls the token from its owner. */
  function Step(c: Classifier, users: map<Id, User>, table: seq<TokenOwner>, responses: seq<SendResponse>, i: nat): map<Id, User>
    requires i < |responses|
  {
    if Permanent(c, table, responses, i) then UpdateUser(users, table[i].userId, PullToken(table[i].token)) else users
  }

  /** The users collection after the first `n` responses. */
  function Handled(c: Classifier, users: map<Id, User>, table: seq<TokenOwner>, responses: seq<SendResponse>, n: nat): map<Id, User>
    requires n <= |responses|
    decreases n
  {
    if n == 0 then users else Step(c, Handled(c, users, table, responses, n - 1), table, responses, n - 1)
  }

  /** `{fcmResponse.Exception?.Message}`: the message, or empty text for null. */
  function ExceptionMessage(response: SendResponse): string
  {
    if response.exception.Some? then response.exception.value.message else ""
  }

  function TransientLine(token: string, userId: Id, response: SendResponse): string
  {
    "[FCM TRANSIENT] Notification failed for token '" + token + "' (User: " + IdText(userId) + "). Error: "
      + ExceptionMessage(response) + ". Token retained for retry."
  }

  /** The observable effect of response `i`: the device removal's write, or the console line. */
  function StepEffects(c: Classifier, table: seq<TokenOwner>, responses: seq<SendResponse>, i: nat): seq<Effect>
    requires i < |responses|
  {
    if responses[i].isSuccess || i >= |table| then []
    else if Invalid(c, responses[i]) then [Effect.Write(UsersCollection, UpdateOneCommand, None)]
    else [ConsoleLine(TransientLine(table[i].token, table[i].userId, responses[i]))]
  }

  /** The effects of the first `n` responses, in order. */
  function HandledEffects(c: Classifier, table: seq<TokenOwner>, responses: seq<SendResponse>, n: nat): seq<Effect>
    requires n <= |responses|
    decreases n
  {
    if n == 0 then [] else HandledEffects(c, table, responses, n - 1) + StepEffects(c, table, responses, n - 1)
  }

  /** ArgumentOutOfRangeException from `Keys.ElementAt(i)`. */
  const OutOfRange: Exception :=
    Exception(ArgumentOutOfRange, "Index was out of range. Must be non-negative and less than the size of the collection.", Some("index"))

  /**
   * SendNotification: one data-only multicast to the dictionary's keys, then the handling of the
   * provider's responses.
   */
  method SendNotification(store: Store, table: seq<TokenOwner>, data: map<string, string>, responses: seq<SendResponse>)
    returns (r: Result<()>)
    requires store.Valid()
    modifies store`db, store`trace
    ensures store.Valid()
    ensures var n := Reach(table, responses);
      && store.db == old(store.db).(users := Handled(AsWritten, old(store.db.users), table, responses, n))
      && store.trace == old(store.trace) + [PushSent(Keys(table), data)] + HandledEffects(AsWritten, table, responses, n)
    ensures r.Failure? <==> Reach(table, responses) < |responses|
    ensures r.Failure? ==> r.error == OutOfRange
  {
    store.Emit(PushSent(Keys(table), data));
    r := HandleFailedNotifications(store, table, responses);
  }

  /**
   * HandleFailedNotifications: for each failed response, in order, the token at the same position
   * and its owner; a failure the source classifies as permanent removes that device, any other
   * is written to the console. A failed response past the end of the keys stops the loop with ElementAt's exception.
   */
  method HandleFailedNotifications(store: Store, table: seq<TokenOwner>, responses: seq<SendResponse>) returns (r: Result<()>)
    requires store.Valid()
    modifies store`db, store`trace
    ensures store.Valid()
    ensures var n := Reach(table, responses);
      && store.db == old(store.db).(users := Handled(AsWritten, old(store.db.users), table, responses, n))
      && store.trace == old(store.trace) + HandledEffects(AsWritten, table, responses, n)
    ensures r.Failure? <==> Reach(table, responses) < |responses|
    ensures r.Failure? ==> r.error == OutOfRange
  {
    var i := HandleAttributable(AsWritten, store, table, responses);
    r := if i < |responses| then Failure(OutOfRange) else Success(());
  }

  /**
   * HandleFailedNotifications with the error code compared as an enum value, as the comments of
   * IsTokenInvalidOrExpired intend: an Unregistered, InvalidArgument or SenderIdMismatch failure
   * removes the device too.
   */
  method HandleFailedNotificationsCorrected(store: Store, table: seq<TokenOwner>, responses: seq<SendResponse>) returns (r: Result<()>)
    requires store.Valid()
    modifies store`db, store`trace
    ensures store.Valid()
    ensures var n := Reach(table, responses);
      && store.db == old(store.db).(users := Handled(Corrected, old(store.db.users), table, responses, n))
      && store.trace == old(store.trace) + HandledEffects(Corrected, table, responses, n)
    ensures r.Failure? <==> Reach(table, responses) < |responses|
    ensures r.Failure? ==> r.error == OutOfRange
  {
    var i := HandleAttributable(Corrected, store, table, responses);
    r := if i < |responses| then Failure(OutOfRange) else Success(());
  }

  /** The loop of HandleFailedNotifications, up to the first response it cannot attribute. */
  method HandleAttributable(c: Classifier, store: Store, table: seq<TokenOwner>, responses: seq<SendResponse>) returns (i: nat)
    requires store.Valid()
    modifies store`db, store`trace
    ensures store.Valid() && i == Reach(table, responses)
    ensures HandledSoFar(c, store.db, store.trace, old(store.db), old(store.trace), table, responses, i)
  {
    ghost var db0 := store.db;
    ghost var trace0 := store.trace;
    ghost var reach := Reach(table, responses);
    i := 0;
    while i < |responses| && Attributable(table, responses, i)
      invariant store.Valid() && i <= reach
      invariant HandledSoFar(c, store.db, store.trace, db0, trace0, table, responses, i)
    {
      HandleNext(c, store, table, responses, i, db0, trace0);
      ReachPast(table, responses, i);
      i := i + 1;
    }
    ReachExit(table, responses, i);
  }

  /** The store after the first `n` responses: the users handled and the effects emitted. */
  ghost predicate HandledSoFar(c: Classifier, db: Db, trace: seq<Effect>, db0: Db, trace0: seq<Effect>, table: seq<TokenOwner>, responses: seq<SendResponse>, n: nat)
    requires n <= |responses|
  {
    db == db0.(users := Handled(c, db0.users, table, responses, n)) && trace == trace0 + HandledEffects(c, table, responses, n)
  }

  /** One pass of the loop, stated on the users and effects of the responses handled so far. */
  method HandleNext(c: Classifier, store: Store, table: seq<TokenOwner>, responses: seq<SendResponse>, i: nat, ghost db0: Db, ghost trace0: seq<Effect>)
    requires store.Valid() && i < |responses| && Attributable(table, responses, i)
    requires HandledSoFar(c, store.db, store.trace, db0, trace0, table, responses, i)
    modifies store`db, store`trace
    ensures store.Valid()
    ensures HandledSoFar(c, store.db, store.trace, db0, trace0, table, responses, i + 1)
  {
    HandleResponse(c, store, table, responses, i);
    Associative(trace0, HandledEffects(c, table, responses, i), StepEffects(c, table, responses, i));
  }

  lemma ReachExit(table: seq<TokenOwner>, responses: seq<SendResponse>, i: nat)
    requires i <= Reach(table, responses) && (i == |responses| || !Attributable(table, responses, i))
    ensures i == Reach(table, responses)
  {
  }

  lemma ReachPast(table: seq<TokenOwner>, responses: seq<SendResponse>, i: nat)
    requires i <= Reach(table, responses) && i < |responses| && Attributable(table, responses, i)
    ensures i < Reach(table, responses)
  {
  }

  /** One pass of the loop, over a response that can be attributed. */
  method HandleResponse(c: Classifier, store: Store, table: seq<TokenOwner>, responses: seq<SendResponse>, i: nat)
    requires store.Valid() && i < |responses| && Attributable(table, responses, i)
    modifies store`db, store`trace
    ensures store.Valid()
    ensures store.db == old(store.db).(users := Step(c, old(store.db.users), table, responses, i))
    ensures store.trace == old(store.trace) + StepEffects(c, table, responses, i)
  {
    if !responses[i].isSuccess {
      var failedToken := table[i].token;
      var userId := table[i].userId;
      if Invalid(c, responses[i]) {
        RemoveDevice(store, userId, failedToken);
      } else {
        store.Emit(ConsoleLine(TransientLine(failedToken, userId, responses[i])));
      }
    }
  }

  // ----- what the handling does to the devices -----

  /** Some permanent failure among the first `n` responses is for that user and that token, ignoring case. */
  predicate RemovedBefore(c: Classifier, table: seq<TokenOwner>, responses: seq<SendResponse>, n: nat, userId: Id, token: string)
    requires n <= |responses|
  {
    exists i :: 0 <= i < n && Permanent(c, table, responses, i) && table[i].userId == userId && SameToken(token, table[i].token)
  }

  /** The handling keeps every user and every field of a user but its devices. */
  lemma {:induction false} HandledKeepsUsers(c: Classifier, users: map<Id, User>, table: seq<TokenOwner>, responses: seq<SendResponse>, n: nat)
    requires n <= |responses|
    ensures Handled(c, users, table, responses, n).Keys == users.Keys
    ensures forall k :: k in users ==> Handled(c, users, table, responses, n)[k] == users[k].(devices := Handled(c, users, table, responses, n)[k].devices)
    decreases n
  {
    if n > 0 {
      HandledKeepsUsers(c, users, table, responses, n - 1);
    }
  }

  /** One response removes a device iff it failed permanently for that user and a token equal ignoring case. */
  lemma StepDevices(c: Classifier, users: map<Id, User>, table: seq<TokenOwner>, responses: seq<SendResponse>, i: nat, userId: Id, d: Device)
    requires i < |responses| && userId in users
    ensures userId in Step(c, users, table, responses, i)
    ensures d in Step(c, users, table, responses, i)[userId].devices <==> (d in users[userId].devices
      && !(Permanent(c, table, responses, i) && table[i].userId == userId && SameToken(d.fcmToken, table[i].token)))
  {
    if Permanent(c, table, responses, i) && table[i].userId == userId {
      assert Step(c, users, table, responses, i)[userId].devices == WithoutToken(users[userId].devices, table[i].token);
      assert SameToken(d.fcmToken, table[i].token) <==> SameToken(table[i].token, d.fcmToken);
    }
  }

  lemma RemovedBeforeStep(c: Classifier, table: seq<TokenOwner>, responses: seq<SendResponse>, n: nat, userId: Id, token: string)
    requires 0 < n <= |responses|
    ensures RemovedBefore(c, table, responses, n, userId, token) <==> (RemovedBefore(c, table, responses, n - 1, userId, token)
      || (Permanent(c, table, responses, n - 1) && table[n - 1].userId == userId && SameToken(token, table[n - 1].token)))
  {
    if RemovedBefore(c, table, responses, n, userId, token) && !RemovedBefore(c, table, responses, n - 1, userId, token) {
      var i :| 0 <= i < n && Permanent(c, table, responses, i) && table[i].userId == userId && SameToken(token, table[i].token);
      assert i == n - 1;
    }
  }

  /**
   * After the first `n` responses a device of a user is still there iff it was before and no
   * permanent failure so far names its owner and its token (ignoring case). Successful and
   * transient responses thus remove nothing, and a permanent one only that token of only that user.
   */
  lemma {:induction false} HandledDevices(c: Classifier, users: map<Id, User>, table: seq<TokenOwner>, responses: seq<SendResponse>, n: nat, userId: Id, d: Device)
    requires n <= |responses| && userId in users
    ensures userId in Handled(c, users, table, responses, n)
    ensures d in Handled(c, users, table, responses, n)[userId].devices <==>
      (d in users[userId].devices && !RemovedBefore(c, table, responses, n, userId, d.fcmToken))
    decreases n
  {
    if n > 0 {
      HandledDevices(c, users, table, responses, n - 1, userId, d);
      StepDevices(c, Handled(c, users, table, responses, n - 1), table, responses, n - 1, userId, d);
      RemovedBeforeStep(c, table, responses, n, userId, d.fcmToken);
    }
  }

  /** When every response succeeds, nothing is written and nothing is logged. */
  lemma {:induction false} AllDelivered(c: Classifier, users: map<Id, User>, table: seq<TokenOwner>, responses: seq<SendResponse>, n: nat)
    requires n <= |responses|
    requires forall i :: 0 <= i < n ==> responses[i].isSuccess
    ensures Handled(c, users, table, responses, n) == users
    ensures HandledEffects(c, table, responses, n) == []
    decreases n
  {
    if n > 0 {
      AllDelivered(c, users, table, responses, n - 1);
    }
  }

  /** The handling writes nothing but users: its effects are device removals and console lines. */
  lemma {:induction false} HandledWritesOnlyUsers(c: Classifier, table: seq<TokenOwner>, responses: seq<SendResponse>, n: nat)
    requires n <= |responses|
    ensures forall e :: e in HandledEffects(c, table, responses, n) ==>
      (e == Effect.Write(UsersCollection, UpdateOneCommand, None) || e.ConsoleLine?)
    decreases n
  {
    if n > 0 {
      HandledWritesOnlyUsers(c, table, responses, n - 1);
    }
  }

  /**
   * The handler as written keeps a device whose push failed with code Unregistered but a plain
   * message, and logs the transient line; the corrected handler removes it.
   */
  lemma UnregisteredDeviceKeptAsWritten(users: map<Id, User>, userId: Id, d: Device)
    requires userId in users && d in users[userId].devices
    ensures var table := [TokenOwner(d.fcmToken, userId)];
      && userId in Handled(AsWritten, users, table, [UnregisteredPlain], 1)
      && d in Handled(AsWritten, users, table, [UnregisteredPlain], 1)[userId].devices
      && HandledEffects(AsWritten, table, [UnregisteredPlain], 1) == [ConsoleLine(TransientLine(d.fcmToken, userId, UnregisteredPlain))]
      && userId in Handled(Corrected, users, table, [UnregisteredPlain], 1)
      && d !in Handled(Corrected, users, table, [UnregisteredPlain], 1)[userId].devices
  {
    var table := [TokenOwner(d.fcmToken, userId)];
    UnregisteredTokenKeptAsWritten();
    StepDevices(AsWritten, users, table, [UnregisteredPlain], 0, userId, d);
    StepDevices(Corrected, users, table, [UnregisteredPlain], 0, userId, d);
  }
}

// BroadcastService: from a notification to the devices it is pushed to.
module Broadcast {
  import opened Common
  import opened Entities
  import opened Database
  import opened Devices
  import opened Notifications
  import opened Finders

  /** The tokens of the users' devices, each once. */
  function DeviceTokens(users: seq<User>): (r: set<string>)
    ensures forall t :: t in r <==> exists j :: 0 <= j < |users| && HasToken(users[j], t)
  {
    set j, d | 0 <= j < |users| && 0 <= d < |users[j].devices| :: users[j].devices[d].fcmToken
  }

  /**
   * GetProfilesNotificationTokens: the tokens of the devices of the users listed in the details of
   * the profiles, each once (`ToHashSet`), empty tokens included.
   */
  function ProfilesNotificationTokens(db: Db, profileIds: seq<Id>): set<string>
  {
    DeviceTokens(ProfilesUsers(db, profileIds))
  }

  /** Some stored user listed for one of the profiles has a device with the token. */
  predicate ListedToken(db: Db, profileIds: seq<Id>, t: string)
  {
    exists u :: u in db.users.Values && HasToken(u, t) && ListedFor(db.profileDetails, profileIds, u.id)
  }

  /** The tokens are exactly those of devices of stored users listed in the details of the profiles. */
  lemma NotificationTokensListed(db: Db, profileIds: seq<Id>)
    ensures forall t :: t in ProfilesNotificationTokens(db, profileIds) <==> ListedToken(db, profileIds, t)
  {
    var users := ProfilesUsers(db, profileIds);
    forall t ensures t in DeviceTokens(users) <==> ListedToken(db, profileIds, t) {
      TokenOfListed(users, db, profileIds, t);
    }
  }

  lemma TokenOfListed(users: seq<User>, db: Db, profileIds: seq<Id>, t: string)
    requires forall i :: 0 <= i < |users| ==> users[i] in db.users.Values && ListedFor(db.profileDetails, profileIds, users[i].id)
    requires forall u :: u in db.users.Values && ListedFor(db.profileDetails, profileIds, u.id) ==> u in users
    ensures t in DeviceTokens(users) <==> ListedToken(db, profileIds, t)
  {
    if ListedToken(db, profileIds, t) {
      var u :| u in db.users.Values && HasToken(u, t) && ListedFor(db.profileDetails, profileIds, u.id);
      var j :| 0 <= j < |users| && users[j] == u;
    }
    if t in DeviceTokens(users) {
      var j :| 0 <= j < |users| && HasToken(users[j], t);
      assert users[j] in db.users.Values && HasToken(users[j], t) && ListedFor(db.profileDetails, profileIds, users[j].id);
    }
  }

  /**
   * The two revisions of the token lookup agree up to empty tokens: the keys of the dictionary of
   * DeviceService are the non-empty tokens of this list.
   */
  lemma DeviceTableTokens(db: Db, profileIds: seq<Id>, table: seq<TokenOwner>)
    requires TokenTable(ProfilesUsers(db, profileIds), table)
    ensures Tokens(table) == ProfilesNotificationTokens(db, profileIds) - {""}
  {
    TableTokens(ProfilesUsers(db, profileIds), table);
  }

  lemma TableTokens(users: seq<User>, table: seq<TokenOwner>)
    requires TokenTable(users, table)
    ensures Tokens(table) == DeviceTokens(users) - {""}
  {
    forall t ensures t in Tokens(table) <==> t in DeviceTokens(users) && t != "" {
    }
  }

  /**
   * GetNotificationTokens: NotSupportedException when the older table has no finder for the
   * current kind; otherwise the tokens of the users listed for the notified event's profiles.
   */
  function GetNotificationTokens(db: Db, n: Notification): (r: Result<set<string>>)
    ensures r.Failure? <==> n.kind !in ModelResolvers
    ensures r.Failure? ==> r.error == NoResolver(n.kind)
    ensures r.Success? ==> forall t :: t in r.value <==> ListedToken(db, EventFinderProfileIds(db, n), t)
  {
    var finder := Resolve(ModelResolvers, n.kind);
    if finder.Failure? then Failure(finder.error)
    else
      var profileIds := EventFinderProfileIds(db, n);
      NotificationTokensListed(db, profileIds);
      Success(ProfilesNotificationTokens(db, profileIds))
  }

  /**
   * BroadcastUpdate: the run started detached by the propagation services. It faults when the kind
   * has no finder, does nothing without tokens, and otherwise pushes the notification's payload to
   * the non-empty tokens of the listed users, then handles the responses.
   */
  method BroadcastUpdate(store: Store, n: Notification, responses: seq<SendResponse>) returns (r: Result<()>)
    requires store.Valid()
    modifies store`db, store`trace
    ensures store.Valid()
    ensures n.kind !in ModelResolvers ==>
      r == Failure(NoResolver(n.kind)) && store.db == old(store.db) && store.trace == old(store.trace)
    ensures n.kind in ModelResolvers && ProfilesNotificationTokens(old(store.db), EventFinderProfileIds(old(store.db), n)) == {} ==>
      r.Success? && store.db == old(store.db) && store.trace == old(store.trace)
    ensures store.db == old(store.db).(users := store.db.users)
    ensures |old(store.trace)| <= |store.trace| && store.trace[..|old(store.trace)|] == old(store.trace)
    ensures n.kind in ModelResolvers && ProfilesNotificationTokens(old(store.db), EventFinderProfileIds(old(store.db), n)) != {} ==>
      |old(store.trace)| < |store.trace| && Pushed(store.trace[|old(store.trace)|], ProfilesNotificationTokens(old(store.db), EventFinderProfileIds(old(store.db), n)), n)
  {
    var tokens := GetNotificationTokens(store.db, n);
    if tokens.Failure? {
      return Failure(tokens.error);
    }
    var profileIds := EventFinderProfileIds(store.db, n);
    if |tokens.value| == 0 {
      return Success(());
    }
    r := Push(store, n, profileIds, responses);
  }

  /** The send of BroadcastUpdate: the token dictionary of the profiles, the payload, the multicast. */
  method Push(store: Store, n: Notification, profileIds: seq<Id>, responses: seq<SendResponse>) returns (r: Result<()>)
    requires store.Valid()
    modifies store`db, store`trace
    ensures store.Valid()
    ensures store.db == old(store.db).(users := store.db.users)
    ensures |old(store.trace)| < |store.trace| && store.trace[..|old(store.trace)|] == old(store.trace)
    ensures Pushed(store.trace[|old(store.trace)|], ProfilesNotificationTokens(old(store.db), profileIds), n)
  {
    ghost var db0 := store.db;
    ghost var trace0 := store.trace;
    var table := GetProfilesDevicesTokens(store.db, profileIds);
    DeviceTableTokens(store.db, profileIds, table);
    var data := ToDictionary(n);
    PushedKeys(ProfilesNotificationTokens(db0, profileIds), n, table, data);
    r := SendNotification(store, table, data, responses);
    ghost var effects := HandledEffects(AsWritten, table, responses, Reach(table, responses));
    Associative(trace0, [PushSent(Keys(table), data)], effects);
    assert store.trace == trace0 + ([PushSent(Keys(table), data)] + effects);
    assert store.trace[|trace0|] == PushSent(Keys(table), data);
  }

  /** The push effect sends the notification's payload to the non-empty tokens among `tokens`. */
  ghost predicate Pushed(e: Effect, tokens: set<string>, n: Notification)
  {
    && e.PushSent?
    && (forall t :: t in e.tokens <==> t in tokens && t != "")
    && "type" in e.data && e.data["type"] == TypeText(n.createdType)
    && "hash" in e.data && e.data["hash"] == IdText(n.objectId)
    && e.data.Keys <= PayloadKeys
  }

  lemma PushedKeys(tokens: set<string>, n: Notification, table: seq<TokenOwner>, data: map<string, string>)
    requires Tokens(table) == tokens - {""}
    requires "type" in data && data["type"] == TypeText(n.createdType)
    requires "hash" in data && data["hash"] == IdText(n.objectId)
    requires data.Keys <= PayloadKeys
    ensures Pushed(PushSent(Keys(table), data), tokens, n)
  {
    forall t ensures t in Keys(table) <==> t in Tokens(table) {
      if t in Tokens(table) {
        var i :| 0 <= i < |table| && table[i].token == t;
        assert Keys(table)[i] == t;
      }
    }
  }
}

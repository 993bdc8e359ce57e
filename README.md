# WYD backend core in Dafny

This project models the core of the WYD backend, a C# service over MongoDB. Events are shared between
profiles, users own profiles, and changes fan out as push notifications. The model covers:

- **The store wrapper** (`Database`). Collections are maps from ObjectId to document. Unique indexes are
  clash relations checked on insert.
  - `ExecuteInTransactionAsync` commits a callback that returns. It aborts, restores the snapshot and
    rethrows for one that throws. It runs the callback bare when transactions are unsupported, a
    decision `MongoDbContext` takes once from the first listed server and then caches.
  - Every update path stamps `updatedAt` on a `BaseDateEntity`.
  - A missing document is a `KeyNotFoundException` or a null, as each call does.
  - Pagination is skip and take after a descending sort.
  - A `Store` class holds the database, the ObjectId generator, a non-decreasing clock, the session
    counter and an ordered log of observable effects: transaction steps, write commands with the
    session they ran in, queue messages, started broadcasts, push sends and console lines.
- **The event engine** (`Events`, `ProfileEvents`, `EventProfiles`, `EventDetailsStore`,
  `EventQueries`, `EventResponses`).
  - Every (profile, event) link is stored twice: a forward `ProfileEvent` row carrying cached event
    times and an `eventUpdatedAt` version, and a reverse `EventProfile` mirror.
  - Two "minus one" counters on the event are moved only by `$inc`.
  - The counter invariant `ProfileEvents.Invariant` is proved to be kept by create, join, share,
    confirm, decline and update:
    - every row has its event;
    - the links are unique and mirrored;
    - `TotalProfilesMinusOne + 1` and `TotalConfirmedMinusOne + 1` count the event's rows and
      confirmed rows.
  - Propagation to forward rows is guarded by staleness. It is proved monotone, idempotent and
    insensitive to the order in which two versions arrive.
- **Fan-out** (`MessageQueue`, `Propagation`, `Finders`, `Broadcast`, `Devices`, `Notifications`).
  - The in-process queue and its one handler, and the two resolver tables from notification kind to
    profile finder.
  - Token resolution: profile ids, then the users listed in each profile's details, then the tokens of
    those users' devices.
  - The handling of per-token push responses: a failure the source classifies as permanent removes
    the device, any other keeps it. The classification is the source's as written: it reads the error
    code but compares its PascalCase enum name with upper-case texts, so the code never matches
    (see Findings); a corrected handler sits beside it.
- **Profile, user and community bookkeeping** (`Profiles`, `ProfileDetailsStore`, `ProfileTags`,
  `Users`, `UserProfiles`, `Claims`, `Groups`, `Communities`, `ProfileResponses`).
- **Small helpers** (`MediaStore`, `Auth`, `Tokens`, `Errors`):
  - MIME sanitising and media object naming;
  - the claim-dictionary merge;
  - Bearer-token extraction (section 2.1 of RFC 6750);
  - the exception-to-status mapping (status codes of section 15 of RFC 9110).

The push provider, the identity provider, object storage, the clock and date formatting are inputs of
the model. Each affected member takes them as parameters: a per-token response list, a token-check
function, a URL function, the `Store` clock, and a formatting function.

## Model

| member | source | states |
|---|---|---|
| Database.RetrieveOrNull | Components/Database/MongoDbService.cs:348-368 | null iff no document satisfies the filter; otherwise a stored, matching document with the least id among the matches (the first in natural order) |
| Database.Retrieve | Components/Database/MongoDbService.cs:335-346 | KeyNotFoundException iff nothing matches; otherwise exactly what RetrieveOrNull finds |
| Database.RetrieveById | Components/Database/MongoDbService.cs:325-333 | KeyNotFoundException iff the id is absent; otherwise the document stored under it |
| Database.ConfirmExists | Components/Database/MongoDbService.cs:54-84 | succeeds iff the id is stored; otherwise a plain Exception |
| Database.RetrieveMultiple | Components/Database/MongoDbService.cs:389-410 | only stored, matching documents; with no limit, every match once; a positive limit bounds the length, and one at least the number of matches loses none |
| Database.FirstRetrievedLeast | Components/Database/MongoDbService.cs:348-410 | without a limit the first document of the natural-order list is the match with the least id that RetrieveOrNull returns |
| Database.RetrieveMultipleById | Components/Database/MongoDbService.cs:369-387 | one document per requested id that is stored, and every such document |
| Database.InsertOne | Components/Database/MongoDbService.cs:91-114 | succeeds iff the id is new and no stored document clashes on a unique index; then the collection gains exactly that document; otherwise the wrapped "MongoDB operation failed for document" exception |
| Database.InsertMany | Components/Database/MongoDbService.cs:116-141 | an ordered bulk insert: succeeds iff the whole batch is admissible, and then every document sits under its id; stored documents never change, and only batch ids are added even on failure |
| Database.Combined | Components/Database/MongoDbService.cs:184-190 | the update sent to the server is the caller's update followed by `updatedAt := now` exactly when the type is a BaseDateEntity and `setUpdatedAtDate` holds, and is the caller's update otherwise |
| Database.UpdateOneByKey | Components/Database/MongoDbService.cs:220-232 | the update by id: only that document changes, and only when the guard holds; matched and modified counts are 0 or 1 accordingly |
| Database.UpdateOne | Components/Database/MongoDbService.cs:234-281 | no match means no change; otherwise exactly the first match in natural order is updated, with matched count 1 and modified count 1 iff the update changed it |
| Database.UpdateMany | Components/Database/MongoDbService.cs:283-318 | every matching document is updated and no other; the matched count is the number of matches |
| Database.FindOneAndUpdateByKey | Components/Database/MongoDbService.cs:192-206 | on one key: null and no change when absent; otherwise the document is updated and the post-update document (ReturnDocument.After) is returned |
| Database.FindOneAndUpdate | Components/Database/MongoDbService.cs:168-216 | null iff nothing matches, with no change; otherwise the first match in natural order is updated and the post-update document is returned |
| Database.FindOneAndUpdateLocal | Components/Database/MongoDbService.cs:168-216 | no key is added or removed, and a document changes only if the filter matches it, and then by the update |
| Database.FindOneByIdAndUpdate | Components/Database/MongoDbService.cs:148-164 | KeyNotFoundException iff the id is absent, with no change; otherwise the document under the id is updated and returned after the update |
| Database.SortDescending | Components/Database/MongoDbService.cs:425-426 | the documents ordered largest key first, as a permutation of the input |
| Database.Page | Components/Database/MongoDbService.cs:428-432 | with both arguments, the documents after `(pageNumber - 1) * pageSize` skipped and then at most `pageSize` taken; the whole list when either is missing; a negative skip is an error |
| Database.PageTakesPageSize | Components/Database/MongoDbService.cs:428-432 | a full page is exactly the slice from `(pageNumber - 1) * pageSize` to `pageNumber * pageSize` |
| Database.PageKeepsOrder | Components/Database/MongoDbService.cs:425-434 | a page of a sorted list of the filter's documents is sorted and holds only such documents |
| Database.FindForPagination | Components/Database/MongoDbService.cs:412-443 | an error iff the skip is negative; otherwise matching documents sorted largest first; the whole sorted list when a page argument is missing and otherwise the page of that list that Page takes |
| Database.PaginationTakesPageSize | Components/Database/MongoDbService.cs:425-434 | a full page is the sorted matches from (pageNumber-1)*pageSize to pageNumber*pageSize |
| Database.Opening | Components/Database/MongoDbService.cs:29-35 | StartTransaction is issued iff transactions are supported; otherwise only the console line |
| Database.Closing | Components/Database/MongoDbService.cs:36-51 | a commit iff supported and the callback returned; an abort iff supported and it threw; nothing when unsupported; never a write |
| Database.Settled | Components/Database/MongoDbService.cs:40-45 | after an abort the database is the snapshot taken before the callback, so none of its writes remain; otherwise the state the callback left |
| Database.Store.Begin | Components/Database/MongoDbService.cs:25-35 | a new session and the cached support decision; StartTransaction logged iff supported; the database is the snapshot |
| Database.Store.End | Components/Database/MongoDbService.cs:36-51 | returns the callback's outcome unchanged (the same exception is rethrown); the database is `Settled` and the log gains `Closing` |
| Database.ServerDecision | Components/Database/MongoDbContext.cs:76-102 | transactions run iff the first server is ReplicaSetPrimary, ReplicaSetSecondary or ShardRouter; a warning iff there is no server |
| Database.OnlyFirstServerCounts | Components/Database/MongoDbContext.cs:80-84 | servers after the first never change the decision |
| Database.DbContext.AreTransactionsSupported | Components/Database/MongoDbContext.cs:69-105 | a cached answer is returned with nothing changed; otherwise the server decision is computed, cached and returned, and the warning logged when there is no server |
| Entities.NewEventDetails | Model/Events/EventDetails.cs:7-18 | a new details record has the given id and points at its event and carries the given description and starts with no images |
| Entities.NewProfileEvent | Model/Profiles/ProfileEvent.cs:8-29 | a new forward row links the profile to the event, is unconfirmed with role Viewer, and caches the event's start, end and `updatedAt` version |
| Entities.MirrorOf | Model/Events/EventProfile.cs:8-15 | the mirror carries the forward row's event and profile, so both rows name the same link |
| Entities.NewNotification | Model/Notifications/Notification.cs:3-10 | a new notification carries its object id and type, and the version its call sites pass, with actor, title, body and profile unset |
| Events.NewEvent | Services/Events/EventService.cs:39-44 | the new event takes the request's title and times, both counters start at their default 0, and it is stamped now |
| Events.PropagationMessage | Services/Events/EventService.cs:82 | every propagation message is an `eventUpdate` on its first try, a type the handler table knows, carrying the event, the update kind and the actor |
| Events.OneLinkAdded | Services/Profiles/ProfileEventService.cs:25-27 | adding one new forward row and its mirror keeps links unique and mirrored, and adds one row to its event's count, and one confirmed row when it is confirmed |
| Events.CreatedKeepsInvariant | Services/Events/EventService.cs:46-53 | a new event with zero counters, its details and one confirmed row keep the counter invariant |
| Events.CreateCallback | Services/Events/EventService.cs:46-53 | the callback succeeds iff the creator's link is in neither collection; then it stores the event, its details and the confirmed row with its mirror, all in the session, and answers with the event, details and row |
| Events.CreateEvent | Services/Events/EventService.cs:37-66 | as the callback, inside one transaction: a failure with transactions supported leaves the database as it was; the log is the transaction around the four writes |
| Events.CreateEventKeepsInvariant | Services/Events/EventService.cs:46-53 | on a consistent store an event id not yet used has no links, so CreateEvent cannot fail, and what it stores keeps the counter invariant |
| Events.BatchLinks | Services/Profiles/ProfileEventService.cs:46 | a batch stored above the existing ids adds exactly its links |
| Events.SharedKeepsInvariant | Services/Events/EventService.cs:99-105 | a batch of new unconfirmed rows for one event, with the profile counter raised by the batch size, keeps the counter invariant |
| Events.GroupMembers | Services/Communities/GroupService.cs:38-77 | a profile is a candidate iff it is a member, other than the caller, of a requested group that belongs to a requested community |
| Events.ShareTargets | Services/Events/EventService.cs:116-125 | the targets are the candidates whose link to the event is not yet mirrored |
| Events.FindAffectedByShare | Services/Events/EventService.cs:116-125 | UnauthorizedAccess iff the caller is missing from a selected group; otherwise exactly the share targets |
| Events.ShareCallback | Services/Events/EventService.cs:101-111 | succeeds iff the event exists and none of the targets is linked to it in either collection; then one unconfirmed row and mirror per target are stored, the profile counter rises by their number, and the updated event is returned |
| Events.ShareTransaction | Services/Events/EventService.cs:101-111 | the share callback inside one transaction; a failure with transactions supported leaves the database as it was |
| Events.Share | Services/Events/EventService.cs:91-114 | fails iff the event is missing, the caller is refused, or a non-empty target set is not free; those early failures change nothing; with no targets the event is answered as stored and nothing is written; otherwise the transaction shares with exactly the targets |
| Events.ShareTargetsClear | Services/Events/EventService.cs:120-122 | on a mirrored store the targets left after removing the already-shared profiles are free in both collections, so the share transaction cannot fail on them |
| Events.ShareKeepsInvariant | Services/Events/EventService.cs:99-111 | sharing keeps the counter invariant |
| Events.JoinCounted | Services/Events/EventService.cs:77-80 | one new unconfirmed row with the profile counter raised by one keeps the counts exact |
| Events.JoinKeepsInvariant | Services/Events/EventService.cs:75-86 | joining an event through a link keeps the counter invariant |
| Events.JoinCallback | Services/Events/EventService.cs:75-86 | succeeds iff the link is absent from both collections and the event exists; then one unconfirmed row and mirror are stored, the profile counter rises by one, and the row and updated event are returned |
| Events.JoinTransaction | Services/Events/EventService.cs:75-86 | the join callback inside one transaction; a failure with transactions supported leaves the database as it was |
| Events.CreateAndRetrieveSharedEvent | Services/Events/EventService.cs:69-89 | fails iff the event or its details are missing, or a mirror exists without its forward row; with an existing forward row nothing changes and that row is answered; otherwise the join transaction runs and its new row is answered |
| Events.ConfirmedDelta | Services/Events/EventService.cs:216-237 | the confirmed counter moves by +1 for a confirm and by -1 for a decline |
| Events.FlipLinked | Services/Profiles/ProfileEventService.cs:125-151 | a flip of one row's `confirmed` keeps links unique and mirrored |
| Events.FlipReferenced | Services/Profiles/ProfileEventService.cs:125-151 | a flip keeps every row's event stored |
| Events.FlipCounted | Services/Events/EventService.cs:216-223 | a flip with the confirmed counter moved by the same sign keeps the counts exact |
| Events.FlipWitness | Services/Profiles/ProfileEventService.cs:125-151 | a flippable link names one stored row whose `confirmed` differs, and the flip changes exactly that row |
| Events.FlipKeepsInvariant | Services/Events/EventService.cs:212-245 | confirm and decline keep the counter invariant |
| Events.Respond | Services/Events/EventService.cs:216 | reports a change iff the link has a row with the other `confirmed` value; no change leaves the database as it was |
| Events.MoveConfirmed | Services/Events/EventService.cs:219-223 | KeyNotFoundException iff the event is missing, with nothing changed; otherwise the confirmed counter moves by the delta and the updated event is returned |
| Events.FlipCallback | Services/Events/EventService.cs:214-226 | the counter is touched iff the row changed; it fails iff the row changed and the event is missing; otherwise the database is the flipped one |
| Events.FlipTransaction | Services/Events/EventService.cs:214-226 | the flip callback inside one transaction; a failure with transactions supported leaves the database as it was |
| Events.ConfirmEvent | Services/Events/EventService.cs:212-227 | changed iff the link has an unconfirmed row; only then is the confirmed counter raised by one; with no change nothing in the database changes |
| Events.DeclineEvent | Services/Events/EventService.cs:229-245 | changed iff the link has a confirmed row; only then is the confirmed counter lowered by one; with no change nothing in the database changes |
| Events.RepeatedResponseChangesNothing | Services/Events/EventService.cs:216-217 | a second confirm, or a second decline, finds nothing to flip |
| Events.GetUpdates | Services/Events/EventService.cs:163-184 | one Set per non-null title, start or end time and no other; at most three; empty iff all three are null |
| Events.Apply | Services/Events/EventService.cs:168-181 | a field update never touches the id, the counters or the stamps |
| Events.ApplyAll | Services/Events/EventService.cs:148 | the combined update never touches the id, the counters or the stamps |
| Events.CombinedUpdates | Services/Events/EventService.cs:148-150 | applying the updates in turn and then stamping is the single combined update the server runs |
| Events.ApplyConcat | Services/Events/EventService.cs:148 | combining two lists of updates applies the first and then the second |
| Events.EditedEvents | Services/Events/EventService.cs:146-150 | editing keeps every event and every counter |
| Events.UpdateResponse | Services/Events/EventService.cs:160 | the answer is the updated event, with its details exactly when the description was updated and none otherwise |
| Events.SameCountersKeepInvariant | Services/Events/EventService.cs:138-157 | a change that keeps the rows, the mirrors, the event ids and all counters keeps the counter invariant |
| Events.UpdateKeepsInvariant | Services/Events/EventService.cs:130-161 | updating an event keeps the counter invariant |
| Events.DescriptionOnlyEdit | Services/Events/EventService.cs:140-154 | a description-only update leaves the events as they were and sends no propagation message |
| Events.Describe | Services/Events/EventService.cs:140-143 | the details are updated iff a description was given |
| Events.Edit | Services/Events/EventService.cs:146-154 | no field updates means no write and the event unchanged; otherwise KeyNotFoundException iff the event is missing, and else the event is edited and one propagation message follows |
| Events.UpdateCallback | Services/Events/EventService.cs:138-157 | fails iff there are field updates and the event is missing; on success the database is the described and edited one |
| Events.UpdateTransaction | Services/Events/EventService.cs:138-157 | the update callback inside one transaction, logged around its writes |
| Events.UpdateEvent | Services/Events/EventService.cs:130-161 | KeyNotFoundException iff the event is missing, with nothing changed or logged; otherwise the database is the updated one and the answer is the updated event with the new details |
| ProfileEvents.Links | Model/Profiles/ProfileEvent.cs:10-14 | the (profile, event) pairs of the stored forward rows |
| ProfileEvents.LinkAdded | Components/Database/MongoDbInizializer.cs:97-101 | a row stored under a new id adds exactly its link |
| ProfileEvents.RowsOf | DTO/EventAPI/RetrieveEventResponseDto.cs:14 | the ids of the rows of one event |
| ProfileEvents.ConfirmedRowsOf | DTO/EventAPI/RetrieveEventResponseDto.cs:15 | the ids of the confirmed rows of one event |
| ProfileEvents.EmptyInvariant | Components/Database/MongoDbInizializer.cs:97-101 | the empty store satisfies the counter invariant |
| ProfileEvents.RowAdded | Services/Profiles/ProfileEventService.cs:25 | one new row adds one to its event's count, and one to its confirmed count when it is confirmed |
| ProfileEvents.DistinctIdsCount | Services/Profiles/ProfileEventService.cs:46 | distinct ids make a set of the same size |
| ProfileEvents.FreshRowsAdded | Services/Profiles/ProfileEventService.cs:46 | new unconfirmed rows of one event add exactly their ids to its rows and none to its confirmed rows |
| ProfileEvents.BatchAdded | Services/Profiles/ProfileEventService.cs:46 | a batch of new unconfirmed rows raises its event's count by the batch size and leaves the confirmed count |
| ProfileEvents.NewRow | Services/Profiles/ProfileEventService.cs:18-24 | the row names the link, has the requested `confirmed`, role Viewer, and caches the event's times and version |
| ProfileEvents.CreateProfileEvent | Services/Profiles/ProfileEventService.cs:16-29 | succeeds iff the link is in neither collection; then exactly the row and its mirror are inserted, both in the caller's session; a duplicate forward row changes nothing |
| ProfileEvents.CreateMultipleProfileEvent | Services/Profiles/ProfileEventService.cs:31-53 | succeeds iff none of the profiles is linked to the event in either collection; then one row per profile and its mirror are inserted, in two bulk writes in the session |
| ProfileEvents.PrepareRows | Services/Profiles/ProfileEventService.cs:36-43 | one row per profile with distinct links; the batch adds only new links iff no profile is linked yet |
| ProfileEvents.InsertBatch | Services/Profiles/ProfileEventService.cs:46-49 | both bulk inserts succeed iff no link is taken in either collection; then the rows and their mirrors are stored above the existing ids |
| ProfileEvents.InsertRows | Services/Profiles/ProfileEventService.cs:46 | the bulk insert succeeds iff no link is taken; stored rows never change |
| ProfileEvents.InsertedRows | Components/Database/MongoDbService.cs:116-141 | an ordered bulk insert of rows under fresh ids succeeds iff every link is new, and then stores exactly the batch |
| ProfileEvents.BuildRows | Services/Profiles/ProfileEventService.cs:36-43 | one new row per profile, in order |
| ProfileEvents.BatchClear | Services/Profiles/ProfileEventService.cs:36-46 | the batch adds only new links iff no profile is linked yet, and its links are distinct |
| ProfileEvents.RowsAdmissible | Components/Database/MongoDbInizializer.cs:97-101 | the unique index admits the batch iff every link is new |
| ProfileEvents.RefreshIsStampedCacheUpdate | Services/Profiles/ProfileEventService.cs:67-73 | the cache update with the automatic stamp sets the version and `updatedAt` |
| ProfileEvents.PropagateRows | Services/Profiles/ProfileEventService.cs:60-73 | exactly the rows of the event, of the listed profiles, with an older version are refreshed with the event's times and version; the matched count is their number |
| ProfileEvents.PropagateNeverLowers | Services/Profiles/ProfileEventService.cs:63-64 | propagation never lowers a cached version and never touches the link, `confirmed`, role or creation date |
| ProfileEvents.PropagateConverges | Services/Profiles/ProfileEventService.cs:60-70 | afterwards every targeted row is at least at the event's version, and every stale one caches exactly the event's times |
| ProfileEvents.PropagateIdempotent | Services/Profiles/ProfileEventService.cs:63-64 | propagating the same version again matches nothing and changes nothing |
| ProfileEvents.PropagateLateIgnored | Services/Profiles/ProfileEventService.cs:63-64 | an older version arriving after a newer one changes nothing |
| ProfileEvents.PropagateOverridden | Services/Profiles/ProfileEventService.cs:63-64 | a newer version arriving after an older one gives the state the newer alone gives |
| ProfileEvents.RowOverridden | Services/Profiles/ProfileEventService.cs:63-64 | for one row, an older then a newer version is the newer alone |
| ProfileEvents.PropagateSupersedes | Services/Profiles/ProfileEventService.cs:63-64 | two versions of an event converge to the newer one's state in either arrival order |
| ProfileEvents.SameLinks | Services/Profiles/ProfileEventService.cs:67-70 | rows whose links are kept keep the set of links |
| ProfileEvents.SameCounts | Services/Profiles/ProfileEventService.cs:67-70 | rows whose links and `confirmed` are kept keep every event's counts |
| ProfileEvents.PropagateKeepsInvariant | Services/Profiles/ProfileEventService.cs:55-76 | propagation keeps the counter invariant |
| ProfileEvents.MatchedLine | Services/Profiles/ProfileEventService.cs:75 | the console line starts "Matched " |
| ProfileEvents.MatchedLineReadsBack | Services/Profiles/ProfileEventService.cs:75 | the matched count reads back from the digits after "Matched " and the modified count from the text after ", Modified " |
| ProfileEvents.PropagateEventUpdates | Services/Profiles/ProfileEventService.cs:55-76 | the forward rows are the propagated ones; one UpdateMany in the caller's session, then the matched and modified line |
| ProfileEvents.FindByProfileAndEventId | Services/Profiles/ProfileEventService.cs:79-86 | null iff the link has no forward row; otherwise a stored row of that link |
| ProfileEvents.FlipIsStampedSet | Services/Profiles/ProfileEventService.cs:133-135 | the Set of `confirmed` with the automatic stamp sets the value and keeps the link |
| ProfileEvents.FlipRows | Services/Profiles/ProfileEventService.cs:125-151 | the modified count is positive iff the link has a row with the other value; then exactly that row is flipped and stamped, and otherwise nothing changes |
| ProfileEvents.FlipIdempotent | Services/Profiles/ProfileEventService.cs:125-151 | flipping a second time to the same value modifies nothing |
| ProfileEvents.FlipOne | Services/Profiles/ProfileEventService.cs:133 | flipping one row keeps its event's rows and moves its confirmed count by one in the flip's direction |
| ProfileEvents.FlipCounts | Services/Profiles/ProfileEventService.cs:125-151 | a flip keeps every event's rows, and moves the confirmed count by one only when a row was modified |
| ProfileEvents.Confirm | Services/Profiles/ProfileEventService.cs:125-137 | true iff an unconfirmed row of the link existed; the rows are those FlipRows gives, and one UpdateOne runs in the session |
| ProfileEvents.Decline | Services/Profiles/ProfileEventService.cs:139-151 | true iff a confirmed row of the link existed; the rows are those FlipRows gives, and one UpdateOne runs in the session |
| EventProfiles.MirrorLinks | Model/Events/EventProfile.cs:10-14 | the (profile, event) pairs of the stored mirrors |
| EventProfiles.MirrorLinkAdded | Components/Database/MongoDbInizializer.cs:127-131 | a mirror stored under a new id adds exactly its link |
| EventProfiles.RowLinks | Model/Profiles/ProfileEvent.cs:10-14 | the links of a batch of rows |
| EventProfiles.CreateEventProfile | Services/Events/EventProfileService.cs:13-16 | succeeds iff the mirror's link is new; then exactly that mirror is inserted, in the session; a failure changes nothing |
| EventProfiles.Mirrors | Model/Events/EventProfile.cs:8-15 | one mirror per row, with the same link |
| EventProfiles.MirrorsAdmissible | Components/Database/MongoDbInizializer.cs:127-131 | the unique index admits the mirrors iff each link is new |
| EventProfiles.MirrorLinksAfterBatch | Services/Profiles/ProfileEventService.cs:49 | the mirrors of a batch add exactly the batch's links |
| EventProfiles.CreateMultipleEventProfile | Services/Profiles/ProfileEventService.cs:49 | succeeds iff every link of the rows is new among the mirrors; then one mirror per row is stored |
| EventProfiles.FindAllByEventId | Services/Events/EventProfileService.cs:18-31 | InvalidOperationException iff the event has no mirror; otherwise every mirror of the event, and only those |
| EventProfiles.MirrorsOfEvent | Services/Events/EventProfileService.cs:20-22 | the retrieved mirrors are exactly the event's, one per stored mirror |
| EventProfiles.GetProfileIds | Services/Events/EventUpdatePropagationService.cs:19 | one id per mirror of the event; a profile is listed iff its link to the event is mirrored |
| EventProfiles.ProfilesOf | Services/Events/EventUpdatePropagationService.cs:19 | the profile of each mirror, in order |
| EventProfiles.ProfilesOfMirrors | Services/Events/EventUpdatePropagationService.cs:19 | the profiles of the event's mirrors are exactly those whose link is mirrored |
| EventProfiles.FindAlreadyExisting | Services/Events/EventService.cs:121 | exactly the given profiles already mirrored as linked to the event |
| EventDetailsStore.UpdatesAreStamped | Components/Database/MongoDbService.cs:184-190 | the `$inc` of images and the Set of the description, each with the automatic stamp |
| EventDetailsStore.Create | Services/Events/EventDetailsService.cs:12-21 | a new record for the event with the description and no images is inserted in the session under a fresh id that it also carries |
| EventDetailsStore.RetrieveByEventId | Services/Events/EventDetailsService.cs:23-27 | KeyNotFoundException iff the event has no details; otherwise a stored record of that event |
| EventDetailsStore.AddImages | Services/Events/EventDetailsService.cs:29-34 | the first record of the event has its image count raised by the argument, outside any session; every count moves by 0 or by the argument |
| EventDetailsStore.AddImagesCounts | Services/Events/EventDetailsService.cs:29-34 | nothing matches iff the event has no details; no record changes event or description |
| EventDetailsStore.Update | Services/Events/EventDetailsService.cs:36-41 | null iff the event has no details; otherwise the record returned after the update has the new description and is stamped |
| EventDetailsStore.UpdateOnlyDescribes | Services/Events/EventDetailsService.cs:36-41 | the update keeps every record's event and image count and only changes the description of a record of that event |
| EventResponses.ProfileEventDtoOf | DTO/EventAPI/ProfileEventDto.cs:13-20 | the row's profile as text, its role and `confirmed`, and never trusted |
| EventResponses.ProfileEventDtos | DTO/EventAPI/RetrieveEventResponseDto.cs:23-27 | one DTO per row, in order |
| EventResponses.EventDetailsDtoOf | DTO/EventAPI/EventDetailsDto.cs:5-12 | the record's id text as hash and its description and image count and stamp |
| EventResponses.Total | DTO/EventAPI/RetrieveEventResponseDto.cs:14-15 | null iff the stored counter is 0, and it plus one otherwise; so a total of one is never reported |
| EventResponses.ResponseOf | DTO/EventAPI/RetrieveEventResponseDto.cs:8-15 | the event's id as text, title and times, and both decoded totals, with no rows and no details |
| EventResponses.WithDetailsAndRows | DTO/EventAPI/RetrieveEventResponseDto.cs:23-32 | the event's answer with the details and one DTO per row |
| EventResponses.ReportedTotals | DTO/EventAPI/RetrieveEventResponseDto.cs:14-15 | on a counted store the reported totals are the numbers of rows and confirmed rows, except that one reads as null |
| EventQueries.RetrieveEventById | Services/Events/EventService.cs:257-262 | KeyNotFoundException iff the event is missing; NullReferenceException iff it exists but the caller has no row; otherwise the event with that one row |
| EventQueries.RetrieveEventWithDetailsById | Services/Events/EventService.cs:264-269 | KeyNotFoundException iff the event or its details are missing; otherwise the event with its details |
| EventQueries.BuildFilters | Services/Events/EventService.cs:281-296 | two filters, or three with an end time; a row passes them all iff its profile is listed, it ends no earlier than the start and, with an end time, starts no later than it |
| EventQueries.Matched | Services/Events/EventService.cs:299-300 | at most 40 stored rows, each in the window |
| EventQueries.SameFilterSameRows | Services/Events/EventService.cs:296-300 | two filters that agree on every row retrieve the same rows |
| EventQueries.Distinct | Services/Events/EventService.cs:323-324 | the same ids, each once |
| EventQueries.RowsFor | Services/Events/EventService.cs:323-335 | exactly the rows of one event |
| EventQueries.GroupIds | Services/Events/EventService.cs:323-324 | each matched row's event once, and no other |
| EventQueries.GroupsOf | Services/Events/EventService.cs:323-335 | one group per event: the stored event and exactly its matched rows |
| EventQueries.Grouped | Services/Events/EventService.cs:304-336 | NullReferenceException iff a matched row's event is missing, because `Events[0]` is then absent; otherwise the rows grouped by event |
| EventQueries.GroupResponses | Services/Events/EventService.cs:341 | one answer per group, the event with its rows as DTOs |
| EventQueries.RetrieveEventsByProfileIds | Services/Events/EventService.cs:271-345 | a read that changes nothing; fails iff a matched row is orphaned; otherwise one answer per group |
| EventQueries.ReferencedRowsAnswer | Services/Events/EventService.cs:304-318 | on a store where every row's event exists the query cannot fail |
| EventQueries.OneEntryPerEvent | Services/Events/EventService.cs:323-341 | at most 40 answers, each for a different event; when at most 40 rows match, every matching row is in some answer |
| EventQueries.EveryRowGrouped | Services/Events/EventService.cs:323-336 | every matched row is in some group |
| EventQueries.GetMediaUploadUrls | Services/Events/EventService.cs:351-360 | a plain Exception iff the event is missing, with nothing changed; otherwise the media rows are inserted and the event's image count is raised by the number of answers without an error |
| MessageQueue.ApplyEventUpdate | Components/MessageQueue/MessageQueueHandlerService.cs:23-26 | the forward rows of every profile mirrored as linked to the event are propagated to its version, outside any session |
| MessageQueue.HandleMessage | Components/MessageQueue/MessageQueueHandlerService.cs:31-39 | InvalidOperationException "No handler registered for" the type iff the type has no handler; an `eventUpdate` carrying an event propagates it; any other payload changes nothing |
| MessageQueue.SendPropagationMessage | Components/MessageQueue/MessageQueueService.cs:16-22 | the message is handled at once: the handler's outcome is returned; the log shows the message and then exactly the handler's effects and the store changes as HandleMessage states |
| MessageQueue.UpdatePayloadIgnored | Components/MessageQueue/MessageQueueHandlerService.cs:21-27 | the messages EventService sends have a handler, but their payload is not an event, so the handler does nothing with them |
| Propagation.GetUpdateNotification | Services/Events/EventUpdatePropagationService.cs:31-41 | share and update give UpdateEssentialsEvent without actor; confirm and decline give ConfirmEvent and DeclineEvent with the actor; all carry the event's id and version |
| Propagation.EventNotificationsResolve | Model/Notifications/ProfileFinderFactory.cs:9-22 | every notification the event propagation builds resolves to the event finder |
| Propagation.PropagateUpdateEffects | Services/Events/EventUpdatePropagationService.cs:17-29 | with no mirrored profile nothing happens; otherwise the profiles' forward rows are propagated and a broadcast of the built notification is started without being awaited |
| Propagation.PropagateAndBroadcast | Services/Events/EventUpdatePropagationService.cs:22-26 | the rows of the listed profiles are propagated, then the broadcast is started |
| Propagation.UpdateEffectsKeepInvariant | Services/Events/EventUpdatePropagationService.cs:19-22 | the propagation keeps the counter invariant |
| Propagation.LinkedProfilesCoverRows | Services/Events/EventUpdatePropagationService.cs:19 | on a mirrored store the profiles found through the mirrors are exactly those with a forward row for the event |
| Propagation.PropagationReachesAllRows | Services/Events/EventUpdatePropagationService.cs:19-22 | on a consistent store every forward row of the event ends at least at the event's version |
| Propagation.GetProfileUpdateNotification | Services/Profiles/ProfileUpdatePropagationService.cs:22-29 | every profile update kind gives an UpdateProfile notification for the profile, with no version and no actor |
| Propagation.PropagateProfileUpdate | Services/Profiles/ProfileUpdatePropagationService.cs:15-20 | only a broadcast of that notification is started |
| Propagation.ProfileBroadcastFaults | Model/Notifications/ProfileFinderFactory.cs:25-31 | that broadcast finds no resolver for UpdateProfile in the table BroadcastService builds, so it faults |
| Finders.Resolve | Model/Notifications/ProfileFinderFactory.cs:25-31 | the kind's resolver when the table has one; otherwise NotSupportedException "No profile resolver for type" the kind |
| Finders.ModelTable | Model/Notifications/ProfileFinderFactory.cs:9-22 | the older table maps every event kind to the event finder and has no entry for UpdateProfile or CreateCommunity |
| Finders.UpdateProfileUnresolved | Model/Notifications/ProfileFinderFactory.cs:27-28 | the exact exception for UpdateProfile |
| Finders.ServiceTable | Services/Notifications/ProfileFinderFactory.cs:21-36 | the newer table has no entry for CreateEvent, ShareEvent, UpdateDetailsEvent or UpdateProfile, maps CreateCommunity to the community finder and every other kind to the event finder |
| Finders.TablesCompared | Services/Notifications/ProfileFinderFactory.cs:21-36 | the newer table adds CreateCommunity and drops CreateEvent, ShareEvent and UpdateDetailsEvent |
| Finders.EventFinderProfileIds | Model/Notifications/ProfileFinder.cs:16-23 | one id per mirror of the notified event; a profile is listed iff its link is mirrored |
| Finders.SelfProfileIds | Services/Profiles/ProfileProfileService.cs:9-12 | the profile itself, alone |
| Broadcast.DeviceTokens | Services/Notifications/BroadcastService.cs:42 | a token is listed iff some retrieved user has a device with it |
| Broadcast.NotificationTokensListed | Services/Notifications/BroadcastService.cs:30-45 | a token is listed iff a stored user named in the details of one of the profiles has a device with it |
| Broadcast.TokenOfListed | Services/Notifications/BroadcastService.cs:38-42 | the tokens of exactly the listed users are exactly the listed tokens |
| Broadcast.DeviceTableTokens | Services/Users/DeviceService.cs:30-61 | the token dictionary DeviceService builds holds the same tokens as BroadcastService's list, less the empty one |
| Broadcast.TableTokens | Services/Users/DeviceService.cs:46-58 | a token dictionary of the users holds their non-empty tokens |
| Broadcast.GetNotificationTokens | Services/Notifications/BroadcastService.cs:23-28 | NotSupportedException iff the kind has no resolver; otherwise exactly the listed tokens of the profiles the event finder gives |
| Broadcast.BroadcastUpdate | Services/Notifications/BroadcastService.cs:16-21 | an unresolvable kind fails with nothing done; no tokens means no send; otherwise one multicast to exactly those tokens with the notification's payload, and only users change |
| Broadcast.Push | Services/Notifications/BroadcastService.cs:20 | one multicast to the listed tokens with the notification's payload; the response handling after it is the one as written |
| Broadcast.PushedKeys | Services/Notifications/BroadcastService.cs:20 | a dictionary with the listed tokens and the notification's type and hash is what the multicast carries |
| Devices.WithoutToken | Services/Users/DeviceService.cs:23-26 | the devices whose token differs ignoring case, in order; none removed when none matches |
| Devices.UpdateUser | Services/Users/DeviceService.cs:14-28 | only the named user changes |
| Devices.AddDevice | Services/Users/DeviceService.cs:14-19 | the user's devices set gains the new device, with no `updatedAt` stamp and no session |
| Devices.RemoveDevice | Services/Users/DeviceService.cs:21-28 | every device of the user with that token ignoring case is removed, with no stamp and no session |
| Devices.AddDeviceOnlyAdds | Services/Users/DeviceService.cs:14-19 | adding devices keeps the user's stamp, profiles and accounts, and two different registrations of one token are both kept |
| Devices.AddSameDeviceOnce | Services/Users/DeviceService.cs:17 | adding the same device twice is adding it once |
| Devices.RemoveAbsentToken | Services/Users/DeviceService.cs:23-26 | removing a token no device has changes nothing |
| Devices.ListedUserIds | Services/Users/DeviceService.cs:36 | a user is listed iff some retrieved details names it |
| Devices.ProfilesUsers | Services/Users/DeviceService.cs:32-41 | exactly the stored users named in the details of the profiles |
| Devices.ListedIds | Services/Users/DeviceService.cs:32-36 | the users named in the retrieved details are those the store lists for the profiles |
| Devices.Tokens | Services/Users/DeviceService.cs:44 | the keys of the token dictionary |
| Devices.GetProfilesDevicesTokens | Services/Users/DeviceService.cs:30-61 | each non-empty token of the listed users once, owned by the first user that has it |
| Devices.UsersTokens | Services/Users/DeviceService.cs:46-58 | the loop over users builds that token table |
| Devices.AddUserTokens | Services/Users/DeviceService.cs:48-57 | one user's devices add exactly its new non-empty tokens, owned by it, keeping earlier entries |
| Devices.TokenAppended | Services/Users/DeviceService.cs:55 | TryAdd of a new token appends it and keeps the keys distinct |
| Devices.UserTokensAdded | Services/Users/DeviceService.cs:46-58 | after each user the table holds the tokens seen so far, each owned by the first user with it |
| Devices.TokenOwnersAreListed | Services/Users/DeviceService.cs:30-61 | every token's owner is a stored, listed user holding that token |
| Notifications.TypeText | Model/Notifications/Notification.cs:15 | the type's name, never empty |
| Notifications.TypeTextInjective | Model/Notifications/Notification.cs:15 | different types have different names |
| Notifications.ToDictionary | Model/Notifications/Notification.cs:12-29 | "type" and "hash" always; "title", "body" and "profileHash" exactly when those are set; no other key |
| Notifications.IsTokenInvalidOrExpired | Services/Notifications/NotificationService.cs:85-137 | the corrected classification: a failure is permanent iff the inner exception names not-registered or invalid-argument or carries the codes Unregistered or InvalidArgument or SenderIdMismatch or is an HTTP 400 |
| Notifications.NoCodeMatchesWireName | Services/Notifications/NotificationService.cs:117-122 | no error code's name is one of the three upper-case texts the source compares with |
| Notifications.AsWrittenIgnoresCode | Services/Notifications/NotificationService.cs:85-137 | as written, the classification depends only on the message and on HTTP 400 |
| Notifications.UnregisteredTokenKeptAsWritten | Services/Notifications/NotificationService.cs:111-126 | an Unregistered failure with a plain message is transient as written and permanent as intended |
| Notifications.UnregisteredDeviceKeptAsWritten | Services/Notifications/NotificationService.cs:56-78 | for that failure the handler as written keeps the device and logs the transient line while the corrected handler removes the device |
| Notifications.Keys | Services/Notifications/NotificationService.cs:42 | the dictionary's keys, in order |
| Notifications.Reach | Services/Notifications/NotificationService.cs:58-65 | the loop gets as far as the first failed response that has no key, or to the end |
| Notifications.SendNotification | Services/Notifications/NotificationService.cs:40-54 | one data-only multicast to the keys then the response handling with the classification as written; ArgumentOutOfRangeException iff a failed response has no key |
| Notifications.HandleFailedNotifications | Services/Notifications/NotificationService.cs:56-78 | with the classification as written: each failure it deems permanent removes its token from its owner and every other failure logs the transient line and keeps it; each success does nothing; it stops with ArgumentOutOfRangeException at a failed response without a key |
| Notifications.HandleFailedNotificationsCorrected | Services/Notifications/NotificationService.cs:56-78 | the same loop with the corrected classification: an Unregistered or InvalidArgument or SenderIdMismatch code also removes the device |
| Notifications.HandleAttributable | Services/Notifications/NotificationService.cs:58-77 | the loop handles every response up to the reach with the given classification |
| Notifications.HandleResponse | Services/Notifications/NotificationService.cs:60-76 | one response: a removal when the given classification deems the failure permanent; a console line for any other failure; nothing on success |
| Notifications.HandledKeepsUsers | Services/Notifications/NotificationService.cs:58-77 | handling keeps every user and changes nothing but devices |
| Notifications.StepDevices | Services/Notifications/NotificationService.cs:67-70 | for either classification one response removes a device exactly when that classification deems it permanent and it belongs to the device's owner and names its token |
| Notifications.HandledDevices | Services/Notifications/NotificationService.cs:58-77 | for either classification a device survives iff no handled failure of its owner that the classification deems permanent named its token |
| Notifications.AllDelivered | Services/Notifications/NotificationService.cs:62 | when every response succeeded nothing changes and nothing is logged |
| Notifications.HandledWritesOnlyUsers | Services/Notifications/NotificationService.cs:58-77 | handling writes only device removals on users and console lines |
| Profiles.NewProfile | Model/Profiles/Profile.cs:7-14 | a new profile carries the given id tag and name and was created and updated at the same instant |
| Profiles.InsertProfile | Services/Profiles/ProfileService.cs:24-28 | the profile document and its empty details are inserted under fresh ids and both writes carry the session |
| Profiles.Create | Services/Profiles/ProfileService.cs:22-32 | creation fails exactly when the tag is already taken by another profile; otherwise the profile details and tag are all written in that order under the session |
| Profiles.CreatedProfileComplete | Services/Profiles/ProfileService.cs:26-29 | after creation the profile is stored and has details with no users that AddUser then finds; a tag search for its own tag finds it when the prefix matches do not exceed the search limit |
| Profiles.GetUpdates | Services/Profiles/ProfileService.cs:45-58 | one field update per given name or tag and no others; none exactly when neither is given |
| Profiles.Apply | Services/Profiles/ProfileService.cs:51-56 | a field update never changes the profile's id or timestamps |
| Profiles.ApplyAll | Services/Profiles/ProfileService.cs:62 | a combined update never changes the profile's id or timestamps |
| Profiles.CombinedUpdates | Services/Profiles/ProfileService.cs:60-64 | applying the updates one after the other and stamping the time is the single combined update the store performs |
| Profiles.ApplyConcat | Services/Profiles/ProfileService.cs:62 | combining two lists of updates is applying the first then the second |
| Profiles.Recolored | Services/Profiles/ProfileService.cs:94-104 | the array filter sets the color on exactly the entries naming the profile and leaves the others alone |
| Profiles.RecolorOnlyMatching | Services/Profiles/ProfileService.cs:87-109 | recoloring keeps the user's id accounts devices and every entry's profile role and main flag; it colors only matching entries and doing it twice is doing it once |
| Profiles.SetProfileColor | Services/Profiles/ProfileService.cs:87-109 | fails with KeyNotFound exactly when the user is not stored; otherwise returns the user after the update and only that user changes |
| Profiles.RecoloredUsers | Services/Profiles/ProfileService.cs:101-106 | recoloring one user keeps the set of users and every other user |
| Profiles.EditedProfiles | Services/Profiles/ProfileService.cs:63 | editing one profile keeps the set of profiles and every other profile |
| Profiles.UpdateWrites | Services/Profiles/ProfileService.cs:43-82 | every write of the update runs in the transaction's session |
| Profiles.FirstEntry | Services/Profiles/ProfileService.cs:77 | the first entry naming the profile; none exactly when no entry names it |
| Profiles.UpdateResponse | Services/Profiles/ProfileService.cs:79-81 | a response without profile fields carries the requested id; it has a user entry only when a color was given |
| Profiles.TagStep | Services/Profiles/ProfileService.cs:54-58 | when a tag is given the tag document is rewritten under the session and the write fails exactly when the unique tag index refuses it |
| Profiles.ProfileStep | Services/Profiles/ProfileService.cs:60-64 | the profile document is rewritten only when some field is given; that fails with KeyNotFound exactly when it is missing and otherwise returns the stored profile |
| Profiles.ColorStep | Services/Profiles/ProfileService.cs:66-69 | the user is recolored only when a color is given and that fails exactly when the user is missing |
| Profiles.UpdateCallback | Services/Profiles/ProfileService.cs:43-82 | the callback fails exactly when one of its steps fails; on success the database is the updated one and the response is built from it |
| Profiles.Update | Services/Profiles/ProfileService.cs:39-85 | the update runs in one transaction: on failure with transactions nothing changes and on success the profile tag and user are updated as given and the response is returned |
| Profiles.UpdateChangesOnlyWhatIsGiven | Services/Profiles/ProfileService.cs:49-69 | a successful update changes only the given name and tag of the profile and the color of the user's entry; nothing else in the database changes and no notification is sent |
| Profiles.ColorOnlyInMatchingEntries | Services/Profiles/ProfileService.cs:66-69 | a color update changes only the caller's entries that name the profile |
| ProfileDetailsStore.NewProfileDetails | Model/Profiles/ProfileDetails.cs:9-16 | new details name the profile and have no users |
| ProfileDetailsStore.ProfileUserOf | Model/Profiles/ProfileDetails.cs:18-31 | a user joins a profile's details as SuperAdmin receiving notifications |
| ProfileDetailsStore.Create | Services/Profiles/ProfileDetailsService.cs:13-19 | the details document of the profile is inserted under a fresh id in the session |
| ProfileDetailsStore.AddUser | Services/Profiles/ProfileDetailsService.cs:21-29 | answers none exactly when no details name the profile; otherwise the first such details gain the user |
| ProfileDetailsStore.AddUserTouchesOne | Services/Profiles/ProfileDetailsService.cs:26-28 | adding a user changes only details of that profile and removes no user |
| ProfileDetailsStore.AddUserOnce | Services/Profiles/ProfileDetailsService.cs:26 | AddToSet: adding the same user twice is adding it once |
| ProfileDetailsStore.AddUserAgain | Services/Profiles/ProfileDetailsService.cs:26-28 | the details updated first are the ones found again so the second add leaves them as they are |
| ProfileResponses.ResponseOf | DTO/ProfileAPI/RetrieveProfileResponseDto.cs:7-15 | the view shows the profile's id as text with its tag name and last update |
| ProfileResponses.UpdatedResponse | Services/Profiles/ProfileService.cs:80 | the response of an update that wrote the profile is its view plus the caller's entry |
| ProfileResponses.IdOnlyResponse | Services/Profiles/ProfileService.cs:81 | the response of an update that wrote no profile carries only the id and the caller's entry |
| ProfileTags.NewProfileTag | Model/Profiles/ProfileTag.cs:7-14 | a tag document names the profile and copies its tag |
| ProfileTags.Create | Services/Users/ProfileTagService.cs:15-18 | the insert fails exactly when a stored tag document has the same tag or the same profile as the new one; otherwise it is stored under a fresh id |
| ProfileTags.CreateKeepsIndex | Components/Database/MongoDbInizializer.cs:84-86 | an accepted insert keeps tags and profile ids unique in the collection |
| ProfileTags.TagProfileIds | Services/Users/ProfileTagService.cs:25 | exactly the profile ids of the found tag documents and no more of them than documents |
| ProfileTags.Responses | Services/Users/ProfileTagService.cs:28 | one view per found profile in order |
| ProfileTags.SearchRows | Services/Users/ProfileTagService.cs:22-24 | the search reads at most five tag documents |
| ProfileTags.SearchByTag | Services/Users/ProfileTagService.cs:20-30 | a search answers at most five profiles |
| ProfileTags.SearchResultMatches | Services/Users/ProfileTagService.cs:22-28 | each answer is the view of a stored profile whose tag document starts with the searched text |
| ProfileTags.SearchOnlyMatches | Services/Users/ProfileTagService.cs:20-30 | every answer is the view of a stored profile whose tag starts with the searched text |
| ProfileTags.SearchReadsAllRows | Services/Users/ProfileTagService.cs:22-25 | when at most five tags match every matching profile id is read |
| ProfileTags.SearchFindsAll | Services/Users/ProfileTagService.cs:20-30 | when at most five tags match every stored profile whose tag starts with the searched text is answered |
| ProfileTags.ResponseListed | Services/Users/ProfileTagService.cs:28 | every retrieved profile has its response among the answered responses |
| ProfileTags.Update | Services/Users/ProfileTagService.cs:32-37 | the profile's tag document is retagged under the session and the write fails exactly when the unique indexes would break |
| ProfileTags.UpdateOnlyRetags | Services/Users/ProfileTagService.cs:34-36 | retagging changes only the tag of the profile's document and breaks the index exactly when another profile holds the new tag |
| ProfileTags.RetagRow | Services/Users/ProfileTagService.cs:34-36 | the profile has no other row and the retagged map keeps the unique indexes exactly when no other profile holds the new tag |
| Users.RetrieveByAccountUid | Services/Users/UserService.cs:16-28 | finds a user holding an account with the uid; none exactly when no user does |
| Users.AccountHolderLeast | Services/Users/UserService.cs:16-28 | the user found is what RetrieveOrNull finds for the uid: the holder of the account stored under the least id |
| Users.NewLink | Model/Users/User.cs:23-37 | a link names the profile with the given role and main flag and the default black color |
| Users.AddProfile | Services/Users/UserService.cs:56-65 | fails with KeyNotFound exactly when the user is not stored; otherwise the link is pushed on the user and the user joins the profile's details |
| Users.NewUser | Model/Users/User.cs:8-21 | a new user has one account with the uid and email and no profiles or devices |
| Users.CreateUserWrites | Services/Users/UserService.cs:42-53 | every write of the user creation runs in the transaction's session |
| Users.InsertUser | Services/Users/UserService.cs:44-46 | the new user is inserted under a fresh id in the session |
| Users.CreateCallback | Services/Users/UserService.cs:42-53 | the callback fails exactly when the main profile's tag is taken; otherwise it stores the user its main profile and the link between them |
| Users.CreateUser | Services/Users/UserService.cs:37-54 | without an email UnauthorizedAccess and no change; otherwise the creation runs in one transaction and with transactions a failure changes nothing |
| Users.GetOrCreate | Services/Users/UserService.cs:30-35 | answers the user holding the account without any change; otherwise creates it as CreateUser does |
| Users.CreatedUserComplete | Services/Users/UserService.cs:44-52 | after creation the stored user keeps its account is linked to its main profile as SuperAdmin and is found by its uid; the in-memory user returned differs from it |
| Users.CreatedProfileLinked | Services/Users/UserService.cs:48-50 | after creation the main profile is stored and its details list exactly the new user |
| Users.FirstDetailsOfNewProfile | Services/Profiles/ProfileDetailsService.cs:26-28 | the details of a new profile are the ones AddUser updates |
| Users.RepeatedKey | Services/Users/UserService.cs:73 | ToDictionary finds a repeated profile id exactly when the links are not distinct |
| Users.LinkedIds | Services/Users/UserService.cs:69 | exactly the profile ids of the links |
| Users.RetrieveProfiles | Services/Users/UserService.cs:67-77 | fails with an ArgumentException exactly when two links name the same profile; otherwise pairs each found profile with its link |
| Users.ProfilePairs | Services/Users/UserService.cs:70-74 | distinct links give a pairing of the found profiles with their links |
| Users.FoundAreLinked | Services/Users/UserService.cs:69-70 | every found profile is stored and linked from the user |
| Users.PairedCoversLinks | Services/Users/UserService.cs:69-74 | every link to a stored profile appears in the pairing |
| Users.Paired | Services/Users/UserService.cs:74 | one pair per found profile in order with the link naming it |
| Users.LinkTo | Services/Users/UserService.cs:73-74 | the dictionary lookup answers the link naming the profile |
| UserProfiles.NewRow | Model/Users/UserProfile.cs:8-21 | a new row names the user and the profile with the default color |
| UserProfiles.Create | Services/Users/UserProfileService.cs:15-22 | the row is inserted under a fresh id in the session |
| UserProfiles.RetrieveFromUser | Services/Users/UserProfileService.cs:24-29 | exactly the stored rows of the user |
| UserProfiles.RetrieveFromUserAndProfile | Services/Users/UserProfileService.cs:31-39 | a stored row of the user and profile; none exactly when there is none |
| UserProfiles.Update | Services/Users/UserProfileService.cs:41-51 | answers none exactly when no row matches; otherwise the matching row is recolored and returned as updated |
| UserProfiles.SameFirstMatch | Services/Users/UserProfileService.cs:38-50 | the row the update changes is the row the lookup finds |
| UserProfiles.UpdateSetsOnlyColor | Services/Users/UserProfileService.cs:48-50 | the update changes only the color and time of one matching row |
| UserProfiles.LookupAfterUpdate | Services/Users/UserProfileService.cs:31-50 | looking the row up after the update finds what the update returned |
| UserProfiles.CreatedRowFound | Services/Users/UserProfileService.cs:15-39 | a created row is found by both lookups |
| Claims.GetClaimsForRole | Model/Users/PresetClaimRole.cs:44-52 | Admin holds all ten claim types (the nine of the enum and CanEditProfile) and Viewer exactly view-details and read-events; a role missing from the map holds none; no claim type is listed twice |
| Claims.AdminListsEveryType | Model/Users/PresetClaimRole.cs:18-30 | the Admin list names every claim type |
| Claims.ViewerWithinAdmin | Model/Users/PresetClaimRole.cs:18-37 | every Viewer claim is an Admin claim |
| Claims.ClaimSet | Services/Users/UserClaimService.cs:56-58 | the set holds a claim of each listed type and of no other type all stamped with the same time |
| Claims.OneClaimPerType | Services/Users/UserClaimService.cs:56-58 | the set holds one claim per type |
| Claims.NewClaims | Model/Users/UserClaims.cs:8-18 | a new claims document names the user and the profile and grants exactly the role's claims |
| Claims.CheckHasPermit | Services/Users/UserClaimService.cs:15-32 | true exactly when a document of the user and profile grants the claim |
| Claims.RetrieveFromUser | Services/Users/UserClaimService.cs:35-40 | exactly the stored claims documents of the user |
| Claims.RetrieveFromUserAndProfile | Services/Users/UserClaimService.cs:42-50 | a stored document of the user and profile; none exactly when there is none |
| Claims.PermitIsInRetrievedClaims | Services/Users/UserClaimService.cs:15-50 | under the unique pair index a permit check agrees with retrieving the pair's document and looking at its claims |
| Claims.SetRole | Services/Users/UserClaimService.cs:52-68 | the insert fails exactly when the user already has a document for the profile; otherwise the role's claims document is stored under a fresh id |
| Claims.SetRoleGrantsExactly | Services/Users/UserClaimService.cs:52-68 | after setting a role the pair index still holds and the user holds on the profile exactly the role's claims |
| Groups.GroupProfiles | Services/Communities/GroupService.cs:24-27 | one member per given profile with Owner exactly for the owner |
| Groups.Create | Services/Communities/GroupService.cs:16-33 | the group of the community with its members is inserted under a fresh id |
| Groups.GroupIds | Services/Communities/GroupService.cs:40 | exactly the group ids of the requests |
| Groups.CommunityIds | Services/Communities/GroupService.cs:41 | exactly the community ids of the requests |
| Groups.Considered | Services/Communities/GroupService.cs:43-48 | exactly the stored groups named by a request whose community is named by a request |
| Groups.MemberIds | Services/Communities/GroupService.cs:56-68 | exactly the profile ids listed in the group |
| Groups.Others | Services/Communities/GroupService.cs:58-67 | exactly the members other than the current profile |
| Groups.ScanMembers | Services/Communities/GroupService.cs:54-68 | the member loop finds the current profile exactly when it is a member and collects exactly the other members |
| Groups.GetProfilesByGroupIds | Services/Communities/GroupService.cs:38-77 | fails with UnauthorizedAccess naming the first considered group the current profile is not a member of; otherwise answers exactly the other members of the considered groups |
| Groups.ScanGroups | Services/Communities/GroupService.cs:52-74 | the group loop stops at the first group without the current profile; otherwise it collects the other members of all groups |
| Groups.FirstNonMember | Services/Communities/GroupService.cs:70-73 | every considered group before the one reported has the current profile as a member |
| Groups.AllKeysScanned | Services/Communities/GroupService.cs:52-76 | a loop over every considered group answers the other members of all of them |
| Groups.CreatedGroupAdmitsOwner | Services/Communities/GroupService.cs:24-29 | a created group's members are exactly the given profiles so the owner is a member when it was given |
| MediaStore.SanifyMimeType | Services/Model/MediaService.cs:22-36 | the extension of the lower-cased MIME type when it is one of the five known; otherwise an ArgumentException naming it |
| MediaStore.ExtensionsAreDistinct | Services/Model/MediaService.cs:13-20 | every extension starts with a dot and no two MIME types share one |
| MediaStore.SanifyIgnoresCase | Services/Model/MediaService.cs:24-27 | the MIME type's case does not matter and a blank one is refused |
| MediaStore.LowerIdempotent | Services/Model/MediaService.cs:24 | lower-casing twice is lower-casing once |
| MediaStore.LowerKeepsBlank | Services/Model/MediaService.cs:24-26 | lower-casing keeps a blank text blank |
| MediaStore.CreateMediaName | Services/Model/MediaService.cs:38-42 | the media name starts with the formatted creation time |
| MediaStore.MediaNameCarriesTag | Services/Model/MediaService.cs:40-41 | after the fifteen-character timestamp come an underscore and the profile's tag |
| MediaStore.ObjectPath | Services/Model/MediaService.cs:68 | the path has the two 24-character ids a slash and the extension |
| MediaStore.ObjectPathFields | Services/Model/MediaService.cs:68 | the path reads back as parent id then slash then media id then extension |
| MediaStore.StoredMedia | Services/Model/MediaService.cs:56-66 | a media document is stored exactly when the MIME type is known and it carries the parent owner extension date and name, with the defaults status Created and visibility Private of Model/MediaStorage/Media.cs |
| MediaStore.Response | Services/Model/MediaService.cs:68-79 | the entry's answer has no error exactly when both the MIME check and the URL request for a ten-minute URL succeed, and then carries the id, name, extension, bucket, the stored visibility Private and the URL; otherwise it carries the first error's message |
| MediaStore.Sanified | Services/Model/MediaService.cs:51 | one MIME check per entry in order |
| MediaStore.Accepted | Services/Model/MediaService.cs:51-66 | no more stored documents than entries |
| MediaStore.Inserted | Services/Model/MediaService.cs:56-66 | one stored document per accepted entry under consecutive ids |
| MediaStore.Responses | Services/Model/MediaService.cs:47-83 | one answer per entry in order |
| MediaStore.GetUploadUrls | Services/Model/MediaService.cs:45-84 | answers one entry per requested media in order and stores one document per accepted MIME type |
| MediaStore.UploadAll | Services/Model/MediaService.cs:47-82 | the entry loop answers the entries in order and stores the accepted ones |
| MediaStore.ProgressStep | Services/Model/MediaService.cs:47-82 | one more entry keeps the loop's record of answers documents and effects |
| MediaStore.ResponsesStep | Services/Model/MediaService.cs:47-82 | one more entry appends its answer |
| MediaStore.InsertedStep | Services/Model/MediaService.cs:56-66 | one more entry appends its document when it is accepted |
| MediaStore.EffectsStep | Services/Model/MediaService.cs:56-79 | one more entry appends its effects |
| MediaStore.AddRowsStep | Services/Model/MediaService.cs:88 | storing one more document adds it under its id |
| MediaStore.UploadEntry | Services/Model/MediaService.cs:49-80 | one entry is answered and stored exactly when its MIME type is known |
| MediaStore.UploadsLineUp | Services/Model/MediaService.cs:47-83 | every answer carries the temporary id of its entry and an error when its MIME type is refused |
| MediaStore.OneLinesUp | Services/Model/MediaService.cs:74-79 | the answer of one entry lines up with it |
| MediaStore.OkCount | Services/Model/MediaService.cs:82-83 | the number of answers without error is at most the number of answers and equal to it exactly when none failed |
| MediaStore.OkCountBounded | Services/Model/MediaService.cs:47-83 | no more answers succeed than documents are stored |
| MediaStore.OkWithinAccepted | Services/Model/MediaService.cs:51-79 | an entry whose MIME type is refused never succeeds |
| MediaStore.ReadPage | Services/Model/MediaService.cs:93-104 | a negative skip fails; otherwise the page holds stored media of the parent newest first and all of them without paging; with both arguments it is the page Page takes of the parent's media newest first |
| MediaStore.ReadPageTakesPageSize | Services/Model/MediaService.cs:93-104 | a full page is the parent's media newest first from (pageNumber-1)*pageSize to pageNumber*pageSize |
| MediaStore.ReadOne | Services/Model/MediaService.cs:106-120 | the answer for one document is, when the URL request succeeds, its id, extension, name, creation date and visibility with the URL and its expiry one day after the instant read; otherwise its id and the error message |
| MediaStore.ReadAnswers | Services/Model/MediaService.cs:98-122 | an error iff the page is refused; otherwise one answer per document of the page in order |
| MediaStore.ReadOnes | Services/Model/MediaService.cs:106-122 | one ReadOne answer per document of the page in order |
| MediaStore.ReadLine | Services/Model/MediaService.cs:115-119 | a document gets one console line exactly when its URL request fails |
| MediaStore.ReadLinesOnlyFailures | Services/Model/MediaService.cs:106-122 | only console lines are written and at most one per document; none exactly when every URL request succeeds |
| MediaStore.ReadLinesAreConsoleLines | Services/Model/MediaService.cs:115-119 | at most one line per document and every line a console line |
| MediaStore.ReadLinesNoneServed | Services/Model/MediaService.cs:109-119 | no console line exactly when every URL request succeeds |
| MediaStore.ReadLinesEmpty | Services/Model/MediaService.cs:109-119 | no console line exactly when the URL requests of all the first documents succeed, in turn |
| MediaStore.AllServedEach | Services/Model/MediaService.cs:109-113 | the URL requests succeed in turn exactly when each of them succeeds |
| MediaStore.ReadAll | Services/Model/MediaService.cs:106-122 | the per-document calls give one answer per document in order and log the failures in order |
| MediaStore.GetReadUrls | Services/Model/MediaService.cs:91-124 | the answers are ReadOne's for the page in order at the instant read, so each served answer carries the media's visibility and a URL valid one day from that instant; the store is unchanged, and each failed URL request writes its console line in page order and nothing else is logged |
| MediaStore.ReadUrlsNewestFirst | Services/Model/MediaService.cs:91-124 | the answers follow the page: stored media of the parent newest first |
| MediaStore.ResponsesFollowPage | Services/Model/MediaService.cs:106-122 | each answer names the document at its place |
| MediaStore.NewestFirst | Services/Model/MediaService.cs:95 | the descending sort puts no later creation date after an earlier one |
| Communities.MirrorOf | Model/Communities/CommunityProfile.cs:8-15 | the mirror names the same community and profile as its row |
| Communities.MirrorsOf | Services/Communities/CommunityProfileService.cs:12-18 | one mirror per row in order |
| Communities.UnindexedAdmissible | Services/Communities/CommunityProfileService.cs:19 | fresh increasing ids are admitted by a collection without unique index |
| Communities.CreateMirrors | Services/Communities/CommunityProfileService.cs:10-20 | the mirrors of the rows are inserted in one batch under fresh ids and without a session |
| Communities.FirstOther | Services/Profiles/ProfileCommunityService.cs:27 | the first profile with another id; none exactly when every profile has the given id |
| Communities.RowOf | Model/Profiles/ProfileCommunity.cs:9-42 | a row copies the profile and the community's id name type and time and holds one group entry whose role is Owner exactly for the owner |
| Communities.Rows | Services/Profiles/ProfileCommunityService.cs:20-37 | a personal community fails with an ArgumentException unless it has two profiles and with InvalidOperation when the two are the same; otherwise one row per profile in order |
| Communities.RowsDescribeMembers | Services/Profiles/ProfileCommunityService.cs:20-37 | each row names its profile and the community with Owner for the owner only; the two rows of a personal community point at each other and rows of other communities at nobody |
| Communities.BuildRows | Services/Profiles/ProfileCommunityService.cs:19-37 | the loop builds exactly the rows or throws what they throw |
| Communities.InsertRows | Services/Profiles/ProfileCommunityService.cs:38 | the rows are inserted in one batch under fresh ids in the session |
| Communities.InsertWithMirrors | Services/Profiles/ProfileCommunityService.cs:38-41 | the rows are stored in the session under fresh ids and then their mirrors under the next fresh ids outside it; nothing else in the database changes |
| Communities.Create | Services/Profiles/ProfileCommunityService.cs:12-42 | a refused personal community changes nothing; otherwise the rows are stored in the session and then their mirrors without it |
| Communities.RetrieveByProfile | Services/Profiles/ProfileCommunityService.cs:44-48 | exactly the stored rows of the profile |
| Communities.CreatedRowsRetrieved | Services/Profiles/ProfileCommunityService.cs:12-48 | every member of a created community finds a row of it among its rows |
| Communities.FindPersonalCommunity | Services/Profiles/ProfileCommunityService.cs:50-55 | a stored row of the owner pointing at the secondary profile; none exactly when there is none |
| Communities.CreatedPersonalFound | Services/Profiles/ProfileCommunityService.cs:12-55 | after creating a personal community each of the two finds it from the other and a pair without one before finds the new row |
| ClassMaps.DuplicateElementAsWritten | Model/Profiles/ProfileCommunity.cs:24-28 | as written CommunityUpdatedAt and Groups share the element name "communityUpdatedAt" so the class map is refused |
| ClassMaps.ElementNamesAccepted | Model/Profiles/ProfileCommunity.cs:11-28 | with Groups under "groups" every member has its own element name and the others keep theirs |
| Auth.Base | External/Authentication/FirebaseAuthService.cs:49-51 | the merge starts from a copy of the existing claims or from nothing when there are none |
| Auth.UpdateKeys | External/Authentication/FirebaseAuthService.cs:53 | exactly the keys of the requested claims |
| Auth.UpdateMap | External/Authentication/FirebaseAuthService.cs:53-56 | the requested claims have exactly the requested keys |
| Auth.MergeClaims | External/Authentication/FirebaseAuthService.cs:49-56 | the loop gives the existing claims overwritten by the requested ones |
| Auth.UnionStep | External/Authentication/FirebaseAuthService.cs:55 | setting one more claim extends the merge by that claim |
| Auth.UpdateMapAt | External/Authentication/FirebaseAuthService.cs:53-56 | each requested key ends up with its requested value |
| Auth.MergedKeys | External/Authentication/FirebaseAuthService.cs:49-56 | the merged claims hold exactly the existing keys and the requested ones |
| Auth.MergedOverwrites | External/Authentication/FirebaseAuthService.cs:55 | a requested key gets its requested value whatever it held |
| Auth.MergedKeepsOthers | External/Authentication/FirebaseAuthService.cs:49-56 | an existing key not requested keeps its value |
| Auth.MergedWithoutExisting | External/Authentication/FirebaseAuthService.cs:51-56 | without existing claims the result is exactly the requested claims |
| Auth.MergeIdempotent | External/Authentication/FirebaseAuthService.cs:49-58 | merging the same claims again changes nothing |
| Auth.AddOrUpdateClaims | External/Authentication/FirebaseAuthService.cs:42-70 | a failed read rethrows its exception after one console line and sends nothing; otherwise the merged claims are sent and a refused write is rethrown after one console line; success logs nothing |
| Tokens.SkipStart | Services/Util/TokenService.cs:25 | the first non-whitespace position from the start |
| Tokens.SkipEnd | Services/Util/TokenService.cs:25 | the end without trailing whitespace |
| Tokens.Trim | Services/Util/TokenService.cs:25 | the trimmed text has no whitespace at either end and is no longer |
| Tokens.TrimPadded | Services/Util/TokenService.cs:25 | whitespace around trimmed text is removed exactly |
| Tokens.TrimTrimmed | Services/Util/TokenService.cs:25 | trimming trimmed text changes nothing |
| Tokens.ExtractToken | Services/Util/TokenService.cs:16-25 | refused with UnauthorizedAccess exactly when the header is missing or does not start with the case-sensitive Bearer prefix; otherwise the trimmed rest |
| Tokens.ExtractBuiltHeader | Services/Util/TokenService.cs:18-25 | the token written after the prefix with any whitespace around it is extracted back |
| Tokens.LowerCaseSchemeRefused | Services/Util/TokenService.cs:18 | a lower-case scheme is refused |
| Tokens.CheckToken | Services/Util/TokenService.cs:30-42 | any exception of the provider becomes UnauthorizedAccess with nothing changed; otherwise the user of the uid is found or created |
| Tokens.ReturnedUserHoldsAccount | Services/Util/TokenService.cs:41 | every returned user holds an account with the vouched-for uid |
| Tokens.VerifyRequest | Services/Util/TokenService.cs:14-28 | a request without a well-formed header is refused before the provider is asked; otherwise the token is checked |
| Errors.GetErrorResult | Services/Util/ExceptionService.cs:9-40 | unauthorized gives 401 with the message; key-not-found 404 with the message; invalid operation 400 with the message; argument-null 400 naming the parameter; other argument errors 400 with the prefixed message |
| Errors.StatusByClass | Services/Util/ExceptionService.cs:11-39 | every exception class gets the status its first matching arm gives |
| Errors.BadRequestClasses | Services/Util/ExceptionService.cs:18-36 | the classes under invalid operation argument format overflow and JSON get 400 |
| Errors.OtherClasses | Services/Util/ExceptionService.cs:13-38 | unauthorized gets 401 key-not-found 404 thread-interrupted 504 and everything else 500 |
| Errors.StatusesSent | Services/Util/ExceptionService.cs:11-39 | only 400 401 404 500 and 504 are ever sent |
| Errors.ArgumentNullBeforeArgument | Services/Util/ExceptionService.cs:22-33 | argument-null is matched before its base class and names the parameter |
| Errors.IdFormatFixedText | Services/Util/ExceptionService.cs:29-30 | format and overflow errors get the fixed id-format text |
| Common.ToLower | Services/Model/MediaService.cs:24 | lower-casing keeps the length and lowers each character |
| Common.AddToSet | Services/Profiles/ProfileDetailsService.cs:26 | adding to a set array keeps it when the element is present and appends it otherwise |
| Common.ParseNatText | Services/Profiles/ProfileEventService.cs:75 | a count's decimal text is all digits and reads back as the count |
| Common.LeadingDigitsOf | Services/Profiles/ProfileEventService.cs:75 | digits followed by a non-digit are the leading digits of the text |
| Common.ParseHexDigits | DTO/EventAPI/EventDetailsDto.cs:7 | the hexadecimal text of an id reads back as the id modulo 16 to the width |
| Common.IdTextInjective | DTO/EventAPI/EventDetailsDto.cs:7 | two ObjectIds below 16^24 with the same text are the same id |
| Events.InsertEvent | Services/Events/EventService.cs:39-44 | the event and its details are inserted under fresh ids in the session |

## Left out

- Communities.Create: assumes the corrected ProfileCommunity class map of the second Findings row. As written, the first serialization of a row throws because two members share one element name, so the insert of the rows throws and nothing is stored; the model stores the rows and their mirrors.
- Communities.InsertRows: assumes the corrected class map; as written its bulk insert of ProfileCommunity rows throws.
- Communities.InsertWithMirrors: assumes the corrected class map; as written the first insert throws and the mirrors are never written.
- Communities.RetrieveByProfile: assumes the corrected class map; as written the read throws when it builds the class map to deserialize the rows.
- Communities.FindPersonalCommunity: assumes the corrected class map; as written the read throws in the same way.
- Network and SDK calls: the push provider, the identity provider and object storage are not modelled. The push responses, the token check, the claims read and write and the presigned URL function are parameters instead.
- Firebase bootstrap: the lazy creation of the messaging and auth instances is not modelled.
- Clock: `DateTimeOffset.UtcNow` is one non-decreasing clock owned by the `Store`, counted in 100-nanosecond ticks. Its values are stored in documents, so it is not ghost. An operation that reads the clock several times in the source, such as the two timestamps of a new document, reads it once. In `MediaStore.GetUploadUrls` and `MediaStore.GetReadUrls` every entry's URL expiry (ten minutes, one day) is counted from that one instant, where the source reads `DateTime.UtcNow` per entry.
- Media enums: `MediaStatus` and `MediaVisibility` are not part of this model beyond their defaults `Created` and `Private`; other members are named values.
- Date formatting: `yyyyMMdd_HHmmss` is a formatting function given as a parameter.
- Concurrency: `Task.WhenAll` over media entries runs the entries one after another in list order.
- Fire-and-forget broadcasts: these are logged as a started broadcast. The detached run is the separate method `Broadcast.BroadcastUpdate`.
- Sending order: the propagation services run when their messages are sent, which is inside the enclosing transaction callback.
- Aggregation pipeline: the Lookup, Project and Group stages of `RetrieveEventsByProfileIds` are modelled only by their meaning (filter, limit and one entry per event), not stage by stage.
- Database provisioning: index creation, sharding and connection setup are not modelled. Only the unique indexes on ProfileEvents, EventProfiles, ProfileTags and UserClaims are kept, as clash relations checked on insert.
- Missing helpers: `FindAlreadyExisting`, `GetProfileIdsAsync`, `CreateMultipleEventProfileAsync`, `ApplyEventUpdateAsync`, `RetrieveProjectedAsync` and `RetrieveByIdsAsync` are called by the core but their source is not part of this model. They are given the evident meaning their call sites need over the modelled collections, because every member needs a body.
- Revision mismatches, where the shown classes do not type-check together; the call site's evident intent is modelled:
  - `CreateProfileEventAsync` passes a `ProfileEvent` where an `EventProfile` is expected. It is modelled as inserting the mirror of the row.
  - `CollectionName` lists neither UserProfiles nor UserClaims, although the services use both. Both collections are modelled.
  - `RetrieveProfileResponseDto` has only a constructor from a profile, while `ProfileService.Update` builds it from a profile and a link, or from an id and a link. These two responses are `ProfileResponses.UpdatedResponse` and `ProfileResponses.IdOnlyResponse`.
  - The two `UserProfile` classes (the link inside the user and the UserProfiles row) are two datatypes.
  - `ProfileCommunity` takes no other-profile argument in its shown constructor. The row carries `otherProfileId` as the service passes it.
  - `TokenService` calls `GetOrCreateAsync` with the uid only. The email it would need is a parameter of `Tokens.CheckToken` and `Tokens.VerifyRequest`.
  - `UserClaimType` declares nine claim types and no `CanEditProfile`, while `PresetClaimRole` lists `CanEditProfile` for Admin. The model's claim type has all ten.
  - `ProfileCommunityService.CreateAsync` passes its session to `CommunityProfileService.CreateAsync`, which takes only the rows. `Communities.CreateMirrors` takes no session, so the mirrors are written outside the transaction.
  - `BroadcastService.GetProfilesNotificationTokens` returns a token list, while `SendNotification` takes the token-to-user dictionary. `Broadcast.BroadcastUpdate` uses the dictionary from `DeviceService.GetProfilesDevicesTokens`, and `Broadcast.DeviceTableTokens` relates the two token sets.
  - `EventService.RetrieveEventById` (Services/Events/EventService.cs:261) passes a one-element list of `ProfileEvent` as `profileEvents:`. No constructor fits: the one taking `List<ProfileEventDto>` (DTO/EventAPI/RetrieveEventResponseDto.cs:34) wants DTOs, and the one taking `List<ProfileEvent>` (line 23) also needs details. `EventQueries.RetrieveEventById` answers the event with the row converted by `ProfileEventDtoOf` and no details.
  - `EventService.RetrieveEventWithDetailsById` (Services/Events/EventService.cs:268) names its argument `details:`, while the constructor's parameter is `eventDetails` (DTO/EventAPI/RetrieveEventResponseDto.cs:39). `EventQueries.RetrieveEventWithDetailsById` answers the event with its details and no rows.
  - `CreateAndRetrieveSharedEvent` (Services/Events/EventService.cs:88) passes `details:` as well, with `profileEvents:`. It is read as the constructor from the event, its details and the rows (DTO/EventAPI/RetrieveEventResponseDto.cs:23): `Events.CreateAndRetrieveSharedEvent` answers the event with its details and the caller's row.
  - `UpdateEventAsync` (Services/Events/EventService.cs:160) passes `details:` too, and that value stays null unless a description was given (line 136). Read as `eventDetails`, the call would reach the constructor at DTO/EventAPI/RetrieveEventResponseDto.cs:39-42, and `new EventDetailsDto(null)` would throw NullReferenceException at DTO/EventAPI/EventDetailsDto.cs:7. `Events.UpdateResponse` takes the evident intent of nullable details: without a description the answer has no details, and no NullReferenceException is modelled.
  - `Notification` (Model/Notifications/Notification.cs:3) declares a constructor from a string object id and a type, and only the members ObjectId, Type, Title, Body and ProfileId. Its call sites pass an ObjectId and a third argument `ev.UpdatedAt` (Services/Events/EventService.cs:55-58, Services/Events/EventUpdatePropagationService.cs:35-39), and the latter also sets `ActorId`. `Entities.Notification` extends the class with the two optional fields `updatedAt` and `actorId` and holds the object id as an id; `Entities.NewNotification` takes the optional version.
  - The grouped query (Services/Events/EventService.cs:330) sets `ProfileHash`, which the imported `ProfileEventDto` of DTO/EventAPI/ProfileEventDto.cs does not have; it has `ProfileId`. `EventResponses.ProfileEventDto` has one `profileId` field holding the profile's id as text, as both spellings intend.
  - The same query passes `profileEventDtos:` (Services/Events/EventService.cs:341), which no constructor takes. `EventQueries.GroupResponses` uses the constructor from the event and a DTO list.
  - `EventProfileService.CreateEventProfileAsync` (Services/Events/EventProfileService.cs:15) and `MediaService` (Services/Model/MediaService.cs:88) write `return await` on `CreateOneAsync`, which returns a plain `Task` (Components/Database/MongoDbService.cs:91). Both are modelled as the insert followed by returning the document passed in, as their declared result types `Task<EventProfile>` and `Task<Media>` say: `EventProfiles.CreateEventProfile` returns the mirror, and `MediaStore.UploadEntry` builds its path and answer from the stored media with the id it was inserted under.
  - `BroadcastService` (Services/Notifications/BroadcastService.cs:14) calls `new()` on the `ProfileIdResolverFactory` of its own namespace, whose only constructor takes two services (Services/Notifications/ProfileFinderFactory.cs:17). `Broadcast` resolves through the parameterless factory of Model/Notifications/ProfileFinderFactory.cs, `Finders.ModelResolvers`; `Finders.TablesCompared` states how the other table differs.
  - `GroupService.Create` (Services/Communities/GroupService.cs:29) calls `new Group(community, name, groupProfiles, mainGroup)`, while Model/Profiles/Group.cs:10 declares only `Group(string name, HashSet<Profile> profiles)`. `Entities.Group` carries the community id, the name, the group profiles and the main flag, as the call passes them.
  - `GroupService.GetProfilesByGroupIds` (Services/Communities/GroupService.cs:56-66) reads `ProfileId` from the group's members, which Model/Profiles/Group.cs:19 declares as `Profile`. `Entities.Group` holds `GroupProfile` members with an optional `profileId`, as the loop reads them.
- Queue handler: the eventUpdate handler ignores an `UpdateEventPayload` because it is not an `Event`. This is modelled as written, so no message from `EventService` propagates through the queue; `MessageQueue.UpdatePayloadIgnored` states it.
- `MessageQueueService.SendNotificationAsync`: not modelled as a member. It has an empty body, keeps no state and has no effect.
- UpdateProfile notification: the notification that `ProfileService.Update` builds and never sends does not appear in the model. `Profiles.UpdateChangesOnlyWhatIsGiven` states that nothing is sent.
- Identity and order:
  - .NET reference equality (`p == owner`) is modelled as value equality.
  - "The first document" of an unordered query is the one with the least ObjectId, which is insertion order within one process.
  - Hash sets of profiles are sequences without repeats.
- Id parsing: ObjectIds are values. Parsing an id from text, and the `FormatException` a malformed id raises, are modelled only in `Errors.GetErrorResult`.
- Integer width: integers are unbounded, so no overflow is modelled:
  - the event counters `TotalProfilesMinusOne` and `TotalConfirmedMinusOne` are 32-bit `int` and wrap past 2^31 - 1;
  - the image count `TotalImages` is a 64-bit `long`;
  - the pagination skip `(pageNumber - 1) * pageSize` is an `int` product that can wrap;
  - the colors are `long` values.
- Text:
  - Lower-casing and whitespace cover the characters `Common.ToLower` and `Tokens.IsWhiteSpace` list.
  - Culture-specific case rules and Unicode normalisation are not modelled.
  - A multi-valued Authorization header is one string.
- Bulk insert: `InsertManyAsync` of an empty list inserts nothing and succeeds in the model. The driver refuses an empty list with an exception. `Communities.Create` with no profiles therefore succeeds in the model where the source throws. A share with no new targets never reaches the insert.
- Superseded revisions and dead code: the parallel copies of the services under `Services/Database`, `Services/Util`, `Services/Model` and `Services/Users` are not modelled. `Services/Model/MediaService.cs` has no other copy and is modelled. Neither are the commented-out files, nor the Entity Framework `CommunityService`.
- Reads of the current user: `ContextService` and `UserAuthorizationService` are not modelled. They are thin reads of the request.
- Other reads: the following are not modelled, because the core's operations do not depend on them:
  - `ProfileEventService.FindMultipleByProfileAndEventIds` and `FindByEventId`;
  - `ProfileService.RetrieveProfileById` and `RetrieveMultiple`.
- `Users.CreateUser`: returns the user as built before the link was pushed. The stored user differs; `Users.CreatedUserComplete` states it.
- Database.Store.End: the commit always succeeds. A failing `CommitTransactionAsync` (Components/Database/MongoDbService.cs:37) is not modelled. In the source the catch would then log the error, abort and rethrow the commit's exception, with the callback's writes undone.
- Transactions unsupported: partial writes by a failing callback remain. Contracts promise an unchanged database on failure only when transactions are supported.

## Findings

| source | as written | input that shows it | evidently intended | confidence | as-written member | corrected member |
|---|---|---|---|---|---|---|
| Services/Notifications/NotificationService.cs:117-122 | the messaging error code is compared by its enum name with "UNREGISTERED" and "INVALID_ARGUMENT" and "SENDER_ID_MISMATCH"; the .NET names are Unregistered and InvalidArgument and SenderIdMismatch so no code ever matches | a response failing with code Unregistered and a message that names no known error keeps the dead token and logs it as transient | an unregistered or invalid token or a sender mismatch removes the device | not executed | Notifications.HandleFailedNotifications shown by Notifications.UnregisteredDeviceKeptAsWritten | Notifications.HandleFailedNotificationsCorrected |
| Model/Profiles/ProfileCommunity.cs:24-28 | both CommunityUpdatedAt and Groups are mapped to the element "communityUpdatedAt" | any ProfileCommunity row: the BSON class map refuses two members with one element name so the first insert of a row throws | Groups is stored under its own element | not executed | ClassMaps.DuplicateElementAsWritten | ClassMaps.ElementNamesAccepted |

// MessageQueueService and MessageQueueHandlerService: an in-process queue that hands each message
// straight to the handler registered for its type.
module MessageQueue {
  import opened Common
  import opened Entities
  import opened Database
  import opened EventProfiles
  import opened ProfileEvents

  /** The types in the handler table: `eventUpdate` only. */
  const Handlers: set<MessageType> := {EventUpdate}

  function MessageTypeText(t: MessageType): string
  {
    match t
    case EventUpdate => "eventUpdate"
    case OtherMessageType(name) => name
  }

  function NoHandler(t: MessageType): Exception
  {
    Exception(InvalidOperation, "No handler registered for " + MessageTypeText(t), None)
  }

  /**
   * EventService.ApplyEventUpdateAsync, given its evident meaning: the guarded propagation of the
   * event to the forward rows of every profile linked to it, outside any session.
   */
  method ApplyEventUpdate(store: Store, ev: Event)
    requires store.Valid()
    modifies store`db, store`clock, store`trace
    ensures store.Valid()
    ensures var result := PropagateRows(old(store.db.profileEvents), ev, IdSet(GetProfileIds(old(store.db), ev.id)), store.clock);
      && store.db == old(store.db).(profileEvents := result.0)
      && store.trace == old(store.trace) + [
           Effect.Write(ProfileEventsCollection, UpdateManyCommand, None),
           ConsoleLine(MatchedLine(result.1))]
  {
    var profileIds := GetProfileIds(store.db, ev.id);
    PropagateEventUpdates(store, ev, profileIds, None);
  }

  /**
   * HandleMessageAsync: InvalidOperationException for a type without a handler; the `eventUpdate`
   * handler applies the update when the payload is an Event and silently ignores any other
   * payload. The retry count is never read.
   */
  method HandleMessage(store: Store, message: QueueMessage) returns (r: Result<()>)
    requires store.Valid()
    modifies store`db, store`clock, store`trace
    ensures store.Valid()
    ensures r.Failure? <==> message.messageType !in Handlers
    ensures r.Failure? ==> r.error == NoHandler(message.messageType)
    ensures !(message.messageType == EventUpdate && message.payload.EventPayload?) ==>
      store.db == old(store.db) && store.clock == old(store.clock) && store.trace == old(store.trace)
    ensures message.messageType == EventUpdate && message.payload.EventPayload? ==> (
      var ev := message.payload.ev;
      var result := PropagateRows(old(store.db.profileEvents), ev, IdSet(GetProfileIds(old(store.db), ev.id)), store.clock);
      && store.db == old(store.db).(profileEvents := result.0)
      && store.trace == old(store.trace) + [
           Effect.Write(ProfileEventsCollection, UpdateManyCommand, None),
           ConsoleLine(MatchedLine(result.1))])
  {
    if message.messageType !in Handlers {
      return Failure(NoHandler(message.messageType));
    }
    if message.payload.EventPayload? {
      ApplyEventUpdate(store, message.payload.ev);
    }
    r := Success(());
  }

  /**
   * SendPropagationMessageAsync: the message is handed to the handler once and awaited, so a
   * handler failure reaches the sender (and an enclosing transaction callback).
   */
  method SendPropagationMessage(store: Store, message: QueueMessage) returns (r: Result<()>)
    requires store.Valid()
    modifies store`db, store`clock, store`trace
    ensures store.Valid()
    ensures r.Failure? <==> message.messageType !in Handlers
    ensures r.Failure? ==> r.error == NoHandler(message.messageType)
    ensures |store.trace| > |old(store.trace)| && store.trace[..|old(store.trace)| + 1] == old(store.trace) + [MessageHandled(message)]
    ensures !(message.messageType == EventUpdate && message.payload.EventPayload?) ==>
      store.db == old(store.db) && store.clock == old(store.clock) && store.trace == old(store.trace) + [MessageHandled(message)]
    ensures message.messageType == EventUpdate && message.payload.EventPayload? ==> (
      var ev := message.payload.ev;
      var result := PropagateRows(old(store.db.profileEvents), ev, IdSet(GetProfileIds(old(store.db), ev.id)), store.clock);
      && store.db == old(store.db).(profileEvents := result.0)
      && store.trace == old(store.trace) + [
           MessageHandled(message),
           Effect.Write(ProfileEventsCollection, UpdateManyCommand, None),
           ConsoleLine(MatchedLine(result.1))])
  {
    store.Emit(MessageHandled(message));
    r := HandleMessage(store, message);
  }

  /**
   * The messages EventService sends carry an UpdateEventPayload, which is not an Event: handling
   * one writes nothing, whatever its update type, actor or retry count.
   */
  lemma UpdatePayloadIgnored(ev: Event, kind: EventUpdateType, actorId: Option<Id>, retry: int)
    ensures var message := QueueMessage(EventUpdate, UpdateEventPayload(ev, kind, actorId), retry);
      message.messageType in Handlers && !message.payload.EventPayload?
  {
  }
}

/** AggregateRoot<TId>: an entity that buffers the domain events raised on it until
    they are cleared, and carries a version and audit fields.
    C# inheritance from Entity<TId> is represented by composition: the aggregate
    holds the Entity part (type name, Id, cached hash) in `entity`. */
module Aggregates {
  import opened Errors
  import opened Entities
  import GuardClauses

  /** A `System.DateTime`, kept opaque: only its tick count is recorded. */
  datatype DateTime = DateTime(ticks: int)

  /** `default(DateTime)`, i.e. `DateTime.MinValue`. */
  function DefaultDateTime(): DateTime {
    DateTime(0)
  }

  /** The `List<object>` behind `_domainEvents`: a heap object of its own, so a reference
      handed out by `GetDomainEvents` keeps seeing later changes. */
  class EventList {
    var items: seq<object>

    constructor ()
      ensures items == []
    {
      items := [];
    }

    /** `List<T>.Add`: appends at the end. */
    method Add(x: object)
      modifies this
      ensures items == old(items) + [x]
    {
      items := items + [x];
    }

    /** `List<T>.Clear`. */
    method Clear()
      modifies this
      ensures items == []
    {
      items := [];
    }
  }

  class AggregateRoot<TId(==)> {
    /** The Entity<TId> part: runtime type name, `Id` and cached hash. */
    const entity: Entity<TId>
    /** `_domainEvents`. */
    const domainEvents: EventList
    /** `Version`. */
    var version: Int32
    /** `CreatedOn`. */
    var createdOn: DateTime
    /** `CreatedBy`. */
    var createdBy: Ref<string>
    /** `UpdatedOn`. */
    var updatedOn: Ref<DateTime>

    /** The events raised so far and not yet cleared, oldest first. */
    function Events(): seq<object>
      reads this, domainEvents
    {
      domainEvents.items
    }

    /** A new aggregate of runtime type `typeName` with Id `id`: an empty event list
        and every other property at its default. */
    constructor (typeName: string, id: TId)
      ensures fresh(entity) && fresh(domainEvents)
      ensures entity.typeName == typeName && entity.id == id && entity.hCode == 0
      ensures Events() == []
      ensures version == 0 && createdOn == DefaultDateTime()
      ensures createdBy == Null && updatedOn == Null
    {
      entity := new Entity(typeName, id);
      domainEvents := new EventList();
      version := 0;
      createdOn := DefaultDateTime();
      createdBy := Null;
      updatedOn := Null;
    }

    /** `GetDomainEvents()`: the live list itself, not a copy. */
    method GetDomainEvents() returns (events: EventList)
      ensures events == domainEvents
      ensures events.items == Events()
    {
      events := domainEvents;
    }

    /** `AddDomainEvent(domainEvent)`: a null event is rejected by the guard before the
        list is touched; any other event is appended, duplicates included. Nothing but
        the event list changes. */
    method AddDomainEvent(domainEvent: object?) returns (outcome: Outcome)
      modifies domainEvents
      ensures domainEvent == null ==>
        outcome == Threw(ArgumentNullException(GuardClauses.NullText("domainEvent")))
        && Events() == old(Events())
      ensures domainEvent != null ==>
        outcome == Completed && Events() == old(Events()) + [domainEvent]
      ensures unchanged(this) && unchanged(entity)
    {
      var guard := GuardClauses.AgainstNull(if domainEvent == null then Null else NonNull(domainEvent), "domainEvent");
      if guard.Throws? {
        return Threw(guard.exception);
      }
      domainEvents.Add(domainEvent);
      outcome := Completed;
    }

    /** `ClearDomainEvents()`: empties the list; nothing else changes. */
    method ClearDomainEvents()
      modifies domainEvents
      ensures Events() == []
      ensures unchanged(this) && unchanged(entity)
    {
      domainEvents.Clear();
    }
  }

  /** An event raised by an aggregate in the scenarios below. */
  class SampleEvent {
    const name: string

    constructor (name: string)
      ensures this.name == name
    {
      this.name := name;
    }
  }

  /** Events come back in the order they were added, a null event is refused without
      effect, a list obtained before the adds shows them, and it shows the clear too. */
  method EventBufferScenario() returns (created: SampleEvent, renamed: SampleEvent,
                                        seenAfterAdds: seq<object>, refused: Outcome,
                                        seenAfterClear: seq<object>, id: int, version: int)
    ensures seenAfterAdds == [created, renamed]
    ensures refused.Threw? && refused.exception.ArgumentNullException?
    ensures seenAfterClear == []
    ensures id == 42 && version == 0
  {
    var order := new AggregateRoot<int>("Shop.Order", 42);
    var view := order.GetDomainEvents();
    created := new SampleEvent("Created");
    renamed := new SampleEvent("Renamed");
    var o1 := order.AddDomainEvent(created);
    var o2 := order.AddDomainEvent(renamed);
    seenAfterAdds := view.items;
    refused := order.AddDomainEvent(null);
    order.ClearDomainEvents();
    seenAfterClear := view.items;
    id := order.entity.id;
    version := order.version;
  }

  /** Adding the same event twice records it twice; clearing twice leaves the list empty. */
  method DuplicatesKeptClearIdempotent() returns (e: SampleEvent, twice: seq<object>, cleared: seq<object>)
    ensures twice == [e, e]
    ensures cleared == []
  {
    var order := new AggregateRoot<int>("Shop.Order", 1);
    e := new SampleEvent("Shipped");
    var o1 := order.AddDomainEvent(e);
    var o2 := order.AddDomainEvent(e);
    twice := order.Events();
    order.ClearDomainEvents();
    order.ClearDomainEvents();
    cleared := order.Events();
  }
}

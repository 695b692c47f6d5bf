/**
 * The home page's state (src/app/page.tsx): the ticket being edited, the queue of tickets
 * waiting to be exported (at most ten), and whether a preview has been generated.
 */
module Page {

  import opened Wrappers
  import opened Tickets
  import opened TemplateProcessor

  /** MAX_QUEUE_SIZE: the queue never holds more tickets than this. */
  const MaxQueueSize: nat := 10

  /** A ticket can be queued only when all three key fields are filled in. */
  predicate HasKeyFields(d: TicketFormData)
  {
    d.ticketNumber != "" && d.departureStation != "" && d.arrivalStation != ""
  }

  /** A preview is worth showing as soon as one key field is filled in. */
  predicate HasAnyKeyField(d: TicketFormData)
  {
    d.ticketNumber != "" || d.departureStation != "" || d.arrivalStation != ""
  }

  // ---------------------------------------------------------------------------------------
  // Removing tickets: `filter(ticket => ticket.id !== ticketId)`.
  // A ticket without an id is never equal to the id asked for, so it is always kept.
  // ---------------------------------------------------------------------------------------

  function RemoveById(queue: seq<TicketFormData>, ticketId: string): (kept: seq<TicketFormData>)
    ensures |kept| <= |queue|
    ensures forall t :: t in kept ==> t.id != Some(ticketId)
    ensures forall t :: t in kept ==> t in queue
  {
    if queue == [] then []
    else if queue[0].id == Some(ticketId) then RemoveById(queue[1..], ticketId)
    else [queue[0]] + RemoveById(queue[1..], ticketId)
  }

  /** Every ticket with another id (or none) survives the removal. */
  lemma {:induction false} RemoveByIdKeepsOthers(queue: seq<TicketFormData>, ticketId: string, t: TicketFormData)
    requires t in queue && t.id != Some(ticketId)
    ensures t in RemoveById(queue, ticketId)
  {
    if queue[0] != t {
      assert t in queue[1..];
      RemoveByIdKeepsOthers(queue[1..], ticketId, t);
    }
  }

  /** Filtering works piece by piece, so the surviving tickets keep their order. */
  lemma {:induction false} RemoveByIdAppend(a: seq<TicketFormData>, b: seq<TicketFormData>, ticketId: string)
    ensures RemoveById(a + b, ticketId) == RemoveById(a, ticketId) + RemoveById(b, ticketId)
  {
    if a == [] {
      assert a + b == b;
    } else {
      assert (a + b)[0] == a[0];
      assert (a + b)[1..] == a[1..] + b;
      RemoveByIdAppend(a[1..], b, ticketId);
    }
  }

  /** Each copy of a ticket is kept or dropped together with its id. */
  lemma {:induction false} RemoveByIdCount(queue: seq<TicketFormData>, ticketId: string, t: TicketFormData)
    ensures multiset(RemoveById(queue, ticketId))[t]
         == if t.id == Some(ticketId) then 0 else multiset(queue)[t]
  {
    if queue != [] {
      assert queue == [queue[0]] + queue[1..];
      RemoveByIdCount(queue[1..], ticketId, t);
    }
  }

  /** Removing an id that no ticket carries leaves the queue as it was. */
  lemma {:induction false} RemoveAbsentId(queue: seq<TicketFormData>, ticketId: string)
    requires forall t :: t in queue ==> t.id != Some(ticketId)
    ensures RemoveById(queue, ticketId) == queue
  {
    if queue != [] {
      assert queue[0] in queue;
      forall t | t in queue[1..] ensures t.id != Some(ticketId) {
        assert t in queue;
      }
      RemoveAbsentId(queue[1..], ticketId);
      assert queue == [queue[0]] + queue[1..];
    }
  }

  /** Removing the same id twice is the same as removing it once. */
  lemma RemoveByIdIdempotent(queue: seq<TicketFormData>, ticketId: string)
    ensures RemoveById(RemoveById(queue, ticketId), ticketId) == RemoveById(queue, ticketId)
  {
    RemoveAbsentId(RemoveById(queue, ticketId), ticketId);
  }

  /**
   * What handleGenerate did: queued the ticket, alerted that the queue is full, or, with a
   * key field missing, silently did nothing (the page shows no alert then).
   */
  datatype GenerateOutcome = Added | QueueFull | MissingFields

  class Home {
    var ticketData: TicketFormData
    var ticketQueue: seq<TicketFormData>
    var isGenerated: bool

    ghost predicate Valid()
      reads this
    {
      |ticketQueue| <= MaxQueueSize
    }

    /**
     * The condition under which the preview pane shows the ticket: only after "generate",
     * never for a ticket whose three key fields are all empty, and always for a generated
     * ticket with all three filled.
     */
    predicate PreviewVisible()
      reads this
      ensures PreviewVisible() ==> isGenerated
      ensures (ticketData.ticketNumber == "" && ticketData.departureStation == "" && ticketData.arrivalStation == "")
                ==> !PreviewVisible()
      ensures isGenerated && HasKeyFields(ticketData) ==> PreviewVisible()
    {
      isGenerated && HasAnyKeyField(ticketData)
    }

    /** The page starts on the sample ticket, with an empty queue and no preview. */
    constructor ()
      ensures Valid()
      ensures ticketData == DefaultTicketData() && ticketQueue == [] && !isGenerated
    {
      ticketData := DefaultTicketData();
      ticketQueue := [];
      isGenerated := false;
    }

    method HandleDataChange(data: TicketFormData)
      requires Valid()
      modifies this
      ensures Valid()
      ensures ticketData == data && ticketQueue == old(ticketQueue)
      ensures isGenerated <==> HasAnyKeyField(data)
      ensures PreviewVisible() <==> HasAnyKeyField(data)
    {
      ticketData := data;
      if data.ticketNumber != "" || data.departureStation != "" || data.arrivalStation != "" {
        isGenerated := true;
      } else {
        isGenerated := false;
      }
    }

    /** Queues a copy of the current ticket under `newId` (the page takes it from the clock). */
    method HandleGenerate(newId: string) returns (outcome: GenerateOutcome)
      requires Valid()
      modifies this
      ensures Valid()
      ensures ticketData == old(ticketData)
      ensures outcome == Added <==> HasKeyFields(ticketData) && |old(ticketQueue)| < MaxQueueSize
      ensures outcome == QueueFull <==> HasKeyFields(ticketData) && |old(ticketQueue)| >= MaxQueueSize
      ensures outcome == Added ==> ticketQueue == old(ticketQueue) + [ticketData.(id := Some(newId))]
      ensures outcome == Added ==> isGenerated && PreviewVisible()
      ensures outcome != Added ==> ticketQueue == old(ticketQueue) && isGenerated == old(isGenerated)
    {
      outcome := MissingFields;
      if ticketData.ticketNumber != "" && ticketData.departureStation != "" && ticketData.arrivalStation != "" {
        if |ticketQueue| >= MaxQueueSize {
          return QueueFull;
        }
        var newTicket := ticketData.(id := Some(newId));
        ticketQueue := ticketQueue + [newTicket];
        isGenerated := true;
        outcome := Added;
      }
    }

    method HandleRemoveTicket(ticketId: string)
      requires Valid()
      modifies this
      ensures Valid()
      ensures ticketQueue == RemoveById(old(ticketQueue), ticketId)
      ensures ticketData == old(ticketData) && isGenerated == old(isGenerated)
    {
      ticketQueue := RemoveById(ticketQueue, ticketId);
    }

    method HandlePreviewTicket(ticket: TicketFormData)
      requires Valid()
      modifies this
      ensures Valid()
      ensures ticketData == ticket && isGenerated && ticketQueue == old(ticketQueue)
      ensures PreviewVisible() <==> HasAnyKeyField(ticket)
    {
      ticketData := ticket;
      isGenerated := true;
    }
  }

  /**
   * Pressing "generate" eleven times on a complete ticket queues ten copies, in order,
   * each under the id it was given, and rejects the eleventh as the queue is full.
   */
  method GenerateElevenTimes(d: TicketFormData, ids: seq<string>) returns (outcomes: seq<GenerateOutcome>, queue: seq<TicketFormData>)
    requires HasKeyFields(d) && |ids| == MaxQueueSize + 1
    ensures |outcomes| == MaxQueueSize + 1
    ensures forall i :: 0 <= i < MaxQueueSize ==> outcomes[i] == Added
    ensures outcomes[MaxQueueSize] == QueueFull
    ensures |queue| == MaxQueueSize
    ensures forall i :: 0 <= i < MaxQueueSize ==> queue[i] == d.(id := Some(ids[i]))
  {
    var home := new Home();
    home.HandleDataChange(d);
    outcomes := [];
    var i := 0;
    while i < |ids|
      invariant 0 <= i <= |ids| && |outcomes| == i
      invariant home.Valid() && home.ticketData == d
      invariant |home.ticketQueue| == if i <= MaxQueueSize then i else MaxQueueSize
      invariant forall j :: 0 <= j < |home.ticketQueue| ==> home.ticketQueue[j] == d.(id := Some(ids[j]))
      invariant forall j :: 0 <= j < i ==> outcomes[j] == if j < MaxQueueSize then Added else QueueFull
    {
      var outcome := home.HandleGenerate(ids[i]);
      outcomes := outcomes + [outcome];
      i := i + 1;
    }
    queue := home.ticketQueue;
  }
}

/**
 * The host state the plugin's tasks and observer act on: the issuances table (rows keyed by
 * their id, ids handed out by an auto-increment counter), the calls made to the task manager,
 * and the side effects emitted, in order.
 */
module Store {
  import opened Common
  import opened Records

  class Site {
    var issuances: map<int, Issuance>
    var nextId: int
    var requests: seq<TaskRequest>
    var effects: seq<Effect>

    /** Every row is stored under its own id, and every id is below the next one to be handed out. */
    ghost predicate Valid()
      reads this
    {
      && nextId >= 1
      && forall id :: id in issuances ==> 1 <= id < nextId && issuances[id].id == id
    }

    constructor ()
      ensures Valid()
      ensures issuances == map[] && nextId == 1 && requests == [] && effects == []
    {
      issuances := map[];
      nextId := 1;
      requests := [];
      effects := [];
    }

    /** `$DB->update_record`: overwrite the row with the record's id. */
    method UpdateRecord(r: Issuance)
      requires Valid() && r.id in issuances
      modifies this`issuances
      ensures Valid()
      ensures issuances == old(issuances)[r.id := r]
    {
      issuances := issuances[r.id := r];
    }

    /** `$DB->insert_record`: store the record under a fresh id and return that id. */
    method InsertRecord(r: Issuance) returns (id: int)
      requires Valid()
      modifies this`issuances, this`nextId
      ensures Valid()
      ensures id == old(nextId) && id !in old(issuances)
      ensures issuances == old(issuances)[id := r.(id := id)]
      ensures nextId == old(nextId) + 1
    {
      id := nextId;
      issuances := issuances[id := r.(id := id)];
      nextId := nextId + 1;
    }

    /** `$DB->delete_records_select` with `timecreated < cutoff`. */
    method DeleteCreatedBefore(cutoff: int)
      requires Valid()
      modifies this`issuances
      ensures Valid()
      ensures issuances == map id | id in old(issuances) && old(issuances)[id].timecreated >= cutoff :: old(issuances)[id]
    {
      issuances := map id | id in issuances && issuances[id].timecreated >= cutoff :: issuances[id];
    }

    /** `\core\task\manager::queue_adhoc_task`. */
    method QueueAdhocTask(t: AdhocTask)
      modifies this`requests
      ensures requests == old(requests) + [Queue(t)]
    {
      requests := requests + [Queue(t)];
    }

    /** `\core\task\manager::reschedule_or_queue_adhoc_task`. */
    method RescheduleOrQueueAdhocTask(t: AdhocTask)
      modifies this`requests
      ensures requests == old(requests) + [RescheduleOrQueue(t)]
    {
      requests := requests + [RescheduleOrQueue(t)];
    }

    /** Trigger an event, send a message or force a regrade. */
    method Emit(e: Effect)
      modifies this`effects
      ensures effects == old(effects) + [e]
    {
      effects := effects + [e];
    }
  }
}

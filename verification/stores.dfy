/**
 * The two record stores, `TaskProvider` and `ClientProvider`: a list held in one state cell,
 * replaced by each operation. The id that the source takes from the clock is a parameter.
 */
module Stores {
  import opened Wrappers
  import opened Records
  import opened Entities

  class Store<V> {
    /** The records, in creation order. */
    var records: seq<Entry<Id, V>>

    constructor (initial: seq<Entry<Id, V>>)
      ensures records == initial
    {
      records := initial;
    }

    /** `addTask` / `addClient`: the draft, tagged with the id, goes to the end. */
    method Add(fields: V, id: Id)
      modifies this
      ensures records == old(records) + [Entry(id, fields)]
    {
      records := records + [Entry(id, fields)];
    }

    /** `removeTask` / `removeClient`: every record with the id goes, the rest stay in order. */
    method Remove(id: Id)
      modifies this
      ensures records == RemoveId(old(records), id)
    {
      records := RemoveId(records, id);
    }

    /** `getTask`: the first record with the id, if any. */
    function Get(id: Id): Option<Entry<Id, V>>
      reads this
    {
      FindId(records, id)
    }
  }

  /** `TaskProvider`'s initial state. */
  method NewTaskStore() returns (s: Store<TaskFields>)
    ensures fresh(s) && s.records == InitialTasks
  {
    s := new Store(InitialTasks);
  }

  /** `ClientProvider`'s initial state. */
  method NewClientStore() returns (s: Store<ClientFields>)
    ensures fresh(s) && s.records == InitialClients
  {
    s := new Store(InitialClients);
  }
}

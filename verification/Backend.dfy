/** The `ResourceStore` that the service is built on: the memory store or the database. */
module Backend {
  import opened Store
  import opened MemoryStore
  import opened PostgresStore

  datatype ResourceStore =
    | Memory(memory: MemoryResourceStore)
    | Postgres(database: PostgresResourceStore)
  {
    ghost function Repr(): set<object> {
      match this
      case Memory(memory) => {memory}
      case Postgres(database) => {database}
    }

    ghost predicate Valid()
      reads Repr()
    {
      Postgres? ==> database.Valid()
    }

    ghost function State(): PolicyState
      requires Valid()
      reads Repr()
    {
      match this
      case Memory(memory) => memory.State()
      case Postgres(database) => database.State()
    }

    /** The refusals that matter to this store: only a database refuses statements. */
    function Faced(refusals: set<nat>): set<nat> {
      if Memory? then {} else refusals
    }

    method Resolve(client: string, context: string, refusals: set<nat>) returns (reply: Reply)
      requires Valid()
      ensures reply == StepUnder(State(), ResolveMapping(client, context), Faced(refusals)).1
    {
      match this
      case Memory(memory) => reply := memory.Resolve(client, context);
      case Postgres(database) => reply := database.Resolve(client, context, refusals);
    }

    /** Whichever store it is, every operation is the contract's step under the refusals it faces. */
    method Apply(op: Op, refusals: set<nat>) returns (reply: Reply)
      requires Valid()
      modifies Repr()
      ensures Valid()
      ensures (State(), reply) == StepUnder(old(State()), op, Faced(refusals))
    {
      match this
      case Memory(memory) => reply := memory.Apply(op);
      case Postgres(database) => reply := database.Apply(op, refusals);
    }
  }
}

/** `MemoryResourceStore`: two hash maps changed in place under a write lock. */
module MemoryStore {
  import opened Policy
  import opened ClaimMerge
  import opened Store

  class MemoryResourceStore {
    var entries: Entries
    var scopeMappings: ScopeMappings

    ghost function State(): PolicyState
      reads this
    {
      PolicyState(entries, scopeMappings)
    }

    constructor ()
      ensures State() == EMPTY
    {
      entries, scopeMappings := map[], map[];
    }

    method Resolve(client: string, context: string) returns (reply: Reply)
      ensures reply == Step(State(), ResolveMapping(client, context)).1
    {
      if (client, context) !in entries { return Resolved(None); }
      var mapping := entries[(client, context)];
      var granted := map s | s in mapping.scopes && s in scopeMappings :: scopeMappings[s];
      return Resolved(Some(MappingPair(mapping, granted)));
    }

    method Save(mapping: ResourceMapping) returns (reply: Reply)
      modifies this
      ensures (State(), reply) == Step(old(State()), SaveMapping(mapping))
    {
      var key := (mapping.clientIdentifier, mapping.participantContext);
      if key in entries { return Failed(Conflict(mapping.clientIdentifier)); }
      entries := entries[key := mapping];
      return Done;
    }

    method Update(mapping: ResourceMapping) returns (reply: Reply)
      modifies this
      ensures (State(), reply) == Step(old(State()), UpdateMapping(mapping))
    {
      var key := (mapping.clientIdentifier, mapping.participantContext);
      if key !in entries { return Failed(NotFound(mapping.clientIdentifier)); }
      entries := entries[key := mapping];
      return Done;
    }

    method Remove(client: string, context: string) returns (reply: Reply)
      modifies this
      ensures (State(), reply) == Step(old(State()), RemoveMapping(client, context))
    {
      entries := entries - {(client, context)};
      return Done;
    }

    method RemoveFor(client: string) returns (reply: Reply)
      modifies this
      ensures (State(), reply) == Step(old(State()), RemoveMappingsFor(client))
    {
      entries := map k | k in entries && k.0 != client :: entries[k];
      return Done;
    }

    /** Checks the whole batch against the table and against itself, then inserts it. */
    method SaveScopes(batch: seq<ScopeMapping>) returns (reply: Reply)
      modifies this
      ensures (State(), reply) == Step(old(State()), SaveScopeMappings(batch))
    {
      var seen: set<string> := {};
      var i := 0;
      while i < |batch|
        invariant 0 <= i <= |batch|
        invariant seen == set j | 0 <= j < i :: batch[j].scope
        invariant FirstRepeat(scopeMappings, batch, 0) == FirstRepeat(scopeMappings, batch, i)
        invariant State() == old(State())
      {
        if batch[i].scope in scopeMappings || batch[i].scope in seen {
          return Failed(Conflict(batch[i].scope));
        }
        seen := seen + {batch[i].scope};
        i := i + 1;
      }
      i := 0;
      while i < |batch|
        invariant 0 <= i <= |batch|
        invariant entries == old(entries)
        invariant scopeMappings == Inserted(old(scopeMappings), batch[..i])
      {
        assert batch[..i + 1][..i] == batch[..i];
        scopeMappings := scopeMappings[batch[i].scope := batch[i]];
        i := i + 1;
      }
      assert batch[..i] == batch;
      return Done;
    }

    method UpdateScope(mapping: ScopeMapping) returns (reply: Reply)
      modifies this
      ensures (State(), reply) == Step(old(State()), UpdateScopeMapping(mapping))
    {
      if mapping.scope !in scopeMappings { return Failed(NotFound(mapping.scope)); }
      scopeMappings := scopeMappings[mapping.scope := mapping];
      return Done;
    }

    method RemoveScope(scope: string) returns (reply: Reply)
      modifies this
      ensures (State(), reply) == Step(old(State()), RemoveScopeMapping(scope))
    {
      scopeMappings := scopeMappings - {scope};
      return Done;
    }

    /** One operation of the `ResourceStore` interface. */
    method Apply(op: Op) returns (reply: Reply)
      modifies this
      ensures (State(), reply) == Step(old(State()), op)
    {
      match op
      case ResolveMapping(client, context) => reply := Resolve(client, context);
      case SaveMapping(mapping) => reply := Save(mapping);
      case UpdateMapping(mapping) => reply := Update(mapping);
      case RemoveMapping(client, context) => reply := Remove(client, context);
      case RemoveMappingsFor(client) => reply := RemoveFor(client);
      case SaveScopeMappings(batch) => reply := SaveScopes(batch);
      case UpdateScopeMapping(mapping) => reply := UpdateScope(mapping);
      case RemoveScopeMapping(scope) => reply := RemoveScope(scope);
      case ListMappings => reply := Mappings(entries.Values);
      case ListScopeMappings => reply := Scopes(scopeMappings.Values);
    }
  }
}

/**
 The in-memory store of proposals and its claim protocol (`local-agent/internal/workspace/propose.go`,
 `ProposalStore`). The methods update the table under a lock, so each is one atomic step; the
 functions say what the step does.
 */
module ProposalStore {
  import opened Wrappers
  import opened Changes

  type Table = map<string, Proposal>

  function PutIn(t: Table, p: Proposal): Table { t[p.changeSet.id := p] }

  predicate Claimable(t: Table, id: string) { id in t && !t[id].applied && !t[id].applying }

  function ClaimError(t: Table, id: string): Code
    requires !Claimable(t, id)
  {
    if id !in t then ChangeSetNotFound else InvalidChangeSet
  }

  function ClaimIn(t: Table, id: string): Table
    requires Claimable(t, id)
  {
    t[id := t[id].(applying := true)]
  }

  function AbortIn(t: Table, id: string): Table {
    if id in t && !t[id].applied then t[id := t[id].(applying := false)] else t
  }

  predicate Finishable(t: Table, id: string) { id in t && !t[id].applied }

  function FinishIn(t: Table, id: string): Table
    requires Finishable(t, id)
  {
    t[id := t[id].(applied := true, applying := false)]
  }

  class Store {
    var byId: Table

    constructor ()
      ensures byId == map[]
    {
      byId := map[];
    }

    method Put(p: Proposal)
      modifies this
      ensures byId == PutIn(old(byId), p)
    {
      byId := byId[p.changeSet.id := p];
    }

    method Get(id: string) returns (p: Option<Proposal>)
      ensures p == if id in byId then Some(byId[id]) else None
    {
      if id in byId {
        p := Some(byId[id]);
      } else {
        p := None;
      }
    }

    method ClaimForApply(id: string) returns (r: Result<Proposal>)
      modifies this
      ensures r == if Claimable(old(byId), id) then Ok(old(byId)[id].(applying := true))
              else Err(ClaimError(old(byId), id))
      ensures byId == if Claimable(old(byId), id) then ClaimIn(old(byId), id) else old(byId)
    {
      if id !in byId {
        return Err(ChangeSetNotFound);
      }
      if byId[id].applied {
        return Err(InvalidChangeSet);
      }
      if byId[id].applying {
        return Err(InvalidChangeSet);
      }
      byId := byId[id := byId[id].(applying := true)];
      return Ok(byId[id]);
    }

    method AbortApply(id: string)
      modifies this
      ensures byId == AbortIn(old(byId), id)
    {
      if id in byId && !byId[id].applied {
        byId := byId[id := byId[id].(applying := false)];
      }
    }

    method FinishApply(id: string) returns (error: Option<Code>)
      modifies this
      ensures error == if Finishable(old(byId), id) then None else Some(ClaimError(old(byId), id))
      ensures byId == if Finishable(old(byId), id) then FinishIn(old(byId), id) else old(byId)
    {
      if id !in byId {
        return Some(ChangeSetNotFound);
      }
      if byId[id].applied {
        return Some(InvalidChangeSet);
      }
      byId := byId[id := byId[id].(applied := true, applying := false)];
      return None;
    }
  }
}

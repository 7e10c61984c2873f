/** backend/src/modules/policies/policies.service.ts: the service in front of the
    repository. Reads and writes go straight through, except that an update or a
    delete first looks the identifier up and answers 404 when it is missing. */
module PoliciesService {
  import opened Wrappers
  import opened PolicyTypes
  import opened PolicyStore

  const NotFound := AppError("Política não encontrada", 404)

  /** `getPolicyById`: the stored row, or the 404 error. */
  function GetById(rows: seq<Policy>, id: nat): (r: Result<Policy, AppError>)
    ensures r.Failure? <==> Find(rows, id).None?
    ensures r.Failure? ==> r.error == NotFound
    ensures r.Success? ==> r.value in rows && r.value.id == id
  {
    match Find(rows, id)
    case None => Failure(NotFound)
    case Some(p) => Success(p)
  }

  /** `updatePolicy`: the existence check, then the repository's update. */
  function ServiceUpdate(t: Table, id: nat, patch: PolicyPatch): (w: Written<Policy>)
    ensures Find(t.rows, id).None? ==> w == Written(t, Failure(NotFound))
  {
    if GetById(t.rows, id).Failure? then Written(t, Failure(NotFound)) else UpdateSpec(t, id, patch)
  }

  /** `deletePolicy`: the existence check, then the repository's delete. */
  function ServiceDelete(t: Table, id: nat): (w: Written<bool>)
    ensures Find(t.rows, id).None? ==> w == Written(t, Failure(NotFound))
  {
    if GetById(t.rows, id).Failure? then Written(t, Failure(NotFound)) else DeleteSpec(t, id)
  }

  /** Updating a stored row whose new source URL (if any) is free returns the row
      with exactly the supplied fields replaced; the row is found under the same
      identifier afterwards and every other row is left alone. */
  lemma UpdateReplacesFields(t: Table, id: nat, patch: PolicyPatch)
    requires Consistent(t) && Find(t.rows, id).Some?
    requires patch.sourceUrl.Some? ==> !UrlTakenElsewhere(t.rows, IdIndex(t.rows, id), patch.sourceUrl.value)
    ensures var w := ServiceUpdate(t, id, patch);
      w.outcome == Success(Patched(Find(t.rows, id).value, patch, t.clock))
      && |w.table.rows| == |t.rows|
      && Find(w.table.rows, id) == Some(w.outcome.value)
      && forall j :: 0 <= j < |t.rows| && t.rows[j].id != id ==> w.table.rows[j] == t.rows[j]
  {
    var w := ServiceUpdate(t, id, patch);
    var k := IdIndex(t.rows, id);
    UpdateKeepsConsistent(t, id, patch);
    FindEach(w.table.rows, k);
  }

  /** Deleting a stored row answers true and the row can no longer be found;
      every other row stays. */
  lemma DeleteThenMissing(t: Table, id: nat)
    requires Consistent(t) && Find(t.rows, id).Some?
    ensures var w := ServiceDelete(t, id);
      w.outcome == Success(true)
      && GetById(w.table.rows, id) == Failure(NotFound)
      && forall p :: p in w.table.rows <==> p in t.rows && p.id != id
  {
    DeleteRemovesExactly(t, id);
  }

  /** Every service write keeps the table's invariants. */
  lemma ServiceKeepsConsistent(t: Table, id: nat, patch: PolicyPatch)
    requires Consistent(t)
    ensures Consistent(ServiceUpdate(t, id, patch).table)
    ensures Consistent(ServiceDelete(t, id).table)
  {
    UpdateKeepsConsistent(t, id, patch);
    DeleteKeepsConsistent(t, id);
  }

  class PoliciesService {
    const repository: PoliciesRepository

    ghost predicate Valid()
      reads this, repository
    {
      repository.Valid()
    }

    constructor()
      ensures Valid() && fresh(repository) && repository.rows == []
    {
      repository := new PoliciesRepository();
    }

    /** `createPolicy`: the repository's `save`, with the same argument. */
    method CreatePolicy(input: PolicyInput) returns (r: Result<Policy, AppError>)
      requires Valid()
      modifies repository
      ensures Valid()
      ensures Written(repository.Contents(), r) == SaveSpec(old(repository.Contents()), input)
    {
      r := repository.Save(input);
    }

    method GetAllPolicies() returns (all: seq<Policy>)
      ensures multiset(all) == multiset(repository.rows)
    {
      all := repository.FindAll();
    }

    /** `searchPolicies`: the repository's `search` with the three arguments packed. */
    method SearchPolicies(term: Option<string>, page: Option<int>, pageSize: Option<int>) returns (r: SearchResult)
      requires page.GetOr(1) >= 1 && pageSize.GetOr(10) >= 1
      ensures r == Search(repository.rows, SearchParams(term, page, pageSize))
    {
      r := repository.SearchRows(SearchParams(term, page, pageSize));
    }

    method GetPolicyById(id: nat) returns (r: Result<Policy, AppError>)
      ensures r == GetById(repository.rows, id)
    {
      var found := repository.FindById(id);
      if found.None? {
        return Failure(NotFound);
      }
      r := Success(found.value);
    }

    method UpdatePolicy(id: nat, patch: PolicyPatch) returns (r: Result<Policy, AppError>)
      requires Valid()
      modifies repository
      ensures Valid()
      ensures Written(repository.Contents(), r) == ServiceUpdate(old(repository.Contents()), id, patch)
    {
      var found := GetPolicyById(id);
      if found.Failure? {
        return found;
      }
      r := repository.Update(id, patch);
    }

    method DeletePolicy(id: nat) returns (r: Result<bool, AppError>)
      requires Valid()
      modifies repository
      ensures Valid()
      ensures Written(repository.Contents(), r) == ServiceDelete(old(repository.Contents()), id)
    {
      var found := GetPolicyById(id);
      if found.Failure? {
        return Failure(found.error);
      }
      r := repository.Delete(id);
    }
  }
}

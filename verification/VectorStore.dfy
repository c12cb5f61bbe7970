/** The in-memory store of search documents, each under its tenant and its id. */
module VectorStore {
  import opened Common
  import opened GraphModel

  class InMemoryVectorSearchStore<K(==,!new), D> {
    var documents: map<(Tenant, K), D>

    constructor ()
      ensures documents == map[]
    {
      documents := map[];
    }

    method Upsert(tenant: Tenant, id: K, document: D)
      modifies this
      ensures documents == old(documents)[(tenant, id) := document]
    {
      documents := documents[(tenant, id) := document];
    }

    method Delete(tenant: Tenant, id: K)
      modifies this
      ensures documents == old(documents) - {(tenant, id)}
    {
      documents := documents - {(tenant, id)};
    }

    method DeleteByTenant(tenant: Tenant)
      modifies this
      ensures documents == map key | key in old(documents) && key.0 != tenant :: old(documents)[key]
    {
      var order := Enumerate(documents.Keys);
      var i := 0;
      while i < |order|
        invariant 0 <= i <= |order|
        invariant documents == map key | key in old(documents)
                  && !(key.0 == tenant && key in order[..i]) :: old(documents)[key]
      {
        assert order[i] in order && order[i] !in order[..i];
        if order[i].0 == tenant {
          documents := documents - {order[i]};
        }
        i := i + 1;
      }
      assert order[..i] == order;
    }

    /** Swaps in a whole new set of documents for the tenant; a document of another tenant rejects the call. */
    method ReplaceTenant(tenant: Tenant, replacement: map<(Tenant, K), D>) returns (accepted: bool)
      modifies this
      ensures accepted <==> forall key :: key in replacement ==> key.0 == tenant
      ensures accepted ==>
                documents == (map key | key in old(documents) && key.0 != tenant :: old(documents)[key]) + replacement
      ensures !accepted ==> documents == old(documents)
    {
      accepted := forall key :: key in replacement ==> key.0 == tenant;
      if accepted {
        DeleteByTenant(tenant);
        documents := documents + replacement;
      }
    }
  }
}

/** The contract id read from an inbound message: `contractId`, then `contract_id`, then `"1234"`. */
module ContractIdFix {
  import opened Json

  const DefaultContractId := "1234"

  /** `message_data.get("contractId") or message_data.get("contract_id") or "1234"`. */
  function ResolveContractId(msg: seq<(string, Value)>): (r: Value)
    ensures Truthy(r)
    ensures Truthy(Lookup(msg, "contractId")) ==> r == Lookup(msg, "contractId")
    ensures !Truthy(Lookup(msg, "contractId")) && Truthy(Lookup(msg, "contract_id"))
            ==> r == Lookup(msg, "contract_id")
    ensures !Truthy(Lookup(msg, "contractId")) && !Truthy(Lookup(msg, "contract_id"))
            ==> r == Str(DefaultContractId)
  {
    Or(Or(Lookup(msg, "contractId"), Lookup(msg, "contract_id")), Str(DefaultContractId))
  }

  /** The id is never `None` nor empty, and comes from one of the two keys or the default. */
  lemma ContractIdNeverEmpty(msg: seq<(string, Value)>)
    ensures ResolveContractId(msg) != Null && ResolveContractId(msg) != Str("")
    ensures ResolveContractId(msg) in {Lookup(msg, "contractId"), Lookup(msg, "contract_id"), Str(DefaultContractId)}
  {
  }

  /** The three scenarios of the fix: camelCase set, snake_case set, neither set. */
  lemma ContractIdScenarios()
    ensures ResolveContractId([("contractId", Str("test-001")), ("contract_id", Null)]) == Str("test-001")
    ensures ResolveContractId([("contractId", Null), ("contract_id", Str("test-002"))]) == Str("test-002")
    ensures ResolveContractId([("contractId", Null), ("contract_id", Null)]) == Str("1234")
  {
  }
}

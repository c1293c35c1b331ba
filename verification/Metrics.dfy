/** The webhook's Prometheus counters (internal/metrics/metrics.go). */
module MetricsModel {
  import opened Labels
  import opened Admission

  class Metrics {
    var requestsTotal: multiset<(Operation, Reason)>
    var denialsTotal: multiset<(Operation, string)>
    var ownershipConflictsTotal: multiset<ConflictLabels>
    var ownerLookupErrorsTotal: multiset<OwnerKind>

    constructor ()
      ensures Snapshot() == Counters(multiset{}, multiset{}, multiset{}, multiset{})
    {
      requestsTotal, denialsTotal := multiset{}, multiset{};
      ownershipConflictsTotal, ownerLookupErrorsTotal := multiset{}, multiset{};
    }

    ghost function Snapshot(): Counters
      reads this
    {
      Counters(requestsTotal, denialsTotal, ownershipConflictsTotal, ownerLookupErrorsTotal)
    }

    method RecordRequest(operation: Operation, decision: Reason)
      modifies this`requestsTotal
      ensures requestsTotal == old(requestsTotal) + multiset{(operation, decision)}
    {
      requestsTotal := requestsTotal + multiset{(operation, decision)};
    }

    method RecordDenial(operation: Operation, kind: string)
      modifies this`denialsTotal
      ensures denialsTotal == old(denialsTotal) + multiset{(operation, kind)}
    {
      denialsTotal := denialsTotal + multiset{(operation, kind)};
    }

    method RecordOwnershipConflict(kind: string, previousOwner: string, newOwner: string)
      modifies this`ownershipConflictsTotal
      ensures ownershipConflictsTotal ==
              old(ownershipConflictsTotal) + multiset{ConflictLabels(kind, previousOwner, newOwner)}
    {
      ownershipConflictsTotal := ownershipConflictsTotal + multiset{ConflictLabels(kind, previousOwner, newOwner)};
    }

    method RecordOwnerLookupError(ownerKind: OwnerKind)
      modifies this`ownerLookupErrorsTotal
      ensures ownerLookupErrorsTotal == old(ownerLookupErrorsTotal) + multiset{ownerKind}
    {
      ownerLookupErrorsTotal := ownerLookupErrorsTotal + multiset{ownerKind};
    }
  }
}

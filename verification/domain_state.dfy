/** packages/domain/state.py: the two state axes of a canonical Event and their legal edges. */
module DomainState {
  datatype LifecycleStatus = Candidate | Active | Weakening | Closed | Discarded

  datatype ReconciliationStatus = Pending | Matched | Unmatched

  datatype StateAxis = LifecycleAxis | ReconciliationAxis

  function LifecycleTargets(current: LifecycleStatus): set<LifecycleStatus> {
    match current
    case Candidate => {Active, Discarded}
    case Active => {Weakening, Closed}
    case Weakening => {Active, Closed}
    case Closed => {}
    case Discarded => {}
  }

  function ReconciliationTargets(current: ReconciliationStatus): set<ReconciliationStatus> {
    match current
    case Pending => {Matched, Unmatched}
    case Matched => {}
    case Unmatched => {Matched}
  }
}

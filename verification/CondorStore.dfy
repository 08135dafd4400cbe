/** The paper store as one condor strategy sees it: its trades and its persisted profit lock. */
module CondorStore {
  import opened PaperLedger
  import opened CondorLadder

  class PaperStore {
    var ledger: seq<Trade>
    var lock: Lock

    constructor (ledger: seq<Trade>, lock: Lock)
      ensures this.ledger == ledger && this.lock == lock
    {
      this.ledger, this.lock := ledger, lock;
    }
  }
}

/**
 * The bookkeeping of `LibraryOperationQueue` (Model/LibraryOperations/LibraryOperationBase.swift): a serial
 * queue that remembers the most recently submitted catalog refresh.
 */
module LibraryQueue {
  import OPDSRefresh

  /** A library operation submitted to the queue: a catalog refresh, or any other kind (a scan, say). */
  datatype Operation = Refresh(operation: OPDSRefresh.OPDSRefreshOperation) | OtherOperation

  /** The refresh submitted last among `ops`, or `null` when none of them is a refresh. */
  function LastRefresh(ops: seq<Operation>): (r: OPDSRefresh.OPDSRefreshOperation?)
    ensures r == null <==> forall i :: 0 <= i < |ops| ==> !ops[i].Refresh?
  {
    if ops == [] then null
    else if ops[|ops| - 1].Refresh? then ops[|ops| - 1].operation
    else
      var earlier := ops[..|ops| - 1];
      assert forall i :: 0 <= i < |earlier| ==> earlier[i] == ops[i];
      LastRefresh(earlier)
  }

  /** The last refresh is a submitted refresh after which no other refresh was submitted. */
  lemma {:induction false} LastRefreshIsLatest(ops: seq<Operation>)
    ensures LastRefresh(ops) != null ==>
      exists i :: 0 <= i < |ops| && ops[i] == Refresh(LastRefresh(ops)) && forall j :: i < j < |ops| ==> !ops[j].Refresh?
  {
    if ops == [] {
    } else if ops[|ops| - 1].Refresh? {
      assert ops[|ops| - 1] == Refresh(LastRefresh(ops));
    } else {
      var earlier := ops[..|ops| - 1];
      LastRefreshIsLatest(earlier);
      if LastRefresh(ops) != null {
        var i :| 0 <= i < |earlier| && earlier[i] == Refresh(LastRefresh(earlier))
                 && forall j :: i < j < |earlier| ==> !earlier[j].Refresh?;
        assert ops[i] == Refresh(LastRefresh(ops));
        assert forall j :: i < j < |ops| ==> !ops[j].Refresh? by {
          forall j | i < j < |ops|
            ensures !ops[j].Refresh?
          {
            if j < |earlier| {
              assert ops[j] == earlier[j];
            }
          }
        }
      }
    }
  }

  class LibraryOperationQueue {
    /** At most one operation runs at a time. */
    const maxConcurrentOperationCount: nat
    var lastOPDSRefreshOperation: OPDSRefresh.OPDSRefreshOperation?
    /** Every operation submitted so far, in submission order. */
    ghost var submitted: seq<Operation>

    ghost predicate Valid()
      reads this
    {
      && maxConcurrentOperationCount == 1
      && lastOPDSRefreshOperation == LastRefresh(submitted)
    }

    constructor ()
      ensures Valid() && submitted == [] && lastOPDSRefreshOperation == null
    {
      maxConcurrentOperationCount := 1;
      lastOPDSRefreshOperation := null;
      submitted := [];
    }

    /** `addOperation`: a refresh becomes the last refresh; any other operation leaves it as it was. */
    method AddOperation(op: Operation)
      requires Valid()
      modifies this
      ensures Valid()
      ensures submitted == old(submitted) + [op]
      ensures lastOPDSRefreshOperation == if op.Refresh? then op.operation else old(lastOPDSRefreshOperation)
    {
      if op.Refresh? {
        lastOPDSRefreshOperation := op.operation;
      }
      submitted := submitted + [op];
      assert submitted[..|submitted| - 1] == old(submitted);
    }
  }
}

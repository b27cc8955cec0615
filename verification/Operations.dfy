/** What guarded operations share: outcomes, the context they run in, and executeEtcdSnapshot with
    its receipt check (internal/application/etcd_actions.go). */
module Operations {
  import opened Sequences
  import Text

  /** domain.OperationOutcome; Unset is the empty string. */
  datatype Outcome = Unset | Accepted | Completed | Unconfirmed | RecoveryIncomplete | Staged | NotAttempted

  datatype Receipt = Receipt(node: string, path: string, size: int, sha256: string)

  /** What the snapshot adapter answered: a receipt, trusted or not, and whether it failed. */
  datatype SnapshotReply = SnapshotReply(receipt: Receipt, failed: bool)

  /** validEtcdSnapshotReceipt. */
  predicate ValidReceipt(r: Receipt, node: string, path: string) {
    r.node == node && r.path == path && r.size > 0 && |r.sha256| == 64 && Text.HexText(r.sha256)
  }

  /** A snapshot that later stages may rely on. */
  predicate Verified(reply: SnapshotReply, node: string, path: string) {
    !reply.failed && ValidReceipt(reply.receipt, node, path)
  }

  /** The receipt is kept whenever it is valid, also when the call failed. */
  function KeptReceipt(reply: SnapshotReply, node: string, path: string): Option<Receipt> {
    if ValidReceipt(reply.receipt, node, path) then Some(reply.receipt) else None
  }

  /** A receipt is for the requested node and path, not empty, and has a hexadecimal digest of 32 bytes. */
  lemma ReceiptMeans(reply: SnapshotReply, node: string, path: string)
    ensures var r := reply.receipt;
      var good := r.node == node && r.path == path && r.size > 0 && |r.sha256| == 64 &&
        forall c :: c in r.sha256 ==> c in "0123456789abcdefABCDEF";
      && KeptReceipt(reply, node, path) == (if good then Some(r) else None)
      && (Verified(reply, node, path) <==> good && !reply.failed)
  {
    forall c ensures '0' <= c <= '9' || 'a' <= c <= 'f' || 'A' <= c <= 'F' <==> c in "0123456789abcdefABCDEF" {
      HexDigits(c);
    }
  }

  lemma HexDigits(c: char)
    ensures '0' <= c <= '9' || 'a' <= c <= 'f' || 'A' <= c <= 'F' <==> c in "0123456789abcdefABCDEF"
  {
  }

  /** The context of one operation: cancellation or a deadline ends it at any time, for good. */
  class OperationContext {
    var ended: bool

    constructor ()
      ensures !ended
    {
      ended := false;
    }

    /** Whether ctx.Err() is set. */
    method Ended() returns (done: bool)
      modifies this
      ensures done == ended && (old(ended) ==> ended)
    {
      if * { ended := true; }
      done := ended;
    }
  }

  /** executeEtcdSnapshot: no call is made when the context has ended. */
  method ExecuteEtcdSnapshot(context: OperationContext, node: string, path: string)
    returns (reply: Option<SnapshotReply>, kept: Option<Receipt>, ok: bool)
    modifies context
    ensures old(context.ended) ==> context.ended
    ensures reply.None? ==> context.ended && kept == None && !ok
    ensures reply.Some? ==> kept == KeptReceipt(reply.value, node, path) && ok == Verified(reply.value, node, path)
  {
    var done := context.Ended();
    if done { return None, None, false; }
    var answer: SnapshotReply := *;
    return Some(answer), KeptReceipt(answer, node, path), Verified(answer, node, path);
  }
}

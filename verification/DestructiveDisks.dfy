/** What the disk readings of all targets of a destructive action come to
    (internal/application/node_destructive_actions.go). */
module DestructiveDisks {
  import opened Sequences
  import opened DiskScope

  predicate SingleNode(a: Action) { a.WipeDevice? || !a.mode.WipeSystemDisk? }

  predicate Allows(a: Action, r: DiskReading) { r.Inventory? && Select(a, r.disks).Some? }

  function Chosen(a: Action, r: DiskReading): Selection {
    if r.Inventory? && Select(a, r.disks).Some? then Select(a, r.disks).value else Selection(None, [])
  }

  function AllScopes(a: Action, targets: seq<string>, readings: seq<DiskReading>): seq<ScopedDisk>
    requires |readings| == |targets|
  {
    if readings == [] then []
    else
      var last := |readings| - 1;
      AllScopes(a, targets[..last], readings[..last]) + ScopeOf(targets[last], Chosen(a, readings[last]))
  }

  function AllNames(a: Action, readings: seq<DiskReading>): seq<string> {
    if readings == [] then []
    else AllNames(a, readings[..|readings| - 1]) + ResetNames(a, Chosen(a, readings[|readings| - 1]))
  }

  ghost predicate AllAllow(a: Action, readings: seq<DiskReading>) {
    forall i :: 0 <= i < |readings| ==> Allows(a, readings[i])
  }

  lemma SystemDiskModeChoosesNothing(a: Action, r: DiskReading)
    requires a.Reset? && a.mode.WipeSystemDisk? && Allows(a, r)
    ensures ResetNames(a, Chosen(a, r)) == []
  {
  }

  lemma {:induction false} SystemDiskModeNamesNothing(a: Action, readings: seq<DiskReading>)
    requires a.Reset? && a.mode.WipeSystemDisk? && AllAllow(a, readings)
    ensures AllNames(a, readings) == []
  {
    if readings == [] {
    } else {
      SystemDiskModeNamesNothing(a, readings[..|readings| - 1]);
      SystemDiskModeChoosesNothing(a, readings[|readings| - 1]);
    }
  }

  lemma OnlyOneNodesNames(a: Action, readings: seq<DiskReading>)
    requires |readings| == 1
    ensures AllNames(a, readings) == ResetNames(a, Chosen(a, readings[0]))
  {
  }

  /** All names are the names of any one target: an action that names disks has one target. */
  lemma NobodyElsesNames(a: Action, readings: seq<DiskReading>, i: nat)
    requires i < |readings| && (SingleNode(a) ==> |readings| == 1) && AllAllow(a, readings)
    ensures AllNames(a, readings) == ResetNames(a, Chosen(a, readings[i]))
  {
    if SingleNode(a) {
      OnlyOneNodesNames(a, readings);
    } else {
      SystemDiskModeNamesNothing(a, readings);
      SystemDiskModeChoosesNothing(a, readings[i]);
    }
  }

  /** The captured facts stand for these readings: refused unless all allow, and then complete. */
  ghost predicate Captures(
    blocked: seq<Block>, scope: seq<ScopedDisk>, names: seq<string>, a: Action, targets: seq<string>,
    readings: seq<DiskReading>)
    requires |readings| == |targets|
  {
    && (blocked == [] <==> AllAllow(a, readings))
    && (blocked == [] ==> scope == AllScopes(a, targets, readings) && names == AllNames(a, readings))
  }

  lemma CapturesSnoc(
    blocked: seq<Block>, scope: seq<ScopedDisk>, names: seq<string>, a: Action, targets: seq<string>,
    readings: seq<DiskReading>,
    target: string, r: DiskReading, more: seq<Block>)
    requires |readings| == |targets| && Captures(blocked, scope, names, a, targets, readings)
    requires if Allows(a, r) then more == blocked else more != []
    ensures Captures(more, scope + ScopeOf(target, Chosen(a, r)), names + ResetNames(a, Chosen(a, r)), a,
      targets + [target], readings + [r])
  {
    assert (targets + [target])[..|targets|] == targets && (readings + [r])[..|readings|] == readings;
    assert AllAllow(a, readings + [r]) <==> AllAllow(a, readings) && Allows(a, r) by {
      if AllAllow(a, readings + [r]) {
        assert forall i :: 0 <= i < |readings| ==> (readings + [r])[i] == readings[i];
        assert (readings + [r])[|readings|] == r;
      }
    }
  }
}

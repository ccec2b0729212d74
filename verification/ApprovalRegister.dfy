/** The operation-approval register of the control plane
    (packages/control-plane/src/control-plane/approvals/operation-approvals.ts). Every change is
    published under the next revision; a snapshot shows what is pending at its revision. */
module ApprovalRegister {
  import opened OrderedMap

  type RequestId(==, !new)

  /** One published change: the request becomes pending, or takes any other status. */
  datatype Change = Change(id: RequestId, pending: bool)

  datatype Status = PendingStatus | Decided

  /** What is pending after the first `r` changes. */
  function PendingAt(log: seq<Change>, r: nat): set<RequestId>
    requires r <= |log|
  {
    if r == 0 then {}
    else if log[r - 1].pending then PendingAt(log, r - 1) + {log[r - 1].id}
    else PendingAt(log, r - 1) - {log[r - 1].id}
  }

  /** Request ids are fresh: a request becomes pending only at its first change. */
  ghost predicate OnceOnly(log: seq<Change>) {
    forall i, j :: 0 <= j < i < |log| && log[i].pending ==> log[j].id != log[i].id
  }

  /** The request has taken another status than pending at a revision up to `r`. */
  ghost predicate TerminalAt(log: seq<Change>, id: RequestId, r: nat) {
    exists j :: 0 <= j < r && j < |log| && log[j] == Change(id, false)
  }

  lemma {:induction false} PendingWasPublished(log: seq<Change>, r: nat, id: RequestId)
    requires r <= |log|
    ensures id in PendingAt(log, r) ==> exists i :: 0 <= i < r && log[i] == Change(id, true)
  {
    if r > 0 {
      PendingWasPublished(log, r - 1, id);
    }
  }

  /** A terminal request is pending at no later revision. */
  lemma {:induction false} TerminalIsFinal(log: seq<Change>, id: RequestId, t: nat, r: nat)
    requires OnceOnly(log) && TerminalAt(log, id, t) && t <= r <= |log|
    ensures id !in PendingAt(log, r)
  {
    var j :| 0 <= j < t && j < |log| && log[j] == Change(id, false);
    TerminalSince(log, id, j, r);
  }

  lemma {:induction false} TerminalSince(log: seq<Change>, id: RequestId, j: nat, r: nat)
    requires OnceOnly(log) && j < r <= |log| && log[j] == Change(id, false)
    ensures id !in PendingAt(log, r)
  {
    if r > j + 1 {
      TerminalSince(log, id, j, r - 1);
    }
  }

  lemma {:induction false} PendingAtPrefix(log: seq<Change>, change: Change, r: nat)
    requires r <= |log|
    ensures PendingAt(log + [change], r) == PendingAt(log, r)
  {
    if r > 0 {
      PendingAtPrefix(log, change, r - 1);
    }
  }

  class OperationApprovals {
    var entries: map<RequestId, Status>
    var revision: nat
    ghost var log: seq<Change>

    /** The revision counts the published changes, and what is pending is what they add up to. */
    ghost predicate Valid()
      reads this
    {
      && revision == |log| && OnceOnly(log)
      && (forall id :: id in entries && entries[id] == PendingStatus <==> id in PendingAt(log, |log|))
      && (forall id :: id in entries ==> exists i :: 0 <= i < |log| && log[i].id == id)
    }

    constructor ()
      ensures Valid() && log == []
    {
      entries, revision, log := map[], 0, [];
    }

    /** `publish`, with the entry already in its new state. */
    method Publish(id: RequestId, pending: bool)
      requires revision == |log| && OnceOnly(log)
      requires pending ==> forall i :: 0 <= i < |log| ==> log[i].id != id
      requires forall x :: x in entries && entries[x] == PendingStatus <==> if x == id then pending else x in PendingAt(log, |log|)
      requires forall x :: x in entries && x != id ==> exists i :: 0 <= i < |log| && log[i].id == x
      modifies this`revision, this`log
      ensures Valid() && log == old(log) + [Change(id, pending)]
    {
      PendingAtPrefix(log, Change(id, pending), |log|);
      revision := revision + 1;
      log := log + [Change(id, pending)];
      assert log[|log| - 1].id == id;
      assert forall i :: 0 <= i < |log| - 1 ==> log[i] == old(log)[i];
    }

    /** The pending requests, as a snapshot lists them. */
    method Snapshot() returns (r: nat, pending: set<RequestId>)
      requires Valid()
      ensures r == |log| && pending == PendingAt(log, r)
    {
      r := revision;
      pending := set id | id in entries && entries[id] == PendingStatus;
    }

    /** `gate` for a new request: its id has never been used. */
    method Open(id: RequestId)
      requires Valid() && forall i :: 0 <= i < |log| ==> log[i].id != id
      modifies this
      ensures Valid() && log == old(log) + [Change(id, true)]
      ensures entries == old(entries)[id := PendingStatus]
    {
      entries := entries[id := PendingStatus];
      Publish(id, true);
    }

    method Decide(id: RequestId) returns (found: bool)
      requires Valid()
      modifies this
      ensures Valid() && found == (id in PendingAt(old(log), |old(log)|))
      ensures entries == if found then old(entries)[id := Decided] else old(entries)
      ensures log == if found then old(log) + [Change(id, false)] else old(log)
    {
      found := id in entries && entries[id] == PendingStatus;
      if found {
        entries := entries[id := Decided];
        Publish(id, false);
      }
    }

    /** `cancel`, the consumption of an approved entry, and one round of `sweep`. */
    method Remove(id: RequestId) returns (found: bool)
      requires Valid()
      modifies this
      ensures Valid() && found == (id in old(entries)) && entries == old(entries) - {id}
      ensures log == if found then old(log) + [Change(id, false)] else old(log)
    {
      found := id in entries;
      if found {
        entries := entries - {id};
        Publish(id, false);
      } else {
        assert entries - {id} == entries;
      }
    }
  }
}

/** Status conditions of a Torrent and the two setters of internal/controller/torrent_controller.go.
    The list operations follow Kubernetes' meta.SetStatusCondition, meta.RemoveStatusCondition and
    meta.FindStatusCondition, which the controller calls: the first entry of a type is updated in
    place (its transition time moves only when its status changes), a missing type is appended,
    and removal drops every entry of the type. */
module Conditions {
  import opened Wrappers

  const TypeAvailable: string := "Available"
  const TypeDegraded: string := "Degraded"

  datatype ConditionStatus = ConditionTrue | ConditionFalse | ConditionUnknown

  /** metav1.Condition; the transition time is an opaque timestamp. */
  datatype Condition = Condition(
    conditionType: string,
    status: ConditionStatus,
    observedGeneration: int,
    lastTransitionTime: int,
    reason: string,
    message: string)

  /** meta.FindStatusCondition: the first entry of type `t`, or None when there is none. */
  function FindStatusCondition(conds: seq<Condition>, t: string): (r: Option<Condition>)
    ensures r.None? <==> forall i :: 0 <= i < |conds| ==> conds[i].conditionType != t
    ensures r.Some? ==> r.value.conditionType == t && r.value in conds
  {
    if conds == [] then None
    else if conds[0].conditionType == t then Some(conds[0])
    else
      assert forall i :: 1 <= i < |conds| ==> conds[i] == conds[1..][i - 1];
      FindStatusCondition(conds[1..], t)
  }

  /** The entry FindStatusCondition returns is the first of its type: an entry of type `t` with no
      entry of that type before it is the one found. */
  lemma {:induction false} FindFirstAt(conds: seq<Condition>, t: string, i: nat)
    requires i < |conds| && conds[i].conditionType == t
    requires forall j :: 0 <= j < i ==> conds[j].conditionType != t
    ensures FindStatusCondition(conds, t) == Some(conds[i])
  {
    if i > 0 {
      assert conds[1..][i - 1] == conds[i];
      FindFirstAt(conds[1..], t, i - 1);
    }
  }

  /** meta.IsStatusConditionTrue: the entry of type `t` exists and has status True. */
  predicate IsTrue(conds: seq<Condition>, t: string) {
    FindStatusCondition(conds, t).Some? && FindStatusCondition(conds, t).value.status == ConditionTrue
  }

  /** Available and Degraded are never both True. */
  predicate Exclusive(conds: seq<Condition>) {
    !(IsTrue(conds, TypeAvailable) && IsTrue(conds, TypeDegraded))
  }

  /** At most one entry per type: no entry's type occurs again after it. */
  predicate OnePerType(conds: seq<Condition>) {
    conds == [] || (FindStatusCondition(conds[1..], conds[0].conditionType).None? && OnePerType(conds[1..]))
  }

  /** An existing entry updated as SetStatusCondition does: status, reason, message and observed
      generation are taken from `c`; the transition time only when the status changes. */
  function Merge(existing: Condition, c: Condition): Condition {
    existing.(
      status := c.status,
      lastTransitionTime := if existing.status != c.status then c.lastTransitionTime else existing.lastTransitionTime,
      reason := c.reason,
      message := c.message,
      observedGeneration := c.observedGeneration)
  }

  /** The entry of `c`'s type after an upsert: the merged old one, or `c` itself. */
  function Upserted(conds: seq<Condition>, c: Condition): Condition {
    match FindStatusCondition(conds, c.conditionType)
    case Some(existing) => Merge(existing, c)
    case None => c
  }

  /** meta.SetStatusCondition: upsert by type (the first entry of the type is merged in place,
      otherwise `c` is appended). */
  function SetStatusCondition(conds: seq<Condition>, c: Condition): (r: seq<Condition>)
    ensures |r| == if FindStatusCondition(conds, c.conditionType).Some? then |conds| else |conds| + 1
    ensures FindStatusCondition(conds, c.conditionType).None? ==> r == conds + [c]
  {
    if conds == [] then [c]
    else if conds[0].conditionType == c.conditionType then [Merge(conds[0], c)] + conds[1..]
    else [conds[0]] + SetStatusCondition(conds[1..], c)
  }

  /** meta.RemoveStatusCondition: every entry of type `t` is dropped, the others keep their order. */
  function RemoveStatusCondition(conds: seq<Condition>, t: string): (r: seq<Condition>)
    ensures forall i :: 0 <= i < |r| ==> r[i].conditionType != t
    ensures |r| <= |conds|
  {
    if conds == [] then []
    else if conds[0].conditionType == t then RemoveStatusCondition(conds[1..], t)
    else
      var rest := RemoveStatusCondition(conds[1..], t);
      assert forall i :: 1 <= i < |rest| + 1 ==> ([conds[0]] + rest)[i] == rest[i - 1];
      [conds[0]] + rest
  }

  /** After an upsert the first entry of the type is the merged one (or the new one). */
  lemma {:induction false} SetFindsUpserted(conds: seq<Condition>, c: Condition)
    ensures FindStatusCondition(SetStatusCondition(conds, c), c.conditionType) == Some(Upserted(conds, c))
  {
    if conds != [] && conds[0].conditionType != c.conditionType {
      SetFindsUpserted(conds[1..], c);
    }
  }

  /** An upsert leaves the entries of every other type as they were. */
  lemma {:induction false} SetKeepsOthers(conds: seq<Condition>, c: Condition, t: string)
    requires t != c.conditionType
    ensures FindStatusCondition(SetStatusCondition(conds, c), t) == FindStatusCondition(conds, t)
  {
    if conds != [] && conds[0].conditionType != c.conditionType {
      SetKeepsOthers(conds[1..], c, t);
    }
  }

  /** An upsert keeps at most one entry per type. */
  lemma {:induction false} SetKeepsOnePerType(conds: seq<Condition>, c: Condition)
    requires OnePerType(conds)
    ensures OnePerType(SetStatusCondition(conds, c))
  {
    if conds == [] {
    } else if conds[0].conditionType == c.conditionType {
      assert SetStatusCondition(conds, c)[1..] == conds[1..];
    } else {
      var rest := SetStatusCondition(conds[1..], c);
      assert SetStatusCondition(conds, c)[1..] == rest;
      SetKeepsOnePerType(conds[1..], c);
      SetKeepsOthers(conds[1..], c, conds[0].conditionType);
    }
  }

  /** Upserting a condition that the first entry of its type already equals after merging changes
      nothing. */
  lemma {:induction false} SetUnchanged(conds: seq<Condition>, c: Condition)
    requires FindStatusCondition(conds, c.conditionType).Some?
    requires Merge(FindStatusCondition(conds, c.conditionType).value, c) == FindStatusCondition(conds, c.conditionType).value
    ensures SetStatusCondition(conds, c) == conds
  {
    if conds[0].conditionType != c.conditionType {
      SetUnchanged(conds[1..], c);
    }
  }

  /** Removal keeps exactly the entries of the other types. */
  lemma {:induction false} RemoveKeepsContents(conds: seq<Condition>, t: string, x: Condition)
    ensures x in RemoveStatusCondition(conds, t) <==> x in conds && x.conditionType != t
  {
    if conds != [] {
      RemoveKeepsContents(conds[1..], t, x);
      assert x in conds <==> x == conds[0] || x in conds[1..];
    }
  }

  /** Removing one type does not change which entry is the first of another type. */
  lemma {:induction false} RemoveKeepsOthers(conds: seq<Condition>, t: string, other: string)
    requires t != other
    ensures FindStatusCondition(RemoveStatusCondition(conds, t), other) == FindStatusCondition(conds, other)
  {
    if conds != [] {
      RemoveKeepsOthers(conds[1..], t, other);
    }
  }

  /** Removing a type that is absent changes nothing. */
  lemma {:induction false} RemoveAbsent(conds: seq<Condition>, t: string)
    requires FindStatusCondition(conds, t).None?
    ensures RemoveStatusCondition(conds, t) == conds
  {
    if conds != [] {
      RemoveAbsent(conds[1..], t);
    }
  }

  /** A type absent from a list stays absent after removal of another. */
  lemma {:induction false} RemoveKeepsAbsence(conds: seq<Condition>, t: string, other: string)
    requires FindStatusCondition(conds, other).None?
    ensures FindStatusCondition(RemoveStatusCondition(conds, t), other).None?
  {
    if conds != [] {
      RemoveKeepsAbsence(conds[1..], t, other);
    }
  }

  /** Removal keeps at most one entry per type. */
  lemma {:induction false} RemoveKeepsOnePerType(conds: seq<Condition>, t: string)
    requires OnePerType(conds)
    ensures OnePerType(RemoveStatusCondition(conds, t))
  {
    if conds != [] {
      RemoveKeepsOnePerType(conds[1..], t);
      if conds[0].conditionType != t {
        var r := RemoveStatusCondition(conds, t);
        assert r[1..] == RemoveStatusCondition(conds[1..], t);
        RemoveKeepsAbsence(conds[1..], t, conds[0].conditionType);
      }
    }
  }

  /** The condition setDegradedCondition builds. */
  function DegradedCondition(reason: string, message: string, now: int): Condition {
    Condition(TypeDegraded, ConditionTrue, 0, now, reason, message)
  }

  /** The condition setAvailableCondition builds. */
  function AvailableCondition(reason: string, message: string, now: int): Condition {
    Condition(TypeAvailable, ConditionTrue, 0, now, reason, message)
  }

  /** setDegradedCondition on a condition list: upsert Degraded, then remove Available. */
  function WithDegraded(conds: seq<Condition>, reason: string, message: string, now: int): seq<Condition> {
    RemoveStatusCondition(SetStatusCondition(conds, DegradedCondition(reason, message, now)), TypeAvailable)
  }

  /** setAvailableCondition on a condition list: upsert Available, then remove Degraded. */
  function WithAvailable(conds: seq<Condition>, reason: string, message: string, now: int): seq<Condition> {
    RemoveStatusCondition(SetStatusCondition(conds, AvailableCondition(reason, message, now)), TypeDegraded)
  }

  /** Setting `c` and then removing type `drop`: `c`'s type holds the upserted entry, `drop` is
      gone, the other types are untouched and at most one entry per type is kept. */
  lemma {:induction false} SetThenRemove(conds: seq<Condition>, c: Condition, drop: string)
    requires drop != c.conditionType
    ensures var r := RemoveStatusCondition(SetStatusCondition(conds, c), drop);
      && FindStatusCondition(r, c.conditionType) == Some(Upserted(conds, c))
      && FindStatusCondition(r, drop).None?
      && (forall t :: t != c.conditionType && t != drop ==> FindStatusCondition(r, t) == FindStatusCondition(conds, t))
      && (OnePerType(conds) ==> OnePerType(r))
  {
    var upserted := SetStatusCondition(conds, c);
    SetFindsUpserted(conds, c);
    RemoveKeepsOthers(upserted, drop, c.conditionType);
    forall t | t != c.conditionType && t != drop
      ensures FindStatusCondition(RemoveStatusCondition(upserted, drop), t) == FindStatusCondition(conds, t)
    {
      SetKeepsOthers(conds, c, t);
      RemoveKeepsOthers(upserted, drop, t);
    }
    if OnePerType(conds) {
      SetKeepsOnePerType(conds, c);
      RemoveKeepsOnePerType(upserted, drop);
    }
  }

  /** What setDegradedCondition leaves: Degraded True with this reason and message (its time kept
      if it was True already), no Available entry, other types untouched, Available and Degraded
      not both True, and at most one entry per type if there was before. */
  lemma DegradedSetter(conds: seq<Condition>, reason: string, message: string, now: int)
    ensures var r := WithDegraded(conds, reason, message, now);
      && (forall i :: 0 <= i < |r| ==> r[i].conditionType != TypeAvailable)
      && FindStatusCondition(r, TypeDegraded) == Some(Upserted(conds, DegradedCondition(reason, message, now)))
      && IsTrue(r, TypeDegraded)
      && FindStatusCondition(r, TypeDegraded).value.reason == reason
      && FindStatusCondition(r, TypeDegraded).value.message == message
      && (forall t :: t != TypeAvailable && t != TypeDegraded ==> FindStatusCondition(r, t) == FindStatusCondition(conds, t))
      && Exclusive(r)
      && (OnePerType(conds) ==> OnePerType(r))
  {
    SetThenRemove(conds, DegradedCondition(reason, message, now), TypeAvailable);
  }

  /** What setAvailableCondition leaves: the mirror image of DegradedSetter. */
  lemma AvailableSetter(conds: seq<Condition>, reason: string, message: string, now: int)
    ensures var r := WithAvailable(conds, reason, message, now);
      && (forall i :: 0 <= i < |r| ==> r[i].conditionType != TypeDegraded)
      && FindStatusCondition(r, TypeAvailable) == Some(Upserted(conds, AvailableCondition(reason, message, now)))
      && IsTrue(r, TypeAvailable)
      && FindStatusCondition(r, TypeAvailable).value.reason == reason
      && FindStatusCondition(r, TypeAvailable).value.message == message
      && (forall t :: t != TypeAvailable && t != TypeDegraded ==> FindStatusCondition(r, t) == FindStatusCondition(conds, t))
      && Exclusive(r)
      && (OnePerType(conds) ==> OnePerType(r))
  {
    SetThenRemove(conds, AvailableCondition(reason, message, now), TypeDegraded);
  }

  /** Setting Available twice with the same reason and message is the same as setting it once,
      whatever the second timestamp: the status does not change, so the time stays. */
  lemma AvailableIdempotent(conds: seq<Condition>, reason: string, message: string, t1: int, t2: int)
    ensures WithAvailable(WithAvailable(conds, reason, message, t1), reason, message, t2)
            == WithAvailable(conds, reason, message, t1)
  {
    var once := WithAvailable(conds, reason, message, t1);
    var c := AvailableCondition(reason, message, t2);
    AvailableSetter(conds, reason, message, t1);
    SetUnchanged(once, c);
    RemoveAbsent(once, TypeDegraded);
  }

  /** The same for Degraded. */
  lemma DegradedIdempotent(conds: seq<Condition>, reason: string, message: string, t1: int, t2: int)
    ensures WithDegraded(WithDegraded(conds, reason, message, t1), reason, message, t2)
            == WithDegraded(conds, reason, message, t1)
  {
    var once := WithDegraded(conds, reason, message, t1);
    var c := DegradedCondition(reason, message, t2);
    DegradedSetter(conds, reason, message, t1);
    SetUnchanged(once, c);
    RemoveAbsent(once, TypeAvailable);
  }
}

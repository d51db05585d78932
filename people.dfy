/** `People.cs`: the population controller. It keeps a list of people whose
    length follows the target `numPeople`, appending new people at the end and
    destroying them from the end.

    The element type `T` stands for a person; an entry is `None` where
    `CreatePerson` returned `null`. Which person the host instantiates for the
    entry at list index `i` is the input `spawn(i)`. */
module People {
  import opened Wrappers

  /** The exceptions `RemovePeople` can raise: `ArgumentOutOfRangeException`
      from `people[-1]` on an empty `List`, or `NullReferenceException` from
      `.gameObject` of a `null` entry. */
  datatype Fault = ArgumentOutOfRange | NullReference

  /** What `CreatePerson` returns when the host instantiated `spawned`:
      `null` when the prefab has no `Person` component. */
  function Created<T>(prefabHasPerson: bool, spawned: T): Option<T> {
    if prefabHasPerson then Some(spawned) else None
  }

  /** The entries `AddPeople(count)` appends to a list of length `from`. */
  function Appended<T>(prefabHasPerson: bool, spawn: nat -> T, from: nat, count: int): seq<Option<T>> {
    if count <= 0 then []
    else seq(count, k requires 0 <= k < count => Created(prefabHasPerson, spawn(from + k)))
  }

  /** `RemovePeople(count)`: the list left and the exception raised, if any.
      Each round destroys and removes the last entry; it stops with an
      exception on an empty list or a `null` last entry. */
  function RemoveFromTail<T>(s: seq<Option<T>>, count: int): (seq<Option<T>>, Option<Fault>)
    decreases count
  {
    if count <= 0 then (s, None)
    else if |s| == 0 then (s, Some(ArgumentOutOfRange))
    else if s[|s| - 1].None? then (s, Some(NullReference))
    else RemoveFromTail(s[..|s| - 1], count - 1)
  }

  /** `AdjustNumberOfPeople`: grow by appending or shrink from the tail until
      the list holds `target` entries. */
  function Adjusted<T>(s: seq<Option<T>>, target: int, prefabHasPerson: bool, spawn: nat -> T)
    : (seq<Option<T>>, Option<Fault>)
  {
    if target > |s| then (s + Appended(prefabHasPerson, spawn, |s|, target - |s|), None)
    else if target < |s| then RemoveFromTail(s, |s| - target)
    else (s, None)
  }

  /** Creating one more person appends one more entry. */
  lemma AppendedGrowsByOne<T>(prefabHasPerson: bool, spawn: nat -> T, from: nat, count: nat)
    ensures Appended(prefabHasPerson, spawn, from, count + 1)
            == Appended(prefabHasPerson, spawn, from, count) + [Created(prefabHasPerson, spawn(from + count))]
  {
  }

  predicate NoNullIn<T>(s: seq<Option<T>>, from: int) {
    forall k :: from <= k < |s| && 0 <= k ==> s[k].Some?
  }

  /** Removal only ever cuts the list short: what is left is a prefix, and it
      is shorter by at most `count`. */
  lemma {:induction false} RemoveFromTailLeavesPrefix<T>(s: seq<Option<T>>, count: int)
    ensures var (r, _) := RemoveFromTail(s, count);
            |r| <= |s| && r == s[..|r|] && |s| - |r| <= (if count > 0 then count else 0)
    decreases count
  {
    if count > 0 && |s| > 0 && s[|s| - 1].Some? {
      RemoveFromTailLeavesPrefix(s[..|s| - 1], count - 1);
    }
  }

  /** Removal succeeds exactly when the list has at least `count` entries and
      none of the last `count` is `null`; then it drops exactly those. */
  lemma {:induction false} RemoveFromTailSucceeds<T>(s: seq<Option<T>>, count: int)
    ensures RemoveFromTail(s, count).1.None?
            <==> count <= 0 || (count <= |s| && NoNullIn(s, |s| - count))
    ensures count >= 0 && RemoveFromTail(s, count).1.None? ==> RemoveFromTail(s, count).0 == s[..|s| - count]
    decreases count
  {
    if count > 0 && |s| > 0 && s[|s| - 1].Some? {
      var s' := s[..|s| - 1];
      RemoveFromTailSucceeds(s', count - 1);
      if count - 1 <= |s'| && NoNullIn(s', |s'| - (count - 1)) {
        assert NoNullIn(s, |s| - count);
      }
      if NoNullIn(s, |s| - count) {
        assert NoNullIn(s', |s'| - (count - 1));
      }
    }
  }

  /** After a successful adjustment the list holds exactly `target` entries;
      it succeeds exactly when `target >= 0` and no entry past `target` is
      `null`; and the entries before `target` are the old ones, in order. */
  lemma AdjustedReachesTarget<T>(s: seq<Option<T>>, target: int, prefabHasPerson: bool, spawn: nat -> T)
    ensures var (r, fault) := Adjusted(s, target, prefabHasPerson, spawn);
            && (fault.None? <==> target >= 0 && NoNullIn(s, target))
            && (fault.None? ==> |r| == target)
            && (var keep := if target < |s| then target else |s|;
                0 <= keep ==> keep <= |r| && r[..keep] == s[..keep])
  {
    var (r, fault) := Adjusted(s, target, prefabHasPerson, spawn);
    if target < |s| {
      RemoveFromTailSucceeds(s, |s| - target);
      RemoveFromTailLeavesPrefix(s, |s| - target);
      if target >= 0 {
        assert r[..target] == s[..target];
      }
    } else {
      assert r[..|s|] == s;
    }
  }

  /** An adjustment to the current size changes nothing. */
  lemma AdjustedToSizeIsNoOp<T>(s: seq<Option<T>>, prefabHasPerson: bool, spawn: nat -> T)
    ensures Adjusted(s, |s|, prefabHasPerson, spawn) == (s, None)
  {
  }

  /** When the prefab lacks a `Person` component the list still reaches the
      target, but every new entry is `null`. */
  lemma FailedCreationStillGrows<T>(s: seq<Option<T>>, target: int, spawn: nat -> T)
    requires target > |s|
    ensures var (r, fault) := Adjusted(s, target, false, spawn);
            fault.None? && |r| == target && forall k :: |s| <= k < target ==> r[k] == None
  {
    var (r, fault) := Adjusted(s, target, false, spawn);
    forall k | |s| <= k < target
      ensures r[k] == None
    {
      var added := Appended(false, spawn, |s|, target - |s|);
      assert r == s + added;
      assert added[k - |s|] == Created(false, spawn(|s| + (k - |s|)));
      assert r[k] == added[k - |s|];
    }
  }

  class People<T> {
    var numPeople: int
    var people: seq<Option<T>>
    var previousNumPeople: int
    /** Whether `personPrefab` carries a `Person` component. */
    const prefabHasPerson: bool

    constructor (numPeople: int, prefabHasPerson: bool)
      ensures this.numPeople == numPeople && this.prefabHasPerson == prefabHasPerson
      ensures people == [] && previousNumPeople == 0
    {
      this.numPeople := numPeople;
      this.prefabHasPerson := prefabHasPerson;
      people := [];
      previousNumPeople := 0;
    }

    /** `Start`: create the initial population, then remember its target. */
    method Start(spawn: nat -> T)
      modifies this
      ensures people == old(people) + Appended(prefabHasPerson, spawn, |old(people)|, numPeople)
      ensures numPeople == old(numPeople) && previousNumPeople == numPeople
    {
      InitializePeople(spawn);
      previousNumPeople := numPeople;
    }

    /** The population part of `Update`: resize only when the target changed
        since the last frame, and remember the target once the resize is done.
        An exception from the resize leaves `previousNumPeople` as it was. */
    method Update(spawn: nat -> T) returns (fault: Option<Fault>)
      modifies this
      ensures numPeople == old(numPeople)
      ensures old(numPeople == previousNumPeople) ==>
                people == old(people) && previousNumPeople == old(previousNumPeople) && fault.None?
      ensures old(numPeople != previousNumPeople) ==>
                (people, fault) == Adjusted(old(people), numPeople, prefabHasPerson, spawn)
                && previousNumPeople == (if fault.None? then numPeople else old(previousNumPeople))
    {
      fault := None;
      if numPeople != previousNumPeople {
        fault := AdjustNumberOfPeople(spawn);
        if fault.Some? {
          return;
        }
        previousNumPeople := numPeople;
      }
    }

    /** `InitializePeople`: append `numPeople` newly created people. */
    method InitializePeople(spawn: nat -> T)
      modifies this
      ensures people == old(people) + Appended(prefabHasPerson, spawn, |old(people)|, numPeople)
      ensures numPeople == old(numPeople) && previousNumPeople == old(previousNumPeople)
    {
      var i := 0;
      while i < numPeople
        invariant 0 <= i && (numPeople >= 0 ==> i <= numPeople) && (numPeople < 0 ==> i == 0)
        invariant numPeople == old(numPeople) && previousNumPeople == old(previousNumPeople)
        invariant people == old(people) + Appended(prefabHasPerson, spawn, |old(people)|, i)
      {
        var person := CreatePerson(spawn(|people|));
        AppendedGrowsByOne(prefabHasPerson, spawn, |old(people)|, i);
        people := people + [person];
        i := i + 1;
      }
    }

    method AdjustNumberOfPeople(spawn: nat -> T) returns (fault: Option<Fault>)
      modifies this
      ensures (people, fault) == Adjusted(old(people), numPeople, prefabHasPerson, spawn)
      ensures numPeople == old(numPeople) && previousNumPeople == old(previousNumPeople)
    {
      fault := None;
      if numPeople > |people| {
        AddPeople(numPeople - |people|, spawn);
      } else if numPeople < |people| {
        fault := RemovePeople(|people| - numPeople);
      }
    }

    /** Appends `count` newly created people; the existing entries keep their
        places. A `null` from `CreatePerson` is appended like any other. */
    method AddPeople(count: int, spawn: nat -> T)
      modifies this
      ensures people == old(people) + Appended(prefabHasPerson, spawn, |old(people)|, count)
      ensures numPeople == old(numPeople) && previousNumPeople == old(previousNumPeople)
    {
      var i := 0;
      while i < count
        invariant 0 <= i && (count >= 0 ==> i <= count) && (count < 0 ==> i == 0)
        invariant numPeople == old(numPeople) && previousNumPeople == old(previousNumPeople)
        invariant people == old(people) + Appended(prefabHasPerson, spawn, |old(people)|, i)
      {
        var person := CreatePerson(spawn(|people|));
        AppendedGrowsByOne(prefabHasPerson, spawn, |old(people)|, i);
        people := people + [person];
        i := i + 1;
      }
    }

    /** Destroys and removes the last entry `count` times. */
    method RemovePeople(count: int) returns (fault: Option<Fault>)
      modifies this
      ensures (people, fault) == RemoveFromTail(old(people), count)
      ensures numPeople == old(numPeople) && previousNumPeople == old(previousNumPeople)
    {
      fault := None;
      var i := 0;
      while i < count
        invariant 0 <= i && (count >= 0 ==> i <= count)
        invariant numPeople == old(numPeople) && previousNumPeople == old(previousNumPeople)
        invariant RemoveFromTail(people, count - i) == RemoveFromTail(old(people), count)
      {
        var lastIndex := |people| - 1;
        if lastIndex < 0 {
          fault := Some(ArgumentOutOfRange);
          return;
        }
        if people[lastIndex].None? {
          fault := Some(NullReference);
          return;
        }
        people := people[..lastIndex];
        i := i + 1;
      }
    }

    /** `CreatePerson`: the instantiated person, or `null` when the prefab has
        no `Person` component. */
    method CreatePerson(spawned: T) returns (person: Option<T>)
      ensures person.Some? <==> prefabHasPerson
      ensures person.Some? ==> person.value == spawned
    {
      if prefabHasPerson {
        person := Some(spawned);
      } else {
        person := None;
      }
    }
  }
}

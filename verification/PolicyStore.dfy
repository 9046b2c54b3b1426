/** The reference store of update policy (crates/guardian-core/src/ports.rs): an ordered list of
    observations that `apply` and `restore` change in place. */
module PolicyStore {
  import opened Prelude
  import opened UpdatePolicy

  datatype Result<T> = Ok(value: T) | Err(error: string)

  /** A value as it was found first; `None` means it did not exist. */
  datatype OwnedPolicy = OwnedPolicy(key: Key, value: Option<PolValue>, createdKey: bool)

  type Store = seq<PolicyObservation>

  // --- Specification ------------------------------------------------------------------------

  function Without(s: Store, key: Key): Store {
    if s == [] then []
    else if s[0].key == key then Without(s[1..], key)
    else [s[0]] + Without(s[1..], key)
  }

  function Put(s: Store, key: Key, value: PolValue): Store {
    Without(s, key) + [PolicyObservation(key, Some(value))]
  }

  function ApplyOne(s: Store, w: PolicyWrite): Store {
    if Lookup(s, w.key) == Some(w.value) then s else Put(s, w.key, w.value)
  }

  function ApplyAll(s: Store, ws: seq<PolicyWrite>): Store {
    if ws == [] then s else ApplyOne(ApplyAll(s, ws[..|ws| - 1]), ws[|ws| - 1])
  }

  function Written(s: Store, ws: seq<PolicyWrite>): seq<PolicyWrite> {
    if ws == [] then []
    else
      var before := ApplyAll(s, ws[..|ws| - 1]);
      var w := ws[|ws| - 1];
      Written(s, ws[..|ws| - 1]) + (if Lookup(before, w.key) == Some(w.value) then [] else [w])
  }

  function RestoreOne(s: Store, o: OwnedPolicy): Store {
    if o.value.None? then Without(s, o.key) else Put(s, o.key, o.value.value)
  }

  function RestoreAll(s: Store, os: seq<OwnedPolicy>): Store {
    if os == [] then s else RestoreOne(RestoreAll(s, os[..|os| - 1]), os[|os| - 1])
  }

  // --- Implementation -----------------------------------------------------------------------

  class UpdateBackend {
    var store: Store
    var management: ManagementState
    var applyCalls: nat
    var restoreCalls: nat
    var failWith: Option<string>
    var unreadable: seq<string>

    constructor ()
      ensures store == [] && management == Unmanaged && failWith == None && unreadable == []
      ensures applyCalls == 0 && restoreCalls == 0
    {
      store, management, applyCalls, restoreCalls := [], Unmanaged, 0, 0;
      failWith, unreadable := None, [];
    }

    /** What a read of the present state returns. */
    function ReadResult(): Result<PolicyReadback>
      reads this
    {
      if failWith.Some? then Err(failWith.value) else Ok(PolicyReadback(store, unreadable, unreadable == []))
    }

    function Get(key: Key): Option<PolValue>
      reads this
    {
      Lookup(store, key)
    }

    /** Seeds a value; the other keys keep theirs. */
    method Set(key: Key, value: PolValue)
      modifies this`store
      ensures store == Put(old(store), key, value)
      ensures Get(key) == Some(value) && forall k :: k != key ==> Get(k) == old(Get(k))
    {
      Retain(key);
      store := store + [PolicyObservation(key, Some(value))];
      forall k ensures Lookup(store, k) == if k == key then Some(value) else Lookup(old(store), k) {
        LookupPut(old(store), key, value, k);
      }
    }

    method Read() returns (r: Result<PolicyReadback>)
      ensures r == ReadResult()
    {
      if failWith.Some? {
        return Err(failWith.value);
      }
      if unreadable != [] {
        return Ok(PolicyReadback(store, unreadable, false));
      }
      return Ok(PolicyReadback(store, [], true));
    }

    /** Drops every entry for the key, keeping the others in order. */
    method Retain(key: Key)
      modifies this`store
      ensures store == Without(old(store), key)
    {
      var kept: Store := [];
      var i := 0;
      while i < |store|
        invariant i <= |store| && store == old(store)
        invariant kept + Without(store[i..], key) == Without(store, key)
      {
        if store[i].key != key {
          kept := kept + [store[i]];
        }
        i := i + 1;
      }
      store := kept;
    }

    method Apply(desired: seq<PolicyWrite>) returns (r: Result<seq<PolicyWrite>>)
      modifies this`store, this`applyCalls
      ensures applyCalls == old(applyCalls) + 1
      ensures failWith.Some? ==> r == Err(failWith.value) && store == old(store)
      ensures failWith.None? ==> r == Ok(Written(old(store), desired)) && store == ApplyAll(old(store), desired)
    {
      applyCalls := applyCalls + 1;
      if failWith.Some? {
        return Err(failWith.value);
      }
      var written := [];
      for i := 0 to |desired|
        invariant applyCalls == old(applyCalls) + 1
        invariant store == ApplyAll(old(store), desired[..i])
        invariant written == Written(old(store), desired[..i])
      {
        var w := desired[i];
        assert desired[..i + 1][..i] == desired[..i];
        if Lookup(store, w.key) != Some(w.value) {
          Retain(w.key);
          store := store + [PolicyObservation(w.key, Some(w.value))];
          written := written + [w];
        }
      }
      assert desired[..|desired|] == desired;
      return Ok(written);
    }

    method Restore(original: seq<OwnedPolicy>) returns (r: Result<()>)
      modifies this`store, this`restoreCalls
      ensures restoreCalls == old(restoreCalls) + 1
      ensures failWith.Some? ==> r == Err(failWith.value) && store == old(store)
      ensures failWith.None? ==> r == Ok(()) && store == RestoreAll(old(store), original)
    {
      restoreCalls := restoreCalls + 1;
      if failWith.Some? {
        return Err(failWith.value);
      }
      for i := 0 to |original|
        invariant restoreCalls == old(restoreCalls) + 1
        invariant store == RestoreAll(old(store), original[..i])
      {
        var o := original[i];
        assert original[..i + 1][..i] == original[..i];
        Retain(o.key);
        if o.value.Some? {
          store := store + [PolicyObservation(o.key, o.value)];
        }
      }
      assert original[..|original|] == original;
      return Ok(());
    }
  }

  // --- Laws of the store ------------------------------------------------------------------------

  /** Dropping a key takes away all its entries and no other, however often any occurs. */
  lemma {:induction false} WithoutKeepsOthers(s: Store, key: Key, o: PolicyObservation)
    ensures multiset(Without(s, key))[o] == if o.key == key then 0 else multiset(s)[o]
  {
    if s != [] {
      WithoutKeepsOthers(s[1..], key, o);
      assert s == [s[0]] + s[1..];
    }
  }

  /** The other entries keep their order, and a value that is put comes after all of them. */
  lemma {:induction false} StoreOrder(s: Store, key: Key, value: PolValue, i: nat, j: nat)
    requires i < j < |s| && s[i].key != key && s[j].key != key
    ensures exists a, b :: 0 <= a < b < |Without(s, key)| && Without(s, key)[a] == s[i] && Without(s, key)[b] == s[j]
    ensures Put(s, key, value) == Without(s, key) + [PolicyObservation(key, Some(value))]
  {
    var rest, all := Without(s[1..], key), Without(s, key);
    var shift := if s[0].key == key then 0 else 1;
    if i > 0 {
      StoreOrder(s[1..], key, value, i - 1, j - 1);
      var a, b :| 0 <= a < b < |rest| && rest[a] == s[1..][i - 1] && rest[b] == s[1..][j - 1];
      assert all[a + shift] == s[i] && all[b + shift] == s[j];
    } else {
      StaysThere(s[1..], key, j - 1);
      var b :| 0 <= b < |rest| && rest[b] == s[1..][j - 1];
      assert all[0] == s[0] && all[b + 1] == s[j];
    }
  }

  lemma {:induction false} StaysThere(s: Store, key: Key, j: nat)
    requires j < |s| && s[j].key != key
    ensures s[j] in Without(s, key)
  {
    if j > 0 {
      StaysThere(s[1..], key, j - 1);
    }
  }

  lemma {:induction false} LookupWithout(s: Store, key: Key, k: Key)
    ensures Lookup(Without(s, key), k) == if k == key then None else Lookup(s, k)
  {
    if s != [] {
      LookupWithout(s[1..], key, k);
    }
  }

  lemma {:induction false} LookupAppended(s: Store, o: PolicyObservation, k: Key)
    requires forall x :: x in s ==> x.key != o.key
    ensures Lookup(s + [o], k) == if k == o.key then o.value else Lookup(s, k)
  {
    if s != [] {
      assert (s + [o])[1..] == s[1..] + [o];
      LookupAppended(s[1..], o, k);
    } else {
      assert s + [o] == [o];
    }
  }

  lemma {:induction false} WithoutHasNone(s: Store, key: Key)
    ensures forall x :: x in Without(s, key) ==> x.key != key
  {
    if s != [] {
      WithoutHasNone(s[1..], key);
    }
  }

  lemma LookupPut(s: Store, key: Key, value: PolValue, k: Key)
    ensures Lookup(Put(s, key, value), k) == if k == key then Some(value) else Lookup(s, k)
  {
    WithoutHasNone(s, key);
    LookupWithout(s, key, k);
    LookupAppended(Without(s, key), PolicyObservation(key, Some(value)), k);
  }

  /** The value the last write for the key asks for. */
  function Wanted(ws: seq<PolicyWrite>, key: Key): Option<PolValue> {
    if ws == [] then None
    else if ws[|ws| - 1].key == key then Some(ws[|ws| - 1].value)
    else Wanted(ws[..|ws| - 1], key)
  }

  /** After an apply, a key reads as the last write for it asks, and any other key as before. */
  lemma {:induction false} ApplyLookup(s: Store, ws: seq<PolicyWrite>, k: Key)
    ensures Lookup(ApplyAll(s, ws), k) == if Wanted(ws, k).Some? then Wanted(ws, k) else Lookup(s, k)
  {
    if ws != [] {
      var w := ws[|ws| - 1];
      hide Put, Lookup;
      ApplyLookup(s, ws[..|ws| - 1], k);
      LookupPut(ApplyAll(s, ws[..|ws| - 1]), w.key, w.value, k);
    }
  }

  predicate Conforms(s: Store, ws: seq<PolicyWrite>) {
    forall w :: w in ws ==> Lookup(s, w.key) == Some(w.value)
  }

  /** Nothing is written exactly when the store already conforms, and then it is not touched at all. */
  lemma {:induction false} WrittenNothing(s: Store, ws: seq<PolicyWrite>)
    ensures Written(s, ws) == [] <==> Conforms(s, ws)
    ensures Conforms(s, ws) ==> ApplyAll(s, ws) == s
  {
    if ws != [] {
      hide Lookup, Put;
      WrittenNothing(s, ws[..|ws| - 1]);
      assert ws == ws[..|ws| - 1] + [ws[|ws| - 1]];
    }
  }

  /** No two writes ask for different values of one key. */
  predicate Agreeing(ws: seq<PolicyWrite>) {
    forall v, w :: v in ws && w in ws && v.key == w.key ==> v.value == w.value
  }

  lemma {:induction false} WantedIsOneOf(ws: seq<PolicyWrite>, w: PolicyWrite)
    requires w in ws
    ensures Wanted(ws, w.key).Some? && PolicyWrite(w.key, Wanted(ws, w.key).value) in ws
  {
    assert ws == ws[..|ws| - 1] + [ws[|ws| - 1]];
    if ws[|ws| - 1].key != w.key {
      WantedIsOneOf(ws[..|ws| - 1], w);
    }
  }

  /** Applying again writes nothing exactly when the writes agree, whatever the store was. */
  lemma ApplyIsIdempotentExactly(s: Store, ws: seq<PolicyWrite>)
    ensures Written(ApplyAll(s, ws), ws) == [] <==> Agreeing(ws)
    ensures Agreeing(ws) ==> ApplyAll(ApplyAll(s, ws), ws) == ApplyAll(s, ws)
  {
    hide Lookup, Put, ApplyAll, Written;
    var s' := ApplyAll(s, ws);
    WrittenNothing(s', ws);
    forall w | w in ws
      ensures Wanted(ws, w.key).Some? && Lookup(s', w.key) == Wanted(ws, w.key)
      ensures PolicyWrite(w.key, Wanted(ws, w.key).value) in ws
    {
      WantedIsOneOf(ws, w);
      ApplyLookup(s, ws, w.key);
    }
  }

  predicate DistinctKeys(ws: seq<PolicyWrite>) {
    forall i, j :: 0 <= i < j < |ws| ==> ws[i].key != ws[j].key
  }

  /** The writes the store does not conform to, in order. */
  function Differing(s: Store, ws: seq<PolicyWrite>): seq<PolicyWrite> {
    if ws == [] then []
    else
      var w := ws[|ws| - 1];
      Differing(s, ws[..|ws| - 1]) + (if Lookup(s, w.key) == Some(w.value) then [] else [w])
  }

  lemma {:induction false} NotWanted(ws: seq<PolicyWrite>, key: Key)
    requires forall w :: w in ws ==> w.key != key
    ensures Wanted(ws, key).None?
  {
    if ws != [] {
      NotWanted(ws[..|ws| - 1], key);
    }
  }

  /** With one write a key, only values that differ from the original store are written. */
  lemma {:induction false} WrittenIsTheDifference(s: Store, ws: seq<PolicyWrite>)
    requires DistinctKeys(ws)
    ensures Written(s, ws) == Differing(s, ws)
  {
    if ws != [] {
      hide Lookup, ApplyAll;
      var rest := ws[..|ws| - 1];
      WrittenIsTheDifference(s, rest);
      NotWanted(rest, ws[|ws| - 1].key);
      ApplyLookup(s, rest, ws[|ws| - 1].key);
    }
  }

  // --- Rollback -------------------------------------------------------------------------------

  /** What the record says the key was; the last entry for a key decides. */
  function Recorded(os: seq<OwnedPolicy>, key: Key): Option<OwnedPolicy> {
    if os == [] then None
    else if os[|os| - 1].key == key then Some(os[|os| - 1])
    else Recorded(os[..|os| - 1], key)
  }

  lemma {:induction false} RestoreLookup(s: Store, os: seq<OwnedPolicy>, k: Key)
    ensures Lookup(RestoreAll(s, os), k) ==
            if Recorded(os, k).Some? then Recorded(os, k).value.value else Lookup(s, k)
  {
    if os != [] {
      hide Lookup, Put, Without;
      var o := os[|os| - 1];
      RestoreLookup(s, os[..|os| - 1], k);
      var before := RestoreAll(s, os[..|os| - 1]);
      LookupWithout(before, o.key, k);
      if o.value.Some? {
        LookupPut(before, o.key, o.value.value, k);
      }
    }
  }

  /** The record holds the first store's value of every owned key, and of no other key. */
  predicate Records(os: seq<OwnedPolicy>, first: Store, owned: set<Key>) {
    && (forall o :: o in os ==> o.key in owned && o.value == Lookup(first, o.key))
    && (forall k :: k in owned ==> exists o :: o in os && o.key == k)
  }

  lemma {:induction false} RecordedIsOneOf(os: seq<OwnedPolicy>, k: Key)
    ensures Recorded(os, k).Some? <==> exists o :: o in os && o.key == k
    ensures Recorded(os, k).Some? ==> Recorded(os, k).value in os && Recorded(os, k).value.key == k
  {
    if os != [] {
      RecordedIsOneOf(os[..|os| - 1], k);
      assert os == os[..|os| - 1] + [os[|os| - 1]];
    }
  }

  /** Whatever happened to the store since the originals were recorded, restoring them makes every owned
      key read as it did first, absent where it was absent, and changes how no other key reads. */
  lemma RollbackUndoesEverythingOwned(first: Store, later: Store, os: seq<OwnedPolicy>, owned: set<Key>, k: Key)
    requires Records(os, first, owned)
    ensures Lookup(RestoreAll(later, os), k) == if k in owned then Lookup(first, k) else Lookup(later, k)
  {
    hide Lookup, RestoreAll;
    RestoreLookup(later, os, k);
    RecordedIsOneOf(os, k);
  }

  // --- Convergence ------------------------------------------------------------------------------

  lemma DesiredKeysAreDistinct()
    ensures DistinctKeys(ALL_DESIRED)
  {
    assert |"NoAutoUpdate"| == 12 && |"NoAutoRebootWithLoggedOnUsers"| == 29 && |"AlwaysAutoRebootAtScheduledTime"| == 31;
    assert |"SetAutoRestartDeadline"| == 22 && |"SetAutoRestartNotificationConfig"| == 32 && |"SetUpdateNotificationLevel"| == 26;
  }

  lemma {:induction false} WantedOfDistinct(ws: seq<PolicyWrite>, w: PolicyWrite)
    requires DistinctKeys(ws) && w in ws
    ensures Wanted(ws, w.key) == Some(w.value)
  {
    assert ws == ws[..|ws| - 1] + [ws[|ws| - 1]];
    if ws[|ws| - 1] != w {
      WantedOfDistinct(ws[..|ws| - 1], w);
    }
  }

  /** `part` may be given instead of `ALL_DESIRED`: it holds every unsatisfied entry and nothing that is
      not desired. */
  predicate Repairs(s: Store, part: seq<PolicyWrite>) {
    && (forall w :: w in part ==> w in ALL_DESIRED)
    && (forall w :: w in ALL_DESIRED && !Satisfied(s, w) ==> w in part)
  }

  lemma {:induction false} SameKeySameWrite(v: PolicyWrite, w: PolicyWrite)
    requires v in ALL_DESIRED && w in ALL_DESIRED && v.key == w.key
    ensures v == w
  {
    DesiredKeysAreDistinct();
  }

  lemma {:induction false} RepairSatisfies(s: Store, part: seq<PolicyWrite>, w: PolicyWrite)
    requires Repairs(s, part) && w in ALL_DESIRED
    ensures Satisfied(ApplyAll(s, part), w)
    ensures !Tampered(ApplyAll(s, part), w)
  {
    ApplyLookup(s, part, w.key);
    if w in part {
      WantedIsOneOf(part, w);
      SameKeySameWrite(w, PolicyWrite(w.key, Wanted(part, w.key).value));
    } else {
      assert Satisfied(s, w);
      if Wanted(part, w.key).Some? {
        WantedIsKeyed(part, w.key);
        SameKeySameWrite(w, PolicyWrite(w.key, Wanted(part, w.key).value));
      }
    }
  }

  lemma {:induction false} WantedIsKeyed(ws: seq<PolicyWrite>, key: Key)
    requires Wanted(ws, key).Some?
    ensures PolicyWrite(key, Wanted(ws, key).value) in ws
  {
    assert ws == ws[..|ws| - 1] + [ws[|ws| - 1]];
    if ws[|ws| - 1].key != key {
      WantedIsKeyed(ws[..|ws| - 1], key);
    }
  }

  /** One pass converges, for every store: after applying the writes of an analysis, the next analysis
      has no writes and no tamper and, on a readable, unmanaged host, is Protected; a key outside the
      writes reads as before. The same holds when everything desired is applied. */
  lemma OnePassConverges(s: Store, part: seq<PolicyWrite>, managed: ManagementState, unreadable: seq<string>, k: Key)
    requires part == Analysed(PolicyReadback(s, unreadable, unreadable == []), managed, None).writesNeeded
          || part == ALL_DESIRED
    ensures var s' := ApplyAll(s, part);
            var a := Analysed(PolicyReadback(s', unreadable, unreadable == []), managed, None);
            && a.writesNeeded == [] && a.tamper == []
            && (a.level.Protected? <==> managed.Unmanaged? && unreadable == [])
            && ((forall w :: w in part ==> w.key != k) ==> Lookup(s', k) == Lookup(s, k))
  {
    var before := PolicyReadback(s, unreadable, unreadable == []);
    var s' := ApplyAll(s, part);
    var after := PolicyReadback(s', unreadable, unreadable == []);
    AnalysedWrites(before, managed);
    AnalysedWrites(after, managed);
    ProtectedExactly(after, managed, None);
    hide Analysed, WritesFor, TamperFor, Satisfied, Tampered, Lookup, ALL_DESIRED;
    WritesAreTheUnsatisfied(s, ALL_DESIRED);
    WritesAreTheUnsatisfied(s', ALL_DESIRED);
    TamperIsPresentAndWrong(s', ALL_DESIRED);
    forall w | w in ALL_DESIRED ensures Satisfied(s', w) && !Tampered(s', w) {
      RepairSatisfies(s, part, w);
    }
    Emptiness(WritesFor(s', ALL_DESIRED));
    Emptiness(TamperFor(s', ALL_DESIRED));
    ApplyLookup(s, part, k);
    if forall w :: w in part ==> w.key != k {
      NotWanted(part, k);
    }
  }

  lemma Emptiness<T>(s: seq<T>)
    ensures (forall x :: x !in s) ==> s == []
  {
    if s != [] {
      assert s[0] in s;
    }
  }
}

/** The repair of a list whose entries carry ids: each entry is repaired or dropped, and of several
    with one id the first survives. The three lists of the configuration share it. */
module KeepFirst {
  import opened Prelude

  function Keep<T(==)>(items: seq<T>, fix: T -> Option<T>, id: T -> string): seq<T> {
    if items == [] then []
    else
      var kept := Keep(items[..|items| - 1], fix, id);
      var fixed := fix(items[|items| - 1]);
      if fixed.None? || HasId(kept, id, id(fixed.value)) then kept else kept + [fixed.value]
  }

  predicate HasId<T(==)>(items: seq<T>, id: T -> string, key: string) {
    exists x :: x in items && id(x) == key
  }

  ghost predicate DistinctIds<T(!new)>(items: seq<T>, id: T -> string) {
    forall i, j :: 0 <= i < j < |items| ==> id(items[i]) != id(items[j])
  }

  /** Repairing a repaired entry changes nothing. */
  ghost predicate Settles<T(!new)>(fix: T -> Option<T>) {
    forall x :: fix(x).Some? ==> fix(fix(x).value) == fix(x)
  }

  /** Where the kept entries come from. */
  function Origins<T(==)>(items: seq<T>, fix: T -> Option<T>, id: T -> string): seq<nat> {
    if items == [] then []
    else
      var front := items[..|items| - 1];
      var fixed := fix(items[|items| - 1]);
      Origins(front, fix, id)
      + (if fixed.None? || HasId(Keep(front, fix, id), id, id(fixed.value)) then [] else [|items| - 1])
  }

  lemma {:induction false} KeepHasDistinctIds<T(!new)>(items: seq<T>, fix: T -> Option<T>, id: T -> string)
    ensures DistinctIds(Keep(items, fix, id), id)
  {
    if items != [] {
      KeepHasDistinctIds(items[..|items| - 1], fix, id);
    }
  }

  lemma {:induction false} KeepIsFixed<T(!new)>(items: seq<T>, fix: T -> Option<T>, id: T -> string)
    requires Settles(fix)
    ensures forall x :: x in Keep(items, fix, id) ==> fix(x) == Some(x)
  {
    if items != [] {
      KeepIsFixed(items[..|items| - 1], fix, id);
    }
  }

  /** A list is left alone exactly when every entry is and no id repeats. */
  lemma {:induction false} KeepChangesNothing<T(!new)>(items: seq<T>, fix: T -> Option<T>, id: T -> string)
    requires Settles(fix)
    ensures Keep(items, fix, id) == items <==> (forall x :: x in items ==> fix(x) == Some(x)) && DistinctIds(items, id)
  {
    if Keep(items, fix, id) == items {
      KeepIsFixed(items, fix, id);
      KeepHasDistinctIds(items, fix, id);
    }
    if (forall x :: x in items ==> fix(x) == Some(x)) && DistinctIds(items, id) {
      KeepsGoodList(items, fix, id);
    }
  }

  lemma {:induction false} KeepsGoodList<T(!new)>(items: seq<T>, fix: T -> Option<T>, id: T -> string)
    requires (forall x :: x in items ==> fix(x) == Some(x)) && DistinctIds(items, id)
    ensures Keep(items, fix, id) == items
  {
    if items != [] {
      var front, last := items[..|items| - 1], items[|items| - 1];
      assert items == front + [last];
      KeepsGoodList(front, fix, id);
      assert !HasId(front, id, id(last));
    }
  }

  /** Kept entries are repairs of entries of the list, in their order. */
  lemma {:induction false} KeptInOrder<T(!new)>(items: seq<T>, fix: T -> Option<T>, id: T -> string)
    ensures var kept, from := Keep(items, fix, id), Origins(items, fix, id);
            && |from| == |kept|
            && (forall i :: 0 <= i < |from| ==> from[i] < |items| && fix(items[from[i]]) == Some(kept[i]))
            && (forall i, j :: 0 <= i < j < |from| ==> from[i] < from[j])
  {
    if items != [] {
      KeptInOrder(items[..|items| - 1], fix, id);
    }
  }

  /** Entry `j` has its id kept, from itself or an earlier entry. */
  ghost predicate Represented<T(!new)>(items: seq<T>, fix: T -> Option<T>, id: T -> string, j: nat)
    requires j < |items| && fix(items[j]).Some?
  {
    var kept, from := Keep(items, fix, id), Origins(items, fix, id);
    exists i :: 0 <= i < |from| && i < |kept| && from[i] <= j && id(kept[i]) == id(fix(items[j]).value)
  }

  /** Nothing usable is lost but to an earlier entry with its id. With distinct ids among the kept, each
      is therefore the first usable entry with its id. */
  lemma {:induction false} UsableIsRepresented<T(!new)>(items: seq<T>, fix: T -> Option<T>, id: T -> string, j: nat)
    requires j < |items| && fix(items[j]).Some?
    ensures Represented(items, fix, id, j)
  {
    var front := items[..|items| - 1];
    var before, kept := Keep(front, fix, id), Keep(items, fix, id);
    var earlier, from := Origins(front, fix, id), Origins(items, fix, id);
    KeptInOrder(front, fix, id);
    KeptInOrder(items, fix, id);
    var key := id(fix(items[j]).value);
    if j < |front| {
      UsableIsRepresented(front, fix, id, j);
      var i :| 0 <= i < |earlier| && i < |before| && earlier[i] <= j && id(before[i]) == key;
      assert from[i] <= j && id(kept[i]) == key;
    } else if HasId(before, id, key) {
      var x :| x in before && id(x) == key;
      var i :| 0 <= i < |before| && before[i] == x;
      assert from[i] <= j && id(kept[i]) == key;
    } else {
      var i := |from| - 1;
      assert from[i] <= j && id(kept[i]) == key;
    }
  }

  /** Something is kept exactly when something is usable. */
  lemma KeepsSomething<T(!new)>(items: seq<T>, fix: T -> Option<T>, id: T -> string)
    ensures Keep(items, fix, id) != [] <==> exists x :: x in items && fix(x).Some?
  {
    KeptInOrder(items, fix, id);
    var kept := Keep(items, fix, id);
    if kept != [] {
      var x := items[Origins(items, fix, id)[0]];
      assert x in items && fix(x).Some?;
    }
    if x: T :| x in items && fix(x).Some? {
      var j :| 0 <= j < |items| && items[j] == x;
      UsableIsRepresented(items, fix, id, j);
    }
  }

  lemma {:induction false} KeepIsNoLonger<T(!new)>(items: seq<T>, fix: T -> Option<T>, id: T -> string)
    ensures |Keep(items, fix, id)| <= |items|
  {
    if items != [] {
      KeepIsNoLonger(items[..|items| - 1], fix, id);
    }
  }
}

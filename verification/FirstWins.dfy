/**
 An index in which the first item of a list wins, for any way of naming items: looking a name up is
 scanning the list for the first item that has it.
 */
module FirstWins {
  import opened Text

  /** The first item in the list that has the name. */
  function First<T>(names: T -> set<string>, items: seq<T>, name: string): Option<T> {
    if items == [] then None
    else if name in names(items[0]) then Some(items[0])
    else First(names, items[1..], name)
  }

  function Indexed<T>(names: T -> set<string>, items: seq<T>): map<string, T> {
    if items == [] then map[]
    else
      var item := items[|items| - 1];
      (map a | a in names(item) :: item) + Indexed(names, items[..|items| - 1])
  }

  function Lookup<T>(index: map<string, T>, name: string): Option<T> {
    if name in index then Some(index[name]) else None
  }

  lemma {:induction false} FirstAppend<T>(names: T -> set<string>, front: seq<T>, last: T, name: string)
    ensures First(names, front + [last], name) ==
      if First(names, front, name).Some? then First(names, front, name)
      else if name in names(last) then Some(last) else None
  {
    if front == [] {
      assert ([] + [last])[1..] == [];
    } else {
      assert (front + [last])[1..] == front[1..] + [last];
      FirstAppend(names, front[1..], last, name);
    }
  }

  lemma IndexedAppend<T>(names: T -> set<string>, front: seq<T>, last: T, name: string)
    ensures Lookup(Indexed(names, front + [last]), name) ==
      if Lookup(Indexed(names, front), name).Some? then Lookup(Indexed(names, front), name)
      else if name in names(last) then Some(last) else None
  {
    var items, added := front + [last], map a | a in names(last) :: last;
    assert items[..|items| - 1] == front;
    assert Indexed(names, items) == added + Indexed(names, front);
  }

  lemma {:induction false} IndexedScans<T>(names: T -> set<string>, items: seq<T>, name: string)
    ensures Lookup(Indexed(names, items), name) == First(names, items, name)
  {
    if items != [] {
      var front, last := items[..|items| - 1], items[|items| - 1];
      assert items == front + [last];
      IndexedScans(names, front, name);
      IndexedAppend(names, front, last, name);
      FirstAppend(names, front, last, name);
    }
  }

  /** Where the first item with the name stands; past the end when none has it. */
  ghost function Position<T>(names: T -> set<string>, items: seq<T>, name: string): (i: nat)
    ensures i <= |items| && forall j :: 0 <= j < i ==> name !in names(items[j])
    ensures First(names, items, name) == if i < |items| then Some(items[i]) else None
    ensures i < |items| ==> name in names(items[i])
  {
    if items == [] || name in names(items[0]) then 0
    else
      var i := Position(names, items[1..], name);
      assert forall j :: 0 < j < |items| ==> items[j] == items[1..][j - 1];
      i + 1
  }

  /** `item` has the name, and no other item that has it comes before `item`. */
  ghost predicate Earliest<T>(less: (T, T) -> bool, names: T -> set<string>, items: seq<T>, name: string, item: T) {
    && item in items && name in names(item)
    && forall other :: other in items && name in names(other) ==> !less(other, item)
  }

  /** In a sorted list the first item with the name is an earliest one. */
  lemma FirstOfSorted<T(!new)>(less: (T, T) -> bool, names: T -> set<string>, items: seq<T>, name: string)
    requires forall i, j :: 0 <= i <= j < |items| ==> !less(items[j], items[i])
    ensures match First(names, items, name)
      case Some(item) => Earliest(less, names, items, name, item)
      case None => forall item :: item in items ==> name !in names(item)
  {
    var i := Position(names, items, name);
    forall other | other in items && name in names(other) ensures i < |items| && !less(other, items[i]) {
      var j :| 0 <= j < |items| && items[j] == other;
    }
  }
}

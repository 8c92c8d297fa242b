/** The registrations of one scope as a value (registrationContext.go:102-152).

    A scope maps a canonical target name to its bindings, newest first. The
    head of a list is the binding in force for that name; removal looks for a
    binding by id, not by position.
 */
module Registry {
  import opened Wrappers
  import opened Registrations

  type Table = map<string, seq<TypeRegistration>>

  /** The name a binding is filed under. */
  function Key(b: TypeRegistration): string
  {
    b.targetType.typeName
  }

  /** The list for a name; a missing list reads as empty. */
  function Entries(regs: Table, name: string): seq<TypeRegistration>
  {
    if name in regs then regs[name] else []
  }

  /** findRegistration on an already formatted name. */
  function Head(regs: Table, name: string): Option<TypeRegistration>
  {
    if |Entries(regs, name)| == 0 then None else Some(Entries(regs, name)[0])
  }

  /** addRegistration: push to the front of the list for the binding's name. */
  function Push(regs: Table, b: TypeRegistration): Table
  {
    regs[Key(b) := [b] + Entries(regs, Key(b))]
  }

  /** Position of the first binding with this id. */
  function IndexOfId(l: seq<TypeRegistration>, id: int): (r: Option<nat>)
    ensures r.Some? ==> r.value < |l| && l[r.value].id == id
    ensures r.Some? ==> forall j :: 0 <= j < r.value ==> l[j].id != id
    ensures r.None? ==> forall j :: 0 <= j < |l| ==> l[j].id != id
  {
    if l == [] then None
    else if l[0].id == id then Some(0)
    else match IndexOfId(l[1..], id)
      case None => None
      case Some(i) => Some(i + 1)
  }

  /** The list without its first binding that has this id. */
  function RemoveById(l: seq<TypeRegistration>, id: int): seq<TypeRegistration>
  {
    if l == [] then []
    else if l[0].id == id then l[1..]
    else [l[0]] + RemoveById(l[1..], id)
  }

  /** removeRegistration's effect on the table: the list of the binding's
      name loses its first element with the binding's id; when there is none
      the table stays exactly as it was. */
  function Remove(regs: Table, b: TypeRegistration): Table
  {
    if IndexOfId(Entries(regs, Key(b)), b.id).None? then regs
    else regs[Key(b) := RemoveById(regs[Key(b)], b.id)]
  }

  /** removeRegistration's result. */
  predicate Removes(regs: Table, b: TypeRegistration)
  {
    IndexOfId(Entries(regs, Key(b)), b.id).Some?
  }

  predicate DistinctIds(l: seq<TypeRegistration>)
  {
    forall i, j :: 0 <= i < j < |l| ==> l[i].id != l[j].id
  }

  /** Every list holds bindings with distinct ids, all drawn from the
      registration counter (1 .. bound). */
  predicate WellFormed(regs: Table, bound: int)
  {
    forall name | name in regs ::
      DistinctIds(regs[name]) && forall i | 0 <= i < |regs[name]| :: 0 < regs[name][i].id <= bound
  }

  /** The loop of removeRegistration stops at the first match and splices
      it out: the recursive definition agrees with that. */
  lemma {:induction false} RemoveByIdSplices(l: seq<TypeRegistration>, id: int)
    ensures IndexOfId(l, id).None? ==> RemoveById(l, id) == l
    ensures IndexOfId(l, id).Some? ==>
              var i := IndexOfId(l, id).value; RemoveById(l, id) == l[..i] + l[i + 1..]
  {
    if l != [] && l[0].id != id {
      RemoveByIdSplices(l[1..], id);
      if IndexOfId(l, id).Some? {
        var i := IndexOfId(l, id).value;
        assert [l[0]] + l[1..][..i - 1] == l[..i];
        assert l[1..][i - 1 + 1..] == l[i + 1..];
      } else {
        assert [l[0]] + l[1..] == l;
      }
    }
  }

  /** In a list with distinct ids, removal by id drops exactly the binding
      with that id and keeps every other binding, in order. */
  lemma {:induction false} RemoveByIdExact(l: seq<TypeRegistration>, id: int)
    requires DistinctIds(l)
    ensures forall k :: 0 <= k < |RemoveById(l, id)| ==> RemoveById(l, id)[k] in l && RemoveById(l, id)[k].id != id
    ensures forall k :: 0 <= k < |l| && l[k].id != id ==> l[k] in RemoveById(l, id)
    ensures DistinctIds(RemoveById(l, id))
    ensures |RemoveById(l, id)| == if IndexOfId(l, id).Some? then |l| - 1 else |l|
  {
    if l != [] {
      assert DistinctIds(l[1..]) by {
        forall i, j | 0 <= i < j < |l[1..]| ensures l[1..][i].id != l[1..][j].id {
          assert l[1..][i] == l[i + 1] && l[1..][j] == l[j + 1];
        }
      }
      if l[0].id == id {
        forall x | x in l[1..] ensures x.id != id {
          var k :| 0 <= k < |l[1..]| && l[1..][k] == x;
          assert l[k + 1] == x;
        }
      } else {
        RemoveByIdExact(l[1..], id);
        var rest := RemoveById(l[1..], id);
        forall i, j | 0 <= i < j < |[l[0]] + rest| ensures ([l[0]] + rest)[i].id != ([l[0]] + rest)[j].id {
          if i == 0 {
            var x := rest[j - 1];
            assert x in rest;
            assert x in l[1..];
            var k :| 0 <= k < |l[1..]| && l[1..][k] == x;
            assert l[k + 1] == x;
          }
        }
      }
    }
  }

  /** Last one registered wins: after a push, the pushed binding is the head
      for its name, and no other name sees a difference. */
  lemma PushMakesHead(regs: Table, b: TypeRegistration, name: string)
    ensures Head(Push(regs, b), Key(b)) == Some(b)
    ensures name != Key(b) ==> Entries(Push(regs, b), name) == Entries(regs, name)
  {
  }

  /** Removal only touches the list of the binding's own name. */
  lemma RemoveKeepsOtherNames(regs: Table, b: TypeRegistration, name: string)
    requires name != Key(b)
    ensures Entries(Remove(regs, b), name) == Entries(regs, name)
  {
  }

  /** Removing a binding that is in its list drops exactly that binding. */
  lemma RemoveDropsExactly(regs: Table, b: TypeRegistration, bound: int)
    requires WellFormed(regs, bound)
    requires b in Entries(regs, Key(b))
    ensures Removes(regs, b)
    ensures forall x :: x in Entries(Remove(regs, b), Key(b)) <==> x in Entries(regs, Key(b)) && x != b
  {
    var l := Entries(regs, Key(b));
    var k :| 0 <= k < |l| && l[k] == b;
    assert IndexOfId(l, b.id).Some?;
    RemoveByIdExact(l, b.id);
    forall x | x in l && x.id == b.id ensures x == b {
      var i :| 0 <= i < |l| && l[i] == x;
      assert l[i].id == l[k].id;
      assert i == k;
    }
  }

  /** Removing the binding just pushed restores the list as it was before
      the push, so the previous binding is in force again. */
  lemma {:induction false} RemoveUndoesPush(regs: Table, b: TypeRegistration)
    ensures Entries(Remove(Push(regs, b), b), Key(b)) == Entries(regs, Key(b))
    ensures Head(Remove(Push(regs, b), b), Key(b)) == Head(regs, Key(b))
  {
    var l := [b] + Entries(regs, Key(b));
    assert Entries(Push(regs, b), Key(b)) == l;
    assert IndexOfId(l, b.id) == Some(0);
    assert RemoveById(l, b.id) == l[1..];
  }

  /** Removing a binding that is not the head leaves the head in force. */
  lemma RemoveBelowHeadKeepsHead(regs: Table, b: TypeRegistration)
    requires Head(regs, Key(b)).Some? && Head(regs, Key(b)).value.id != b.id
    ensures Head(Remove(regs, b), Key(b)) == Head(regs, Key(b))
  {
    var l := Entries(regs, Key(b));
    if IndexOfId(l, b.id).Some? {
      RemoveByIdSplices(l, b.id);
    }
  }

  /** Removing the only binding of a name leaves nothing for that name. */
  lemma RemoveLastLeavesNone(regs: Table, b: TypeRegistration)
    requires Entries(regs, Key(b)) == [b]
    ensures Head(Remove(regs, b), Key(b)) == None
  {
    assert IndexOfId([b], b.id) == Some(0);
  }

  /** A new binding whose id exceeds every id in use keeps the table well
      formed. */
  lemma PushKeepsWellFormed(regs: Table, b: TypeRegistration, bound: int)
    requires WellFormed(regs, bound) && 0 <= bound && b.id == bound + 1
    ensures WellFormed(Push(regs, b), bound + 1)
  {
    var l := [b] + Entries(regs, Key(b));
    var pushed := Push(regs, b);
    forall name | name in pushed
      ensures DistinctIds(pushed[name]) && forall i | 0 <= i < |pushed[name]| :: 0 < pushed[name][i].id <= bound + 1
    {
      if name == Key(b) {
        assert pushed[name] == l;
        var prior := Entries(regs, Key(b));
        forall i, j | 0 <= i < j < |l| ensures l[i].id != l[j].id {
          assert l[j] == prior[j - 1];
          if i > 0 {
            assert l[i] == prior[i - 1];
            assert DistinctIds(prior);
          } else {
            assert 0 < prior[j - 1].id <= bound;
          }
        }
        forall i | 0 < i < |l| ensures 0 < l[i].id <= bound {
          assert l[i] == Entries(regs, Key(b))[i - 1];
        }
      } else {
        assert pushed[name] == regs[name];
      }
    }
  }

  /** Removal keeps the table well formed. */
  lemma RemoveKeepsWellFormed(regs: Table, b: TypeRegistration, bound: int)
    requires WellFormed(regs, bound)
    ensures WellFormed(Remove(regs, b), bound)
  {
    if Removes(regs, b) {
      var l := regs[Key(b)];
      RemoveByIdExact(l, b.id);
      var r := RemoveById(l, b.id);
      forall i | 0 <= i < |r| ensures 0 < r[i].id <= bound {
        assert r[i] in r;
        assert r[i] in l;
      }
    }
  }

  /** Raising the counter keeps the table well formed. */
  lemma WellFormedGrows(regs: Table, bound: int, bound': int)
    requires WellFormed(regs, bound) && bound <= bound'
    ensures WellFormed(regs, bound')
  {
  }
}

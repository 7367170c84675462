// A batch of persons is ranged over in the arbitrary order of a Go map. Which batches
// succeed whatever the order, which fail whatever the order, and which depend on luck
// (store/persons.go).
module PersonsOrder {
  import opened Persons
  import opened Sequences

  predicate PasswordFine(hash: Hash, w: Wish) {
    w.newPassword == "" || (w.newPassword == w.repeatPassword && hash(w.newPassword).Some?)
  }

  // Administrators the batch demotes, keeps, deletes and asks for.
  function DemotedAdmins(b: Book, wishes: Wishes): set<string> {
    set id | id in Admins(b.persons) && id in wishes && !wishes[id].person.isAdmin
  }

  function KeptAdmins(b: Book, wishes: Wishes): set<string> {
    set id | id in Admins(b.persons) && id in wishes && wishes[id].person.isAdmin
  }

  function DeletedAdmins(b: Book, wishes: Wishes): set<string> {
    set id | id in Admins(b.persons) && id !in wishes
  }

  function WishedAdmins(wishes: Wishes): set<string> {
    set id | id in wishes && wishes[id].person.isAdmin
  }

  // What a client could check beforehand: passwords are fine; whoever is demoted
  // leaves another administrator standing during the first loop; whoever is deleted,
  // one after the second.
  predicate OrderProof(hash: Hash, b: Book, wishes: Wishes) {
    && (forall id :: id in wishes ==> PasswordFine(hash, wishes[id]))
    && (DemotedAdmins(b, wishes) != {} ==> KeptAdmins(b, wishes) + DeletedAdmins(b, wishes) != {})
    && (DeletedAdmins(b, wishes) != {} ==> WishedAdmins(wishes) != {})
  }

  lemma TwoAdmins(s: set<string>, x: string, y: string)
    requires x in s && y in s && x != y
    ensures |s| != 1
  {
    assert |s - {x}| == |s| - 1;
    assert y in s - {x};
  }

  lemma UpdateOk(hash: Hash, c: Book, id: string, w: Wish)
    requires PasswordFine(hash, w)
    requires Demotes(c, id, w) ==> |Admins(c.persons)| != 1
    ensures UpdateOne(hash, c, id, w).Ok?
  {
  }

  // The first loop succeeds when nobody is demoted, or an administrator a stays one.
  lemma {:induction false} UpdatesOk(hash: Hash, c: Book, wishes: Wishes, order: seq<string>, a: string)
    requires forall id :: id in order ==> id in wishes && PasswordFine(hash, wishes[id])
    requires Distinct(order)
    requires (forall id :: id in order ==> !Demotes(c, id, wishes[id]))
          || (a in Admins(c.persons) && (a in wishes ==> wishes[a].person.isAdmin))
    ensures Updates(hash, c, wishes, order).Ok?
    decreases |order|
  {
    if order != [] {
      var id := order[0];
      if Demotes(c, id, wishes[id]) {
        TwoAdmins(Admins(c.persons), id, a);
      }
      UpdateOk(hash, c, id, wishes[id]);
      UpdateGrants(hash, c, id, wishes[id]);
      DistinctTail(order);
      UpdatesOk(hash, UpdateOne(hash, c, id, wishes[id]).book, wishes, order[1..], a);
    }
  }

  // The second loop succeeds when no administrator is deleted, or a stays.
  lemma {:induction false} DeletesOk(c: Book, previous: map<string, Stored>, order: seq<string>, a: string)
    requires forall id :: id in order ==> id in previous && id in c.persons && c.persons[id] == previous[id]
    requires Distinct(order)
    requires (forall id :: id in order ==> !previous[id].person.isAdmin) || (a in Admins(c.persons) && a !in order)
    ensures Deletes(c, previous, order).Ok?
    decreases |order|
  {
    if order != [] {
      if previous[order[0]].person.isAdmin {
        TwoAdmins(Admins(c.persons), order[0], a);
      }
      DistinctTail(order);
      DeletesOk(Book(c.persons - {order[0]}, c.logouts + [order[0]]), previous, order[1..], a);
    }
  }

  lemma FirstLoopOk(hash: Hash, b: Book, wishes: Wishes, updates: seq<string>)
    requires OrderProof(hash, b, wishes) && Visits(updates, wishes.Keys)
    ensures Updates(hash, b, wishes, updates).Ok?
  {
    if DemotedAdmins(b, wishes) == {} {
      forall id | id in updates
        ensures !Demotes(b, id, wishes[id])
      {
        assert id !in DemotedAdmins(b, wishes);
      }
      UpdatesOk(hash, b, wishes, updates, "");
    } else {
      var a :| a in KeptAdmins(b, wishes) + DeletedAdmins(b, wishes);
      UpdatesOk(hash, b, wishes, updates, a);
    }
  }

  lemma SecondLoopOk(hash: Hash, b: Book, wishes: Wishes, updates: seq<string>, deletes: seq<string>)
    requires DeletedAdmins(b, wishes) != {} ==> WishedAdmins(wishes) != {}
    requires Visits(updates, wishes.Keys) && Visits(deletes, b.persons.Keys - wishes.Keys)
    requires Updates(hash, b, wishes, updates).Ok?
    ensures Deletes(Updates(hash, b, wishes, updates).book, b.persons, deletes).Ok?
  {
    var c := Updates(hash, b, wishes, updates).book;
    UpdatesGrant(hash, b, wishes, updates);
    forall id | id in deletes
      ensures id in c.persons && c.persons[id] == b.persons[id]
    {
      Untouched(hash, b, wishes, updates, id);
    }
    if DeletedAdmins(b, wishes) == {} {
      forall id | id in deletes
        ensures !b.persons[id].person.isAdmin
      {
        assert id !in DeletedAdmins(b, wishes);
      }
      DeletesOk(c, b.persons, deletes, "");
    } else {
      var a :| a in WishedAdmins(wishes);
      assert a in updates;
      DeletesOk(c, b.persons, deletes, a);
    }
  }

  // A batch that meets the condition succeeds whatever the order of the maps ...
  lemma SucceedsInEveryOrder(hash: Hash, b: Book, wishes: Wishes, updates: seq<string>, deletes: seq<string>)
    requires OrderProof(hash, b, wishes)
    requires Visits(updates, wishes.Keys) && Visits(deletes, b.persons.Keys - wishes.Keys)
    ensures Batch(hash, b, wishes, updates, deletes).Ok?
  {
    FirstLoopOk(hash, b, wishes, updates);
    SecondLoopOk(hash, b, wishes, updates, deletes);
  }

  // ... and any other fails in some order.
  lemma FailsInSomeOrder(hash: Hash, b: Book, wishes: Wishes) returns (updates: seq<string>, deletes: seq<string>)
    requires !OrderProof(hash, b, wishes)
    ensures Visits(updates, wishes.Keys) && Visits(deletes, b.persons.Keys - wishes.Keys)
    ensures Batch(hash, b, wishes, updates, deletes).Err?
  {
    deletes := Listing(b.persons.Keys - wishes.Keys);
    var demoted := Listing(DemotedAdmins(b, wishes));
    var others := Listing(wishes.Keys - DemotedAdmins(b, wishes));
    VisitsBoth(demoted, DemotedAdmins(b, wishes), others, wishes.Keys - DemotedAdmins(b, wishes));
    assert DemotedAdmins(b, wishes) + (wishes.Keys - DemotedAdmins(b, wishes)) == wishes.Keys;
    updates := demoted + others;
    if exists id :: id in wishes && !PasswordFine(hash, wishes[id]) {
      var id :| id in wishes && !PasswordFine(hash, wishes[id]);
      BadPasswordFails(hash, b, wishes, updates, id);
    } else if DeletedAdmins(b, wishes) != {} && WishedAdmins(wishes) == {} {
      var a :| a in DeletedAdmins(b, wishes);
      NoAdminWishedFails(hash, b, wishes, updates, deletes);
    } else {
      DemotionsFail(hash, b, wishes, demoted);
      UpdatesPrefix(hash, b, wishes, demoted, others);
    }
  }

  // Asking for no administrator at all fails in every order.
  lemma NoAdminWishedFails(hash: Hash, b: Book, wishes: Wishes, updates: seq<string>, deletes: seq<string>)
    requires Visits(updates, wishes.Keys) && Visits(deletes, b.persons.Keys - wishes.Keys)
    requires Admins(b.persons) != {} && WishedAdmins(wishes) == {}
    ensures Batch(hash, b, wishes, updates, deletes).Err?
  {
    var r := Batch(hash, b, wishes, updates, deletes);
    CallKeepsAdmin(hash, b, Many(wishes, updates, deletes));
    if r.Ok? {
      AdminsGranted(hash, b, wishes, updates, deletes);
    }
  }

  lemma AdminsGranted(hash: Hash, b: Book, wishes: Wishes, updates: seq<string>, deletes: seq<string>)
    requires Visits(updates, wishes.Keys) && Visits(deletes, b.persons.Keys - wishes.Keys)
    requires Batch(hash, b, wishes, updates, deletes).Ok?
    ensures Admins(Batch(hash, b, wishes, updates, deletes).book.persons) == WishedAdmins(wishes)
  {
    BatchGrants(hash, b, wishes, updates, deletes);
  }

  lemma {:induction false} BadPasswordFails(hash: Hash, b: Book, wishes: Wishes, order: seq<string>, id: string)
    requires forall x :: x in order ==> x in wishes
    requires id in order && !PasswordFine(hash, wishes[id])
    ensures Updates(hash, b, wishes, order).Err?
    decreases |order|
  {
    if order[0] != id {
      var r := UpdateOne(hash, b, order[0], wishes[order[0]]);
      if r.Ok? {
        BadPasswordFails(hash, r.book, wishes, order[1..], id);
      }
    }
  }

  // All administrators demoted before anybody is promoted: one demotion is refused.
  lemma DemotionsFail(hash: Hash, b: Book, wishes: Wishes, demoted: seq<string>)
    requires Visits(demoted, DemotedAdmins(b, wishes)) && DemotedAdmins(b, wishes) != {}
    requires KeptAdmins(b, wishes) + DeletedAdmins(b, wishes) == {}
    ensures Updates(hash, b, wishes, demoted).Err?
  {
    var a :| a in DemotedAdmins(b, wishes);
    UpdatesKeepAdmin(hash, b, wishes, demoted);
    var r := Updates(hash, b, wishes, demoted);
    if r.Ok? {
      AdminsLeft(hash, b, wishes, demoted);
    }
  }

  lemma AdminsLeft(hash: Hash, b: Book, wishes: Wishes, demoted: seq<string>)
    requires Visits(demoted, DemotedAdmins(b, wishes)) && Updates(hash, b, wishes, demoted).Ok?
    ensures Admins(Updates(hash, b, wishes, demoted).book.persons)
      <= KeptAdmins(b, wishes) + DeletedAdmins(b, wishes)
  {
    UpdatesGrant(hash, b, wishes, demoted);
    forall x | x in Admins(Updates(hash, b, wishes, demoted).book.persons)
      ensures x in KeptAdmins(b, wishes) + DeletedAdmins(b, wishes)
    {
      if x !in demoted {
        Untouched(hash, b, wishes, demoted, x);
      }
    }
  }

  lemma {:induction false} UpdatesPrefix(hash: Hash, b: Book, wishes: Wishes, first: seq<string>, rest: seq<string>)
    requires forall x :: x in first + rest ==> x in wishes
    requires forall x :: x in first ==> x in wishes
    requires Updates(hash, b, wishes, first).Err?
    ensures Updates(hash, b, wishes, first + rest).Err?
    decreases |first|
  {
    assert (first + rest)[1..] == first[1..] + rest;
    var r := UpdateOne(hash, b, first[0], wishes[first[0]]);
    if r.Ok? {
      UpdatesPrefix(hash, r.book, wishes, first[1..], rest);
    }
  }

  // ---- exactly when the order matters -------------------------------------------------

  ghost predicate SomeOrder(hash: Hash, b: Book, wishes: Wishes) {
    exists updates, deletes ::
      && Visits(updates, wishes.Keys) && Visits(deletes, b.persons.Keys - wishes.Keys)
      && Batch(hash, b, wishes, updates, deletes).Ok?
  }

  ghost predicate EveryOrder(hash: Hash, b: Book, wishes: Wishes) {
    forall updates, deletes ::
      Visits(updates, wishes.Keys) && Visits(deletes, b.persons.Keys - wishes.Keys)
      ==> Batch(hash, b, wishes, updates, deletes).Ok?
  }

  // What a client could check beforehand: passwords are fine, and if there are
  // administrators, one is asked for.
  predicate Attainable(hash: Hash, b: Book, wishes: Wishes) {
    && (forall id :: id in wishes ==> PasswordFine(hash, wishes[id]))
    && (Admins(b.persons) != {} ==> WishedAdmins(wishes) != {})
  }

  // The administrators asked for come first; then demoting and deleting leaves them.
  lemma AdminsFirst(hash: Hash, b: Book, wishes: Wishes) returns (updates: seq<string>)
    requires Attainable(hash, b, wishes)
    ensures Visits(updates, wishes.Keys) && Updates(hash, b, wishes, updates).Ok?
  {
    var wished, rest := WishedAdmins(wishes), wishes.Keys - WishedAdmins(wishes);
    var first := Listing(wished);
    var others := Listing(rest);
    VisitsBoth(first, wished, others, rest);
    assert wished + rest == wishes.Keys;
    updates := first + others;
    UpdatesOk(hash, b, wishes, first, "");
    UpdatesGrant(hash, b, wishes, first);
    OthersOk(hash, b, wishes, first, others);
    UpdatesConcat(hash, b, wishes, first, others);
  }

  lemma OthersOk(hash: Hash, b: Book, wishes: Wishes, first: seq<string>, others: seq<string>)
    requires Attainable(hash, b, wishes)
    requires Visits(first, WishedAdmins(wishes)) && Visits(others, wishes.Keys - WishedAdmins(wishes))
    requires Updates(hash, b, wishes, first).Ok?
    ensures Updates(hash, Updates(hash, b, wishes, first).book, wishes, others).Ok?
  {
    var c := Updates(hash, b, wishes, first).book;
    UpdatesGrant(hash, b, wishes, first);
    if WishedAdmins(wishes) != {} {
      var a :| a in WishedAdmins(wishes);
      assert a in first && a in Admins(c.persons);
      UpdatesOk(hash, c, wishes, others, a);
    } else {
      assert first == [];
      forall id | id in others ensures !Demotes(c, id, wishes[id]) {
        assert id !in Admins(b.persons);
      }
      UpdatesOk(hash, c, wishes, others, "");
    }
  }

  lemma SomeOrderIff(hash: Hash, b: Book, wishes: Wishes)
    ensures SomeOrder(hash, b, wishes) <==> Attainable(hash, b, wishes)
  {
    if Attainable(hash, b, wishes) {
      var updates := AdminsFirst(hash, b, wishes);
      var deletes := Listing(b.persons.Keys - wishes.Keys);
      assert DeletedAdmins(b, wishes) <= Admins(b.persons);
      SecondLoopOk(hash, b, wishes, updates, deletes);
      assert Batch(hash, b, wishes, updates, deletes).Ok?;
    } else {
      forall updates, deletes |
        Visits(updates, wishes.Keys) && Visits(deletes, b.persons.Keys - wishes.Keys)
        ensures Batch(hash, b, wishes, updates, deletes).Err?
      {
        FailsInEveryOrder(hash, b, wishes, updates, deletes);
      }
    }
  }

  lemma FailsInEveryOrder(hash: Hash, b: Book, wishes: Wishes, updates: seq<string>, deletes: seq<string>)
    requires !Attainable(hash, b, wishes)
    requires Visits(updates, wishes.Keys) && Visits(deletes, b.persons.Keys - wishes.Keys)
    ensures Batch(hash, b, wishes, updates, deletes).Err?
  {
    if exists id :: id in wishes && !PasswordFine(hash, wishes[id]) {
      var id :| id in wishes && !PasswordFine(hash, wishes[id]);
      BadPasswordFails(hash, b, wishes, updates, id);
    } else {
      NoAdminWishedFails(hash, b, wishes, updates, deletes);
    }
  }

  lemma EveryOrderIff(hash: Hash, b: Book, wishes: Wishes)
    ensures EveryOrder(hash, b, wishes) <==> OrderProof(hash, b, wishes)
  {
    if OrderProof(hash, b, wishes) {
      forall updates, deletes |
        Visits(updates, wishes.Keys) && Visits(deletes, b.persons.Keys - wishes.Keys)
        ensures Batch(hash, b, wishes, updates, deletes).Ok?
      {
        SucceedsInEveryOrder(hash, b, wishes, updates, deletes);
      }
    } else {
      var updates, deletes := FailsInSomeOrder(hash, b, wishes);
    }
  }

  // Success depends on the order of the map if and only if the batch is attainable and not
  // order-proof.
  lemma OrderMattersIff(hash: Hash, b: Book, wishes: Wishes)
    ensures SomeOrder(hash, b, wishes) && !EveryOrder(hash, b, wishes)
      <==> Attainable(hash, b, wishes) && !OrderProof(hash, b, wishes)
  {
    SomeOrderIff(hash, b, wishes);
    EveryOrderIff(hash, b, wishes);
  }

  // Such a batch: the only administrator hands the role over to somebody else.
  lemma HandOver(hash: Hash, b: Book, wishes: Wishes, one: string, two: string)
    requires Admins(b.persons) == {one} && wishes.Keys == {one, two}
    requires !wishes[one].person.isAdmin && wishes[two].person.isAdmin
    requires wishes[one].newPassword == "" && wishes[two].newPassword == ""
    ensures SomeOrder(hash, b, wishes) && !EveryOrder(hash, b, wishes)
  {
    OrderMattersIff(hash, b, wishes);
    assert one in DemotedAdmins(b, wishes) && two in WishedAdmins(wishes);
    assert KeptAdmins(b, wishes) + DeletedAdmins(b, wishes) == {};
  }
}

// What updates of persons leave when they fail, and with which error (store/persons.go,
// models/persons).
module PersonsFailures {
  import opened Persons
  import opened Sequences

  // The wish says what is stored already and asks for no new password.
  predicate NothingNew(b: Book, id: string, w: Wish) {
    id in b.persons && b.persons[id].person == w.person && w.password == "" && w.newPassword == ""
  }

  // It takes the role from the only administrator.
  predicate TakesLast(b: Book, id: string, w: Wish) {
    && id in b.persons && b.persons[id].person.isAdmin && !w.person.isAdmin
    && |set x | x in b.persons && b.persons[x].person.isAdmin| == 1
  }

  // The error of a single update, if any. A wish with nothing new never fails; otherwise the
  // last administrator is looked at before the passwords.
  function Fails(hash: Hash, b: Book, id: string, w: Wish): Option<Error> {
    if NothingNew(b, id, w) then None
    else if TakesLast(b, id, w) then Some(LastAdmin)
    else if w.newPassword != "" && w.newPassword != w.repeatPassword then Some(RepeatMismatch)
    else if w.newPassword != "" && hash(w.newPassword) == None then Some(HashFailed)
    else None
  }

  // A single update that fails changes nothing: nobody is stored, nobody logged out.
  lemma FailedUpdate(hash: Hash, b: Book, id: string, w: Wish)
    ensures match Fails(hash, b, id, w)
      case None => UpdateOne(hash, b, id, w).Ok?
      case Some(e) => UpdateOne(hash, b, id, w) == Err(e, b)
  {
    assert Admins(b.persons) == set x | x in b.persons && b.persons[x].person.isAdmin;
  }

  // The first loop stops at the first update that fails: those before it are made, and
  // nothing behind it is touched.
  lemma {:induction false} FailedUpdates(hash: Hash, b: Book, wishes: Wishes, order: seq<string>) returns (k: nat)
    requires forall id :: id in order ==> id in wishes
    requires Updates(hash, b, wishes, order).Err?
    ensures k < |order| && Updates(hash, b, wishes, order[..k]).Ok?
    ensures var c := Updates(hash, b, wishes, order[..k]).book;
      && Fails(hash, c, order[k], wishes[order[k]]).Some?
      && Updates(hash, b, wishes, order) == Err(Fails(hash, c, order[k], wishes[order[k]]).value, c)
    decreases |order|
  {
    var first := UpdateOne(hash, b, order[0], wishes[order[0]]);
    FailedUpdate(hash, b, order[0], wishes[order[0]]);
    if first.Err? {
      k := 0;
    } else {
      var j := FailedUpdates(hash, first.book, wishes, order[1..]);
      k := j + 1;
      assert order[..k][0] == order[0] && order[..k][1..] == order[1..][..j];
    }
  }

  // So the book left is that of the successful updates alone.
  lemma FailedUpdatesLeave(hash: Hash, b: Book, wishes: Wishes, order: seq<string>) returns (k: nat)
    requires forall id :: id in order ==> id in wishes
    requires Distinct(order) && Updates(hash, b, wishes, order).Err?
    ensures k < |order|
    ensures var left := Updates(hash, b, wishes, order).book;
      && (forall id :: id in order[..k] ==> id in left.persons && left.persons[id] == Granted(hash, b, id, wishes[id]))
      && (forall id :: id !in order[..k] ==>
            (id in left.persons <==> id in b.persons) && (id in b.persons ==> left.persons[id] == b.persons[id]))
      && left.logouts == b.logouts + Demoted(b, wishes, order[..k])
  {
    k := FailedUpdates(hash, b, wishes, order);
    var done := order[..k];
    UpdatesGrant(hash, b, wishes, done);
    UpdatesLogOut(hash, b, wishes, done);
    forall id | id !in done
      ensures var left := Updates(hash, b, wishes, done).book;
        (id in left.persons <==> id in b.persons) && (id in b.persons ==> left.persons[id] == b.persons[id])
    {
      Untouched(hash, b, wishes, done, id);
    }
  }

  // The second loop stops at an administrator who is the last: those before it are deleted
  // and logged out, everybody else stays.
  lemma {:induction false} FailedDeletes(b: Book, previous: map<string, Stored>, order: seq<string>) returns (k: nat)
    requires forall id :: id in order ==> id in previous
    requires Deletes(b, previous, order).Err?
    ensures k < |order| && previous[order[k]].person.isAdmin
    ensures Deletes(b, previous, order) == Err(LastAdmin, Book(b.persons - Elems(order[..k]), b.logouts + order[..k]))
    ensures |Admins(b.persons - Elems(order[..k]))| == 1
    decreases |order|
  {
    if previous[order[0]].person.isAdmin && |Admins(b.persons)| == 1 {
      k := 0;
      assert b.persons - Elems(order[..0]) == b.persons && b.logouts + order[..0] == b.logouts;
    } else {
      var c := Book(b.persons - {order[0]}, b.logouts + [order[0]]);
      var j := FailedDeletes(c, previous, order[1..]);
      k := j + 1;
      assert order[..k] == [order[0]] + order[1..][..j];
      assert c.persons - Elems(order[1..][..j]) == b.persons - Elems(order[..k]);
      assert c.logouts + order[1..][..j] == b.logouts + order[..k];
    }
  }

  // A batch that fails has done a beginning of its work: updates up to the first that fails,
  // or all of them and deletions up to the last administrator.
  lemma FailedBatch(hash: Hash, b: Book, wishes: Wishes, updates: seq<string>, deletes: seq<string>) returns (k: nat)
    requires Visits(updates, wishes.Keys) && Visits(deletes, b.persons.Keys - wishes.Keys)
    requires Batch(hash, b, wishes, updates, deletes).Err?
    ensures var r, up := Batch(hash, b, wishes, updates, deletes), Updates(hash, b, wishes, updates);
      if up.Err? then
        && k < |updates| && r == Err(up.error, Updates(hash, b, wishes, updates[..k]).book)
        && Updates(hash, b, wishes, updates[..k]).Ok?
      else
        && k < |deletes| && b.persons[deletes[k]].person.isAdmin
        && r == Err(LastAdmin, Book(up.book.persons - Elems(deletes[..k]), up.book.logouts + deletes[..k]))
  {
    if Updates(hash, b, wishes, updates).Err? {
      k := FailedUpdates(hash, b, wishes, updates);
    } else {
      k := FailedDeletes(Updates(hash, b, wishes, updates).book, b.persons, deletes);
    }
  }
}

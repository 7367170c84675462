// The store of persons (store/persons.go, models/persons): single and batch updates
// that log out whoever loses access and must never lose the last administrator.
module Persons {
  import opened Devices
  import opened Sequences

  datatype Person = Person(
    name: string, username: string, email: string, allowLogin: bool, isAdmin: bool,
    lastSeen: int, state: Option<State>)

  datatype Stored = Stored(person: Person, password: string)

  // A requested person. password is the hash field of the request.
  datatype Wish = Wish(person: Person, password: string, newPassword: string, repeatPassword: string)

  datatype Error = LastAdmin | RepeatMismatch | HashFailed

  // bcrypt, which can refuse a password.
  type Hash = string -> Option<string>

  // The stored persons by UUID, and the logout callbacks made so far.
  datatype Book = Book(persons: map<string, Stored>, logouts: seq<string>)

  // An error leaves what was done before it.
  datatype Outcome = Ok(book: Book) | Err(error: Error, book: Book)

  // ---- one person -----------------------------------------------------------

  predicate Same(a: Person, w: Wish) {
    a == w.person && w.password == "" && w.newPassword == ""
  }

  function Admins(persons: map<string, Stored>): set<string> {
    set id | id in persons && persons[id].person.isAdmin
  }

  // The hash to store, given the hash stored so far.
  function NewHash(hash: Hash, w: Wish, kept: string): Option<string> {
    if w.newPassword == "" then Some(kept) else hash(w.newPassword)
  }

  function AddPerson(hash: Hash, b: Book, id: string, w: Wish): Outcome {
    var kept := if id in b.persons then b.persons[id].password else w.password;
    if w.newPassword != "" && w.newPassword != w.repeatPassword then Err(RepeatMismatch, b)
    else
      match NewHash(hash, w, kept)
      case None => Err(HashFailed, b)
      case Some(h) => Ok(b.(persons := b.persons[id := Stored(w.person, h)]))
  }

  predicate Demotes(b: Book, id: string, w: Wish) {
    id in b.persons && b.persons[id].person.isAdmin && !w.person.isAdmin
  }

  function UpdateOne(hash: Hash, b: Book, id: string, w: Wish): Outcome {
    if id in b.persons && Same(b.persons[id].person, w) then Ok(b)
    else if Demotes(b, id, w) && |Admins(b.persons)| == 1 then Err(LastAdmin, b)
    else
      match AddPerson(hash, b, id, w)
      case Err(e, b1) => Err(e, b1)
      case Ok(b1) => Ok(if Demotes(b, id, w) then b1.(logouts := b1.logouts + [id]) else b1)
  }

  // ---- a batch --------------------------------------------------------------

  type Wishes = map<string, Wish>

  // First loop: the requested persons, in the order the map is ranged over.
  function Updates(hash: Hash, b: Book, wishes: Wishes, order: seq<string>): Outcome
    requires forall id :: id in order ==> id in wishes
    decreases |order|
  {
    if order == [] then Ok(b)
    else
      match UpdateOne(hash, b, order[0], wishes[order[0]])
      case Err(e, b1) => Err(e, b1)
      case Ok(b1) => Updates(hash, b1, wishes, order[1..])
  }

  // Second loop: whoever was stored before and is not requested goes.
  function Deletes(b: Book, previous: map<string, Stored>, order: seq<string>): Outcome
    requires forall id :: id in order ==> id in previous
    decreases |order|
  {
    if order == [] then Ok(b)
    else if previous[order[0]].person.isAdmin && |Admins(b.persons)| == 1 then Err(LastAdmin, b)
    else Deletes(Book(b.persons - {order[0]}, b.logouts + [order[0]]), previous, order[1..])
  }

  function Batch(hash: Hash, b: Book, wishes: Wishes, updates: seq<string>, deletes: seq<string>): Outcome
    requires forall id :: id in updates ==> id in wishes
    requires forall id :: id in deletes ==> id in b.persons
  {
    match Updates(hash, b, wishes, updates)
    case Err(e, b1) => Err(e, b1)
    case Ok(b1) => Deletes(b1, b.persons, deletes)
  }

  // ---- the last administrator -------------------------------------------------

  lemma UpdateKeepsAdmin(hash: Hash, b: Book, id: string, w: Wish)
    requires Admins(b.persons) != {}
    ensures Admins(UpdateOne(hash, b, id, w).book.persons) != {}
  {
    var after := UpdateOne(hash, b, id, w).book.persons;
    if Demotes(b, id, w) && |Admins(b.persons)| != 1 {
      OtherMember(Admins(b.persons), id);
      var a :| a in Admins(b.persons) && a != id;
      assert a in Admins(after);
    } else {
      var a :| a in Admins(b.persons);
      assert a in Admins(after);
    }
  }

  lemma OtherMember(s: set<string>, x: string)
    requires x in s && |s| != 1
    ensures exists y :: y in s && y != x
  {
    assert |s - {x}| == |s| - 1;
    var y :| y in s - {x};
  }

  lemma {:induction false} UpdatesKeepAdmin(hash: Hash, b: Book, wishes: Wishes, order: seq<string>)
    requires forall id :: id in order ==> id in wishes
    requires Admins(b.persons) != {}
    ensures Admins(Updates(hash, b, wishes, order).book.persons) != {}
    decreases |order|
  {
    if order != [] {
      UpdateKeepsAdmin(hash, b, order[0], wishes[order[0]]);
      var r := UpdateOne(hash, b, order[0], wishes[order[0]]);
      if r.Ok? {
        UpdatesKeepAdmin(hash, r.book, wishes, order[1..]);
      }
    }
  }

  // Deleting is guarded by the administrators as they were before the batch, which is
  // sound because the first loop does not touch the persons the second one deletes.
  lemma {:induction false} DeletesKeepAdmin(b: Book, previous: map<string, Stored>, order: seq<string>)
    requires forall id :: id in order ==> id in previous
    requires Distinct(order)
    requires forall id :: id in order ==> id in b.persons && b.persons[id] == previous[id]
    requires Admins(b.persons) != {}
    ensures Admins(Deletes(b, previous, order).book.persons) != {}
    decreases |order|
  {
    if order != [] && !(previous[order[0]].person.isAdmin && |Admins(b.persons)| == 1) {
      var c := Book(b.persons - {order[0]}, b.logouts + [order[0]]);
      assert Admins(c.persons) == Admins(b.persons) - {order[0]};
      if order[0] in Admins(b.persons) {
        OtherMember(Admins(b.persons), order[0]);
        var a :| a in Admins(b.persons) && a != order[0];
        assert a in Admins(c.persons);
      } else {
        var a :| a in Admins(b.persons);
        assert a in Admins(c.persons);
      }
      var t := order[1..];
      DistinctTail(order);
      DeletesKeepAdmin(c, previous, t);
    }
  }

  lemma {:induction false} UpdatesConcat(hash: Hash, b: Book, wishes: Wishes, one: seq<string>, two: seq<string>)
    requires forall id :: id in one ==> id in wishes
    requires forall id :: id in two ==> id in wishes
    ensures Updates(hash, b, wishes, one + two) ==
      match Updates(hash, b, wishes, one)
      case Err(e, c) => Err(e, c)
      case Ok(c) => Updates(hash, c, wishes, two)
    decreases |one|
  {
    if one == [] {
      assert one + two == two;
    } else {
      assert (one + two)[1..] == one[1..] + two;
      var r := UpdateOne(hash, b, one[0], wishes[one[0]]);
      if r.Ok? {
        UpdatesConcat(hash, r.book, wishes, one[1..], two);
      }
    }
  }

  lemma {:induction false} Untouched(hash: Hash, b: Book, wishes: Wishes, order: seq<string>, id: string)
    requires forall x :: x in order ==> x in wishes
    requires id !in order
    ensures var c := Updates(hash, b, wishes, order).book;
            (id in c.persons <==> id in b.persons) && (id in b.persons ==> c.persons[id] == b.persons[id])
    decreases |order|
  {
    if order != [] {
      var r := UpdateOne(hash, b, order[0], wishes[order[0]]);
      if r.Ok? {
        Untouched(hash, r.book, wishes, order[1..], id);
      }
    }
  }

  // What a client of the store can ask for, with the orders the maps happen to yield.
  datatype Call =
    | One(id: string, w: Wish)
    | Many(wishes: Wishes, updates: seq<string>, deletes: seq<string>)

  ghost predicate CanHappen(b: Book, c: Call) {
    c.Many? ==> Visits(c.updates, c.wishes.Keys) && Visits(c.deletes, b.persons.Keys - c.wishes.Keys)
  }

  function Happen(hash: Hash, b: Book, c: Call): Outcome
    requires CanHappen(b, c)
  {
    match c
    case One(id, w) => UpdateOne(hash, b, id, w)
    case Many(wishes, updates, deletes) => Batch(hash, b, wishes, updates, deletes)
  }

  lemma CallKeepsAdmin(hash: Hash, b: Book, c: Call)
    requires CanHappen(b, c) && Admins(b.persons) != {}
    ensures Admins(Happen(hash, b, c).book.persons) != {}
  {
    match c
    case One(id, w) => UpdateKeepsAdmin(hash, b, id, w);
    case Many(wishes, updates, deletes) =>
      UpdatesKeepAdmin(hash, b, wishes, updates);
      var r := Updates(hash, b, wishes, updates);
      if r.Ok? {
        forall id | id in deletes
          ensures id in r.book.persons && r.book.persons[id] == b.persons[id]
        {
          Untouched(hash, b, wishes, updates, id);
        }
        DeletesKeepAdmin(r.book, b.persons, deletes);
      }
  }

  ghost predicate Possible(hash: Hash, b: Book, calls: seq<Call>)
    decreases |calls|
  {
    calls == []
    || (CanHappen(b, calls[0]) && Possible(hash, Happen(hash, b, calls[0]).book, calls[1..]))
  }

  ghost function After(hash: Hash, b: Book, calls: seq<Call>): Book
    requires Possible(hash, b, calls)
    decreases |calls|
  {
    if calls == [] then b else After(hash, Happen(hash, b, calls[0]).book, calls[1..])
  }

  // Once there is an administrator there is one after every sequence of single and
  // batch updates, failed ones and half-done ones included.
  lemma {:induction false} LastAdminKept(hash: Hash, b: Book, calls: seq<Call>)
    requires Possible(hash, b, calls) && Admins(b.persons) != {}
    ensures Admins(After(hash, b, calls).persons) != {}
    decreases |calls|
  {
    if calls != [] {
      CallKeepsAdmin(hash, b, calls[0]);
      LastAdminKept(hash, Happen(hash, b, calls[0]).book, calls[1..]);
    }
  }

  // ---- what a successful batch leaves -------------------------------------------

  function HashOr(hash: Hash, password: string, otherwise: string): string {
    match hash(password)
    case Some(h) => h
    case None => otherwise
  }

  // The requested fields, with the stored hash unless a new password was given. A
  // person not stored yet starts with the hash field of the request.
  function Granted(hash: Hash, b: Book, id: string, w: Wish): Stored {
    var kept := if id in b.persons then b.persons[id].password else w.password;
    Stored(w.person, if w.newPassword == "" then kept else HashOr(hash, w.newPassword, kept))
  }

  lemma UpdateGrants(hash: Hash, b: Book, id: string, w: Wish)
    requires UpdateOne(hash, b, id, w).Ok?
    ensures UpdateOne(hash, b, id, w).book.persons == b.persons[id := Granted(hash, b, id, w)]
    ensures UpdateOne(hash, b, id, w).book.logouts == b.logouts + if Demotes(b, id, w) then [id] else []
  {
    assert b.logouts + [] == b.logouts;
  }

  // Those of the list that the batch demotes, in order.
  function Demoted(b: Book, wishes: Wishes, order: seq<string>): seq<string>
    requires forall id :: id in order ==> id in wishes
  {
    if order == [] then []
    else (if Demotes(b, order[0], wishes[order[0]]) then [order[0]] else []) + Demoted(b, wishes, order[1..])
  }

  lemma {:induction false} UpdatesGrant(hash: Hash, b: Book, wishes: Wishes, order: seq<string>)
    requires forall id :: id in order ==> id in wishes
    requires Distinct(order)
    requires Updates(hash, b, wishes, order).Ok?
    ensures var c := Updates(hash, b, wishes, order).book;
            c.persons.Keys == b.persons.Keys + Elems(order)
            && forall id :: id in order ==> c.persons[id] == Granted(hash, b, id, wishes[id])
    decreases |order|
  {
    if order != [] {
      var t := order[1..];
      DistinctTail(order);
      UpdateGrants(hash, b, order[0], wishes[order[0]]);
      var b1 := UpdateOne(hash, b, order[0], wishes[order[0]]).book;
      UpdatesGrant(hash, b1, wishes, t);
      Untouched(hash, b1, wishes, t, order[0]);
      assert forall id :: id in t ==> Granted(hash, b1, id, wishes[id]) == Granted(hash, b, id, wishes[id]);
      assert forall id :: id in order <==> id == order[0] || id in t;
    }
  }

  // The first update demotes or not, and the rest see the others unchanged.
  lemma LogOutFirst(hash: Hash, b: Book, wishes: Wishes, order: seq<string>)
    requires forall id :: id in order ==> id in wishes
    requires order != [] && Distinct(order) && Updates(hash, b, wishes, order).Ok?
    ensures var b1, t := UpdateOne(hash, b, order[0], wishes[order[0]]).book, order[1..];
      var x := if Demotes(b, order[0], wishes[order[0]]) then [order[0]] else [];
      && b1.logouts == b.logouts + x && Demoted(b, wishes, order) == x + Demoted(b, wishes, t)
      && Demoted(b1, wishes, t) == Demoted(b, wishes, t)
  {
    var b1, t := UpdateOne(hash, b, order[0], wishes[order[0]]).book, order[1..];
    DistinctTail(order);
    UpdateGrants(hash, b, order[0], wishes[order[0]]);
    SameDemoted(b, b1, wishes, t);
  }

  lemma {:induction false} UpdatesLogOut(hash: Hash, b: Book, wishes: Wishes, order: seq<string>)
    requires forall id :: id in order ==> id in wishes
    requires Distinct(order)
    requires Updates(hash, b, wishes, order).Ok?
    ensures Updates(hash, b, wishes, order).book.logouts == b.logouts + Demoted(b, wishes, order)
    decreases |order|
  {
    if order == [] {
      assert b.logouts + [] == b.logouts;
    } else {
      var t := order[1..];
      DistinctTail(order);
      LogOutFirst(hash, b, wishes, order);
      UpdatesLogOut(hash, UpdateOne(hash, b, order[0], wishes[order[0]]).book, wishes, t);
      var x := if Demotes(b, order[0], wishes[order[0]]) then [order[0]] else [];
      Regroup(b.logouts, x, Demoted(b, wishes, t));
    }
  }

  lemma {:induction false} SameDemoted(b: Book, b1: Book, wishes: Wishes, order: seq<string>)
    requires forall x :: x in order ==> x in wishes && Demotes(b1, x, wishes[x]) == Demotes(b, x, wishes[x])
    ensures Demoted(b1, wishes, order) == Demoted(b, wishes, order)
  {
    if order != [] {
      assert forall x :: x in order[1..] ==> x in order;
      SameDemoted(b, b1, wishes, order[1..]);
    }
  }

  lemma {:induction false} DeletesRemove(b: Book, previous: map<string, Stored>, order: seq<string>)
    requires forall id :: id in order ==> id in previous
    requires Deletes(b, previous, order).Ok?
    ensures Deletes(b, previous, order).book == Book(b.persons - Elems(order), b.logouts + order)
    decreases |order|
  {
    if order == [] {
      assert b.persons - Elems(order) == b.persons && b.logouts + order == b.logouts;
    } else {
      var c := Book(b.persons - {order[0]}, b.logouts + [order[0]]);
      DeletesRemove(c, previous, order[1..]);
      assert Elems(order) == {order[0]} + Elems(order[1..]);
      assert c.logouts + order[1..] == b.logouts + order;
    }
  }

  // The administrators a batch demotes, and everybody it deletes.
  function LosesAccess(b: Book, wishes: Wishes): set<string> {
    (set id | id in wishes && Demotes(b, id, wishes[id])) + (b.persons.Keys - wishes.Keys)
  }

  lemma {:induction false} DemotedVisits(b: Book, wishes: Wishes, order: seq<string>)
    requires forall id :: id in order ==> id in wishes
    requires Distinct(order)
    ensures Visits(Demoted(b, wishes, order), set id | id in order && Demotes(b, id, wishes[id]))
    decreases |order|
  {
    if order != [] {
      var t := order[1..];
      DistinctTail(order);
      DemotedVisits(b, wishes, t);
      var d := Demoted(b, wishes, t);
      assert order[0] !in d;
      assert forall i :: 0 <= i < |d| ==> d[i] in d;
    }
  }

  // A batch that succeeds leaves exactly the requested persons with the requested
  // fields and hashes, whatever the order of the maps.
  lemma BatchGrants(hash: Hash, b: Book, wishes: Wishes, updates: seq<string>, deletes: seq<string>)
    requires Visits(updates, wishes.Keys) && Visits(deletes, b.persons.Keys - wishes.Keys)
    requires Batch(hash, b, wishes, updates, deletes).Ok?
    ensures Batch(hash, b, wishes, updates, deletes).book.persons
      == map id | id in wishes :: Granted(hash, b, id, wishes[id])
  {
    UpdatesGrant(hash, b, wishes, updates);
    var b1 := Updates(hash, b, wishes, updates).book;
    DeletesRemove(b1, b.persons, deletes);
    assert Elems(updates) == wishes.Keys && Elems(deletes) == b.persons.Keys - wishes.Keys;
  }

  // What it has logged out: the demoted administrators, then the deleted ...
  lemma BatchLogsOut(hash: Hash, b: Book, wishes: Wishes, updates: seq<string>, deletes: seq<string>)
    requires Visits(updates, wishes.Keys) && Visits(deletes, b.persons.Keys - wishes.Keys)
    requires Batch(hash, b, wishes, updates, deletes).Ok?
    ensures Batch(hash, b, wishes, updates, deletes).book.logouts
      == b.logouts + Demoted(b, wishes, updates) + deletes
  {
    UpdatesLogOut(hash, b, wishes, updates);
    DeletesRemove(Updates(hash, b, wishes, updates).book, b.persons, deletes);
  }

  // ... that is, everybody who loses access, once, and nobody else.
  lemma LogsOutOnce(b: Book, wishes: Wishes, updates: seq<string>, deletes: seq<string>)
    requires Visits(updates, wishes.Keys) && Visits(deletes, b.persons.Keys - wishes.Keys)
    ensures Visits(Demoted(b, wishes, updates) + deletes, LosesAccess(b, wishes))
  {
    DemotedVisits(b, wishes, updates);
    var x := set id | id in updates && Demotes(b, id, wishes[id]);
    var y := b.persons.Keys - wishes.Keys;
    VisitsBoth(Demoted(b, wishes, updates), x, deletes, y);
    assert x + y == LosesAccess(b, wishes);
  }
}

// The store of persons as it runs (store/persons.go, models/persons/list.go): a map
// written and deleted from in loops with early returns. Every method does what the
// functions of Persons say.
module PersonsStore {
  import opened Persons
  import opened Sequences

  // A nil error is None.
  type Fault = Option<Error>

  class Store {
    const hash: Hash
    var persons: map<string, Stored>
    var logouts: seq<string>

    function Contents(): Book
      reads this
    {
      Book(persons, logouts)
    }

    // What a call left and returned.
    ghost predicate Left(o: Outcome, err: Fault)
      reads this
    {
      match o
      case Ok(b) => err == None && Contents() == b
      case Err(e, b) => err == Some(e) && Contents() == b
    }

    constructor (hash: Hash)
      ensures this.hash == hash && Contents() == Book(map[], [])
    {
      this.hash, persons, logouts := hash, map[], [];
    }

    method CountAdmins() returns (cnt: nat)
      ensures cnt == |Admins(persons)|
    {
      cnt := 0;
      var todo := persons.Keys;
      ghost var seen: set<string> := {};
      while todo != {}
        invariant todo <= persons.Keys
        invariant seen == set id | id in persons && id !in todo && persons[id].person.isAdmin
        invariant cnt == |seen|
        decreases |todo|
      {
        var id :| id in todo;
        todo := todo - {id};
        if persons[id].person.isAdmin {
          seen := seen + {id};
          cnt := cnt + 1;
        }
      }
      assert seen == Admins(persons);
    }

    // List.Add and PersonWithPasswords.UpdatePassword.
    method Add(id: string, w: Wish) returns (err: Fault)
      modifies this`persons
      ensures Left(AddPerson(hash, old(Contents()), id, w), err)
    {
      var password := w.password;
      if id in persons {
        password := persons[id].password;
      }
      if w.newPassword != "" && w.newPassword != w.repeatPassword {
        return Some(RepeatMismatch);
      }
      if w.newPassword != "" {
        var h := hash(w.newPassword);
        if h == None {
          return Some(HashFailed);
        }
        password := h.value;
      }
      persons := persons[id := Stored(w.person, password)];
      return None;
    }

    method AddOrUpdatePerson(id: string, w: Wish) returns (err: Fault)
      modifies this
      ensures Left(UpdateOne(hash, old(Contents()), id, w), err)
    {
      if id in persons && Same(persons[id].person, w) {
        return None;
      }
      var demotes := id in persons && persons[id].person.isAdmin && !w.person.isAdmin;
      if demotes {
        var cnt := CountAdmins();
        if cnt == 1 {
          return Some(LastAdmin);
        }
      }
      err := Add(id, w);
      if err != None {
        return;
      }
      if demotes {
        logouts := logouts + [id];
      }
    }

    // First loop of AddOrUpdatePersons.
    method UpdateAll(wishes: Wishes) returns (err: Fault, ghost order: seq<string>)
      modifies this
      ensures Visits(order, wishes.Keys)
      ensures Left(Updates(hash, old(Contents()), wishes, order), err)
    {
      order := [];
      err := None;
      var todo := wishes.Keys;
      while todo != {}
        invariant todo <= wishes.Keys && err == None
        invariant Visits(order, wishes.Keys - todo)
        invariant Updates(hash, old(Contents()), wishes, order) == Ok(Contents())
        decreases |todo|
      {
        var id :| id in todo;
        UpdatesConcat(hash, old(Contents()), wishes, order, [id]);
        assert [id][1..] == [];
        err := AddOrUpdatePerson(id, wishes[id]);
        VisitsSnoc(order, wishes.Keys - todo, id);
        assert wishes.Keys - (todo - {id}) == wishes.Keys - todo + {id};
        order := order + [id];
        todo := todo - {id};
        if err != None {
          ghost var rest := RestOf(order, wishes.Keys, todo);
          UpdatesConcat(hash, old(Contents()), wishes, order, rest);
          order := order + rest;
          return;
        }
      }
      assert wishes.Keys - {} == wishes.Keys;
    }

    // Second loop: previous holds everybody stored before and not requested.
    method DeleteAll(previous: map<string, Stored>, gone: set<string>) returns (err: Fault, ghost order: seq<string>)
      requires gone <= previous.Keys
      modifies this
      ensures Visits(order, gone)
      ensures Left(Deletes(old(Contents()), previous, order), err)
    {
      order := [];
      err := None;
      var todo := gone;
      while todo != {}
        invariant todo <= gone && err == None
        invariant Visits(order, gone - todo)
        invariant Deletes(old(Contents()), previous, order) == Ok(Contents())
        decreases |todo|
      {
        var id :| id in todo;
        DeletesConcat(old(Contents()), previous, order, [id]);
        assert [id][1..] == [];
        VisitsSnoc(order, gone - todo, id);
        OneFewer(gone, todo, id);
        order := order + [id];
        todo := todo - {id};
        if previous[id].person.isAdmin {
          var cnt := CountAdmins();
          if cnt == 1 {
            err := Some(LastAdmin);
            ghost var rest := RestOf(order, gone, todo);
            DeletesConcat(old(Contents()), previous, order, rest);
            order := order + rest;
            return;
          }
        }
        persons := persons - {id};
        logouts := logouts + [id];
      }
      assert gone - {} == gone;
    }

    method AddOrUpdatePersons(wishes: Wishes)
        returns (err: Fault, ghost updates: seq<string>, ghost deletes: seq<string>)
      modifies this
      ensures Visits(updates, wishes.Keys) && Visits(deletes, old(persons).Keys - wishes.Keys)
      ensures Left(Batch(hash, old(Contents()), wishes, updates, deletes), err)
    {
      var previous := persons;
      err, updates := UpdateAll(wishes);
      if err != None {
        deletes := Listing(previous.Keys - wishes.Keys);
        return;
      }
      err, deletes := DeleteAll(previous, previous.Keys - wishes.Keys);
    }
  }

  lemma {:induction false} DeletesConcat(b: Book, previous: map<string, Stored>, one: seq<string>, two: seq<string>)
    requires forall id :: id in one ==> id in previous
    requires forall id :: id in two ==> id in previous
    ensures Deletes(b, previous, one + two) ==
      match Deletes(b, previous, one)
      case Err(e, c) => Err(e, c)
      case Ok(c) => Deletes(c, previous, two)
    decreases |one|
  {
    if one == [] {
      assert one + two == two;
    } else {
      assert (one + two)[1..] == one[1..] + two;
      DeletesConcat(Book(b.persons - {one[0]}, b.logouts + [one[0]]), previous, one[1..], two);
    }
  }
}

// The server's own state, kept by diff and merge, and its change notification
// (store/server.go).
module ServerStore {
  import opened Sequences
  import opened Devices

  type Areas = map<string, map<string, State>>

  datatype Report = Report(area: string, item: string, state: State)

  // A missing entry reads as an empty state.
  function At(server: Areas, area: string, item: string): State {
    if area in server && item in server[area] then server[area][item] else map[]
  }

  function Updated(server: Areas, r: Report): Areas {
    var items := if r.area in server then server[r.area] else map[];
    server[r.area := items[r.item := At(server, r.area, r.item) + r.state]]
  }

  lemma SameUpdate(before: Areas, after: Areas, r: Report, entry: State)
    requires entry == At(before, r.area, r.item) + r.state && r.area in after
    requires after == before[r.area := after[r.area]]
    requires after[r.area] == (if r.area in before then before[r.area] else map[])[r.item := entry]
    ensures after == Updated(before, r)
  {
  }

  class Store {
    var server: Areas
    var notified: nat  // how often the "server" callbacks were run

    constructor ()
      ensures server == map[] && notified == 0
    {
      server, notified := map[], 0;
    }

    method AddOrUpdateServer(area: string, item: string, state: State)
      modifies this
      ensures server == Updated(old(server), Report(area, item, state))
      ensures notified == old(notified) + if At(server, area, item) != At(old(server), area, item) then 1 else 0
    {
      ghost var before := server;
      var entry := Entry(area, item);
      var diff := Diff(entry, state);
      if diff != map[] {
        entry := MergeInto(area, item, diff);
        notified := notified + 1;
      }
      SameUpdate(before, server, Report(area, item, state), entry);
    }

    method MergeInto(area: string, item: string, diff: State) returns (entry: State)
      requires area in server && item in server[area]
      modifies this`server
      ensures entry == old(server)[area][item] + diff
      ensures area in server && server == old(server)[area := server[area]]
      ensures server[area] == old(server)[area][item := entry]
    {
      entry := Overlay(server[area][item], diff);
      server := server[area := server[area][item := entry]];
    }

    // The entry, created where it is missing.
    method Entry(area: string, item: string) returns (entry: State)
      modifies this`server
      ensures entry == At(old(server), area, item)
      ensures area in server && item in server[area]
      ensures server == old(server)[area := server[area]]
      ensures server[area] == (if area in old(server) then old(server)[area] else map[])[item := entry]
    {
      if area !in server {
        server := server[area := map[]];
      }
      if item !in server[area] {
        server := server[area := server[area][item := map[]]];
      }
      entry := server[area][item];
    }

    // A run of the store: any sequence of reports.
    method Receive(reports: seq<Report>)
      modifies this
      ensures server == After(old(server), reports)
      ensures notified == old(notified) + Notifications(old(server), reports)
    {
      for n := 0 to |reports|
        invariant server == After(old(server), reports[..n])
        invariant notified == old(notified) + Notifications(old(server), reports[..n])
      {
        var r := reports[n];
        assert reports[..n + 1][..n] == reports[..n];
        AddOrUpdateServer(r.area, r.item, r.state);
      }
      assert reports[..|reports|] == reports;
    }
  }

  // ---- whole runs ---------------------------------------------------------------

  function After(server: Areas, reports: seq<Report>): Areas {
    if reports == [] then server
    else Updated(After(server, reports[..|reports| - 1]), reports[|reports| - 1])
  }

  function Notifications(server: Areas, reports: seq<Report>): nat {
    if reports == [] then 0
    else
      var front, r := reports[..|reports| - 1], reports[|reports| - 1];
      var before := After(server, front);
      Notifications(server, front)
      + if At(Updated(before, r), r.area, r.item) != At(before, r.area, r.item) then 1 else 0
  }

  // The reports alone say what a key should be: what the last one naming it said.
  function Latest(server: Areas, reports: seq<Report>, area: string, item: string, k: string): Option<Value> {
    if reports == [] then
      var s := At(server, area, item);
      if k in s then Some(s[k]) else None
    else
      var r := reports[|reports| - 1];
      if r.area == area && r.item == item && k in r.state then Some(r.state[k])
      else Latest(server, reports[..|reports| - 1], area, item, k)
  }

  // A report is news if it says something else than the latest report on some key.
  predicate News(server: Areas, earlier: seq<Report>, r: Report) {
    exists k :: k in r.state && Latest(server, earlier, r.area, r.item, k) != Some(r.state[k])
  }

  function NewsCount(server: Areas, reports: seq<Report>): nat {
    if reports == [] then 0
    else
      var front := reports[..|reports| - 1];
      NewsCount(server, front) + if News(server, front, reports[|reports| - 1]) then 1 else 0
  }

  function Lookup(s: State, k: string): Option<Value> {
    if k in s then Some(s[k]) else None
  }

  lemma UpdatedAt(server: Areas, r: Report, area: string, item: string)
    ensures At(Updated(server, r), area, item) ==
      if area == r.area && item == r.item then At(server, area, item) + r.state else At(server, area, item)
  {
  }

  // The kept state is the last-writer-wins merge of all reports.
  lemma {:induction false} MirrorsReports(server: Areas, reports: seq<Report>, area: string, item: string, k: string)
    ensures Lookup(At(After(server, reports), area, item), k) == Latest(server, reports, area, item, k)
  {
    if reports != [] {
      var front, r := reports[..|reports| - 1], reports[|reports| - 1];
      UpdatedAt(After(server, front), r, area, item);
      MirrorsReports(server, front, area, item, k);
    }
  }

  // The callbacks run once for each report that was news, and never otherwise.
  lemma {:induction false} NotifiedOfNews(server: Areas, reports: seq<Report>)
    ensures Notifications(server, reports) == NewsCount(server, reports)
  {
    if reports != [] {
      var front, r := reports[..|reports| - 1], reports[|reports| - 1];
      NotifiedOfNews(server, front);
      NewsChanges(server, front, r);
    }
  }

  lemma NewsChanges(server: Areas, front: seq<Report>, r: Report)
    ensures var before := After(server, front);
      News(server, front, r) <==> At(Updated(before, r), r.area, r.item) != At(before, r.area, r.item)
  {
    var was := At(After(server, front), r.area, r.item);
    forall k ensures Lookup(was, k) == Latest(server, front, r.area, r.item, k) {
      MirrorsReports(server, front, r.area, r.item, k);
    }
    if !News(server, front, r) {
      assert forall k :: k in r.state ==> Lookup(was, k) == Some(r.state[k]);
      assert was + r.state == was;
    } else {
      var k :| k in r.state && Latest(server, front, r.area, r.item, k) != Some(r.state[k]);
      assert Lookup(was + r.state, k) != Lookup(was, k);
    }
  }

  // Entries exist for the items some report named, even one with nothing to say, and
  // for no others.
  lemma {:induction false} EntriesAreNamed(server: Areas, reports: seq<Report>, area: string, item: string)
    ensures var end := After(server, reports);
      area in end && item in end[area] <==>
        (area in server && item in server[area]) || exists r :: r in reports && r.area == area && r.item == item
  {
    if reports != [] {
      var front, r := reports[..|reports| - 1], reports[|reports| - 1];
      assert reports == front + [r];
      EntriesAreNamed(server, front, area, item);
    }
  }

  // ---- a subscriber ---------------------------------------------------------------

  // What a subscriber holds that fetches everything when, and only when, the callbacks run.
  function Held(server: Areas, reports: seq<Report>): Areas {
    if reports == [] then server
    else
      var front, r := reports[..|reports| - 1], reports[|reports| - 1];
      var before := After(server, front);
      if At(Updated(before, r), r.area, r.item) != At(before, r.area, r.item) then Updated(before, r)
      else Held(server, front)
  }

  // It never holds a stale value.
  lemma {:induction false} SubscriberUpToDate(server: Areas, reports: seq<Report>, area: string, item: string)
    ensures At(Held(server, reports), area, item) == At(After(server, reports), area, item)
  {
    if reports != [] {
      var front, r := reports[..|reports| - 1], reports[|reports| - 1];
      UpdatedAt(After(server, front), r, area, item);
      UpdatedAt(After(server, front), r, r.area, r.item);
      SubscriberUpToDate(server, front, area, item);
    }
  }
}

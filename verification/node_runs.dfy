// What single steps of a node come to, and putting runs of it together.
module NodeRuns {
  import opened Devices
  import opened NodeSync

  // ---- what single steps come to

  lemma ReadEffect<R>(s: System<R>, t: nat, id: string, newState: State)
    requires s.Sane() && t in s.callers && s.callers[t].Free? && id in s.listed
    requires DiffOf(s.Current(id).state, newState) != map[]
    ensures CanHappen(s, ReadState(t, id, newState))
    ensures Happen(s, ReadState(t, id, newState))
      == s.(callers := s.callers[t := Merging(s.listed[id], DiffOf(s.Current(id).state, newState))])
  {
  }

  lemma MergeEffect<R>(s: System<R>, t: nat)
    requires s.Sane() && CanHappen(s, MergeState(t))
    ensures var n, r := Happen(s, MergeState(t)), s.callers[t].ref;
      && r in s.objects && n.listed == s.listed
      && n.objects == s.objects[r := s.objects[r].(state := s.objects[r].state + s.callers[t].diff)]
      && n.callers == s.callers[t := Sending(s.objects[r].id)]
  {
  }

  lemma ReadNothing<R>(s: System<R>, t: nat, id: string, newState: State)
    requires s.Sane() && t in s.callers && s.callers[t].Free?
    requires id !in s.listed || newState == map[] || DiffOf(s.Current(id).state, newState) == map[]
    ensures Happen(s, ReadState(t, id, newState)) == s
  {
    assert s.callers[t := Free] == s.callers;
  }

  lemma ListEffect<R>(s: System<R>, u: nat, r: R, d: Dev)
    requires s.Sane() && CanHappen(s, AddNew(u, r, d))
    ensures Happen(s, AddNew(u, r, d)) ==
      s.(listed := s.listed[d.id := r], objects := s.objects[r := d], callers := s.callers[u := Sending(d.id)])
  {
  }

  lemma RelistEffect<R>(s: System<R>, u: nat, r: R)
    requires s.Sane() && CanHappen(s, AddKnown(u, r))
    ensures var id := s.objects[r].id;
      Happen(s, AddKnown(u, r)) == s.(listed := s.listed[id := r], callers := s.callers[u := Sending(id)])
  {
  }

  // ---- runs ----

  lemma RunCons<R>(s: System<R>, e: Event<R>, es: seq<Event<R>>)
    requires s.Sane() && CanHappen(s, e)
    ensures Possible(Happen(s, e), es) ==>
      Possible(s, [e] + es) && After(s, [e] + es) == After(Happen(s, e), es)
  {
    assert ([e] + es)[1..] == es;
  }

  lemma SameTail<T>(a: seq<T>, b: seq<T>)
    requires a != []
    ensures a + b == [a[0]] + (a[1..] + b)
  {
  }

  lemma {:induction false} RunConcat<R>(s: System<R>, a: seq<Event<R>>, b: seq<Event<R>>)
    requires s.Sane() && Possible(s, a)
    ensures Possible(After(s, a), b) ==> Possible(s, a + b) && After(s, a + b) == After(After(s, a), b)
    decreases |a|
  {
    if a == [] {
      assert a + b == b;
    } else {
      SameTail(a, b);
      RunConcat(Happen(s, a[0]), a[1..], b);
      RunCons(s, a[0], a[1..] + b);
    }
  }

  lemma RunOne<R>(s: System<R>, e: Event<R>)
    requires s.Sane() && CanHappen(s, e)
    ensures Possible(s, [e]) && After(s, [e]) == Happen(s, e)
  {
    var rest: seq<Event<R>> := [];
    assert [e] + rest == [e];
    RunCons(s, e, rest);
  }

  lemma RunSnoc<R>(s: System<R>, a: seq<Event<R>>, e: Event<R>)
    requires s.Sane() && Possible(s, a) && CanHappen(After(s, a), e)
    ensures Possible(s, a + [e]) && After(s, a + [e]) == Happen(After(s, a), e)
  {
    RunOne(After(s, a), e);
    RunConcat(s, a, [e]);
  }

  lemma {:induction false} RunPrefix<R>(s: System<R>, es: seq<Event<R>>, n: nat)
    requires s.Sane() && Possible(s, es) && n <= |es|
    ensures Possible(s, es[..n]) && (n < |es| ==> CanHappen(After(s, es[..n]), es[n]))
    decreases n
  {
    if n > 0 {
      assert es[..n][0] == es[0] && es[..n][1..] == es[1..][..n - 1];
      RunPrefix(Happen(s, es[0]), es[1..], n - 1);
    }
  }
}

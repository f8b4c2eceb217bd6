/** Any number of repoPutMultiple calls in flight at once, interleaved at single
    repository puts (each atomic under its repository's lock). */
module ConcurrentPuts {
  import opened GoLib
  import opened Repository
  import opened Service
  import Ring

  /** One call: its arguments, the environment's choices, how many of its
      repositories it has visited, and its countSuccess and errLast. */
  datatype Flight = Flight(name: string, id: string, call: Call, done: nat, successes: nat, errLast: Option<Error>)

  /** A call that has not started. */
  function Launch(name: string, id: string, call: Call): Flight { Flight(name, id, call, 0, 0, None) }

  /** The bookkeeping after one put. */
  function Visited(f: Flight, err: Option<Error>): Flight {
    if err.None? then f.(done := f.done + 1, successes := f.successes + 1)
    else f.(done := f.done + 1, errLast := err)
  }

  /** What the call returns once all `n` repositories are visited. */
  function Report(f: Flight, n: nat): Option<Error> {
    if n == 0 then Some(EmptyRepoList) else if f.successes < 1 then f.errLast else None
  }

  predicate SameCall(f: Flight, g: Flight) { f.name == g.name && f.id == g.id && f.call == g.call }

  datatype World = World(repos: seq<Repo>, flights: seq<Flight>)

  predicate WellFormed(w: World) {
    forall f :: f in w.flights ==> Fits(f.call, |w.repos|) && f.done <= |w.repos|
  }

  predicate CanStep(w: World, i: nat) {
    i < |w.flights| && w.flights[i].done < |w.repos|
  }

  /** Flight `i` makes its next call. */
  function Next(w: World, i: nat): (w': World)
    requires WellFormed(w) && CanStep(w, i)
    ensures WellFormed(w') && |w'.repos| == |w.repos| && |w'.flights| == |w.flights|
  {
    var f := w.flights[i];
    assert f in w.flights;
    var r := Ring.At(f.call.start, f.done, |w.repos|);
    World(w.repos[r := Put(w.repos[r], f.name, f.id, f.call.clock[r], f.call.faults[r])],
          w.flights[i := Visited(f, PutError(w.repos[r], f.name, f.id, f.call.faults[r]))])
  }

  predicate Legal(w: World, schedule: seq<nat>)
    requires WellFormed(w)
    decreases |schedule|
  {
    schedule == [] || (CanStep(w, schedule[0]) && Legal(Next(w, schedule[0]), schedule[1..]))
  }

  function Exec(w: World, schedule: seq<nat>): World
    requires WellFormed(w) && Legal(w, schedule)
    decreases |schedule|
  {
    if schedule == [] then w else Exec(Next(w, schedule[0]), schedule[1..])
  }

  /** Flight `f` has put `name` into repository `j` (of brokenness as in `repos`). */
  predicate Took(repos: seq<Repo>, f: Flight, name: string, j: nat)
    requires Fits(f.call, |repos|) && j < |repos|
  {
    f.name == name && Ring.Turn(f.call.start, j, |repos|) < f.done && Accepts(repos[j], name, f.id, f.call.faults[j])
  }

  function Taken(repos: seq<Repo>, flights: seq<Flight>, name: string, j: nat): nat
    requires j < |repos| && forall f :: f in flights ==> Fits(f.call, |repos|)
  {
    if flights == [] then 0
    else
      var f := flights[|flights| - 1];
      Taken(repos, flights[..|flights| - 1], name, j) + if Took(repos, f, name, j) then 1 else 0
  }

  lemma {:induction false} TakenUpdate(repos: seq<Repo>, flights: seq<Flight>, i: nat, f: Flight, name: string, j: nat)
    requires j < |repos| && i < |flights| && Fits(f.call, |repos|)
    requires forall g :: g in flights ==> Fits(g.call, |repos|)
    ensures flights[i] in flights && forall g :: g in flights[i := f] ==> Fits(g.call, |repos|)
    ensures Taken(repos, flights[i := f], name, j)
            == Taken(repos, flights, name, j)
               + (if Took(repos, f, name, j) then 1 else 0) - (if Took(repos, flights[i], name, j) then 1 else 0)
  {
    var n := |flights| - 1;
    var updated := flights[i := f];
    if i < n {
      assert updated[..n] == flights[..n][i := f];
      TakenUpdate(repos, flights[..n], i, f, name, j);
    } else {
      assert updated[..n] == flights[..n];
    }
  }

  lemma {:induction false} TakenWitness(repos: seq<Repo>, flights: seq<Flight>, name: string, j: nat)
    requires j < |repos| && forall f :: f in flights ==> Fits(f.call, |repos|)
    ensures Taken(repos, flights, name, j) > 0 <==> exists f :: f in flights && Took(repos, f, name, j)
  {
    if flights != [] {
      var n := |flights| - 1;
      TakenWitness(repos, flights[..n], name, j);
      assert flights == flights[..n] + [flights[n]];
    }
  }

  /** What repository `j` holds for `name`, given the puts it has taken. */
  ghost predicate Accounted(start: seq<Repo>, w: World, name: string, j: nat)
    requires j < |start| == |w.repos| && forall f :: f in w.flights ==> Fits(f.call, |start|)
  {
    var (was, e) := (Lookup(start[j].tab, name), Lookup(w.repos[j].tab, name));
    var taken := Taken(start, w.flights, name, j);
    && w.repos[j].broken == start[j].broken
    && e.changes == was.changes + taken
    && e.token == was.token
    && (name in w.repos[j].tab <==> name in start[j].tab || taken > 0)
    && (if taken == 0 then e == was else exists f :: f in w.flights && Took(start, f, name, j) && e.id == f.id)
  }

  /** The call's counters are those of the sequential loop over the start state. */
  predicate Tallied(start: seq<Repo>, f: Flight)
    requires Fits(f.call, |start|) && f.done <= |start|
  {
    (f.successes, f.errLast) == Tally(start, f.name, f.id, f.call, f.done)
  }

  ghost predicate Inv(start: seq<Repo>, w: World) {
    && WellFormed(w) && |w.repos| == |start|
    && (forall j: nat, name :: j < |start| ==> Accounted(start, w, name, j))
    && forall f :: f in w.flights ==> Tallied(start, f)
  }

  lemma StepKeepsTally(start: seq<Repo>, w: World, i: nat)
    requires Inv(start, w) && CanStep(w, i)
    ensures Tallied(start, Next(w, i).flights[i])
  {
    var f := w.flights[i];
    var r := Ring.At(f.call.start, f.done, |start|);
    assert f in w.flights && Accounted(start, w, f.name, r);
  }

  lemma StepCounts(start: seq<Repo>, w: World, i: nat, name: string, j: nat)
    requires Inv(start, w) && CanStep(w, i) && j < |start|
    ensures var (f, f') := (w.flights[i], Next(w, i).flights[i]);
            var took := Took(start, f', name, j) && !Took(start, f, name, j);
            && f in w.flights && (Took(start, f, name, j) ==> Took(start, f', name, j))
            && Taken(start, Next(w, i).flights, name, j) ==
                 Taken(start, w.flights, name, j) + (if took then 1 else 0)
            && Next(w, i).repos[j].broken == w.repos[j].broken
    ensures var (f, f') := (w.flights[i], Next(w, i).flights[i]);
            var took := Took(start, f', name, j) && !Took(start, f, name, j);
            var (tab, tab') := (w.repos[j].tab, Next(w, i).repos[j].tab);
            var e := Lookup(tab, name);
            if took then name in tab' && tab'[name] == Entry(f.id, e.changes + 1, f.call.clock[j], e.token)
            else Lookup(tab', name) == e && (name in tab' <==> name in tab)
  {
    var f, f' := w.flights[i], Next(w, i).flights[i];
    Ring.Coverage(f.call.start, |start|);
    TakenUpdate(start, w.flights, i, f', name, j);
    assert Accounted(start, w, name, j);
  }

  lemma StepKeepsAccount(start: seq<Repo>, w: World, i: nat, name: string, j: nat)
    requires Inv(start, w) && CanStep(w, i) && j < |start|
    ensures Accounted(start, Next(w, i), name, j)
  {
    var w' := Next(w, i);
    var f, f' := w.flights[i], w'.flights[i];
    StepCounts(start, w, i, name, j);
    assert Accounted(start, w, name, j) && f' in w'.flights;
    if !(Took(start, f', name, j) && !Took(start, f, name, j)) {
      if g :| g in w.flights && Took(start, g, name, j) && Lookup(w.repos[j].tab, name).id == g.id {
        var k :| 0 <= k < |w.flights| && w.flights[k] == g;
        assert w'.flights[k] in w'.flights && Took(start, w'.flights[k], name, j);
      }
    }
  }

  lemma NextKeepsInv(start: seq<Repo>, w: World, i: nat)
    requires Inv(start, w) && CanStep(w, i)
    ensures Inv(start, Next(w, i))
  {
    var w' := Next(w, i);
    forall j: nat, name | j < |start| ensures Accounted(start, w', name, j) {
      StepKeepsAccount(start, w, i, name, j);
    }
    StepKeepsTally(start, w, i);
    forall f | f in w'.flights ensures Tallied(start, f) {
      var k :| 0 <= k < |w'.flights| && w'.flights[k] == f;
      assert w.flights[k] in w.flights;
    }
  }

  /** A call that has put nothing anywhere. */
  ghost predicate TookNothing(repos: seq<Repo>, f: Flight)
    requires Fits(f.call, |repos|)
  {
    forall name, j: nat :: j < |repos| ==> !Took(repos, f, name, j)
  }

  /** Calls that have put nothing can be exchanged. */
  lemma SwapKeepsInv(start: seq<Repo>, w: World, i: nat, f: Flight)
    requires Inv(start, w) && i < |w.flights| && Fits(f.call, |start|) && f.done <= |start|
    requires Tallied(start, f) && TookNothing(start, f) && Fits(w.flights[i].call, |start|)
    requires TookNothing(start, w.flights[i])
    ensures Inv(start, w.(flights := w.flights[i := f]))
  {
    var w' := w.(flights := w.flights[i := f]);
    forall j: nat, name | j < |start| ensures Accounted(start, w', name, j) {
      assert Accounted(start, w, name, j);
      TakenUpdate(start, w.flights, i, f, name, j);
      if g :| g in w.flights && Took(start, g, name, j) && Lookup(w.repos[j].tab, name).id == g.id {
        var k :| 0 <= k < |w.flights| && w.flights[k] == g;
        assert w'.flights[k] == g && g in w'.flights;
      }
    }
  }

  /** A call that has put nothing can join. */
  lemma JoinKeepsInv(start: seq<Repo>, w: World, f: Flight)
    requires Inv(start, w) && Fits(f.call, |start|) && f.done <= |start|
    requires Tallied(start, f) && TookNothing(start, f)
    ensures Inv(start, w.(flights := w.flights + [f]))
  {
    var w' := w.(flights := w.flights + [f]);
    forall j: nat, name | j < |start| ensures Accounted(start, w', name, j) {
      assert Accounted(start, w, name, j);
      assert w'.flights[..|w.flights|] == w.flights;
    }
  }

  lemma {:induction false} ExecKeepsInv(start: seq<Repo>, w: World, schedule: seq<nat>)
    requires Inv(start, w) && Legal(w, schedule)
    ensures Inv(start, Exec(w, schedule)) && |Exec(w, schedule).flights| == |w.flights|
    ensures forall i :: 0 <= i < |w.flights| ==> SameCall(Exec(w, schedule).flights[i], w.flights[i])
    decreases |schedule|
  {
    if schedule != [] {
      NextKeepsInv(start, w, schedule[0]);
      ExecKeepsInv(start, Next(w, schedule[0]), schedule[1..]);
    }
  }

  predicate Idle(w: World) { forall f :: f in w.flights ==> f == Launch(f.name, f.id, f.call) }

  predicate Finished(w: World) { forall f :: f in w.flights ==> f.done == |w.repos| }

  /** How many of the calls put `name` into repository `j`. */
  function PutsOf(repos: seq<Repo>, flights: seq<Flight>, name: string, j: nat): nat
    requires j < |repos| && forall f :: f in flights ==> Fits(f.call, |repos|)
  {
    if flights == [] then 0
    else
      var f := flights[|flights| - 1];
      assert Fits(f.call, |repos|);
      PutsOf(repos, flights[..|flights| - 1], name, j)
      + if f.name == name && Accepts(repos[j], name, f.id, f.call.faults[j]) then 1 else 0
  }

  lemma {:induction false} AllTaken(repos: seq<Repo>, before: seq<Flight>, after: seq<Flight>, name: string, j: nat)
    requires j < |repos| && |before| == |after|
    requires forall f :: f in before ==> Fits(f.call, |repos|)
    requires forall f :: f in after ==> Fits(f.call, |repos|) && f.done == |repos|
    requires forall i :: 0 <= i < |before| ==> SameCall(after[i], before[i])
    ensures Taken(repos, after, name, j) == PutsOf(repos, before, name, j)
  {
    if before != [] {
      var n := |before| - 1;
      AllTaken(repos, before[..n], after[..n], name, j);
      assert after[n] in after;
    }
  }

  lemma {:induction false} NoneTaken(repos: seq<Repo>, flights: seq<Flight>, name: string, j: nat)
    requires j < |repos| && forall f :: f in flights ==> Fits(f.call, |repos|) && f.done == 0
    ensures Taken(repos, flights, name, j) == 0
  {
    if flights != [] {
      NoneTaken(repos, flights[..|flights| - 1], name, j);
      assert flights[|flights| - 1] in flights;
    }
  }

  lemma IdleInv(w: World)
    requires WellFormed(w) && Idle(w)
    ensures Inv(w.repos, w)
  {
    forall j: nat, name | j < |w.repos| ensures Accounted(w.repos, w, name, j) {
      NoneTaken(w.repos, w.flights, name, j);
    }
  }

  lemma FinalAccount(w: World, schedule: seq<nat>, name: string, j: nat)
    requires WellFormed(w) && Idle(w) && Legal(w, schedule) && Finished(Exec(w, schedule))
    requires j < |w.repos|
    ensures var w' := Exec(w, schedule);
            && Inv(w.repos, w') && Accounted(w.repos, w', name, j)
            && Taken(w.repos, w'.flights, name, j) == PutsOf(w.repos, w.flights, name, j)
            && |w'.flights| == |w.flights|
            && forall i :: 0 <= i < |w.flights| ==> SameCall(w'.flights[i], w.flights[i])
  {
    IdleInv(w);
    ExecKeepsInv(w.repos, w, schedule);
    AllTaken(w.repos, w.flights, Exec(w, schedule).flights, name, j);
  }

  lemma Supplier(repos: seq<Repo>, before: seq<Flight>, after: seq<Flight>, name: string, j: nat, id: string)
    requires j < |repos| && |after| == |before|
    requires forall f :: f in after ==> Fits(f.call, |repos|)
    requires forall i :: 0 <= i < |before| ==> SameCall(after[i], before[i])
    requires exists f :: f in after && Took(repos, f, name, j) && id == f.id
    ensures exists f :: f in before && f.name == name && id == f.id
  {
    var f :| f in after && Took(repos, f, name, j) && id == f.id;
    var i :| 0 <= i < |after| && after[i] == f;
    assert before[i] in before && before[i].name == name && before[i].id == id;
  }

  /** Once overlapping calls are all done, each repository's counter for a name
      has risen by exactly the puts of that name it accepted, its keys have grown
      by those names, and its id is the old one or came from one of the calls. */
  lemma OverlappingPuts(w: World, schedule: seq<nat>, name: string, j: nat)
    requires WellFormed(w) && Idle(w) && Legal(w, schedule) && Finished(Exec(w, schedule))
    requires j < |w.repos|
    ensures var final := Exec(w, schedule).repos;
            var puts := PutsOf(w.repos, w.flights, name, j);
            && |final| == |w.repos| && final[j].broken == w.repos[j].broken
            && Lookup(final[j].tab, name).changes == Lookup(w.repos[j].tab, name).changes + puts
            && Lookup(final[j].tab, name).token == Lookup(w.repos[j].tab, name).token
            && (name in final[j].tab <==> name in w.repos[j].tab || puts > 0)
            && (puts == 0 ==> Lookup(final[j].tab, name) == Lookup(w.repos[j].tab, name))
            && (puts > 0 ==> exists f :: f in w.flights && f.name == name && Lookup(final[j].tab, name).id == f.id)
  {
    FinalAccount(w, schedule, name, j);
    var w' := Exec(w, schedule);
    if PutsOf(w.repos, w.flights, name, j) > 0 {
      Supplier(w.repos, w.flights, w'.flights, name, j, Lookup(w'.repos[j].tab, name).id);
    }
  }

  /** However calls overlap, each one returns exactly what it would have returned
      alone: success iff some repository took its put, else the error of the
      repository its ring started at. */
  lemma OverlappingOutcomes(w: World, schedule: seq<nat>, i: nat)
    requires WellFormed(w) && Idle(w) && Legal(w, schedule) && Finished(Exec(w, schedule)) && i < |w.flights|
    ensures var (f, flights) := (w.flights[i], Exec(w, schedule).flights);
            && |flights| == |w.flights| && f in w.flights && SameCall(flights[i], f)
            && Report(flights[i], |w.repos|) == PutAllError(w.repos, f.name, f.id, f.call)
            && (Report(flights[i], |w.repos|).None? <==>
                  exists j :: 0 <= j < |w.repos| && Accepts(w.repos[j], f.name, f.id, f.call.faults[j]))
  {
    IdleInv(w);
    ExecKeepsInv(w.repos, w, schedule);
    var f, final := w.flights[i], Exec(w, schedule);
    assert f in w.flights && final.flights[i] in final.flights;
    PutOutcome(w.repos, f.name, f.id, f.call);
  }

  lemma {:induction false} SamePuts(repos: seq<Repo>, flights: seq<Flight>, name: string, j: nat, k: nat)
    requires j < |repos| && k < |repos| && !repos[j].broken && !repos[k].broken
    requires forall f :: f in flights ==> Fits(f.call, |repos|) && true !in f.call.faults
    ensures PutsOf(repos, flights, name, j) == PutsOf(repos, flights, name, k)
  {
    if flights != [] {
      SamePuts(repos, flights[..|flights| - 1], name, j, k);
      var f := flights[|flights| - 1];
      assert f in flights && f.call.faults[j] in f.call.faults && f.call.faults[k] in f.call.faults;
    }
  }

  /** Without transient faults, healthy repositories that agreed on names and
      counters agree again once the overlapping calls are done. */
  lemma HealthyAgree(w: World, schedule: seq<nat>, name: string, j: nat, k: nat)
    requires WellFormed(w) && Idle(w) && Legal(w, schedule) && Finished(Exec(w, schedule))
    requires forall f :: f in w.flights ==> true !in f.call.faults
    requires j < |w.repos| && k < |w.repos| && !w.repos[j].broken && !w.repos[k].broken
    requires name in w.repos[j].tab <==> name in w.repos[k].tab
    requires Lookup(w.repos[j].tab, name).changes == Lookup(w.repos[k].tab, name).changes
    ensures var final := Exec(w, schedule).repos;
            && |final| == |w.repos|
            && (name in final[j].tab <==> name in final[k].tab)
            && Lookup(final[j].tab, name).changes == Lookup(final[k].tab, name).changes
  {
    OverlappingPuts(w, schedule, name, j);
    OverlappingPuts(w, schedule, name, k);
    SamePuts(w.repos, w.flights, name, j, k);
  }

  function Zeros(k: nat): seq<nat> { seq(k, i => 0) }

  /** The call alone after `k` steps of the sequential loop. */
  function AloneAt(repos: seq<Repo>, name: string, id: string, call: Call, k: nat): (w: World)
    requires Fits(call, |repos|) && k <= |repos|
    ensures WellFormed(w)
  {
    var (successes, errLast) := Tally(repos, name, id, call, k);
    World(PutSome(repos, name, id, call, k), [Flight(name, id, call, k, successes, errLast)])
  }

  lemma AloneNext(repos: seq<Repo>, name: string, id: string, call: Call, k: nat)
    requires Fits(call, |repos|) && k < |repos|
    ensures CanStep(AloneAt(repos, name, id, call, k), 0)
    ensures Next(AloneAt(repos, name, id, call, k), 0) == AloneAt(repos, name, id, call, k + 1)
  {
    PutNext(repos, name, id, call, k);
  }

  lemma {:induction false} ExecOneMore(w: World, schedule: seq<nat>, i: nat)
    requires WellFormed(w) && Legal(w, schedule) && CanStep(Exec(w, schedule), i) && WellFormed(Exec(w, schedule))
    ensures Legal(w, schedule + [i]) && Exec(w, schedule + [i]) == Next(Exec(w, schedule), i)
    decreases |schedule|
  {
    if schedule != [] {
      ExecOneMore(Next(w, schedule[0]), schedule[1..], i);
      assert (schedule + [i])[1..] == schedule[1..] + [i];
    } else {
      assert (schedule + [i])[1..] == [];
    }
  }

  /** `k` steps of a call in flight alone are `k` rounds of the write loop: same
      repositories, same count, same error. */
  lemma {:induction false} AloneRounds(repos: seq<Repo>, name: string, id: string, call: Call, k: nat)
    requires Fits(call, |repos|) && k <= |repos|
    ensures var w := World(repos, [Launch(name, id, call)]);
            && WellFormed(w) && Legal(w, Zeros(k)) && Exec(w, Zeros(k)) == AloneAt(repos, name, id, call, k)
  {
    var w := World(repos, [Launch(name, id, call)]);
    if k == 0 {
      assert PutSome(repos, name, id, call, 0) == repos;
    } else {
      AloneRounds(repos, name, id, call, k - 1);
      AloneNext(repos, name, id, call, k - 1);
      ExecOneMore(w, Zeros(k - 1), 0);
      assert Zeros(k) == Zeros(k - 1) + [0];
    }
  }

  /** A call in flight alone is the write loop: it leaves the same repositories
      and returns the same. */
  lemma AloneIsPutAll(repos: seq<Repo>, name: string, id: string, call: Call)
    requires Fits(call, |repos|)
    ensures var (w, schedule) := (World(repos, [Launch(name, id, call)]), Zeros(|repos|));
            && WellFormed(w) && Legal(w, schedule)
            && Exec(w, schedule).repos == PutAll(repos, name, id, call)
            && |Exec(w, schedule).flights| == 1
            && Report(Exec(w, schedule).flights[0], |repos|) == PutAllError(repos, name, id, call)
  {
    AloneRounds(repos, name, id, call, |repos|);
  }
}

/** Runs of the server's step system: how long a handler or message can take, and
    how handling one after another is one of the interleavings. */
module ServerRuns {
  import opened GoLib
  import opened Repository
  import opened Service
  import opened StoreLaws
  import opened Server
  import L = Listener
  import P = ConcurrentPuts
  import T = TokenMode

  // ----- work -----

  /** A bound on the steps a task still takes on its own behalf. */
  function Work(t: Task, n: nat): int {
    var attempts := |JobOf(t.origin).attempts|;
    match t.phase
    case Ended(_) => 0
    case Writing(a) => (attempts - a) * (n + 2) + (n - t.flight.done) + 1
    case Checking(asked, received) => attempts * (n + 2) + n + 3 + (n - received) + (n - |asked|)
  }

  /** The most a request or message can take: two steps for each repository it
      reads, and one for each put and each end of an attempt. */
  function Budget(o: Origin, n: nat): int { |JobOf(o).attempts| * (n + 2) + 3 * n + 3 }

  predicate Own(step: Step, i: nat) { step == Turn(i) || (step.Ask? && step.i == i) }

  function OwnSteps(steps: seq<Step>, i: nat): nat {
    if steps == [] then 0 else OwnSteps(steps[1..], i) + if Own(steps[0], i) then 1 else 0
  }

  lemma OneAttempt(left: nat, n: nat)
    requires left >= 1
    ensures left * (n + 2) == (left - 1) * (n + 2) + n + 2
    ensures (left - 1) * (n + 2) >= 0
  {
  }

  lemma {:induction false} BoundedKeys(s: set<nat>, n: nat)
    requires forall r :: r in s ==> r < n
    ensures |s| <= n
  {
    if n > 0 {
      BoundedKeys(s - {n - 1}, n - 1);
    } else {
      assert s == {};
    }
  }

  lemma AttemptWork(t: Task, a: nat, n: nat)
    requires a <= |JobOf(t.origin).attempts|
    ensures 0 <= Work(Attempt(t, a), n) <= (|JobOf(t.origin).attempts| - a) * (n + 2) + n + 1
  {
    if a < |JobOf(t.origin).attempts| {
      OneAttempt(|JobOf(t.origin).attempts| - a, n);
    } else {
      assert 0 * (n + 2) == 0;
    }
  }

  lemma Product(a: nat, b: nat)
    ensures a * b >= 0
  {
  }

  lemma FreshWork(t: Task, n: nat)
    requires WellFormedTask(t, n)
    requires t.phase.Checking? ==> t.phase == Checking(map[], 0)
    requires t.phase.Writing? ==> t.phase == Writing(0) && t.flight.done == 0
    ensures 0 <= Work(t, n) <= Budget(t.origin, n)
  {
    Product(|JobOf(t.origin).attempts|, n + 2);
  }

  lemma BeginWork(cfg: L.Config, o: Origin, n: nat)
    requires FitsJob(JobOf(o), n)
    ensures 0 <= Work(Begin(cfg, o, n), n) <= Budget(o, n)
  {
    FreshWork(Begin(cfg, o, n), n);
  }

  /** Nothing has been read twice or beyond the list. */
  predicate InBounds(t: Task, n: nat) {
    t.phase.Checking? ==> t.phase.received <= n && forall r :: r in t.phase.asked ==> r < n
  }

  lemma WorkIsLeft(t: Task, n: nat)
    requires WellFormedTask(t, n) && InBounds(t, n) && !t.phase.Ended?
    ensures Work(t, n) > 0
  {
    var len := |JobOf(t.origin).attempts|;
    if t.phase.Checking? {
      BoundedKeys(t.phase.asked.Keys, n);
      assert len * (n + 2) >= 0;
    } else {
      OneAttempt(len - t.phase.attempt, n);
    }
  }

  lemma ReceiveLowersWork(t: Task, n: nat)
    requires WellFormedTask(t, n) && InBounds(t, n) && t.phase.Checking? && Ready(t, n)
    ensures 0 <= Work(Receive(t, n), n) < Work(t, n) && InBounds(Receive(t, n), n)
  {
    WorkIsLeft(t, n);
    AttemptWork(t, 0, n);
    BoundedKeys(t.phase.asked.Keys, n);
    Product(|JobOf(t.origin).attempts|, n + 2);
  }

  lemma EndAttemptLowersWork(t: Task, n: nat)
    requires WellFormedTask(t, n) && t.phase.Writing? && t.flight.done == n
    ensures 0 <= Work(EndAttempt(t, n), n) < Work(t, n) && InBounds(EndAttempt(t, n), n)
  {
    WorkIsLeft(t, n);
    AttemptWork(t, t.phase.attempt + 1, n);
    OneAttempt(|JobOf(t.origin).attempts| - t.phase.attempt, n);
  }

  lemma LocalTurnLowersWork(t: Task, n: nat)
    requires WellFormedTask(t, n) && InBounds(t, n) && !t.phase.Ended? && !Puts(t, n)
    requires t.phase.Checking? ==> Ready(t, n)
    ensures 0 <= Work(LocalTurn(t, n), n) < Work(t, n) && InBounds(LocalTurn(t, n), n)
  {
    if t.phase.Checking? {
      ReceiveLowersWork(t, n);
    } else {
      EndAttemptLowersWork(t, n);
    }
  }

  lemma AskLowersWork(repos: seq<Repo>, t: Task, r: nat)
    requires WellFormedTask(t, |repos|) && InBounds(t, |repos|) && t.phase.Checking?
    requires r < |repos| && r !in t.phase.asked
    ensures 0 <= Work(Asked(repos, t, r), |repos|) < Work(t, |repos|) && InBounds(Asked(repos, t, r), |repos|)
  {
    var t' := Asked(repos, t, r);
    assert t'.phase.asked.Keys == t.phase.asked.Keys + {r};
    WorkIsLeft(t', |repos|);
  }

  lemma OwnStepLowersWork(cfg: L.Config, w: World, step: Step, i: nat)
    requires WellFormed(w) && Enabled(cfg, w, step) && Own(step, i) && InBounds(w.tasks[i], |w.repos|)
    ensures var (t, t') := (w.tasks[i], Next(cfg, w, step).tasks[i]);
            0 <= Work(t', |w.repos|) < Work(t, |w.repos|) && InBounds(t', |w.repos|)
  {
    var t, n := w.tasks[i], |w.repos|;
    if step.Ask? {
      AskLowersWork(w.repos, t, step.r);
    } else if Puts(t, n) {
      var t' := Next(cfg, w, step).tasks[i];
      assert t'.phase == t.phase && t'.flight.done == t.flight.done + 1;
      WorkIsLeft(t', n);
    } else {
      LocalTurnLowersWork(t, n);
    }
  }

  lemma OtherStepKeepsTask(cfg: L.Config, w: World, step: Step, i: nat)
    requires WellFormed(w) && Enabled(cfg, w, step) && !Own(step, i) && i < |w.tasks|
    ensures i < |Next(cfg, w, step).tasks| && Next(cfg, w, step).tasks[i] == w.tasks[i]
  {
  }

  lemma WorkIsNat(t: Task, n: nat)
    requires WellFormedTask(t, n) && InBounds(t, n)
    ensures Work(t, n) >= 0
  {
    if !t.phase.Ended? {
      WorkIsLeft(t, n);
    }
  }

  /** Whatever else goes on, the steps a task takes itself and the work it has left
      never exceed the work it had. */
  lemma {:induction false} StepsAreBounded(cfg: L.Config, w: World, steps: seq<Step>, i: nat)
    requires WellFormed(w) && Legal(cfg, w, steps) && i < |w.tasks| && InBounds(w.tasks[i], |w.repos|)
    ensures var w' := Exec(cfg, w, steps);
            && i < |w'.tasks| && InBounds(w'.tasks[i], |w.repos|) && Work(w'.tasks[i], |w.repos|) >= 0
            && OwnSteps(steps, i) + Work(w'.tasks[i], |w.repos|) <= Work(w.tasks[i], |w.repos|)
    decreases |steps|
  {
    if steps == [] {
      WorkIsNat(w.tasks[i], |w.repos|);
    } else {
      if Own(steps[0], i) {
        OwnStepLowersWork(cfg, w, steps[0], i);
      } else {
        OtherStepKeepsTask(cfg, w, steps[0], i);
      }
      StepsAreBounded(cfg, Next(cfg, w, steps[0]), steps[1..], i);
    }
  }

  lemma {:induction false} ExecConcat(cfg: L.Config, w: World, a: seq<Step>, b: seq<Step>)
    requires WellFormed(w) && Legal(cfg, w, a) && Legal(cfg, Exec(cfg, w, a), b)
    ensures Legal(cfg, w, a + b) && Exec(cfg, w, a + b) == Exec(cfg, Exec(cfg, w, a), b)
    decreases |a|
  {
    if a == [] {
      assert a + b == b;
    } else {
      assert (a + b)[1..] == a[1..] + b;
      ExecConcat(cfg, Next(cfg, w, a[0]), a[1..], b);
    }
  }

  /** Every handler and message ends: from its arrival on it takes at most its
      budget of steps of its own, and as long as it has not ended one is possible
      or a query it waits for is. */
  lemma EveryTaskEnds(cfg: L.Config, w: World, o: Origin, steps: seq<Step>)
    requires WellFormed(w) && Enabled(cfg, w, Arrive(o)) && Legal(cfg, Next(cfg, w, Arrive(o)), steps)
    ensures var (i, w') := (|w.tasks|, Exec(cfg, Next(cfg, w, Arrive(o)), steps));
            && i < |w'.tasks| && OwnSteps(steps, i) <= Budget(o, |w.repos|)
            && (OwnSteps(steps, i) == Budget(o, |w.repos|) ==> w'.tasks[i].phase.Ended?)
            && (w'.tasks[i].phase.Ended? || exists step :: Own(step, i) && Enabled(cfg, w', step))
  {
    var i, w1 := |w.tasks|, Next(cfg, w, Arrive(o));
    BeginWork(cfg, o, |w.repos|);
    StepsAreBounded(cfg, w1, steps, i);
    var w' := Exec(cfg, w1, steps);
    if !w'.tasks[i].phase.Ended? {
      WorkIsLeft(w'.tasks[i], |w.repos|);
      NobodyIsStuck(cfg, w', i);
    }
  }

  // ----- a task alone -----

  /** The store after what this call has put so far, and nothing else. */
  function Progress(start: seq<Repo>, f: P.Flight): seq<Repo>
    requires Fits(f.call, |start|) && f.done <= |start|
  {
    PutSome(start, f.name, f.id, f.call, f.done)
  }

  /** A task alone has written exactly what its latest fan-out has written. */
  ghost predicate AloneInv(start: seq<Repo>, o: Origin, w: World)
    requires WellFormed(w) && |w.repos| == |start|
  {
    |w.tasks| == 1 && w.tasks[0].origin == o && w.repos == Progress(start, w.tasks[0].flight)
  }

  lemma NothingPut(start: seq<Repo>, f: P.Flight)
    requires Fits(f.call, |start|) && f.done <= |start| && P.TookNothing(start, f)
    ensures Progress(start, f) == start
  {
    forall j: nat | j < |start| ensures Progress(start, f)[j] == start[j] {
      assert !P.Took(start, f, f.name, j);
    }
  }

  lemma LocalTurnKeepsAlone(start: seq<Repo>, t: Task, t': Task)
    requires WellFormedTask(t, |start|) && WellFormedTask(t', |start|)
    requires t'.flight == t.flight || (P.TookNothing(start, t.flight) && P.TookNothing(start, t'.flight))
    ensures Progress(start, t'.flight) == Progress(start, t.flight)
  {
    if t'.flight != t.flight {
      NothingPut(start, t.flight);
      NothingPut(start, t'.flight);
    }
  }

  lemma PutTurnKeepsAlone(start: seq<Repo>, o: Origin, w: World)
    requires WellFormed(w) && |w.repos| == |start| && AloneInv(start, o, w) && Puts(w.tasks[0], |start|)
    ensures AloneInv(start, o, PutTurn(w, 0))
  {
    var f := w.tasks[0].flight;
    PutNext(start, f.name, f.id, f.call, f.done);
    assert PutWorld(w).flights[0] == f;
  }

  lemma StepKeepsAlone(cfg: L.Config, start: seq<Repo>, o: Origin, w: World, step: Step)
    requires Inv(cfg, start, w) && AloneInv(start, o, w) && Enabled(cfg, w, step) && (step.Ask? || step.Turn?)
    ensures AloneInv(start, o, Next(cfg, w, step))
  {
    var t := w.tasks[0];
    match step
    case Ask(i, r) =>
      assert i == 0 && Next(cfg, w, step) == WithTask(w, 0, Asked(w.repos, t, r));
    case Turn(i) =>
      assert i == 0;
      if Puts(t, |start|) {
        PutTurnKeepsAlone(start, o, w);
      } else {
        assert PutWorld(w).flights[0] in PutWorld(w).flights && TaskOk(cfg, start, t);
        LocalTurnOk(cfg, start, t);
        LocalTurnKeepsAlone(start, t, LocalTurn(t, |start|));
      }
  }

  lemma {:induction false} AloneStays(
    cfg: L.Config, tokens: map<string, string>, start: seq<Repo>, o: Origin, w: World, steps: seq<Step>)
    requires Inv(cfg, start, w) && AloneInv(start, o, w) && Legal(cfg, w, steps)
    requires cfg.writeToken ==> T.TokensAre(start, tokens)
    requires forall step :: step in steps ==> step.Ask? || step.Turn?
    ensures Inv(cfg, start, Exec(cfg, w, steps)) && AloneInv(start, o, Exec(cfg, w, steps))
    decreases |steps|
  {
    if steps != [] {
      StepKeepsAlone(cfg, start, o, w, steps[0]);
      NextKeepsInv(cfg, tokens, start, w, steps[0]);
      AloneStays(cfg, tokens, start, o, Next(cfg, w, steps[0]), steps[1..]);
    }
  }

  lemma EndIsSequential(cfg: L.Config, start: seq<Repo>, t: Task)
    requires WellFormedTask(t, |start|) && TaskOk(cfg, start, t) && t.phase.Ended?
    ensures Progress(start, t.flight) == StoreOf(cfg, start, t.origin)
    ensures t.phase.verdict == Server.VerdictOf(cfg, start, t.origin)
  {
    var job := JobOf(t.origin);
    if t.phase.verdict == L.Stored {
      var a: nat :| EndedAt(start, job, t.flight, a);
      RetryStops(start, job.name, job.id, job.attempts, a);
    } else {
      NothingPut(start, t.flight);
      RetryCountsOnce(start, job.name, job.id, job.attempts);
    }
  }

  /** One task in a world where no other has a share. */
  lemma AloneStarts(cfg: L.Config, w: World, o: Origin)
    requires FitsJob(JobOf(o), |w.repos|) && w.tasks == [Begin(cfg, o, |w.repos|)]
    ensures WellFormed(w) && Inv(cfg, w.repos, w) && AloneInv(w.repos, o, w)
  {
    var t := w.tasks[0];
    FreshInv(cfg, w.repos);
    BeginOk(cfg, w.repos, o);
    P.JoinKeepsInv(w.repos, PutWorld(Fresh(w.repos)), t.flight);
    assert Flights(w.tasks) == Flights([]) + [t.flight];
    NothingPut(w.repos, t.flight);
  }

  lemma {:induction false} AllOwn(steps: seq<Step>, i: nat)
    requires forall step :: step in steps ==> Own(step, i)
    ensures OwnSteps(steps, i) == |steps|
  {
    if steps != [] {
      AllOwn(steps[1..], i);
    }
  }

  /** Alone, a handler or message takes at most its budget of steps; when it can
      take no more it has ended, with the verdict and the very store of the
      sequential code. */
  lemma AloneIsSequential(
    cfg: L.Config, tokens: map<string, string>, w: World, o: Origin, steps: seq<Step>)
    requires FitsJob(JobOf(o), |w.repos|) && (cfg.writeToken ==> T.TokensAre(w.repos, tokens))
    requires w.tasks == [Begin(cfg, o, |w.repos|)] && WellFormed(w) && Legal(cfg, w, steps)
    requires forall step :: step in steps ==> Own(step, 0)
    ensures var w' := Exec(cfg, w, steps);
            && |w'.tasks| == 1 && |steps| <= Budget(o, |w.repos|)
            && (w'.tasks[0].phase.Ended? <==> forall step :: Own(step, 0) ==> !Enabled(cfg, w', step))
            && (w'.tasks[0].phase.Ended? ==>
                  && w'.repos == StoreOf(cfg, w.repos, o)
                  && w'.tasks[0].phase.verdict == Server.VerdictOf(cfg, w.repos, o))
  {
    AloneStarts(cfg, w, o);
    AloneStays(cfg, tokens, w.repos, o, w, steps);
    BeginWork(cfg, o, |w.repos|);
    StepsAreBounded(cfg, w, steps, 0);
    AllOwn(steps, 0);
    var w' := Exec(cfg, w, steps);
    if w'.tasks[0].phase.Ended? {
      EndIsSequential(cfg, w.repos, w'.tasks[0]);
    } else {
      NobodyIsStuck(cfg, w', 0);
    }
  }

  /** And it can be run to its end. */
  lemma RunAlone(cfg: L.Config, w: World) returns (steps: seq<Step>)
    requires WellFormed(w) && |w.tasks| == 1 && InBounds(w.tasks[0], |w.repos|)
    ensures Legal(cfg, w, steps) && forall step :: step in steps ==> Own(step, 0)
    ensures |Exec(cfg, w, steps).tasks| == 1 && Exec(cfg, w, steps).tasks[0].phase.Ended?
    decreases Work(w.tasks[0], |w.repos|)
  {
    steps := [];
    if !w.tasks[0].phase.Ended? {
      NobodyIsStuck(cfg, w, 0);
      var step :| Own(step, 0) && Enabled(cfg, w, step);
      OwnStepLowersWork(cfg, w, step, 0);
      var rest := RunAlone(cfg, Next(cfg, w, step));
      steps := [step] + rest;
      assert steps[1..] == rest;
    }
  }

  // ----- one after another -----

  /** The same step of task `i`. */
  function For(step: Step, i: nat): Step {
    match step
    case Turn(_) => Turn(i)
    case Ask(_, r) => Ask(i, r)
    case _ => step
  }

  function AllFor(steps: seq<Step>, i: nat): seq<Step> { seq(|steps|, k requires 0 <= k < |steps| => For(steps[k], i)) }

  /** The world of task `i` without the others. */
  function Only(w: World, i: nat): (v: World)
    requires WellFormed(w) && i < |w.tasks|
    ensures WellFormed(v)
  {
    w.(tasks := [w.tasks[i]])
  }

  /** What a task does does not depend on the others. */
  lemma StepElsewhere(cfg: L.Config, w: World, i: nat, step: Step)
    requires WellFormed(w) && i < |w.tasks| && Own(step, 0) && Enabled(cfg, Only(w, i), step)
    ensures Enabled(cfg, w, For(step, i)) && i < |Next(cfg, w, For(step, i)).tasks|
    ensures Only(Next(cfg, w, For(step, i)), i) == Next(cfg, Only(w, i), step)
  {
    if step.Turn? && Puts(w.tasks[i], |w.repos|) {
      assert PutWorld(w).flights[i] == PutWorld(Only(w, i)).flights[0];
    }
  }

  lemma {:induction false} RunElsewhere(cfg: L.Config, w: World, i: nat, steps: seq<Step>)
    requires WellFormed(w) && i < |w.tasks| && Legal(cfg, Only(w, i), steps)
    requires forall step :: step in steps ==> Own(step, 0)
    ensures Legal(cfg, w, AllFor(steps, i)) && i < |Exec(cfg, w, AllFor(steps, i)).tasks|
    ensures Only(Exec(cfg, w, AllFor(steps, i)), i) == Exec(cfg, Only(w, i), steps)
    decreases |steps|
  {
    if steps != [] {
      StepElsewhere(cfg, w, i, steps[0]);
      RunElsewhere(cfg, Next(cfg, w, For(steps[0], i)), i, steps[1..]);
      assert AllFor(steps, i)[1..] == AllFor(steps[1..], i);
    }
  }

  lemma {:induction false} OwnStepsSendNothing(cfg: L.Config, w: World, steps: seq<Step>)
    requires WellFormed(w) && Legal(cfg, w, steps) && forall step :: step in steps ==> Own(step, 0)
    ensures Exec(cfg, w, steps).sent == w.sent
    decreases |steps|
  {
    if steps != [] {
      assert Own(steps[0], 0);
      OwnStepsSendNothing(cfg, Next(cfg, w, steps[0]), steps[1..]);
    }
  }

  /** From any moment at which it has its message, a request or message can be
      handled at once, whatever tasks are pending, as the sequential code would. */
  lemma HandledNow(cfg: L.Config, tokens: map<string, string>, w: World, o: Origin) returns (steps: seq<Step>)
    requires WellFormed(w) && Enabled(cfg, w, Arrive(o)) && (cfg.writeToken ==> T.TokensAre(w.repos, tokens))
    ensures Legal(cfg, w, steps)
    ensures Exec(cfg, w, steps).repos == StoreOf(cfg, w.repos, o) && Exec(cfg, w, steps).sent == w.sent
  {
    var i, w1 := |w.tasks|, Next(cfg, w, Arrive(o));
    var alone := Only(w1, i);
    BeginWork(cfg, o, |w.repos|);
    var own := RunAlone(cfg, alone);
    AloneIsSequential(cfg, tokens, alone, o, own);
    RunElsewhere(cfg, w1, i, own);
    OwnStepsSendNothing(cfg, alone, own);
    steps := [Arrive(o)] + AllFor(own, i);
    assert steps[1..] == AllFor(own, i);
  }

  /** The event as it arrives here, a message under a number of its own. */
  function OriginOf(e: T.Event, m: nat): Origin {
    match e
    case Http(q) => Http(q)
    case Message(_, d) => Message(d.(m := m))
  }

  lemma EventStore(cfg: L.Config, repos: seq<Repo>, e: T.Event, m: nat)
    requires cfg.writeToken && T.Possible(e, |repos|)
    ensures FitsJob(JobOf(OriginOf(e, m)), |repos|) && StoreOf(cfg, repos, OriginOf(e, m)) == T.Next(repos, e)
  {
    match e
    case Http(q) => HttpAlone(cfg, repos, q);
    case Message(own, d) => MessageAlone(own, repos, d.(m := m));
  }

  /** Every run of whole requests and messages is one of the interleavings: some
      schedule of single repository operations leaves the same store. */
  lemma {:induction false} EventRunsAreInterleavings(
    cfg: L.Config, tokens: map<string, string>, w: World, es: seq<T.Event>, m: nat) returns (steps: seq<Step>)
    requires WellFormed(w) && cfg.writeToken && T.TokensAre(w.repos, tokens) && T.Legal(w.repos, es)
    requires forall k :: k in w.sent ==> k < m
    ensures Legal(cfg, w, steps) && Exec(cfg, w, steps).repos == T.Run(w.repos, es)
    decreases |es|
  {
    steps := [];
    if es != [] {
      var o, w1 := OriginOf(es[0], m), w;
      var send: seq<Step> := [];
      if o.Message? {
        send := [Send(m, o.d.content)];
        w1 := Next(cfg, w, send[0]);
        assert send[1..] == [];
      }
      EventStore(cfg, w.repos, es[0], m);
      T.OneStep(w.repos, tokens, es[0]);
      var now := HandledNow(cfg, tokens, w1, o);
      var rest := EventRunsAreInterleavings(cfg, tokens, Exec(cfg, w1, now), es[1..], m + 1);
      ExecConcat(cfg, w1, now, rest);
      ExecConcat(cfg, w, send, now + rest);
      steps := send + (now + rest);
    }
  }
}

/** The whole server at once: any number of PUT handlers and queue messages, each
    with its token check, its retries and its ring of puts, interleaved at single
    repository operations. */
module Server {
  import opened GoLib
  import opened Repository
  import opened Service
  import opened StoreLaws
  import opened HandlerLaws
  import L = Listener
  import P = ConcurrentPuts
  import Ring
  import T = TokenMode

  // ----- what is handled -----

  /** An HTTP PUT, or one delivery of a queue message. */
  datatype Origin = Http(q: PutRequest) | Message(d: L.Delivery)

  /** What both ask for, the id trimmed, and the environment's choices; a message
      is tried once. */
  datatype Job = Job(name: string, id: string, token: string, read: Read, attempts: seq<Call>)

  function JobOf(o: Origin): Job {
    match o
    case Http(q) =>
      if q.body.None? then Job(q.name, "", "", q.read, q.attempts)
      else Job(q.name, TrimSpace(q.body.value.id), q.body.value.token, q.read, q.attempts)
    case Message(d) =>
      if d.content.Malformed? then Job("", "", "", d.read, [d.call])
      else Job(d.content.name, TrimSpace(d.content.id), d.content.token, d.read, [d.call])
  }

  predicate FitsJob(job: Job, n: nat) {
    FitsRead(job.read, n) && forall c :: c in job.attempts ==> Fits(c, n)
  }

  predicate IsBad(o: Origin) {
    match o
    case Http(q) => BadRequest(q)
    case Message(d) => L.BadContent(d.content)
  }

  /** The token check lets it through. */
  predicate Passes(cfg: L.Config, repos: seq<Repo>, o: Origin)
    requires FitsJob(JobOf(o), |repos|)
  {
    var job := JobOf(o);
    !IsBad(o) && !(cfg.writeToken && InvalidToken(repos, job.name, job.token, job.read))
  }

  /** How it ends when handled alone. */
  function VerdictOf(cfg: L.Config, repos: seq<Repo>, o: Origin): L.Verdict
    requires FitsJob(JobOf(o), |repos|)
  {
    var job := JobOf(o);
    if IsBad(o) then L.Bad
    else if !Passes(cfg, repos, o) then L.Refused
    else if Retry(repos, job.name, job.id, job.attempts).1 == OK then L.Stored
    else L.NotStored
  }

  function StoreOf(cfg: L.Config, repos: seq<Repo>, o: Origin): seq<Repo>
    requires FitsJob(JobOf(o), |repos|)
  {
    if Passes(cfg, repos, o) then Retry(repos, JobOf(o).name, JobOf(o).id, JobOf(o).attempts).0 else repos
  }

  function StatusOf(v: L.Verdict): int {
    match v
    case Bad => BAD_REQUEST
    case Refused => UNAUTHORIZED
    case NotStored => SERVER_ERROR
    case Stored => OK
  }

  lemma RetryStatus(repos: seq<Repo>, name: string, id: string, attempts: seq<Call>)
    requires forall c :: c in attempts ==> Fits(c, |repos|)
    ensures Retry(repos, name, id, attempts).1 in {OK, SERVER_ERROR}
  {
    RetryCountsOnce(repos, name, id, attempts);
  }

  /** Handled alone, a request is the PUT handler. */
  lemma HttpAlone(cfg: L.Config, repos: seq<Repo>, q: PutRequest)
    requires FitsRequest(q, |repos|)
    ensures HandlePut(repos, cfg.writeToken, q)
            == (StoreOf(cfg, repos, Http(q)), StatusOf(VerdictOf(cfg, repos, Http(q))))
  {
    if !BadRequest(q) {
      RetryStatus(repos, q.name, TrimSpace(q.body.value.id), q.attempts);
    }
  }

  lemma RetryOnce(repos: seq<Repo>, name: string, id: string, call: Call)
    requires Fits(call, |repos|)
    ensures Retry(repos, name, id, [call]) ==
            (PutAll(repos, name, id, call), if PutAllError(repos, name, id, call).None? then OK else SERVER_ERROR)
  {
    var after := PutAll(repos, name, id, call);
    assert [call][0] == call && [call][1..] == [];
    assert Retry(after, name, id, []) == (after, SERVER_ERROR);
  }

  /** Handled alone, a message is the listener's loop body. */
  lemma MessageAlone(cfg: L.Config, repos: seq<Repo>, d: L.Delivery)
    requires L.FitsDelivery(d, |repos|)
    ensures L.Judge(cfg, repos, d) == VerdictOf(cfg, repos, Message(d))
    ensures L.Written(cfg, repos, d) == StoreOf(cfg, repos, Message(d))
  {
    if !L.BadContent(d.content) {
      RetryOnce(repos, d.content.name, TrimSpace(d.content.id), d.call);
    }
  }

  // ----- the steps -----

  /** Reading answers for the token check, putting, or done. */
  datatype Phase =
    | Checking(asked: map<nat, Answer>, received: nat)
    | Writing(attempt: nat)
    | Ended(verdict: L.Verdict)

  /** `flight` is the latest call of repoPutMultiple. */
  datatype Task = Task(origin: Origin, phase: Phase, flight: P.Flight)

  /** `left` says, for each message gone from the queue, whose task deleted it. */
  datatype World = World(
    repos: seq<Repo>, tasks: seq<Task>, sent: map<nat, L.Content>, queued: set<nat>, left: map<nat, nat>)

  /** A message is sent; a request or a delivery arrives; a repository is read for
      task `i`; task `i` takes its next turn; task `i` deletes its message. */
  datatype Step =
    | Send(m: nat, content: L.Content)
    | Arrive(o: Origin)
    | Ask(i: nat, r: nat)
    | Turn(i: nat)
    | Delete(i: nat)

  predicate WellFormedTask(t: Task, n: nat) {
    && FitsJob(JobOf(t.origin), n) && Fits(t.flight.call, n) && t.flight.done <= n
    && (t.phase.Writing? ==> t.phase.attempt < |JobOf(t.origin).attempts|)
  }

  predicate WellFormed(w: World) {
    forall i :: 0 <= i < |w.tasks| ==> WellFormedTask(w.tasks[i], |w.repos|)
  }

  function IdleCall(n: nat): (c: Call)
    ensures Fits(c, n)
  {
    Call(0, seq(n, i => 0), seq(n, i => false))
  }

  /** The next fan-out, unless the attempts have run out. */
  function Attempt(t: Task, a: nat): Task {
    var job := JobOf(t.origin);
    if a < |job.attempts| then Task(t.origin, Writing(a), P.Launch(job.name, job.id, job.attempts[a]))
    else t.(phase := Ended(L.NotStored))
  }

  /** Up to the first repository operation. */
  function Begin(cfg: L.Config, o: Origin, n: nat): (t: Task)
    requires FitsJob(JobOf(o), n)
    ensures WellFormedTask(t, n) && t.origin == o
  {
    var job := JobOf(o);
    var t := Task(o, Ended(L.Bad), P.Launch(job.name, job.id, IdleCall(n)));
    if IsBad(o) then t
    else if !cfg.writeToken then Attempt(t, 0)
    else if job.token == "" || n == 0 then t.(phase := Ended(L.Refused))
    else t.(phase := Checking(map[], 0))
  }

  /** The next receive has its answer, or needs none. */
  predicate Ready(t: Task, n: nat)
    requires t.phase.Checking? && FitsJob(JobOf(t.origin), n)
  {
    var (read, k) := (JobOf(t.origin).read, t.phase.received);
    k < Receives(n, read.expires) ==> k < |read.order| && read.order[k] in t.phase.asked
  }

  /** One turn of the read loop: out of answers or of time, or one more answer. */
  function Receive(t: Task, n: nat): Task
    requires t.phase.Checking? && FitsJob(JobOf(t.origin), n) && Ready(t, n)
  {
    var (job, k) := (JobOf(t.origin), t.phase.received);
    if k >= Receives(n, job.read.expires) then t.(phase := Ended(L.Refused))
    else
      var answer := t.phase.asked[job.read.order[k]];
      if answer.err.Some? then t.(phase := Checking(t.phase.asked, k + 1))
      else if answer.body.entry.token != job.token then t.(phase := Ended(L.Refused))
      else Attempt(t, 0)
  }

  /** After a fan-out over `n` repositories. */
  function EndAttempt(t: Task, n: nat): Task
    requires t.phase.Writing?
  {
    if P.Report(t.flight, n).None? then t.(phase := Ended(L.Stored)) else Attempt(t, t.phase.attempt + 1)
  }

  /** The next turn puts into a repository. */
  predicate Puts(t: Task, n: nat) { t.phase.Writing? && t.flight.done != n }

  /** A turn that touches no repository. */
  function LocalTurn(t: Task, n: nat): (t': Task)
    requires WellFormedTask(t, n) && !t.phase.Ended? && !Puts(t, n) && (t.phase.Checking? ==> Ready(t, n))
    ensures WellFormedTask(t', n) && t'.origin == t.origin
  {
    if t.phase.Checking? then Receive(t, n) else EndAttempt(t, n)
  }

  predicate Enabled(cfg: L.Config, w: World, step: Step)
    requires WellFormed(w)
  {
    match step
    case Send(m, _) => m !in w.sent
    case Arrive(o) =>
      && FitsJob(JobOf(o), |w.repos|)
      && (o.Message? ==> o.d.m in w.sent && w.sent[o.d.m] == o.d.content)
    case Ask(i, r) =>
      i < |w.tasks| && w.tasks[i].phase.Checking? && r < |w.repos| && r !in w.tasks[i].phase.asked
    case Turn(i) =>
      && i < |w.tasks| && !w.tasks[i].phase.Ended?
      && (w.tasks[i].phase.Checking? ==> Ready(w.tasks[i], |w.repos|))
    case Delete(i) =>
      && i < |w.tasks| && w.tasks[i].phase.Ended? && w.tasks[i].origin.Message?
      && L.Consumes(cfg, w.tasks[i].phase.verdict) && !w.tasks[i].origin.d.deleteFails
  }

  function Flights(tasks: seq<Task>): (flights: seq<P.Flight>)
    ensures |flights| == |tasks|
    ensures forall i :: 0 <= i < |tasks| ==> flights[i] == tasks[i].flight
  {
    seq(|tasks|, i requires 0 <= i < |tasks| => tasks[i].flight)
  }

  function PutWorld(w: World): (p: P.World)
    requires WellFormed(w)
    ensures P.WellFormed(p)
  {
    assert forall f :: f in Flights(w.tasks) ==> Fits(f.call, |w.repos|) && f.done <= |w.repos|;
    P.World(w.repos, Flights(w.tasks))
  }

  function WithTask(w: World, i: nat, t: Task): (w': World)
    requires WellFormed(w) && i < |w.tasks| && WellFormedTask(t, |w.repos|)
    ensures WellFormed(w')
  {
    w.(tasks := w.tasks[i := t])
  }

  /** Repository `r` has been read for `t`. */
  function Asked(repos: seq<Repo>, t: Task, r: nat): (t': Task)
    requires WellFormedTask(t, |repos|) && t.phase.Checking? && r < |repos|
    ensures WellFormedTask(t', |repos|) && t'.origin == t.origin && t'.flight == t.flight
  {
    var answer := AnswerOf(repos, JobOf(t.origin).name, JobOf(t.origin).read.faults, r);
    t.(phase := Checking(t.phase.asked[r := answer], t.phase.received))
  }

  /** Task `i` puts into the next repository of its ring. */
  function PutTurn(w: World, i: nat): (w': World)
    requires WellFormed(w) && i < |w.tasks| && Puts(w.tasks[i], |w.repos|)
    ensures WellFormed(w') && |w'.repos| == |w.repos|
  {
    var p := P.Next(PutWorld(w), i);
    assert p.flights[i] in p.flights;
    WithTask(w, i, w.tasks[i].(flight := p.flights[i])).(repos := p.repos)
  }

  function Next(cfg: L.Config, w: World, step: Step): (w': World)
    requires WellFormed(w) && Enabled(cfg, w, step)
    ensures WellFormed(w') && |w'.repos| == |w.repos|
  {
    match step
    case Send(m, content) => w.(sent := w.sent[m := content], queued := w.queued + {m})
    case Arrive(o) => w.(tasks := w.tasks + [Begin(cfg, o, |w.repos|)])
    case Ask(i, r) => WithTask(w, i, Asked(w.repos, w.tasks[i], r))
    case Turn(i) =>
      if Puts(w.tasks[i], |w.repos|) then PutTurn(w, i) else WithTask(w, i, LocalTurn(w.tasks[i], |w.repos|))
    case Delete(i) =>
      var m := w.tasks[i].origin.d.m;
      if m in w.queued then w.(queued := w.queued - {m}, left := w.left[m := i]) else w
  }

  // ----- the invariant -----

  /** The same answer, but for the id, the changes and the time. */
  predicate Agrees(a: Answer, b: Answer) {
    a.err == b.err && (a.err.None? ==> a.body.entry.token == b.body.entry.token)
  }

  /** What the check has asked and received are answers of the start state. */
  ghost predicate CheckOk(start: seq<Repo>, job: Job, asked: map<nat, Answer>, received: nat)
    requires FitsJob(job, |start|)
  {
    && start != [] && job.token != "" && received <= Receives(|start|, job.read.expires)
    && (forall k :: 0 <= k < received ==> Arrivals(start, job.name, job.read)[k].err.Some?)
    && forall r :: r in asked ==>
         r < |start| && Agrees(asked[r], AnswerOf(start, job.name, job.read.faults, r))
  }

  /** None of the first `a` attempts is accepted anywhere. */
  ghost predicate NoneAccept(start: seq<Repo>, job: Job, a: nat)
    requires FitsJob(job, |start|) && a <= |job.attempts|
  {
    forall b :: 0 <= b < a ==> !SomeAccept(start, job.name, job.id, job.attempts[b])
  }

  /** Attempt `a` was the first one accepted somewhere, and is complete. */
  ghost predicate EndedAt(start: seq<Repo>, job: Job, f: P.Flight, a: nat)
    requires FitsJob(job, |start|)
  {
    && a < |job.attempts| && f.call == job.attempts[a] && f.done == |start|
    && NoneAccept(start, job, a) && SomeAccept(start, job.name, job.id, job.attempts[a])
  }

  ghost predicate TaskOk(cfg: L.Config, start: seq<Repo>, t: Task)
    requires WellFormedTask(t, |start|)
  {
    var job := JobOf(t.origin);
    && t.flight.name == job.name && t.flight.id == job.id
    && match t.phase
       case Checking(asked, received) =>
         && cfg.writeToken && !IsBad(t.origin) && P.TookNothing(start, t.flight)
         && CheckOk(start, job, asked, received)
       case Writing(a) =>
         && Passes(cfg, start, t.origin)
         && t.flight.call == job.attempts[a] && NoneAccept(start, job, a)
       case Ended(v) =>
         && v == VerdictOf(cfg, start, t.origin)
         && if v == L.Stored then exists a: nat :: EndedAt(start, job, t.flight, a)
            else P.TookNothing(start, t.flight)
  }

  ghost predicate Inv(cfg: L.Config, start: seq<Repo>, w: World) {
    && WellFormed(w) && |w.repos| == |start| && P.Inv(start, PutWorld(w))
    && forall i :: 0 <= i < |w.tasks| ==> TaskOk(cfg, start, w.tasks[i])
  }

  // ----- one task -----

  lemma FlightTookNothing(start: seq<Repo>, f: P.Flight)
    requires Fits(f.call, |start|) && (f.done == 0 || !SomeAccept(start, f.name, f.id, f.call))
    ensures P.TookNothing(start, f)
  {
  }

  lemma AttemptOk(cfg: L.Config, start: seq<Repo>, t: Task, a: nat)
    requires WellFormedTask(t, |start|) && Passes(cfg, start, t.origin) && P.TookNothing(start, t.flight)
    requires t.flight.name == JobOf(t.origin).name && t.flight.id == JobOf(t.origin).id
    requires a <= |JobOf(t.origin).attempts| && NoneAccept(start, JobOf(t.origin), a)
    ensures WellFormedTask(Attempt(t, a), |start|) && TaskOk(cfg, start, Attempt(t, a))
    ensures P.TookNothing(start, Attempt(t, a).flight)
    ensures P.Tallied(start, t.flight) ==> P.Tallied(start, Attempt(t, a).flight)
  {
    var job := JobOf(t.origin);
    if a < |job.attempts| {
      assert job.attempts[a] in job.attempts;
      FlightTookNothing(start, Attempt(t, a).flight);
    } else {
      RetryCountsOnce(start, job.name, job.id, job.attempts);
    }
  }

  lemma BeginOk(cfg: L.Config, start: seq<Repo>, o: Origin)
    requires FitsJob(JobOf(o), |start|)
    ensures var t := Begin(cfg, o, |start|);
            && WellFormedTask(t, |start|) && TaskOk(cfg, start, t)
            && P.TookNothing(start, t.flight) && P.Tallied(start, t.flight)
  {
    var job := JobOf(o);
    var t := Task(o, Ended(L.Bad), P.Launch(job.name, job.id, IdleCall(|start|)));
    FlightTookNothing(start, t.flight);
    if !IsBad(o) && !cfg.writeToken {
      AttemptOk(cfg, start, t, 0);
    }
  }

  /** Received everything there was, and not one success. */
  lemma OutOfAnswers(start: seq<Repo>, job: Job, asked: map<nat, Answer>, k: nat)
    requires FitsJob(job, |start|) && CheckOk(start, job, asked, k) && k == Receives(|start|, job.read.expires)
    ensures InvalidToken(start, job.name, job.token, job.read)
  {
    GetExactly(start, job.name, job.read);
  }

  /** The next answer decides as it would have at the start. */
  lemma NextAnswer(start: seq<Repo>, job: Job, asked: map<nat, Answer>, k: nat)
    requires FitsJob(job, |start|) && CheckOk(start, job, asked, k) && k < Receives(|start|, job.read.expires)
    requires k < |job.read.order| && job.read.order[k] in asked
    ensures var answer := asked[job.read.order[k]];
            if answer.err.Some? then CheckOk(start, job, asked, k + 1)
            else InvalidToken(start, job.name, job.token, job.read) <==> answer.body.entry.token != job.token
  {
    var answers := Arrivals(start, job.name, job.read);
    assert answers[k] == AnswerOf(start, job.name, job.read.faults, job.read.order[k]);
    if answers[k].err.None? {
      CollectExactly(answers, job.read.expires, 0, false, NO_ANSWER);
      assert GetAll(start, job.name, job.read) == answers[k];
    }
  }

  lemma RefusedOk(cfg: L.Config, start: seq<Repo>, t: Task)
    requires WellFormedTask(t, |start|) && P.TookNothing(start, t.flight)
    requires t.flight.name == JobOf(t.origin).name && t.flight.id == JobOf(t.origin).id
    requires !IsBad(t.origin) && !Passes(cfg, start, t.origin)
    ensures var t' := t.(phase := Ended(L.Refused));
            WellFormedTask(t', |start|) && TaskOk(cfg, start, t')
  {
  }

  lemma ReceiveOk(cfg: L.Config, start: seq<Repo>, t: Task)
    requires WellFormedTask(t, |start|) && TaskOk(cfg, start, t) && t.phase.Checking? && Ready(t, |start|)
    ensures var t' := Receive(t, |start|);
            && WellFormedTask(t', |start|) && TaskOk(cfg, start, t') && P.TookNothing(start, t'.flight)
            && (P.Tallied(start, t.flight) ==> P.Tallied(start, t'.flight))
  {
    var job, asked, k := JobOf(t.origin), t.phase.asked, t.phase.received;
    if k >= Receives(|start|, job.read.expires) {
      OutOfAnswers(start, job, asked, k);
      RefusedOk(cfg, start, t);
    } else {
      NextAnswer(start, job, asked, k);
      var answer := asked[job.read.order[k]];
      if answer.err.None? {
        if answer.body.entry.token != job.token {
          RefusedOk(cfg, start, t);
        } else {
          AttemptOk(cfg, start, t, 0);
        }
      }
    }
  }

  lemma AcceptedIsStored(cfg: L.Config, start: seq<Repo>, o: Origin, a: nat)
    requires FitsJob(JobOf(o), |start|) && Passes(cfg, start, o) && a < |JobOf(o).attempts|
    requires SomeAccept(start, JobOf(o).name, JobOf(o).id, JobOf(o).attempts[a])
    ensures VerdictOf(cfg, start, o) == L.Stored
  {
    RetryCountsOnce(start, JobOf(o).name, JobOf(o).id, JobOf(o).attempts);
  }

  lemma ReportIsOutcome(start: seq<Repo>, f: P.Flight)
    requires Fits(f.call, |start|) && f.done == |start| && P.Tallied(start, f)
    ensures P.Report(f, |start|).None? <==> SomeAccept(start, f.name, f.id, f.call)
  {
    PutOutcome(start, f.name, f.id, f.call);
  }

  lemma EndAttemptOk(cfg: L.Config, start: seq<Repo>, t: Task)
    requires WellFormedTask(t, |start|) && TaskOk(cfg, start, t) && t.phase.Writing?
    requires t.flight.done == |start| && P.Tallied(start, t.flight)
    ensures var t' := EndAttempt(t, |start|);
            && WellFormedTask(t', |start|) && TaskOk(cfg, start, t')
            && (t'.flight == t.flight || (P.TookNothing(start, t.flight) && P.TookNothing(start, t'.flight)))
            && P.Tallied(start, t'.flight)
  {
    var a := t.phase.attempt;
    ReportIsOutcome(start, t.flight);
    if P.Report(t.flight, |start|).None? {
      AcceptedIsStored(cfg, start, t.origin, a);
      assert EndedAt(start, JobOf(t.origin), t.flight, a);
    } else {
      FlightTookNothing(start, t.flight);
      AttemptOk(cfg, start, t, a + 1);
    }
  }

  lemma LocalTurnOk(cfg: L.Config, start: seq<Repo>, t: Task)
    requires WellFormedTask(t, |start|) && TaskOk(cfg, start, t) && P.Tallied(start, t.flight)
    requires !t.phase.Ended? && !Puts(t, |start|) && (t.phase.Checking? ==> Ready(t, |start|))
    ensures var t' := LocalTurn(t, |start|);
            && WellFormedTask(t', |start|) && TaskOk(cfg, start, t') && P.Tallied(start, t'.flight)
            && (t'.flight == t.flight || (P.TookNothing(start, t.flight) && P.TookNothing(start, t'.flight)))
  {
    if t.phase.Checking? {
      ReceiveOk(cfg, start, t);
    } else {
      EndAttemptOk(cfg, start, t);
    }
  }

  // ----- the world -----

  /** Whoever has put anything passes the token check of the start state. */
  lemma TakersPass(cfg: L.Config, start: seq<Repo>, t: Task, name: string, j: nat)
    requires WellFormedTask(t, |start|) && TaskOk(cfg, start, t) && j < |start| && P.Took(start, t.flight, name, j)
    ensures Passes(cfg, start, t.origin) && name == JobOf(t.origin).name
  {
  }

  lemma TakersAreAuthorized(
    cfg: L.Config, tokens: map<string, string>, start: seq<Repo>, t: Task, name: string, j: nat)
    requires WellFormedTask(t, |start|) && TaskOk(cfg, start, t) && j < |start| && P.Took(start, t.flight, name, j)
    requires cfg.writeToken && T.TokensAre(start, tokens)
    ensures name in tokens && tokens[name] == JobOf(t.origin).token != ""
  {
    TakersPass(cfg, start, t, name, j);
    var job := JobOf(t.origin);
    T.CheckedTokenIsStored(start, tokens, job.name, job.token, job.read);
  }

  lemma TakenIsHeld(
    cfg: L.Config, tokens: map<string, string>, start: seq<Repo>, t: Task, name: string, r: nat)
    requires WellFormedTask(t, |start|) && TaskOk(cfg, start, t) && r < |start| && P.Took(start, t.flight, name, r)
    requires cfg.writeToken && T.TokensAre(start, tokens)
    ensures name in start[r].tab
  {
    TakersAreAuthorized(cfg, tokens, start, t, name, r);
    assert Lookup(start[r].tab, name).token == tokens[name];
  }

  lemma AccountAgrees(before: Repo, now: Repo, name: string, fault: bool)
    requires now.broken == before.broken && (name in now.tab <==> name in before.tab)
    requires Lookup(now.tab, name).token == Lookup(before.tab, name).token
    ensures GetError(now, name, fault) == GetError(before, name, fault)
    ensures GetError(now, name, fault).None? ==>
              GetBody(now, name, fault).entry.token == GetBody(before, name, fault).entry.token
  {
  }

  /** With tokens required, no interleaving changes what a token check hears. */
  lemma AnswersStay(
    cfg: L.Config, tokens: map<string, string>, start: seq<Repo>, w: World, name: string, faults: seq<bool>, r: nat)
    requires Inv(cfg, start, w) && cfg.writeToken && T.TokensAre(start, tokens)
    requires |faults| == |start| && r < |start|
    ensures Agrees(AnswerOf(w.repos, name, faults, r), AnswerOf(start, name, faults, r))
  {
    var p := PutWorld(w);
    P.TakenWitness(start, p.flights, name, r);
    if f :| f in p.flights && P.Took(start, f, name, r) {
      var i :| 0 <= i < |w.tasks| && p.flights[i] == f;
      TakenIsHeld(cfg, tokens, start, w.tasks[i], name, r);
    }
    assert P.Accounted(start, p, name, r);
    AccountAgrees(start[r], w.repos[r], name, faults[r]);
  }

  lemma FlightsWith(tasks: seq<Task>, i: nat, t: Task)
    requires i < |tasks|
    ensures Flights(tasks[i := t]) == Flights(tasks)[i := t.flight]
    ensures t.flight == tasks[i].flight ==> Flights(tasks[i := t]) == Flights(tasks)
  {
  }

  /** Replacing one task, which has put nothing, by another such. */
  lemma ReplaceKeepsInv(cfg: L.Config, start: seq<Repo>, w: World, i: nat, t: Task)
    requires Inv(cfg, start, w) && i < |w.tasks| && WellFormedTask(t, |start|) && TaskOk(cfg, start, t)
    requires t.flight == w.tasks[i].flight
             || (P.TookNothing(start, w.tasks[i].flight)
                 && P.TookNothing(start, t.flight) && P.Tallied(start, t.flight))
    ensures Inv(cfg, start, WithTask(w, i, t))
  {
    FlightsWith(w.tasks, i, t);
    if t.flight != w.tasks[i].flight {
      P.SwapKeepsInv(start, PutWorld(w), i, t.flight);
    }
  }

  lemma PutTurnKeepsInv(cfg: L.Config, start: seq<Repo>, w: World, i: nat)
    requires Inv(cfg, start, w) && i < |w.tasks| && Puts(w.tasks[i], |start|)
    ensures Inv(cfg, start, PutTurn(w, i))
  {
    var w', p := PutTurn(w, i), P.Next(PutWorld(w), i);
    P.NextKeepsInv(start, PutWorld(w), i);
    assert Flights(w'.tasks) == p.flights;
    assert PutWorld(w') == p;
    forall k | 0 <= k < |w'.tasks| ensures TaskOk(cfg, start, w'.tasks[k]) {
      assert TaskOk(cfg, start, w.tasks[k]);
    }
  }

  lemma LocalTurnKeepsInv(cfg: L.Config, start: seq<Repo>, w: World, i: nat)
    requires Inv(cfg, start, w) && Enabled(cfg, w, Turn(i)) && !Puts(w.tasks[i], |start|)
    ensures Inv(cfg, start, WithTask(w, i, LocalTurn(w.tasks[i], |start|)))
  {
    assert PutWorld(w).flights[i] in PutWorld(w).flights && TaskOk(cfg, start, w.tasks[i]);
    LocalTurnOk(cfg, start, w.tasks[i]);
    ReplaceKeepsInv(cfg, start, w, i, LocalTurn(w.tasks[i], |start|));
  }

  lemma AskKeepsInv(cfg: L.Config, tokens: map<string, string>, start: seq<Repo>, w: World, i: nat, r: nat)
    requires Inv(cfg, start, w) && Enabled(cfg, w, Ask(i, r)) && (cfg.writeToken ==> T.TokensAre(start, tokens))
    ensures Inv(cfg, start, WithTask(w, i, Asked(w.repos, w.tasks[i], r)))
  {
    var job := JobOf(w.tasks[i].origin);
    assert TaskOk(cfg, start, w.tasks[i]);
    AnswersStay(cfg, tokens, start, w, job.name, job.read.faults, r);
    ReplaceKeepsInv(cfg, start, w, i, Asked(w.repos, w.tasks[i], r));
  }

  lemma ArriveKeepsInv(cfg: L.Config, start: seq<Repo>, w: World, o: Origin)
    requires Inv(cfg, start, w) && Enabled(cfg, w, Arrive(o))
    ensures Inv(cfg, start, Next(cfg, w, Arrive(o)))
  {
    var t := Begin(cfg, o, |start|);
    BeginOk(cfg, start, o);
    P.JoinKeepsInv(start, PutWorld(w), t.flight);
    assert Flights(w.tasks + [t]) == Flights(w.tasks) + [t.flight];
  }

  lemma NextKeepsInv(cfg: L.Config, tokens: map<string, string>, start: seq<Repo>, w: World, step: Step)
    requires Inv(cfg, start, w) && Enabled(cfg, w, step) && (cfg.writeToken ==> T.TokensAre(start, tokens))
    ensures Inv(cfg, start, Next(cfg, w, step))
  {
    match step {
      case Turn(i) =>
        if Puts(w.tasks[i], |start|) {
          PutTurnKeepsInv(cfg, start, w, i);
        } else {
          LocalTurnKeepsInv(cfg, start, w, i);
        }
      case Arrive(o) => ArriveKeepsInv(cfg, start, w, o);
      case Ask(i, r) => AskKeepsInv(cfg, tokens, start, w, i, r);
      case Send(_, _) => assert PutWorld(Next(cfg, w, step)) == PutWorld(w);
      case Delete(_) => assert PutWorld(Next(cfg, w, step)) == PutWorld(w);
    }
  }

  predicate Legal(cfg: L.Config, w: World, steps: seq<Step>)
    requires WellFormed(w)
    decreases |steps|
  {
    steps == [] || (Enabled(cfg, w, steps[0]) && Legal(cfg, Next(cfg, w, steps[0]), steps[1..]))
  }

  function Exec(cfg: L.Config, w: World, steps: seq<Step>): (w': World)
    requires WellFormed(w) && Legal(cfg, w, steps)
    ensures WellFormed(w') && |w'.repos| == |w.repos|
    decreases |steps|
  {
    if steps == [] then w else Exec(cfg, Next(cfg, w, steps[0]), steps[1..])
  }

  /** Nothing has arrived yet. */
  function Fresh(repos: seq<Repo>): (w: World)
    ensures WellFormed(w)
  {
    World(repos, [], map[], {}, map[])
  }

  lemma {:induction false} ExecKeepsInv(
    cfg: L.Config, tokens: map<string, string>, start: seq<Repo>, w: World, steps: seq<Step>)
    requires Inv(cfg, start, w) && Legal(cfg, w, steps) && (cfg.writeToken ==> T.TokensAre(start, tokens))
    ensures Inv(cfg, start, Exec(cfg, w, steps))
    decreases |steps|
  {
    if steps != [] {
      NextKeepsInv(cfg, tokens, start, w, steps[0]);
      ExecKeepsInv(cfg, tokens, start, Next(cfg, w, steps[0]), steps[1..]);
    }
  }

  lemma FreshInv(cfg: L.Config, repos: seq<Repo>)
    ensures Inv(cfg, repos, Fresh(repos))
  {
    P.IdleInv(PutWorld(Fresh(repos)));
  }

  // ----- the theorems -----

  /** The calls whose put of `name` repository `j` has taken. */
  function Takers(repos: seq<Repo>, flights: seq<P.Flight>, name: string, j: nat): set<nat>
    requires j < |repos| && forall f :: f in flights ==> Fits(f.call, |repos|)
  {
    set i | 0 <= i < |flights| && P.Took(repos, flights[i], name, j)
  }

  lemma TakersNext(repos: seq<Repo>, flights: seq<P.Flight>, f: P.Flight, name: string, j: nat)
    requires j < |repos| && forall g :: g in flights + [f] ==> Fits(g.call, |repos|)
    ensures f in flights + [f] && forall g :: g in flights ==> g in flights + [f]
    ensures |Takers(repos, flights + [f], name, j)| ==
            |Takers(repos, flights, name, j)| + if P.Took(repos, f, name, j) then 1 else 0
  {
    var n, more := |flights|, flights + [f];
    assert more[n] == f;
    var took := P.Took(repos, f, name, j);
    forall i: nat
      ensures i in Takers(repos, more, name, j) <==> i in Takers(repos, flights, name, j) || (i == n && took)
    {
      if i < n {
        assert more[i] == flights[i];
      }
    }
    if took {
      assert Takers(repos, more, name, j) == Takers(repos, flights, name, j) + {n};
    } else {
      assert Takers(repos, more, name, j) == Takers(repos, flights, name, j);
    }
  }

  lemma {:induction false} TakersCount(repos: seq<Repo>, flights: seq<P.Flight>, name: string, j: nat)
    requires j < |repos| && forall f :: f in flights ==> Fits(f.call, |repos|)
    ensures |Takers(repos, flights, name, j)| == P.Taken(repos, flights, name, j)
  {
    if flights != [] {
      var front, f := flights[..|flights| - 1], flights[|flights| - 1];
      TakersCount(repos, front, name, j);
      assert flights == front + [f];
      TakersNext(repos, front, f, name, j);
    }
  }

  /** The put of task `t` explains the id that is stored for its name: if tokens
      are required, `t` showed the preloaded token of that very name. */
  ghost predicate Supplied(cfg: L.Config, tokens: map<string, string>, t: Task, name: string, id: string) {
    var job := JobOf(t.origin);
    && !IsBad(t.origin) && job.name == name && job.id == id
    && (cfg.writeToken ==> name in tokens && tokens[name] == job.token != "")
  }

  /** Repository `j` now, against the start. */
  ghost predicate Accounted(
    cfg: L.Config, tokens: map<string, string>, start: seq<Repo>, w: World, name: string, j: nat)
    requires WellFormed(w) && |w.repos| == |start| && j < |start|
  {
    var (was, e) := (Lookup(start[j].tab, name), Lookup(w.repos[j].tab, name));
    var takers := Takers(start, PutWorld(w).flights, name, j);
    && w.repos[j].broken == start[j].broken
    && e.token == was.token && e.changes == was.changes + |takers|
    && (name in w.repos[j].tab <==> name in start[j].tab || takers != {})
    && (takers == {} ==> e == was)
    && (takers != {} ==> exists i :: i in takers && Supplied(cfg, tokens, w.tasks[i], name, e.id))
  }

  lemma TakerSupplies(
    cfg: L.Config, tokens: map<string, string>, start: seq<Repo>, w: World, i: nat, name: string, j: nat)
    requires Inv(cfg, start, w) && (cfg.writeToken ==> T.TokensAre(start, tokens)) && j < |start|
    requires i < |w.tasks| && P.Took(start, w.tasks[i].flight, name, j)
    ensures Supplied(cfg, tokens, w.tasks[i], name, w.tasks[i].flight.id)
  {
    assert TaskOk(cfg, start, w.tasks[i]);
    TakersPass(cfg, start, w.tasks[i], name, j);
    if cfg.writeToken {
      TakersAreAuthorized(cfg, tokens, start, w.tasks[i], name, j);
    }
  }

  lemma SomeSupplier(
    cfg: L.Config, tokens: map<string, string>, start: seq<Repo>, w: World, name: string, j: nat) returns (i: nat)
    requires Inv(cfg, start, w) && (cfg.writeToken ==> T.TokensAre(start, tokens)) && j < |start|
    requires P.Taken(start, PutWorld(w).flights, name, j) > 0
    ensures i < |w.tasks| && P.Took(start, w.tasks[i].flight, name, j)
    ensures Supplied(cfg, tokens, w.tasks[i], name, Lookup(w.repos[j].tab, name).id)
  {
    var flights := PutWorld(w).flights;
    assert P.Accounted(start, PutWorld(w), name, j);
    var f :| f in flights && P.Took(start, f, name, j) && Lookup(w.repos[j].tab, name).id == f.id;
    i :| 0 <= i < |flights| && flights[i] == f;
    TakerSupplies(cfg, tokens, start, w, i, name, j);
  }

  lemma InvAccounts(cfg: L.Config, tokens: map<string, string>, start: seq<Repo>, w: World, name: string, j: nat)
    requires Inv(cfg, start, w) && (cfg.writeToken ==> T.TokensAre(start, tokens)) && j < |start|
    ensures Accounted(cfg, tokens, start, w, name, j)
  {
    var flights := PutWorld(w).flights;
    TakersCount(start, flights, name, j);
    if P.Taken(start, flights, name, j) > 0 {
      var i := SomeSupplier(cfg, tokens, start, w, name, j);
      assert i in Takers(start, flights, name, j);
    }
    assert P.Accounted(start, PutWorld(w), name, j);
  }

  /** At every moment of every interleaving: each repository's counter for a name
      has risen by one for each handler or message whose put it took, never by two
      for one of them, however often it retried; its keys have grown by those
      names; no token has changed; and a new id is that of one of those tasks,
      which was entitled to set it. */
  lemma StoreIsAccounted(
    cfg: L.Config, tokens: map<string, string>, repos: seq<Repo>, steps: seq<Step>, name: string, j: nat)
    requires Legal(cfg, Fresh(repos), steps) && (cfg.writeToken ==> T.TokensAre(repos, tokens)) && j < |repos|
    ensures Accounted(cfg, tokens, repos, Exec(cfg, Fresh(repos), steps), name, j)
  {
    FreshInv(cfg, repos);
    ExecKeepsInv(cfg, tokens, repos, Fresh(repos), steps);
    InvAccounts(cfg, tokens, repos, Exec(cfg, Fresh(repos), steps), name, j);
  }

  lemma StoredWasTaken(cfg: L.Config, start: seq<Repo>, t: Task)
    requires WellFormedTask(t, |start|) && TaskOk(cfg, start, t) && t.phase == Ended(L.Stored)
    ensures exists j: nat :: j < |start| && P.Took(start, t.flight, JobOf(t.origin).name, j)
  {
    var job := JobOf(t.origin);
    var a: nat :| EndedAt(start, job, t.flight, a);
    var j :| 0 <= j < |start| && Accepts(start[j], job.name, job.id, job.attempts[a].faults[j]);
    assert P.Took(start, t.flight, job.name, j);
  }

  /** Whatever else was going on, every handler and message that has ended got the
      verdict it would have got alone on the initial store, and it is Stored
      exactly when some repository took its put. */
  lemma VerdictsAreSequential(
    cfg: L.Config, tokens: map<string, string>, repos: seq<Repo>, steps: seq<Step>, i: nat)
    requires Legal(cfg, Fresh(repos), steps) && (cfg.writeToken ==> T.TokensAre(repos, tokens))
    requires i < |Exec(cfg, Fresh(repos), steps).tasks| && Exec(cfg, Fresh(repos), steps).tasks[i].phase.Ended?
    ensures var t := Exec(cfg, Fresh(repos), steps).tasks[i];
            && FitsJob(JobOf(t.origin), |repos|) && Fits(t.flight.call, |repos|)
            && t.phase.verdict == VerdictOf(cfg, repos, t.origin)
            && (t.phase.verdict == L.Stored
                <==> exists j: nat :: j < |repos| && P.Took(repos, t.flight, JobOf(t.origin).name, j))
  {
    FreshInv(cfg, repos);
    ExecKeepsInv(cfg, tokens, repos, Fresh(repos), steps);
    var t := Exec(cfg, Fresh(repos), steps).tasks[i];
    assert TaskOk(cfg, repos, t);
    if t.phase.verdict == L.Stored {
      StoredWasTaken(cfg, repos, t);
    }
  }

  /** No handler or message ever waits for something that cannot come: until it
      has ended, either its next turn or a query its check waits for can happen. */
  lemma NobodyIsStuck(cfg: L.Config, w: World, i: nat)
    requires WellFormed(w) && i < |w.tasks| && !w.tasks[i].phase.Ended?
    ensures Enabled(cfg, w, Turn(i)) || exists r :: Enabled(cfg, w, Ask(i, r))
  {
    var t := w.tasks[i];
    if t.phase.Checking? && !Ready(t, |w.repos|) {
      var read := JobOf(t.origin).read;
      OrderCovers(read.order, |w.repos|);
      assert read.order[t.phase.received] in read.order;
      assert Enabled(cfg, w, Ask(i, read.order[t.phase.received]));
    }
  }

  // ----- the queue -----

  /** `t` has ended in a way that lets it delete message `m`. */
  predicate MayDelete(cfg: L.Config, t: Task, m: nat) {
    && t.phase.Ended? && t.origin.Message? && t.origin.d.m == m
    && L.Consumes(cfg, t.phase.verdict) && !t.origin.d.deleteFails
  }

  /** A message that `t` handles is the one that was sent. */
  ghost predicate Delivered(w: World, t: Task) {
    t.origin.Message? ==> t.origin.d.m in w.sent && w.sent[t.origin.d.m] == t.origin.d.content
  }

  /** Every message sent is queued or has left, not both, through a task that was
      delivered this very message and could delete it. */
  ghost predicate QueueOk(cfg: L.Config, w: World) {
    && (forall m :: m in w.sent <==> m in w.queued || m in w.left)
    && (forall m :: m in w.left ==> m !in w.queued && w.left[m] < |w.tasks|)
    && (forall m :: m in w.left ==> MayDelete(cfg, w.tasks[w.left[m]], m))
    && forall i :: 0 <= i < |w.tasks| ==> Delivered(w, w.tasks[i])
  }

  /** Tasks never change what they were started with, nor anything once ended. */
  ghost predicate TasksKept(w: World, w': World) {
    && |w.tasks| <= |w'.tasks|
    && forall i :: 0 <= i < |w.tasks| ==>
         && w'.tasks[i].origin == w.tasks[i].origin
         && (w.tasks[i].phase.Ended? ==> w'.tasks[i] == w.tasks[i])
  }

  lemma StepKeepsTasks(cfg: L.Config, w: World, step: Step)
    requires WellFormed(w) && Enabled(cfg, w, step)
    ensures TasksKept(w, Next(cfg, w, step))
  {
  }

  lemma KeptQueue(cfg: L.Config, w: World, w': World)
    requires QueueOk(cfg, w) && TasksKept(w, w')
    requires w'.sent == w.sent && w'.queued == w.queued && w'.left == w.left
    requires forall i :: |w.tasks| <= i < |w'.tasks| ==> Delivered(w, w'.tasks[i])
    ensures QueueOk(cfg, w')
  {
  }

  lemma SentQueue(cfg: L.Config, w: World, m: nat, content: L.Content)
    requires QueueOk(cfg, w) && m !in w.sent
    ensures QueueOk(cfg, w.(sent := w.sent[m := content], queued := w.queued + {m}))
  {
  }

  lemma DeletedQueue(cfg: L.Config, w: World, i: nat)
    requires QueueOk(cfg, w) && i < |w.tasks| && w.tasks[i].origin.Message?
    requires MayDelete(cfg, w.tasks[i], w.tasks[i].origin.d.m) && w.tasks[i].origin.d.m in w.queued
    ensures var m := w.tasks[i].origin.d.m;
            QueueOk(cfg, w.(queued := w.queued - {m}, left := w.left[m := i]))
  {
  }

  lemma StepKeepsQueue(cfg: L.Config, w: World, step: Step)
    requires WellFormed(w) && Enabled(cfg, w, step) && QueueOk(cfg, w)
    ensures QueueOk(cfg, Next(cfg, w, step))
  {
    StepKeepsTasks(cfg, w, step);
    match step
    case Send(m, content) => SentQueue(cfg, w, m, content);
    case Delete(i) =>
      if w.tasks[i].origin.d.m in w.queued {
        DeletedQueue(cfg, w, i);
      }
    case Arrive(_) => KeptQueue(cfg, w, Next(cfg, w, step));
    case Ask(_, _) => KeptQueue(cfg, w, Next(cfg, w, step));
    case Turn(_) => KeptQueue(cfg, w, Next(cfg, w, step));
  }

  lemma {:induction false} ExecKeepsQueue(cfg: L.Config, w: World, steps: seq<Step>)
    requires WellFormed(w) && Legal(cfg, w, steps) && QueueOk(cfg, w)
    ensures QueueOk(cfg, Exec(cfg, w, steps))
    decreases |steps|
  {
    if steps != [] {
      StepKeepsQueue(cfg, w, steps[0]);
      ExecKeepsQueue(cfg, Next(cfg, w, steps[0]), steps[1..]);
    }
  }

  /** Message `m` left as it was sent, through its own deliverer, and for a reason
      that allows it. */
  ghost predicate LeftJustly(cfg: L.Config, repos: seq<Repo>, w: World, m: nat)
    requires WellFormed(w) && |w.repos| == |repos| && m in w.left && w.left[m] < |w.tasks|
  {
    var t := w.tasks[w.left[m]];
    && t.phase.Ended? && t.origin.Message? && t.origin.d.m == m && m in w.sent && t.origin.d.content == w.sent[m]
    && match t.phase.verdict
       case Stored =>
         && !L.BadContent(w.sent[m])
         && exists j: nat :: j < |repos| && P.Took(repos, t.flight, w.sent[m].name, j)
       case Bad => cfg.consumeBadMessage && L.BadContent(w.sent[m])
       case Refused =>
         && cfg.writeToken && cfg.consumeInvalidToken && !L.BadContent(w.sent[m])
         && InvalidToken(repos, w.sent[m].name, w.sent[m].token, t.origin.d.read)
       case NotStored => false
  }

  lemma DeletedForAReason(cfg: L.Config, repos: seq<Repo>, w: World, m: nat)
    requires Inv(cfg, repos, w) && QueueOk(cfg, w) && m in w.left
    ensures LeftJustly(cfg, repos, w, m)
  {
    var t := w.tasks[w.left[m]];
    assert MayDelete(cfg, t, m) && TaskOk(cfg, repos, t);
    if t.phase.verdict == L.Stored {
      StoredWasTaken(cfg, repos, t);
    }
  }

  lemma QueueCounts<C>(sent: map<nat, C>, queued: set<nat>, left: map<nat, nat>)
    requires forall m :: m in sent <==> m in queued || m in left
    requires forall m :: m in left ==> m !in queued
    ensures sent.Keys == queued + left.Keys && queued !! left.Keys && |sent| == |queued| + |left|
  {
    assert sent.Keys == queued + left.Keys;
    assert |queued + left.Keys| == |queued| + |left.Keys|;
  }

  /** Over every interleaving of handlers, deliveries, redeliveries and deletes no
      message is lost: each one sent is still queued or has left, never both; and
      one leaves only if some repository took its put, or it is bad or its token
      was refused and may be consumed for that. */
  lemma NoMessageLost(
    cfg: L.Config, tokens: map<string, string>, repos: seq<Repo>, steps: seq<Step>)
    requires Legal(cfg, Fresh(repos), steps) && (cfg.writeToken ==> T.TokensAre(repos, tokens))
    ensures var w := Exec(cfg, Fresh(repos), steps);
            && w.sent.Keys == w.queued + w.left.Keys && w.queued !! w.left.Keys
            && |w.sent| == |w.queued| + |w.left|
            && forall m :: m in w.left ==> w.left[m] < |w.tasks| && LeftJustly(cfg, repos, w, m)
  {
    FreshInv(cfg, repos);
    ExecKeepsInv(cfg, tokens, repos, Fresh(repos), steps);
    ExecKeepsQueue(cfg, Fresh(repos), steps);
    var w := Exec(cfg, Fresh(repos), steps);
    forall m | m in w.left ensures LeftJustly(cfg, repos, w, m) {
      DeletedForAReason(cfg, repos, w, m);
    }
    QueueCounts(w.sent, w.queued, w.left);
  }

  lemma NotStoredTookNothing(start: seq<Repo>, t: Task, name: string)
    requires WellFormedTask(t, |start|) && P.TookNothing(start, t.flight)
    ensures !exists j: nat :: j < |start| && P.Took(start, t.flight, name, j)
  {
  }

  lemma EndsAsTold(cfg: L.Config, start: seq<Repo>, t: Task)
    requires WellFormedTask(t, |start|) && TaskOk(cfg, start, t) && t.phase.Ended? && t.origin.Message?
    ensures t.phase.verdict == L.Bad <==> L.BadContent(t.origin.d.content)
    ensures t.phase.verdict == L.Refused <==>
            && !L.BadContent(t.origin.d.content) && cfg.writeToken
            && InvalidToken(start, t.origin.d.content.name, t.origin.d.content.token, t.origin.d.read)
    ensures t.phase.verdict == L.Stored <==>
            exists j: nat :: j < |start| && P.Took(start, t.flight, JobOf(t.origin).name, j)
  {
    if t.phase.verdict == L.Stored {
      StoredWasTaken(cfg, start, t);
    } else {
      NotStoredTookNothing(start, t, JobOf(t.origin).name);
    }
  }

  /** The delete works, and the message is bad and bad ones are consumed, or its
      token did not pass and such ones are consumed, or some repository took its
      put. */
  ghost predicate DeleteDue(cfg: L.Config, repos: seq<Repo>, t: Task)
    requires WellFormedTask(t, |repos|) && t.origin.Message?
  {
    var d := t.origin.d;
    && !d.deleteFails
    && if L.BadContent(d.content) then cfg.consumeBadMessage
       else if cfg.writeToken && InvalidToken(repos, d.content.name, d.content.token, d.read)
       then cfg.consumeInvalidToken
       else exists j: nat :: j < |repos| && P.Took(repos, t.flight, d.content.name, j)
  }

  lemma DueExactly(cfg: L.Config, start: seq<Repo>, t: Task)
    requires WellFormedTask(t, |start|) && TaskOk(cfg, start, t) && t.phase.Ended? && t.origin.Message?
    ensures MayDelete(cfg, t, t.origin.d.m) <==> DeleteDue(cfg, start, t)
  {
    EndsAsTold(cfg, start, t);
  }

  lemma DeleteEnabled(cfg: L.Config, w: World, i: nat)
    requires WellFormed(w) && i < |w.tasks| && w.tasks[i].origin.Message?
    ensures Enabled(cfg, w, Delete(i)) <==> MayDelete(cfg, w.tasks[i], w.tasks[i].origin.d.m)
  {
  }

  /** Exactly when the ended task of a message can take it off the queue. */
  lemma DeletesExactly(cfg: L.Config, repos: seq<Repo>, w: World, i: nat)
    requires Inv(cfg, repos, w) && i < |w.tasks| && w.tasks[i].origin.Message? && w.tasks[i].phase.Ended?
    ensures Enabled(cfg, w, Delete(i)) <==> DeleteDue(cfg, repos, w.tasks[i])
  {
    assert TaskOk(cfg, repos, w.tasks[i]);
    DueExactly(cfg, repos, w.tasks[i]);
    DeleteEnabled(cfg, w, i);
  }

  /** Then the message is off the queue, through this task, and no other is. */
  lemma DeletedIsOff(cfg: L.Config, w: World, i: nat)
    requires WellFormed(w) && Enabled(cfg, w, Delete(i))
    ensures var (m, w') := (w.tasks[i].origin.d.m, Next(cfg, w, Delete(i)));
            && w'.queued == w.queued - {m}
            && (m in w.queued ==> m in w'.left && w'.left[m] == i)
            && forall k :: k in w.left && (k != m || m !in w.queued) ==> k in w'.left && w'.left[k] == w.left[k]
  {
  }

  /** Any new message can be sent, and any request, or message sent, can arrive. */
  lemma AnythingCanArrive(cfg: L.Config, w: World, m: nat, content: L.Content, o: Origin)
    requires WellFormed(w)
    ensures Enabled(cfg, w, Send(m, content)) <==> m !in w.sent
    ensures FitsJob(JobOf(o), |w.repos|) && o.Http? ==> Enabled(cfg, w, Arrive(o))
    ensures FitsJob(JobOf(o), |w.repos|) && o.Message? ==>
              (Enabled(cfg, w, Arrive(o)) <==> o.d.m in w.sent && w.sent[o.d.m] == o.d.content)
  {
  }
}

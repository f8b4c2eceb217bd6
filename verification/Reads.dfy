/** Reads of the replicated store that overlap the server's writes: each query of
    one repository happens at some moment of the server's run. */
module Reads {
  import opened GoLib
  import opened Repository
  import opened Service
  import opened StoreLaws
  import C = Collector
  import L = Listener
  import P = ConcurrentPuts
  import S = Server
  import T = TokenMode

  /** What a repository answered, and the moment of the run it was read at. */
  datatype Seen = Seen(answer: Answer, at: nat)

  /** One repoGetMultiple: `arrived` is the moment it began, `asked` the queries
      that have read their repository, `got` the failures received so far. */
  datatype Query = Query(
    name: string, read: Read, arrived: nat, asked: map<nat, Seen>, got: seq<Answer>, reply: Option<Answer>)

  /** The server at every moment so far, the last one being now. */
  datatype World = World(history: seq<S.World>, queries: seq<Query>)

  /** The server moves on; a read begins; one of its queries reads repository `r`;
      its collector takes a turn. */
  datatype Step = Serve(step: S.Step) | Begin(name: string, read: Read) | Ask(i: nat, r: nat) | Turn(i: nat)

  predicate FitsQuery(q: Query, n: nat, moments: nat) {
    && FitsRead(q.read, n) && q.arrived < moments && |q.got| <= Receives(n, q.read.expires)
    && |q.read.order| == n
    && forall r :: r in q.asked ==> r < n && q.arrived <= q.asked[r].at < moments
  }

  predicate WellFormed(w: World, n: nat) {
    && w.history != []
    && (forall k :: 0 <= k < |w.history| ==> S.WellFormed(w.history[k]) && |w.history[k].repos| == n)
    && forall i :: 0 <= i < |w.queries| ==> FitsQuery(w.queries[i], n, |w.history|)
  }

  function Now(w: World): S.World
    requires w.history != []
  {
    w.history[|w.history| - 1]
  }

  /** The result when the answers or the time have run out. */
  function EndOf(got: seq<Answer>, n: nat): Answer {
    if |got| < n then Answer(C.LastOf(got).body, None, Some(Timeout))
    else if C.SomeAbsent(got) then C.LastOf(got).(err := Some(NotFound))
    else C.LastOf(got)
  }

  /** The next receive has its answer, or needs none. */
  predicate Ready(q: Query, n: nat)
    requires |q.read.order| == n
  {
    q.reply.None? && (|q.got| < Receives(n, q.read.expires) ==> q.read.order[|q.got|] in q.asked)
  }

  /** One turn of the collector. */
  function Turned(q: Query, n: nat): Query
    requires |q.read.order| == n && Ready(q, n)
  {
    if n == 0 then q.(reply := Some(NO_ANSWER.(err := Some(EmptyRepoList))))
    else if |q.got| >= Receives(n, q.read.expires) then q.(reply := Some(EndOf(q.got, n)))
    else
      var answer := q.asked[q.read.order[|q.got|]].answer;
      if answer.err.None? then q.(reply := Some(answer)) else q.(got := q.got + [answer])
  }

  predicate Enabled(cfg: L.Config, w: World, n: nat, step: Step)
    requires WellFormed(w, n)
  {
    match step
    case Serve(step) => S.Enabled(cfg, Now(w), step)
    case Begin(_, read) => FitsRead(read, n) && |read.order| == n
    case Ask(i, r) => i < |w.queries| && r < n && r !in w.queries[i].asked
    case Turn(i) => i < |w.queries| && Ready(w.queries[i], n)
  }

  function Next(cfg: L.Config, w: World, n: nat, step: Step): (w': World)
    requires WellFormed(w, n) && Enabled(cfg, w, n, step)
    ensures WellFormed(w', n)
  {
    match step
    case Serve(step) => w.(history := w.history + [S.Next(cfg, Now(w), step)])
    case Begin(name, read) =>
      w.(queries := w.queries + [Query(name, read, |w.history| - 1, map[], [], None)])
    case Ask(i, r) =>
      var q := w.queries[i];
      var seen := Seen(AnswerOf(Now(w).repos, q.name, q.read.faults, r), |w.history| - 1);
      w.(queries := w.queries[i := q.(asked := q.asked[r := seen])])
    case Turn(i) => w.(queries := w.queries[i := Turned(w.queries[i], n)])
  }

  // ----- the invariant -----

  ghost predicate KeysGrow(before: S.World, after: S.World) {
    && |before.repos| == |after.repos|
    && forall j, name :: 0 <= j < |before.repos| && name in before.repos[j].tab ==> name in after.repos[j].tab
  }

  ghost predicate HistoryOk(cfg: L.Config, start: seq<Repo>, history: seq<S.World>) {
    && (forall k :: 0 <= k < |history| ==> S.Inv(cfg, start, history[k]))
    && forall k, m :: 0 <= k <= m < |history| ==> KeysGrow(history[k], history[m])
  }

  predicate ReplyOk(q: Query, n: nat, a: Answer)
    requires |q.read.order| == n
  {
    if n == 0 then a == NO_ANSWER.(err := Some(EmptyRepoList))
    else if |q.got| < Receives(n, q.read.expires) then
      q.read.order[|q.got|] in q.asked && a == q.asked[q.read.order[|q.got|]].answer && a.err.None?
    else a == EndOf(q.got, n)
  }

  /** A read knows what its repositories answered when they were asked. */
  ghost predicate QueryOk(q: Query, n: nat, history: seq<S.World>)
    requires FitsQuery(q, n, |history|)
    requires forall k :: 0 <= k < |history| ==> |history[k].repos| == n
  {
    && (forall r :: r in q.asked ==>
          q.asked[r].answer == AnswerOf(history[q.asked[r].at].repos, q.name, q.read.faults, r))
    && (forall k :: 0 <= k < |q.got| ==>
          q.read.order[k] in q.asked && q.got[k] == q.asked[q.read.order[k]].answer && q.got[k].err.Some?)
    && match q.reply
       case None => true
       case Some(a) => ReplyOk(q, n, a)
  }

  ghost predicate QueriesOk(queries: seq<Query>, n: nat, history: seq<S.World>)
    requires forall k :: 0 <= k < |history| ==> |history[k].repos| == n
    requires forall i :: 0 <= i < |queries| ==> FitsQuery(queries[i], n, |history|)
  {
    forall i :: 0 <= i < |queries| ==> QueryOk(queries[i], n, history)
  }

  ghost predicate Inv(cfg: L.Config, start: seq<Repo>, w: World) {
    WellFormed(w, |start|) && HistoryOk(cfg, start, w.history) && QueriesOk(w.queries, |start|, w.history)
  }

  lemma PutKeepsKeys(w: P.World, i: nat, j: nat, name: string)
    requires P.WellFormed(w) && P.CanStep(w, i) && j < |w.repos| && name in w.repos[j].tab
    ensures name in P.Next(w, i).repos[j].tab
  {
  }

  lemma ServeKeepsKeys(cfg: L.Config, w: S.World, step: S.Step)
    requires S.WellFormed(w) && S.Enabled(cfg, w, step)
    ensures KeysGrow(w, S.Next(cfg, w, step))
  {
    if step.Turn? && S.Puts(w.tasks[step.i], |w.repos|) {
      var p := S.PutWorld(w);
      forall j: nat, name | j < |w.repos| && name in w.repos[j].tab ensures name in P.Next(p, step.i).repos[j].tab {
        PutKeepsKeys(p, step.i, j, name);
      }
    }
  }

  lemma KeysKeepGrowing(history: seq<S.World>, next: S.World)
    requires history != [] && KeysGrow(history[|history| - 1], next)
    requires forall k, m :: 0 <= k <= m < |history| ==> KeysGrow(history[k], history[m])
    ensures forall k, m :: 0 <= k <= m < |history + [next]| ==> KeysGrow((history + [next])[k], (history + [next])[m])
  {
    var last := |history| - 1;
    forall k | 0 <= k < |history| ensures KeysGrow(history[k], next) {
      assert KeysGrow(history[k], history[last]);
    }
  }

  lemma ServeKeepsHistory(
    cfg: L.Config, tokens: map<string, string>, start: seq<Repo>, history: seq<S.World>, step: S.Step)
    requires history != [] && HistoryOk(cfg, start, history) && (cfg.writeToken ==> T.TokensAre(start, tokens))
    requires S.Enabled(cfg, history[|history| - 1], step)
    ensures HistoryOk(cfg, start, history + [S.Next(cfg, history[|history| - 1], step)])
  {
    var now := history[|history| - 1];
    S.NextKeepsInv(cfg, tokens, start, now, step);
    ServeKeepsKeys(cfg, now, step);
    KeysKeepGrowing(history, S.Next(cfg, now, step));
  }

  lemma LongerHistory(q: Query, n: nat, history: seq<S.World>, next: S.World)
    requires FitsQuery(q, n, |history|) && |next.repos| == n
    requires forall k :: 0 <= k < |history| ==> |history[k].repos| == n
    requires QueryOk(q, n, history)
    ensures FitsQuery(q, n, |history + [next]|) && QueryOk(q, n, history + [next])
  {
  }

  lemma AskKeepsOk(q: Query, n: nat, history: seq<S.World>, r: nat)
    requires history != [] && FitsQuery(q, n, |history|) && r < n && r !in q.asked
    requires forall k :: 0 <= k < |history| ==> |history[k].repos| == n
    requires QueryOk(q, n, history)
    ensures var at := |history| - 1;
            var q' := q.(asked := q.asked[r := Seen(AnswerOf(history[at].repos, q.name, q.read.faults, r), at)]);
            FitsQuery(q', n, |history|) && QueryOk(q', n, history)
  {
  }

  lemma FailureKeepsOk(q: Query, n: nat, history: seq<S.World>)
    requires FitsQuery(q, n, |history|) && Ready(q, n) && |q.got| < Receives(n, q.read.expires)
    requires forall k :: 0 <= k < |history| ==> |history[k].repos| == n
    requires QueryOk(q, n, history) && q.asked[q.read.order[|q.got|]].answer.err.Some?
    ensures var q' := q.(got := q.got + [q.asked[q.read.order[|q.got|]].answer]);
            FitsQuery(q', n, |history|) && QueryOk(q', n, history)
  {
  }

  lemma TurnKeepsOk(q: Query, n: nat, history: seq<S.World>)
    requires FitsQuery(q, n, |history|) && Ready(q, n)
    requires forall k :: 0 <= k < |history| ==> |history[k].repos| == n
    requires QueryOk(q, n, history)
    ensures FitsQuery(Turned(q, n), n, |history|) && QueryOk(Turned(q, n), n, history)
  {
    if n > 0 && |q.got| < Receives(n, q.read.expires) {
      if q.asked[q.read.order[|q.got|]].answer.err.Some? {
        FailureKeepsOk(q, n, history);
      }
    }
  }

  lemma AllLonger(queries: seq<Query>, n: nat, history: seq<S.World>, next: S.World)
    requires |next.repos| == n && forall k :: 0 <= k < |history| ==> |history[k].repos| == n
    requires forall i :: 0 <= i < |queries| ==> FitsQuery(queries[i], n, |history|)
    requires QueriesOk(queries, n, history)
    ensures forall i :: 0 <= i < |queries| ==> FitsQuery(queries[i], n, |history + [next]|)
    ensures QueriesOk(queries, n, history + [next])
  {
    forall i | 0 <= i < |queries|
      ensures FitsQuery(queries[i], n, |history + [next]|)
      ensures QueryOk(queries[i], n, history + [next])
    {
      LongerHistory(queries[i], n, history, next);
    }
  }

  lemma ServeKeepsInv(cfg: L.Config, tokens: map<string, string>, start: seq<Repo>, w: World, step: S.Step)
    requires Inv(cfg, start, w) && S.Enabled(cfg, Now(w), step) && (cfg.writeToken ==> T.TokensAre(start, tokens))
    ensures Inv(cfg, start, Next(cfg, w, |start|, Serve(step)))
  {
    ServeKeepsHistory(cfg, tokens, start, w.history, step);
    AllLonger(w.queries, |start|, w.history, S.Next(cfg, Now(w), step));
  }

  /** The history stays, and one read is replaced or added. */
  lemma QueryKeepsInv(cfg: L.Config, start: seq<Repo>, w: World, i: nat, q: Query)
    requires Inv(cfg, start, w) && i <= |w.queries| && FitsQuery(q, |start|, |w.history|)
    requires QueryOk(q, |start|, w.history)
    ensures Inv(cfg, start, w.(queries := if i < |w.queries| then w.queries[i := q] else w.queries + [q]))
  {
  }

  lemma BeginKeepsInv(cfg: L.Config, start: seq<Repo>, w: World, name: string, read: Read)
    requires Inv(cfg, start, w) && FitsRead(read, |start|) && |read.order| == |start|
    ensures Inv(cfg, start, w.(queries := w.queries + [Query(name, read, |w.history| - 1, map[], [], None)]))
  {
    QueryKeepsInv(cfg, start, w, |w.queries|, Query(name, read, |w.history| - 1, map[], [], None));
  }

  lemma AskKeepsInv(cfg: L.Config, start: seq<Repo>, w: World, i: nat, r: nat)
    requires Inv(cfg, start, w) && Enabled(cfg, w, |start|, Ask(i, r))
    ensures Inv(cfg, start, Next(cfg, w, |start|, Ask(i, r)))
  {
    AskKeepsOk(w.queries[i], |start|, w.history, r);
    QueryKeepsInv(cfg, start, w, i, Next(cfg, w, |start|, Ask(i, r)).queries[i]);
  }

  lemma TurnKeepsInv(cfg: L.Config, start: seq<Repo>, w: World, i: nat)
    requires Inv(cfg, start, w) && Enabled(cfg, w, |start|, Turn(i))
    ensures Inv(cfg, start, Next(cfg, w, |start|, Turn(i)))
  {
    TurnKeepsOk(w.queries[i], |start|, w.history);
    QueryKeepsInv(cfg, start, w, i, Turned(w.queries[i], |start|));
  }

  lemma NextKeepsInv(cfg: L.Config, tokens: map<string, string>, start: seq<Repo>, w: World, step: Step)
    requires Inv(cfg, start, w) && Enabled(cfg, w, |start|, step) && (cfg.writeToken ==> T.TokensAre(start, tokens))
    ensures Inv(cfg, start, Next(cfg, w, |start|, step))
  {
    match step
    case Serve(step) => ServeKeepsInv(cfg, tokens, start, w, step);
    case Begin(name, read) => BeginKeepsInv(cfg, start, w, name, read);
    case Ask(i, r) => AskKeepsInv(cfg, start, w, i, r);
    case Turn(i) => TurnKeepsInv(cfg, start, w, i);
  }

  predicate Legal(cfg: L.Config, w: World, n: nat, steps: seq<Step>)
    requires WellFormed(w, n)
    decreases |steps|
  {
    steps == [] || (Enabled(cfg, w, n, steps[0]) && Legal(cfg, Next(cfg, w, n, steps[0]), n, steps[1..]))
  }

  function Exec(cfg: L.Config, w: World, n: nat, steps: seq<Step>): (w': World)
    requires WellFormed(w, n) && Legal(cfg, w, n, steps)
    ensures WellFormed(w', n)
    decreases |steps|
  {
    if steps == [] then w else Exec(cfg, Next(cfg, w, n, steps[0]), n, steps[1..])
  }

  function Start(repos: seq<Repo>): (w: World)
    ensures WellFormed(w, |repos|)
  {
    World([S.Fresh(repos)], [])
  }

  lemma {:induction false} ExecKeepsInv(
    cfg: L.Config, tokens: map<string, string>, start: seq<Repo>, w: World, steps: seq<Step>)
    requires Inv(cfg, start, w) && Legal(cfg, w, |start|, steps) && (cfg.writeToken ==> T.TokensAre(start, tokens))
    ensures Inv(cfg, start, Exec(cfg, w, |start|, steps))
    decreases |steps|
  {
    if steps != [] {
      NextKeepsInv(cfg, tokens, start, w, steps[0]);
      ExecKeepsInv(cfg, tokens, start, Next(cfg, w, |start|, steps[0]), steps[1..]);
    }
  }

  lemma StartInv(cfg: L.Config, repos: seq<Repo>)
    ensures Inv(cfg, repos, Start(repos))
  {
    S.FreshInv(cfg, repos);
  }

  // ----- the theorems -----

  /** Answers in arrival order that include all those the read has asked for. */
  ghost predicate Covers(answers: seq<Answer>, q: Query, n: nat)
    requires |q.read.order| == n
  {
    && |answers| == n
    && forall k :: 0 <= k < n && q.read.order[k] in q.asked ==> answers[k] == q.asked[q.read.order[k]].answer
  }

  /** A reply is the read loop's over these answers. */
  lemma ReplyIsCollect(q: Query, n: nat, history: seq<S.World>, answers: seq<Answer>)
    requires FitsQuery(q, n, |history|) && forall k :: 0 <= k < |history| ==> |history[k].repos| == n
    requires QueryOk(q, n, history) && q.reply.Some? && n > 0 && Covers(answers, q, n)
    ensures Collect(answers, q.read.expires, 0, false, NO_ANSWER) == q.reply.value
  {
    var k := |q.got|;
    assert q.got == answers[..k];
    C.CollectSkips(answers, q.read.expires, k);
  }

  /** The answers, the missing ones as they would be in this state. */
  function Completed(q: Query, repos: seq<Repo>): (answers: seq<Answer>)
    requires FitsRead(q.read, |repos|) && |q.read.order| == |repos|
    ensures |answers| == |repos|
    ensures forall k :: 0 <= k < |repos| ==>
              answers[k] == if q.read.order[k] in q.asked then q.asked[q.read.order[k]].answer
                            else Arrivals(repos, q.name, q.read)[k]
  {
    seq(|repos|, k requires 0 <= k < |repos| =>
      if q.read.order[k] in q.asked then q.asked[q.read.order[k]].answer else Arrivals(repos, q.name, q.read)[k])
  }

  /** Each answer is that of its repository at some moment since the read began. */
  ghost predicate AnswerAt(q: Query, history: seq<S.World>, answer: Answer, r: nat, at: nat) {
    && q.arrived <= at < |history| && r < |history[at].repos| && |q.read.faults| == |history[at].repos|
    && answer == AnswerOf(history[at].repos, q.name, q.read.faults, r)
  }

  lemma CompletedAt(q: Query, n: nat, history: seq<S.World>, k: nat) returns (at: nat)
    requires history != [] && FitsQuery(q, n, |history|) && k < n
    requires forall m :: 0 <= m < |history| ==> |history[m].repos| == n
    requires QueryOk(q, n, history)
    ensures q.read.order[k] < n
    ensures AnswerAt(q, history, Completed(q, history[|history| - 1].repos)[k], q.read.order[k], at)
  {
    var now := history[|history| - 1].repos;
    OrderCovers(q.read.order, n);
    assert q.read.order[k] in q.read.order;
    assert Arrivals(now, q.name, q.read)[k] == AnswerOf(now, q.name, q.read.faults, q.read.order[k]);
    at := if q.read.order[k] in q.asked then q.asked[q.read.order[k]].at else |history| - 1;
  }

  /** The reply shows what repository `r` held at moment `at`, which is accounted
      for by the puts it had taken by then. */
  ghost predicate ShowsMoment(
    cfg: L.Config, tokens: map<string, string>, start: seq<Repo>, history: seq<S.World>, q: Query, r: nat, at: nat) {
    && q.arrived <= at < |history| && S.WellFormed(history[at]) && |history[at].repos| == |start| && r < |start|
    && !start[r].broken && q.name in history[at].repos[r].tab
    && q.reply.Some? && q.reply.value.body == Body(q.name, history[at].repos[r].tab[q.name])
    && S.Accounted(cfg, tokens, start, history[at], q.name, r)
  }

  lemma SuccessIsAnswer(q: Query, n: nat, history: seq<S.World>)
    requires FitsQuery(q, n, |history|) && forall k :: 0 <= k < |history| ==> |history[k].repos| == n
    requires QueryOk(q, n, history) && q.reply.Some? && q.reply.value.err.None?
    ensures |q.got| < n && q.read.order[|q.got|] in q.asked
    ensures q.reply.value == q.asked[q.read.order[|q.got|]].answer
  {
  }

  lemma BrokenStays(cfg: L.Config, start: seq<Repo>, w: S.World, r: nat)
    requires S.Inv(cfg, start, w) && r < |start|
    ensures w.repos[r].broken == start[r].broken
  {
    assert P.Accounted(start, S.PutWorld(w), "", r);
  }

  /** A successful read shows what one working repository held at one moment since
      the read began: its first record, or the id of a task whose put it had taken
      by then, with one change for each such task and the token of the start. */
  lemma ReadsShowMoments(cfg: L.Config, tokens: map<string, string>, repos: seq<Repo>, steps: seq<Step>, i: nat)
    requires Legal(cfg, Start(repos), |repos|, steps) && (cfg.writeToken ==> T.TokensAre(repos, tokens))
    requires i < |Exec(cfg, Start(repos), |repos|, steps).queries|
    ensures var w := Exec(cfg, Start(repos), |repos|, steps);
            var q := w.queries[i];
            q.reply.Some? && q.reply.value.err.None? ==>
              exists r: nat, at: nat :: ShowsMoment(cfg, tokens, repos, w.history, q, r, at)
  {
    StartInv(cfg, repos);
    ExecKeepsInv(cfg, tokens, repos, Start(repos), steps);
    var w := Exec(cfg, Start(repos), |repos|, steps);
    var q := w.queries[i];
    if q.reply.Some? && q.reply.value.err.None? {
      SuccessIsAnswer(q, |repos|, w.history);
      var r := q.read.order[|q.got|];
      var at := q.asked[r].at;
      BrokenStays(cfg, repos, w.history[at], r);
      S.InvAccounts(cfg, tokens, repos, w.history[at], q.name, r);
      assert ShowsMoment(cfg, tokens, repos, w.history, q, r, at);
    }
  }

  /** Repository `j` works and this read can reach it. */
  predicate Reaches(start: seq<Repo>, q: Query, j: int)
    requires |q.read.faults| == |start|
  {
    0 <= j < |start| && !start[j].broken && !q.read.faults[j]
  }

  lemma MomentAnswers(cfg: L.Config, start: seq<Repo>, history: seq<S.World>, q: Query, r: nat, at: nat, answer: Answer)
    requires HistoryOk(cfg, start, history) && AnswerAt(q, history, answer, r, at) && |q.read.faults| == |start|
    requires r < |start| && ValidName(q.name) && |history[at].repos| == |start|
    ensures answer.err.None? <==> Reaches(start, q, r) && q.name in history[at].repos[r].tab
    ensures answer.err == Some(NotFound) <==> Reaches(start, q, r) && q.name !in history[at].repos[r].tab
  {
    BrokenStays(cfg, start, history[at], r);
  }

  /** What a completed list of answers says, between the arrival and now. */
  lemma AnswersBetween(cfg: L.Config, start: seq<Repo>, w: World, q: Query, k: nat)
    requires Inv(cfg, start, w) && q in w.queries && k < |start| && ValidName(q.name)
    ensures FitsQuery(q, |start|, |w.history|) && q.read.order[k] < |start| && |Now(w).repos| == |start|
    ensures |w.history[q.arrived].repos| == |start|
    ensures var (r, answer) := (q.read.order[k], Completed(q, Now(w).repos)[k]);
            && (Reaches(start, q, r) && q.name in w.history[q.arrived].repos[r].tab ==> answer.err.None?)
            && (Reaches(start, q, r) && q.name !in Now(w).repos[r].tab ==> answer.err == Some(NotFound))
            && (answer.err.None? || answer.err == Some(NotFound) ==> Reaches(start, q, r))
  {
    var at := CompletedAt(q, |start|, w.history, k);
    MomentAnswers(cfg, start, w.history, q, q.read.order[k], at, Completed(q, Now(w).repos)[k]);
    assert KeysGrow(w.history[q.arrived], w.history[at]) && KeysGrow(w.history[at], Now(w));
  }

  lemma ReplyDecides(cfg: L.Config, start: seq<Repo>, w: World, q: Query)
    requires Inv(cfg, start, w) && q in w.queries && q.reply.Some? && start != []
    requires Receives(|start|, q.read.expires) == |start|
    ensures FitsQuery(q, |start|, |w.history|) && |Now(w).repos| == |start|
    ensures var (answers, a) := (Completed(q, Now(w).repos), q.reply.value);
            && (a.err.None? <==> exists k :: 0 <= k < |start| && answers[k].err.None?)
            && (a.err.Some? ==> (a.err == Some(NotFound) <==>
                                   exists k :: 0 <= k < |start| && answers[k].err == Some(NotFound)))
  {
    var answers := Completed(q, Now(w).repos);
    ReplyIsCollect(q, |start|, w.history, answers);
    CollectDecides(answers, q.read.expires, 0, false, NO_ANSWER);
  }

  lemma PositionOf(q: Query, n: nat, j: nat) returns (k: nat)
    requires FitsRead(q.read, n) && j < n
    ensures k < n && k < |q.read.order| && q.read.order[k] == j
  {
    OrderCovers(q.read.order, n);
    assert j in q.read.order;
    k :| 0 <= k < |q.read.order| && q.read.order[k] == j;
  }

  /** Repository `j`, within this read's reach, held the name at moment `at`. */
  ghost predicate Held(start: seq<Repo>, w: World, q: Query, at: nat, j: nat)
    requires |q.read.faults| == |start| && at < |w.history| && |w.history[at].repos| == |start|
  {
    Reaches(start, q, j) && q.name in w.history[at].repos[j].tab
  }

  /** No repository within reach holds the name now. */
  ghost predicate NobodyHolds(start: seq<Repo>, w: World, q: Query)
    requires |q.read.faults| == |start| && w.history != [] && |Now(w).repos| == |start|
  {
    forall j: nat :: Reaches(start, q, j) ==> q.name !in Now(w).repos[j].tab
  }

  lemma FoundIfHeld(cfg: L.Config, start: seq<Repo>, w: World, q: Query, j: nat)
    requires Inv(cfg, start, w) && q in w.queries && q.reply.Some? && start != [] && ValidName(q.name)
    requires Receives(|start|, q.read.expires) == |start|
    requires FitsQuery(q, |start|, |w.history|) && Held(start, w, q, q.arrived, j)
    ensures q.reply.value.err.None?
  {
    var k := PositionOf(q, |start|, j);
    AnswersBetween(cfg, start, w, q, k);
    ReplyDecides(cfg, start, w, q);
  }

  lemma MissingIfNobodyHolds(cfg: L.Config, start: seq<Repo>, w: World, q: Query, j: nat)
    requires Inv(cfg, start, w) && q in w.queries && q.reply.Some? && start != [] && ValidName(q.name)
    requires Receives(|start|, q.read.expires) == |start|
    requires FitsQuery(q, |start|, |w.history|) && Reaches(start, q, j)
    requires NobodyHolds(start, w, q)
    ensures q.reply.value.err == Some(NotFound)
  {
    var answers := Completed(q, Now(w).repos);
    forall k: nat | k < |start| ensures answers[k].err.Some? {
      AnswersBetween(cfg, start, w, q, k);
    }
    var k := PositionOf(q, |start|, j);
    AnswersBetween(cfg, start, w, q, k);
    ReplyDecides(cfg, start, w, q);
  }

  /** However writes overlap a read that does not time out: a name that a working
      repository held when the read began is found, so not-found means that none
      held it then; and a name that none holds yet is not found. */
  lemma ReadsAreFresh(cfg: L.Config, tokens: map<string, string>, repos: seq<Repo>, steps: seq<Step>, i: nat)
    requires Legal(cfg, Start(repos), |repos|, steps) && (cfg.writeToken ==> T.TokensAre(repos, tokens))
    requires i < |Exec(cfg, Start(repos), |repos|, steps).queries|
    ensures var w := Exec(cfg, Start(repos), |repos|, steps);
            var q := w.queries[i];
            q.reply.Some? && ValidName(q.name) && Receives(|repos|, q.read.expires) == |repos| ==>
              && ((exists j: nat :: Held(repos, w, q, q.arrived, j)) ==> q.reply.value.err.None?)
              && ((exists j: nat :: Reaches(repos, q, j)) && NobodyHolds(repos, w, q) ==>
                    q.reply.value.err == Some(NotFound))
  {
    StartInv(cfg, repos);
    ExecKeepsInv(cfg, tokens, repos, Start(repos), steps);
    var w := Exec(cfg, Start(repos), |repos|, steps);
    var q := w.queries[i];
    if q.reply.Some? && ValidName(q.name) && Receives(|repos|, q.read.expires) == |repos| {
      if j: nat :| Held(repos, w, q, q.arrived, j) {
        FoundIfHeld(cfg, repos, w, q, j);
      }
      if j: nat :| Reaches(repos, q, j) {
        if NobodyHolds(repos, w, q) {
          MissingIfNobodyHolds(cfg, repos, w, q, j);
        }
      }
    }
  }

  lemma QuietAnswers(q: Query, n: nat, history: seq<S.World>)
    requires history != [] && FitsQuery(q, n, |history|)
    requires forall k :: 0 <= k < |history| ==> |history[k].repos| == n
    requires QueryOk(q, n, history)
    requires forall k :: q.arrived <= k < |history| ==> history[k].repos == history[|history| - 1].repos
    ensures Covers(Arrivals(history[|history| - 1].repos, q.name, q.read), q, n)
  {
  }

  /** No repository has changed since the read began. */
  ghost predicate Quiet(w: World, q: Query)
    requires w.history != []
  {
    forall k :: q.arrived <= k < |w.history| ==> w.history[k].repos == Now(w).repos
  }

  lemma QuietReply(cfg: L.Config, start: seq<Repo>, w: World, q: Query)
    requires Inv(cfg, start, w) && q in w.queries && q.reply.Some? && Quiet(w, q)
    ensures FitsQuery(q, |start|, |w.history|) && |Now(w).repos| == |start|
    ensures q.reply.value == GetAll(Now(w).repos, q.name, q.read)
  {
    if start != [] {
      QuietAnswers(q, |start|, w.history);
      ReplyIsCollect(q, |start|, w.history, Arrivals(Now(w).repos, q.name, q.read));
    }
  }

  /** A read during which no repository changes is the read of that state. */
  lemma QuietReadIsGetAll(cfg: L.Config, tokens: map<string, string>, repos: seq<Repo>, steps: seq<Step>, i: nat)
    requires Legal(cfg, Start(repos), |repos|, steps) && (cfg.writeToken ==> T.TokensAre(repos, tokens))
    requires i < |Exec(cfg, Start(repos), |repos|, steps).queries|
    ensures var w := Exec(cfg, Start(repos), |repos|, steps);
            var q := w.queries[i];
            q.reply.Some? && Quiet(w, q) ==>
              |Now(w).repos| == |repos| && q.reply.value == GetAll(Now(w).repos, q.name, q.read)
  {
    StartInv(cfg, repos);
    ExecKeepsInv(cfg, tokens, repos, Start(repos), steps);
    var w := Exec(cfg, Start(repos), |repos|, steps);
    if w.queries[i].reply.Some? && Quiet(w, w.queries[i]) {
      QuietReply(cfg, repos, w, w.queries[i]);
    }
  }

  // ----- reads are free and end -----

  /** The server goes on as it likes, a read can begin at any time, and one that
      has not been answered can take a turn or still has a repository to ask. */
  lemma ReadsNeverBlock(cfg: L.Config, w: World, n: nat, i: nat, step: S.Step, name: string, read: Read)
    requires WellFormed(w, n)
    ensures S.Enabled(cfg, Now(w), step) ==>
              && Enabled(cfg, w, n, Serve(step))
              && Now(Next(cfg, w, n, Serve(step))) == S.Next(cfg, Now(w), step)
    ensures FitsRead(read, n) ==>
              && Enabled(cfg, w, n, Begin(name, read))
              && Next(cfg, w, n, Begin(name, read)).queries
                 == w.queries + [Query(name, read, |w.history| - 1, map[], [], None)]
    ensures i < |w.queries| && w.queries[i].reply.None? ==>
              Enabled(cfg, w, n, Turn(i)) || exists r :: Enabled(cfg, w, n, Ask(i, r))
  {
    if FitsRead(read, n) {
      OrderCovers(read.order, n);
    }
    if i < |w.queries| && w.queries[i].reply.None? && !Ready(w.queries[i], n) {
      var q := w.queries[i];
      OrderCovers(q.read.order, n);
      assert q.read.order[|q.got|] in q.read.order;
      assert Enabled(cfg, w, n, Ask(i, q.read.order[|q.got|]));
    }
  }

  /** Read `i`, which asks everything at this very moment. */
  ghost predicate AskedNow(w: World, n: nat, i: nat, name: string, read: Read, k: nat)
    requires WellFormed(w, n)
  {
    && i < |w.queries| && w.queries[i].name == name && w.queries[i].read == read
    && QueryOk(w.queries[i], n, w.history)
    && forall r: nat :: (r in w.queries[i].asked <==> r < k)
                        && (r < k ==> w.queries[i].asked[r].at == |w.history| - 1)
  }

  lemma AskTheRest(cfg: L.Config, w: World, n: nat, i: nat, name: string, read: Read, k: nat) returns (steps: seq<Step>)
    requires WellFormed(w, n) && k <= n && AskedNow(w, n, i, name, read, k)
    requires w.queries[i].got == [] && w.queries[i].reply.None?
    ensures Legal(cfg, w, n, steps)
    ensures var w' := Exec(cfg, w, n, steps);
            && w'.history == w.history && |w'.queries| == |w.queries| && AskedNow(w', n, i, name, read, n)
            && w'.queries[i].got == [] && w'.queries[i].reply.None?
    decreases n - k
  {
    steps := [];
    if k < n {
      AskKeepsOk(w.queries[i], n, w.history, k);
      var rest := AskTheRest(cfg, Next(cfg, w, n, Ask(i, k)), n, i, name, read, k + 1);
      steps := [Ask(i, k)] + rest;
      assert steps[1..] == rest;
    }
  }

  lemma TurnTheRest(cfg: L.Config, w: World, n: nat, i: nat, name: string, read: Read) returns (steps: seq<Step>)
    requires WellFormed(w, n) && AskedNow(w, n, i, name, read, n)
    ensures Legal(cfg, w, n, steps)
    ensures var w' := Exec(cfg, w, n, steps);
            && w'.history == w.history && |w'.queries| == |w.queries| && AskedNow(w', n, i, name, read, n)
            && w'.queries[i].reply.Some?
    decreases n - |w.queries[i].got|, if w.queries[i].reply.None? then 1 else 0
  {
    var q := w.queries[i];
    steps := [];
    if q.reply.None? {
      OrderCovers(q.read.order, n);
      assert |q.got| < n ==> q.read.order[|q.got|] in q.read.order;
      TurnKeepsOk(q, n, w.history);
      var rest := TurnTheRest(cfg, Next(cfg, w, n, Turn(i)), n, i, name, read);
      steps := [Turn(i)] + rest;
      assert steps[1..] == rest;
    }
  }

  lemma {:induction false} ExecConcat(cfg: L.Config, w: World, n: nat, a: seq<Step>, b: seq<Step>)
    requires WellFormed(w, n) && Legal(cfg, w, n, a) && Legal(cfg, Exec(cfg, w, n, a), n, b)
    ensures Legal(cfg, w, n, a + b) && Exec(cfg, w, n, a + b) == Exec(cfg, Exec(cfg, w, n, a), n, b)
    decreases |a|
  {
    if a == [] {
      assert a + b == b;
    } else {
      assert (a + b)[1..] == a[1..] + b;
      ExecConcat(cfg, Next(cfg, w, n, a[0]), n, a[1..], b);
    }
  }

  lemma AskedNowCovers(w: World, n: nat, i: nat, name: string, read: Read)
    requires WellFormed(w, n) && AskedNow(w, n, i, name, read, n)
    ensures FitsRead(read, |Now(w).repos|) && Covers(Arrivals(Now(w).repos, name, read), w.queries[i], n)
  {
    var q, answers := w.queries[i], Arrivals(Now(w).repos, name, read);
    forall k | 0 <= k < n && read.order[k] in q.asked ensures answers[k] == q.asked[read.order[k]].answer {
      assert q.asked[read.order[k]].at == |w.history| - 1;
    }
  }

  lemma AskedNowIsGetAll(w: World, n: nat, i: nat, name: string, read: Read)
    requires WellFormed(w, n) && AskedNow(w, n, i, name, read, n) && w.queries[i].reply.Some?
    ensures FitsRead(read, |Now(w).repos|) && w.queries[i].reply.value == GetAll(Now(w).repos, name, read)
  {
    AskedNowCovers(w, n, i, name, read);
    if n > 0 {
      ReplyIsCollect(w.queries[i], n, w.history, Arrivals(Now(w).repos, name, read));
    }
  }

  lemma BeginNow(cfg: L.Config, w: World, n: nat, name: string, read: Read)
    requires WellFormed(w, n) && FitsRead(read, n)
    ensures Enabled(cfg, w, n, Begin(name, read))
    ensures var (i, w') := (|w.queries|, Next(cfg, w, n, Begin(name, read)));
            && w'.history == w.history && |w'.queries| == i + 1 && AskedNow(w', n, i, name, read, 0)
            && w'.queries[i].got == [] && w'.queries[i].reply.None?
  {
    OrderCovers(read.order, n);
  }

  lemma FinishNow(cfg: L.Config, w: World, n: nat, i: nat, name: string, read: Read) returns (steps: seq<Step>)
    requires WellFormed(w, n) && AskedNow(w, n, i, name, read, 0)
    requires w.queries[i].got == [] && w.queries[i].reply.None?
    ensures Legal(cfg, w, n, steps)
    ensures var w' := Exec(cfg, w, n, steps);
            && w'.history == w.history && |w'.queries| == |w.queries| && FitsRead(read, |Now(w).repos|)
            && w'.queries[i].reply == Some(GetAll(Now(w).repos, name, read))
  {
    var asks := AskTheRest(cfg, w, n, i, name, read, 0);
    var w2 := Exec(cfg, w, n, asks);
    var turns := TurnTheRest(cfg, w2, n, i, name, read);
    ExecConcat(cfg, w, n, asks, turns);
    steps := asks + turns;
    AskedNowIsGetAll(Exec(cfg, w2, n, turns), n, i, name, read);
  }

  /** At every moment every read can be made at once, for every arrival order and
      timer, and gives what the sequential read gives. */
  lemma ReadNow(cfg: L.Config, w: World, n: nat, name: string, read: Read) returns (steps: seq<Step>)
    requires WellFormed(w, n) && FitsRead(read, n)
    ensures Legal(cfg, w, n, steps)
    ensures var w' := Exec(cfg, w, n, steps);
            && w'.history == w.history && |w'.queries| == |w.queries| + 1
            && w'.queries[|w.queries|].reply == Some(GetAll(Now(w).repos, name, read))
  {
    BeginNow(cfg, w, n, name, read);
    var rest := FinishNow(cfg, Next(cfg, w, n, Begin(name, read)), n, |w.queries|, name, read);
    steps := [Begin(name, read)] + rest;
    assert steps[1..] == rest;
  }
}

/** What the replicated store guarantees: reads do not depend on arrival order,
    N repositories behave as one over every run, dumps merge to that one, and
    retried writes count once. */
module StoreLaws {
  import opened GoLib
  import opened Repository
  import opened Service
  import Ring

  // ----- reads -----

  lemma {:induction false} CollectMeans(
    answers: seq<Answer>, expires: Option<nat>, k: nat, notFound: bool, last: Answer)
    requires k <= |answers|
    ensures var a := Collect(answers, expires, k, notFound, last);
            && (a.err.None? && k < |answers| ==> a in answers[k..])
            && ((exists i :: k <= i < |answers| && answers[i].err.None?) && expires.None? ==> a.err.None?)
            && (a.err == Some(NotFound) && k < |answers| ==>
                  && (forall i :: k <= i < |answers| ==> answers[i].err.Some?)
                  && (notFound || exists i :: k <= i < |answers| && answers[i].err == Some(NotFound)))
            && (expires.None? && (forall i :: k <= i < |answers| ==> answers[i].err.Some?) ==>
                  if notFound || exists i :: k <= i < |answers| && answers[i].err == Some(NotFound)
                  then a.err == Some(NotFound)
                  else a == if k == |answers| then last else answers[|answers| - 1])
    decreases |answers| - k
  {
    if k < |answers| && expires != Some(k) && answers[k].err.Some? {
      CollectMeans(answers, expires, k + 1, notFound || answers[k].err == Some(NotFound), answers[k]);
    }
  }

  ghost predicate Answers(repos: seq<Repo>, name: string, faults: seq<bool>, r: nat, err: Option<Error>)
    requires |faults| == |repos|
  {
    r < |repos| && GetError(repos[r], name, faults[r]) == err
  }

  /** What a read returns, whatever the arrival order: with or without a timeout
      a success is some repository's own answer and not-found means no repository
      would have succeeded; without one the outcome is decided by the answers. */
  lemma GetOutcome(repos: seq<Repo>, name: string, read: Read)
    requires FitsRead(read, |repos|) && repos != []
    ensures var a := GetAll(repos, name, read);
            && (a.err.None? ==> exists r :: Answers(repos, name, read.faults, r, None)
                                  && a == AnswerOf(repos, name, read.faults, r))
            && (a.err == Some(NotFound) ==>
                  && (exists r :: Answers(repos, name, read.faults, r, Some(NotFound)))
                  && !exists r :: Answers(repos, name, read.faults, r, None))
    ensures read.expires.None? ==>
              var a := GetAll(repos, name, read);
              && (a.err.None? <==> exists r :: Answers(repos, name, read.faults, r, None))
              && (a.err == Some(NotFound) <==>
                    && (exists r :: Answers(repos, name, read.faults, r, Some(NotFound)))
                    && !exists r :: Answers(repos, name, read.faults, r, None))
              && (a.err.Some? && a.err != Some(NotFound) ==>
                    exists r :: Answers(repos, name, read.faults, r, a.err))
  {
    var n := |repos|;
    var answers := Arrivals(repos, name, read);
    CollectMeans(answers, read.expires, 0, false, NO_ANSWER);
    OrderCovers(read.order, n);
    assert answers[0..] == answers;
    forall i | 0 <= i < n
      ensures Answers(repos, name, read.faults, read.order[i], answers[i].err)
    {
      assert read.order[i] in read.order;
    }
    forall r, err | Answers(repos, name, read.faults, r, err)
      ensures exists i :: 0 <= i < n && answers[i].err == err
    {
      assert r in read.order;
      var i :| 0 <= i < n && read.order[i] == r;
      assert answers[i].err == err;
    }
  }

  /** The receives that happen: all of them, or those before the timer wins. */
  function Receives(n: nat, expires: Option<nat>): (m: nat)
    ensures m <= n
  {
    if expires.Some? && expires.value < n then expires.value else n
  }

  /** Exactly what the read loop returns: the first success that is received;
      else a timeout if the timer won; else not-found or the last error. */
  lemma {:induction false} CollectExactly(
    answers: seq<Answer>, expires: Option<nat>, k: nat, notFound: bool, last: Answer)
    requires k <= Receives(|answers|, expires) && answers != []
    requires last == if k == 0 then NO_ANSWER else answers[k - 1]
    ensures var (a, m) := (Collect(answers, expires, k, notFound, last), Receives(|answers|, expires));
            && (forall i :: k <= i < m && answers[i].err.None? && (forall j :: k <= j < i ==> answers[j].err.Some?) ==>
                  a == answers[i])
            && ((forall i :: k <= i < m ==> answers[i].err.Some?) ==>
                  var final := if m == 0 then NO_ANSWER else answers[m - 1];
                  a == if m < |answers| then Answer(final.body, None, Some(Timeout))
                       else if notFound || exists i :: k <= i < m && answers[i].err == Some(NotFound)
                       then final.(err := Some(NotFound)) else final)
    decreases |answers| - k
  {
    if k < Receives(|answers|, expires) && answers[k].err.Some? {
      CollectExactly(answers, expires, k + 1, notFound || answers[k].err == Some(NotFound), answers[k]);
    }
  }

  /** The `k`-th receive happens and brings an answer with this error. */
  ghost predicate Received(repos: seq<Repo>, name: string, read: Read, k: int, err: Option<Error>)
    requires FitsRead(read, |repos|)
  {
    0 <= k < Receives(|repos|, read.expires) && Arrivals(repos, name, read)[k].err == err
  }

  lemma {:induction false} CollectDecides(
    answers: seq<Answer>, expires: Option<nat>, k: nat, notFound: bool, last: Answer)
    requires answers != [] && k <= Receives(|answers|, expires)
    requires k == |answers| ==> last.err.Some?
    ensures var (a, m) := (Collect(answers, expires, k, notFound, last), Receives(|answers|, expires));
            && (a.err.None? <==> exists i :: k <= i < m && answers[i].err.None?)
            && (a.err.None? ==> exists i :: k <= i < m && answers[i].err.None? && a == answers[i])
            && (a.err.Some? && m < |answers| ==> a.err == Some(Timeout))
            && (a.err.Some? && m == |answers| && k < m ==>
                  (a.err == Some(NotFound) <==> notFound || exists i :: k <= i < m && answers[i].err == Some(NotFound)))
    decreases |answers| - k
  {
    if k < Receives(|answers|, expires) && answers[k].err.Some? {
      CollectDecides(answers, expires, k + 1, notFound || answers[k].err == Some(NotFound), answers[k]);
    }
  }

  /** The exact outcome of every read, timeouts and the empty list included: a
      success iff some receive brings one, and then one of those; not-found iff
      every answer was received, none a success and one of them not-found. */
  lemma GetExactly(repos: seq<Repo>, name: string, read: Read)
    requires FitsRead(read, |repos|)
    ensures var (a, m) := (GetAll(repos, name, read), Receives(|repos|, read.expires));
            && (a.err.None? <==> exists k :: Received(repos, name, read, k, None))
            && (a.err.None? ==>
                  exists k :: Received(repos, name, read, k, None) && a == Arrivals(repos, name, read)[k])
            && (a.err == Some(NotFound) <==>
                  && m == |repos| && (exists k :: Received(repos, name, read, k, Some(NotFound)))
                  && !exists k :: Received(repos, name, read, k, None))
  {
    if repos != [] {
      var answers := Arrivals(repos, name, read);
      CollectDecides(answers, read.expires, 0, false, NO_ANSWER);
      assert forall k :: 0 <= k < Receives(|repos|, read.expires) ==>
          Received(repos, name, read, k, answers[k].err);
    }
  }

  ghost predicate Healthy(repos: seq<Repo>, j: int) { 0 <= j < |repos| && !repos[j].broken }

  /** The `k`-th receive happens and its repository could be read. */
  ghost predicate ReadAt(repos: seq<Repo>, read: Read, k: int)
    requires |read.faults| == |repos|
  {
    && 0 <= k < |read.order| && k < Receives(|repos|, read.expires)
    && Healthy(repos, read.order[k]) && !read.faults[read.order[k]]
  }

  /** A name held by every healthy repository is found iff one of them is read. */
  lemma HeldIsFound(repos: seq<Repo>, name: string, read: Read)
    requires FitsRead(read, |repos|) && ValidName(name)
    requires forall j :: Healthy(repos, j) ==> name in repos[j].tab
    ensures var a := GetAll(repos, name, read);
            && (a.err.None? <==> exists k :: ReadAt(repos, read, k))
            && (a.err.None? ==> exists j :: Healthy(repos, j) && a.body == Body(name, repos[j].tab[name]))
  {
    GetExactly(repos, name, read);
    OrderCovers(read.order, |repos|);
    forall k | 0 <= k < Receives(|repos|, read.expires)
      ensures ReadAt(repos, read, k) <==> Received(repos, name, read, k, None)
    {
      assert read.order[k] in read.order;
      assert Arrivals(repos, name, read)[k] == AnswerOf(repos, name, read.faults, read.order[k]);
    }
    assert forall k :: ReadAt(repos, read, k) ==> Received(repos, name, read, k, None);
    if k :| Received(repos, name, read, k, None) && GetAll(repos, name, read) == Arrivals(repos, name, read)[k] {
      assert Healthy(repos, read.order[k]);
    }
  }

  lemma {:induction false} ErrorsOfReads(
    answers: seq<Answer>, expires: Option<nat>, k: nat, notFound: bool, last: Answer)
    requires k <= |answers| && (k == |answers| ==> last.err != Some(EmptyRepoList))
    requires forall i :: 0 <= i < |answers| ==> answers[i].err != Some(EmptyRepoList)
    ensures Collect(answers, expires, k, notFound, last).err != Some(EmptyRepoList)
    decreases |answers| - k
  {
    if k < |answers| && expires != Some(k) && answers[k].err.Some? {
      ErrorsOfReads(answers, expires, k + 1, notFound || answers[k].err == Some(NotFound), answers[k]);
    }
  }

  /** A success is what one working repository that was read holds, and names that
      repository; the empty list has an error of its own. */
  lemma SuccessNamesItsRepository(repos: seq<Repo>, name: string, read: Read)
    requires FitsRead(read, |repos|)
    ensures var a := GetAll(repos, name, read);
            && (a.err.None? ==> exists r: nat :: r < |repos| && !repos[r].broken && !read.faults[r]
                                  && name in repos[r].tab && a == Answer(Body(name, repos[r].tab[name]), Some(r), None))
            && (a.err == Some(EmptyRepoList) <==> repos == [])
  {
    GetExactly(repos, name, read);
    if repos != [] {
      ErrorsOfReads(Arrivals(repos, name, read), read.expires, 0, false, NO_ANSWER);
    }
    if k :| Received(repos, name, read, k, None) && GetAll(repos, name, read) == Arrivals(repos, name, read)[k] {
      var r := read.order[k];
      assert GetAll(repos, name, read) == Answer(Body(name, repos[r].tab[name]), Some(r), None);
    }
  }

  datatype Verdict = Success | Absent | Failure

  function VerdictOf(err: Option<Error>): Verdict {
    if err.None? then Success else if err == Some(NotFound) then Absent else Failure
  }

  /** Two reads of the same store differ at most in arrival order. */
  lemma OrderIndependent(repos: seq<Repo>, name: string, read1: Read, read2: Read)
    requires FitsRead(read1, |repos|) && FitsRead(read2, |repos|) && read1.faults == read2.faults
    requires read1.expires.None? && read2.expires.None?
    ensures VerdictOf(GetAll(repos, name, read1).err) == VerdictOf(GetAll(repos, name, read2).err)
  {
    if repos != [] {
      GetOutcome(repos, name, read1);
      GetOutcome(repos, name, read2);
    }
  }

  // ----- writes -----

  /** A put is accepted exactly by a working repository that likes name and id;
      reading the name then gives the new id and time, one more change and the
      same token, and every other name is as before. */
  lemma GetAfterPut(r: Repo, name: string, id: string, now: int, fault: bool, other: string)
    ensures Accepts(r, name, id, fault) <==> !r.broken && !fault && ValidName(name) && !BlankId(id)
    ensures var (r', e) := (Put(r, name, id, now, fault), Lookup(r.tab, name));
            && (Accepts(r, name, id, fault) ==>
                  && GetError(r', name, false) == None
                  && GetBody(r', name, false) == Body(name, Entry(id, e.changes + 1, now, e.token)))
            && (other != name || !Accepts(r, name, id, fault) ==>
                  && (other in r'.tab <==> other in r.tab) && Lookup(r'.tab, other) == Lookup(r.tab, other))
  {
  }

  /** After a token write a get finds the name, with the new token and the id and
      changes it had (none, for a name that was unknown); of every other name it
      says what it said before. */
  lemma GetAfterToken(r: Repo, name: string, token: string, other: string, fault: bool)
    ensures var r' := PutToken(r, name, token, false);
            && (GetError(r', name, fault).None? <==> !r.broken && !fault && ValidName(name))
            && (GetError(r', name, fault).None? ==>
                  GetBody(r', name, fault) == Body(name, Lookup(r.tab, name).(token := token)))
            && (other != name ==>
                  && GetError(r', other, fault) == GetError(r, other, fault)
                  && GetBody(r', other, fault) == GetBody(r, other, fault))
  {
  }

  /** Reads only depend on the answers. */
  lemma SameAnswersSameRead(repos1: seq<Repo>, repos2: seq<Repo>, name: string, read: Read)
    requires FitsRead(read, |repos1|) && |repos1| == |repos2|
    requires forall r :: 0 <= r < |repos1| ==>
               AnswerOf(repos1, name, read.faults, r) == AnswerOf(repos2, name, read.faults, r)
    ensures GetAll(repos1, name, read) == GetAll(repos2, name, read)
  {
    assert Arrivals(repos1, name, read) == Arrivals(repos2, name, read);
  }

  /** A read says that `name` has this id. */
  predicate Shows(a: Answer, name: string, id: string) {
    a.err.None? && a.body.name == name && a.body.entry.id == id
  }

  ghost predicate ReadsShow(repos: seq<Repo>, name: string, id: string) {
    forall read :: FitsRead(read, |repos|) && (exists k :: ReadAt(repos, read, k)) ==>
      Shows(GetAll(repos, name, read), name, id)
  }

  /** The read that only repository `j` answers. */
  function ReadOnly(n: nat, j: nat): (read: Read)
    ensures FitsRead(read, n)
  {
    Read(Iota(n), seq(n, r => r != j), None)
  }

  lemma OnlyAnswerWins(repos: seq<Repo>, name: string, j: nat)
    requires Healthy(repos, j)
    ensures exists k :: ReadAt(repos, ReadOnly(|repos|, j), k)
    ensures GetAll(repos, name, ReadOnly(|repos|, j)).err.None? ==>
              GetAll(repos, name, ReadOnly(|repos|, j)).body == GetBody(repos[j], name, false)
  {
    var read := ReadOnly(|repos|, j);
    assert ReadAt(repos, read, j);
    GetExactly(repos, name, read);
  }

  /** Every later read that reaches a working repository shows the id of a valid
      put, if and only if each healthy repository that missed it through a
      transient fault already had that id. */
  lemma ReadYourPut(repos: seq<Repo>, name: string, id: string, call: Call)
    requires Fits(call, |repos|) && ValidName(name) && !BlankId(id)
    ensures ReadsShow(PutAll(repos, name, id, call), name, id)
            <==> forall j :: Healthy(repos, j) && call.faults[j] ==> name in repos[j].tab && repos[j].tab[name].id == id
  {
    var after := PutAll(repos, name, id, call);
    forall j | Healthy(after, j)
      ensures Healthy(repos, j)
      ensures !call.faults[j] ==> name in after[j].tab && after[j].tab[name].id == id
      ensures call.faults[j] ==> after[j] == repos[j]
    {
      GetAfterPut(repos[j], name, id, call.clock[j], call.faults[j], name);
    }
    if forall j :: Healthy(after, j) ==> name in after[j].tab && after[j].tab[name].id == id {
      forall read | FitsRead(read, |after|) && (exists k :: ReadAt(after, read, k))
        ensures Shows(GetAll(after, name, read), name, id)
      {
        HeldIsFound(after, name, read);
      }
    }
    forall j | ReadsShow(after, name, id) && Healthy(after, j)
      ensures name in after[j].tab && after[j].tab[name].id == id
    {
      OnlyAnswerWins(after, name, j);
      assert Shows(GetAll(after, name, ReadOnly(|after|, j)), name, id);
    }
    assert forall j :: Healthy(repos, j) ==> Healthy(after, j);
  }

  /** After a token write without an error the name is found iff a working
      repository is read, unknown names included (with an empty id), and it shows
      the new token with the id and changes some healthy repository had; reads of
      every other name are exactly as before. */
  lemma ReadYourToken(repos: seq<Repo>, name: string, token: string, call: Call, read: Read, other: string)
    requires Fits(call, |repos|) && TokenAllError(call).None? && FitsRead(read, |repos|) && ValidName(name)
    ensures var a := GetAll(TokenAll(repos, name, token, call), name, read);
            && (a.err.None? <==> exists k :: ReadAt(repos, read, k))
            && (a.err.None? ==> exists j :: Healthy(repos, j)
                                  && a.body == Body(name, Lookup(repos[j].tab, name).(token := token)))
    ensures other != name ==>
              GetAll(TokenAll(repos, name, token, call), other, read) == GetAll(repos, other, read)
  {
    var after := TokenAll(repos, name, token, call);
    forall j | 0 <= j < |repos| ensures after[j] == PutToken(repos[j], name, token, false) {
      assert call.faults[j] in call.faults;
    }
    HeldIsFound(after, name, read);
    assert forall j :: Healthy(after, j) <==> Healthy(repos, j);
    assert forall k :: ReadAt(after, read, k) <==> ReadAt(repos, read, k);
    if other != name {
      forall r | 0 <= r < |repos|
        ensures AnswerOf(after, other, read.faults, r) == AnswerOf(repos, other, read.faults, r)
      {
        GetAfterToken(repos[r], name, token, other, read.faults[r]);
      }
      SameAnswersSameRead(after, repos, other, read);
    }
  }

  /** Neither the final state nor success depends on where the ring starts. */
  lemma StartIrrelevant(repos: seq<Repo>, name: string, id: string, token: string, c1: Call, c2: Call)
    requires Fits(c1, |repos|) && Fits(c2, |repos|) && c1.clock == c2.clock && c1.faults == c2.faults
    ensures PutAll(repos, name, id, c1) == PutAll(repos, name, id, c2)
    ensures TokenAll(repos, name, token, c1) == TokenAll(repos, name, token, c2)
    ensures PutAllError(repos, name, id, c1).None? <==> PutAllError(repos, name, id, c2).None?
    ensures TokenAllError(c1) == TokenAllError(c2)
  {
    PutOutcome(repos, name, id, c1);
    PutOutcome(repos, name, id, c2);
  }

  // ----- N repositories behave as one -----

  datatype Op =
    | OpPut(name: string, id: string, call: Call)
    | OpToken(name: string, token: string, call: Call)
    | OpGet(name: string, read: Read)

  datatype Reply = Done | Failed | Missing | Found(record: Record)

  predicate FitsOp(op: Op, n: nat) {
    match op
    case OpPut(_, _, call) => Fits(call, n)
    case OpToken(_, _, call) => Fits(call, n)
    case OpGet(_, read) => FitsRead(read, n)
  }

  /** Writes do not fault (a repository is broken for good or works); reads may
      fault and time out. */
  predicate Steady(op: Op) { op.OpGet? || true !in op.call.faults }

  function GetReplyOf(err: Option<Error>, body: Body): Reply {
    match err
    case None => Found(RecordOf(body.entry))
    case Some(NotFound) => Missing
    case Some(_) => Failed
  }

  function Step(repos: seq<Repo>, op: Op): (seq<Repo>, Reply)
    requires FitsOp(op, |repos|)
  {
    match op
    case OpPut(name, id, call) =>
      (PutAll(repos, name, id, call), if PutAllError(repos, name, id, call).None? then Done else Failed)
    case OpToken(name, token, call) =>
      (TokenAll(repos, name, token, call), if TokenAllError(call).None? then Done else Failed)
    case OpGet(name, read) => (repos, GetReplyOf(GetAll(repos, name, read).err, GetAll(repos, name, read).body))
  }

  /** The same operation on one repository. */
  function SingleStep(r: Repo, op: Op): (Repo, Reply) {
    match op
    case OpPut(name, id, _) =>
      (Put(r, name, id, 0, false), if PutError(r, name, id, false).None? then Done else Failed)
    case OpToken(name, token, _) => (PutToken(r, name, token, false), Done)
    case OpGet(name, _) => (r, GetReplyOf(GetError(r, name, false), GetBody(r, name, false)))
  }

  function Run(repos: seq<Repo>, ops: seq<Op>): (res: (seq<Repo>, seq<Reply>))
    requires forall op :: op in ops ==> FitsOp(op, |repos|)
    ensures |res.0| == |repos| && |res.1| == |ops|
    decreases |ops|
  {
    if ops == [] then (repos, [])
    else
      var (after, reply) := Step(repos, ops[0]);
      var (final, replies) := Run(after, ops[1..]);
      (final, [reply] + replies)
  }

  function SingleRun(r: Repo, ops: seq<Op>): (res: (Repo, seq<Reply>))
    ensures |res.1| == |ops|
    decreases |ops|
  {
    if ops == [] then (r, [])
    else
      var (after, reply) := SingleStep(r, ops[0]);
      var (final, replies) := SingleRun(after, ops[1..]);
      (final, [reply] + replies)
  }

  /** Every healthy repository holds what the single one holds, and there is one. */
  ghost predicate Coupled(repos: seq<Repo>, single: Repo) {
    && !single.broken
    && (exists j :: Healthy(repos, j))
    && forall j :: Healthy(repos, j) ==> View(repos[j].tab) == View(single.tab)
  }

  /** Some healthy repository answers this read, and no timer wins. */
  ghost predicate Undisturbed(op: Op, repos: seq<Repo>)
    requires FitsOp(op, |repos|)
  {
    op.OpGet? ==> op.read.expires.None? && exists j :: Healthy(repos, j) && !op.read.faults[j]
  }

  ghost predicate Matches(undisturbed: bool, reply: Reply, single: Reply) {
    reply == single || (!undisturbed && reply == Failed)
  }

  lemma ViewOfUpdate(tab: Table, name: string, e: Entry)
    ensures View(tab[name := e]) == View(tab)[name := RecordOf(e)]
  {
  }

  lemma SameViewAfterPut(r1: Repo, r2: Repo, name: string, id: string, now1: int, now2: int)
    requires r1.broken == r2.broken && View(r1.tab) == View(r2.tab)
    ensures View(Put(r1, name, id, now1, false).tab) == View(Put(r2, name, id, now2, false).tab)
  {
    ViewDecides(r1.tab, r2.tab, name);
    ViewOfUpdate(r1.tab, name, Lookup(Stored(r1.tab, name, id, now1), name));
    ViewOfUpdate(r2.tab, name, Lookup(Stored(r2.tab, name, id, now2), name));
  }

  lemma SameViewAfterToken(r1: Repo, r2: Repo, name: string, token: string)
    requires View(r1.tab) == View(r2.tab)
    ensures View(PutToken(r1, name, token, false).tab) == View(PutToken(r2, name, token, false).tab)
  {
    ViewDecides(r1.tab, r2.tab, name);
    ViewOfUpdate(r1.tab, name, Lookup(r1.tab, name).(token := token));
    ViewOfUpdate(r2.tab, name, Lookup(r2.tab, name).(token := token));
  }

  lemma PutRefines(repos: seq<Repo>, single: Repo, op: Op)
    requires Coupled(repos, single) && op.OpPut? && FitsOp(op, |repos|) && Steady(op)
    ensures Coupled(Step(repos, op).0, SingleStep(single, op).0)
    ensures Step(repos, op).1 == SingleStep(single, op).1
  {
    var OpPut(name, id, call) := op;
    var after := PutAll(repos, name, id, call);
    forall j | Healthy(after, j)
      ensures View(after[j].tab) == View(Put(single, name, id, 0, false).tab)
    {
      assert Healthy(repos, j) && call.faults[j] in call.faults;
      SameViewAfterPut(repos[j], single, name, id, call.clock[j], 0);
    }
    var j :| Healthy(repos, j);
    assert Healthy(after, j) && call.faults[j] in call.faults;
    PutOutcome(repos, name, id, call);
    assert Accepts(repos[j], name, id, call.faults[j]) == Accepts(single, name, id, false);
  }

  lemma TokenRefines(repos: seq<Repo>, single: Repo, op: Op)
    requires Coupled(repos, single) && op.OpToken? && FitsOp(op, |repos|) && Steady(op)
    ensures Coupled(Step(repos, op).0, SingleStep(single, op).0)
    ensures Step(repos, op).1 == SingleStep(single, op).1
  {
    var OpToken(name, token, call) := op;
    var after := TokenAll(repos, name, token, call);
    forall j | Healthy(after, j)
      ensures View(after[j].tab) == View(PutToken(single, name, token, false).tab)
    {
      assert call.faults[j] in call.faults && Healthy(repos, j);
      SameViewAfterToken(repos[j], single, name, token);
    }
    var j :| Healthy(repos, j);
    assert call.faults[j] in call.faults && Healthy(after, j);
  }

  lemma GetRefines(repos: seq<Repo>, single: Repo, op: Op)
    requires Coupled(repos, single) && op.OpGet? && FitsOp(op, |repos|) && Steady(op)
    ensures Matches(Undisturbed(op, repos), Step(repos, op).1, SingleStep(single, op).1)
  {
    var OpGet(name, read) := op;
    GetOutcome(repos, name, read);
    forall r: nat, err | Answers(repos, name, read.faults, r, err) && (err.None? || err == Some(NotFound))
      ensures GetError(single, name, false) == err
      ensures err.None? ==> RecordOf(repos[r].tab[name]) == RecordOf(single.tab[name])
    {
      assert Healthy(repos, r);
      ViewDecides(repos[r].tab, single.tab, name);
    }
    if Undisturbed(op, repos) {
      var j :| Healthy(repos, j) && !read.faults[j];
      ViewDecides(repos[j].tab, single.tab, name);
      assert Answers(repos, name, read.faults, j, GetError(single, name, false));
    }
  }

  ghost predicate SameHealth(before: seq<Repo>, after: seq<Repo>) {
    |before| == |after| && forall j :: 0 <= j < |before| ==> before[j].broken == after[j].broken
  }

  /** One step keeps the coupling, gives the single repository's reply unless
      disturbed, and breaks or mends nothing. */
  lemma StepRefines(repos: seq<Repo>, single: Repo, op: Op)
    requires Coupled(repos, single) && FitsOp(op, |repos|) && Steady(op)
    ensures Coupled(Step(repos, op).0, SingleStep(single, op).0)
    ensures Matches(Undisturbed(op, repos), Step(repos, op).1, SingleStep(single, op).1)
    ensures SameHealth(repos, Step(repos, op).0)
  {
    match op {
      case OpPut(_, _, _) => PutRefines(repos, single, op);
      case OpToken(_, _, _) => TokenRefines(repos, single, op);
      case OpGet(_, _) => GetRefines(repos, single, op);
    }
  }

  lemma SameDisturbance(op: Op, before: seq<Repo>, after: seq<Repo>)
    requires SameHealth(before, after) && FitsOp(op, |before|)
    ensures Undisturbed(op, before) == Undisturbed(op, after)
  {
    assert forall j :: Healthy(before, j) <==> Healthy(after, j);
  }

  /** Each reply is the single repository's, or the read was disturbed. */
  ghost predicate RepliesMatch(repos: seq<Repo>, ops: seq<Op>, replies: seq<Reply>, single: seq<Reply>)
    requires forall op :: op in ops ==> FitsOp(op, |repos|)
    requires |ops| == |replies| == |single|
  {
    forall i :: 0 <= i < |ops| ==> Matches(Undisturbed(ops[i], repos), replies[i], single[i])
  }

  lemma OneMoreReply(
    repos: seq<Repo>, after: seq<Repo>, op: Op, ops: seq<Op>, reply: Reply, replies: seq<Reply>, one: Reply,
    single: seq<Reply>)
    requires FitsOp(op, |repos|) && SameHealth(repos, after) && forall o :: o in ops ==> FitsOp(o, |repos|)
    requires |ops| == |replies| == |single| && RepliesMatch(after, ops, replies, single)
    requires Matches(Undisturbed(op, repos), reply, one)
    ensures forall o :: o in [op] + ops ==> FitsOp(o, |repos|)
    ensures RepliesMatch(repos, [op] + ops, [reply] + replies, [one] + single)
  {
    forall i | 0 <= i < |ops| ensures Matches(Undisturbed(ops[i], repos), replies[i], single[i]) {
      SameDisturbance(ops[i], repos, after);
    }
  }

  /** Over every run, whatever the ring starts, arrival orders and read failures,
      the replicated store gives the replies of one healthy repository (a
      disturbed read may fail instead) and ends up holding what it holds. */
  lemma {:induction false} Refines(repos: seq<Repo>, single: Repo, ops: seq<Op>)
    requires Coupled(repos, single)
    requires forall op :: op in ops ==> FitsOp(op, |repos|) && Steady(op)
    ensures Coupled(Run(repos, ops).0, SingleRun(single, ops).0)
    ensures RepliesMatch(repos, ops, Run(repos, ops).1, SingleRun(single, ops).1)
    decreases |ops|
  {
    if ops != [] {
      var op, rest := ops[0], ops[1..];
      var (after, reply) := Step(repos, op);
      var (single', one) := SingleStep(single, op);
      StepRefines(repos, single, op);
      Refines(after, single', rest);
      OneMoreReply(repos, after, op, rest, reply, Run(after, rest).1, one, SingleRun(single', rest).1);
      assert [op] + rest == ops;
    }
  }

  /** A valid put keeps the repositories in step with one healthy repository
      exactly when no healthy repository misses it through a transient fault. */
  lemma InStepUnlessMissed(repos: seq<Repo>, single: Repo, name: string, id: string, call: Call)
    requires Coupled(repos, single) && ValidName(name) && !BlankId(id) && Fits(call, |repos|)
    ensures Coupled(PutAll(repos, name, id, call), Put(single, name, id, 0, false))
            <==> forall j :: Healthy(repos, j) ==> !call.faults[j]
  {
    var after, single' := PutAll(repos, name, id, call), Put(single, name, id, 0, false);
    forall j | Healthy(repos, j)
      ensures Healthy(after, j) && (View(after[j].tab) == View(single'.tab) <==> !call.faults[j])
    {
      if call.faults[j] {
        ViewDecides(repos[j].tab, single.tab, name);
        assert RecordOf(Lookup(single'.tab, name)).changes == RecordOf(Lookup(repos[j].tab, name)).changes + 1;
        if View(after[j].tab) == View(single'.tab) {
          ViewDecides(after[j].tab, single'.tab, name);
        }
      } else {
        SameViewAfterPut(repos[j], single, name, id, call.clock[j], 0);
      }
    }
    assert forall j :: Healthy(after, j) ==> Healthy(repos, j);
  }

  /** A valid put that repository `j` misses through a transient fault. */
  predicate Misses(op: Op, j: nat) {
    op.OpPut? && ValidName(op.name) && !BlankId(op.id) && j < |op.call.faults| && op.call.faults[j]
  }

  function Missed(ops: seq<Op>, j: nat, name: string): nat {
    if ops == [] then 0
    else Missed(ops[1..], j, name) + if Misses(ops[0], j) && ops[0].name == name then 1 else 0
  }

  lemma {:induction false} MissedSome(ops: seq<Op>, j: nat, i: nat)
    requires i < |ops| && Misses(ops[i], j)
    ensures Missed(ops, j, ops[i].name) > 0
  {
    if i > 0 {
      MissedSome(ops[1..], j, i - 1);
    }
  }

  /** Over every run, however its writes and reads fault: what a healthy
      repository's counter gains on a name and the valid puts of that name it
      missed add up to what the counter of one healthy repository gains.  A missed
      put is never made up for. */
  lemma {:induction false} CountersLag(repos: seq<Repo>, single: Repo, ops: seq<Op>, j: nat, name: string)
    requires Healthy(repos, j) && !single.broken && forall op :: op in ops ==> FitsOp(op, |repos|)
    ensures var (r, s) := (Run(repos, ops).0[j], SingleRun(single, ops).0);
            Lookup(r.tab, name).changes - Lookup(repos[j].tab, name).changes + Missed(ops, j, name)
            == Lookup(s.tab, name).changes - Lookup(single.tab, name).changes
    decreases |ops|
  {
    if ops != [] {
      var op, after := ops[0], Step(repos, ops[0]).0;
      var single' := SingleStep(single, op).0;
      CountersLag(after, single', ops[1..], j, name);
      if op.OpPut? {
        GetAfterPut(repos[j], op.name, op.id, op.call.clock[j], op.call.faults[j], name);
        GetAfterPut(single, op.name, op.id, 0, false, name);
      }
    }
  }

  /** A step that no healthy repository misses keeps all of them in step. */
  lemma HitsKeepStep(repos: seq<Repo>, single: Repo, op: Op)
    requires Coupled(repos, single) && FitsOp(op, |repos|) && (op.OpToken? ==> true !in op.call.faults)
    requires forall j: nat :: Healthy(repos, j) ==> !Misses(op, j)
    ensures Coupled(Step(repos, op).0, SingleStep(single, op).0)
    ensures SameHealth(repos, Step(repos, op).0)
  {
    match op {
      case OpPut(name, id, call) =>
        if ValidName(name) && !BlankId(id) {
          InStepUnlessMissed(repos, single, name, id, call);
        } else {
          assert PutAll(repos, name, id, call) == repos;
        }
      case OpToken(_, _, _) => TokenRefines(repos, single, op);
      case OpGet(_, _) =>
    }
  }

  lemma {:induction false} NeverMissed(repos: seq<Repo>, single: Repo, ops: seq<Op>)
    requires Coupled(repos, single)
    requires forall op :: op in ops ==> FitsOp(op, |repos|) && (op.OpToken? ==> true !in op.call.faults)
    requires forall i, j: nat :: 0 <= i < |ops| && Healthy(repos, j) ==> !Misses(ops[i], j)
    ensures Coupled(Run(repos, ops).0, SingleRun(single, ops).0)
    decreases |ops|
  {
    if ops != [] {
      var after, rest := Step(repos, ops[0]).0, ops[1..];
      HitsKeepStep(repos, single, ops[0]);
      forall i, j: nat | 0 <= i < |rest| && Healthy(after, j) ensures !Misses(rest[i], j) {
        assert rest[i] == ops[i + 1] && Healthy(repos, j);
      }
      NeverMissed(after, SingleStep(single, ops[0]).0, rest);
    }
  }

  lemma {:induction false} RunKeepsHealth(repos: seq<Repo>, ops: seq<Op>)
    requires forall op :: op in ops ==> FitsOp(op, |repos|)
    ensures SameHealth(repos, Run(repos, ops).0)
    decreases |ops|
  {
    if ops != [] {
      RunKeepsHealth(Step(repos, ops[0]).0, ops[1..]);
    }
  }

  lemma MissedForGood(repos: seq<Repo>, single: Repo, ops: seq<Op>, i: nat, j: nat)
    requires Coupled(repos, single) && forall op :: op in ops ==> FitsOp(op, |repos|)
    requires i < |ops| && Healthy(repos, j) && Misses(ops[i], j)
    ensures !Coupled(Run(repos, ops).0, SingleRun(single, ops).0)
  {
    var final, single' := Run(repos, ops).0, SingleRun(single, ops).0;
    CountersLag(repos, single, ops, j, ops[i].name);
    MissedSome(ops, j, i);
    ViewDecides(repos[j].tab, single.tab, ops[i].name);
    if Coupled(final, single') {
      RunKeepsHealth(repos, ops);
      ViewDecides(final[j].tab, single'.tab, ops[i].name);
    }
  }

  /** Over every run whose token writes reach their repositories, the healthy
      repositories end in step with one healthy repository if and only if none of
      them has missed any valid put of the run. */
  lemma {:induction false} InStepOverRuns(repos: seq<Repo>, single: Repo, ops: seq<Op>)
    requires Coupled(repos, single)
    requires forall op :: op in ops ==> FitsOp(op, |repos|) && (op.OpToken? ==> true !in op.call.faults)
    ensures Coupled(Run(repos, ops).0, SingleRun(single, ops).0)
            <==> forall i, j: nat :: 0 <= i < |ops| && Healthy(repos, j) ==> !Misses(ops[i], j)
    decreases |ops|
  {
    if forall i, j: nat :: 0 <= i < |ops| && Healthy(repos, j) ==> !Misses(ops[i], j) {
      NeverMissed(repos, single, ops);
    }
    forall i, j: nat | 0 <= i < |ops| && Healthy(repos, j) && Misses(ops[i], j)
      ensures !Coupled(Run(repos, ops).0, SingleRun(single, ops).0)
    {
      MissedForGood(repos, single, ops, i, j);
    }
  }

  /** One healthy repository is exactly what valid writes need. */
  lemma HealthyNeeded(repos: seq<Repo>, name: string, id: string, call: Call)
    requires ValidName(name) && !BlankId(id) && Fits(call, |repos|) && true !in call.faults
    ensures PutAllError(repos, name, id, call).None? <==> exists j :: Healthy(repos, j)
  {
    PutOutcome(repos, name, id, call);
    forall j | 0 <= j < |repos|
      ensures Accepts(repos[j], name, id, call.faults[j]) <==> Healthy(repos, j)
    {
      assert call.faults[j] in call.faults;
    }
  }

  // ----- the merged dump -----

  ghost predicate Holds(repos: seq<Repo>, c: Call, name: string, j: int)
    requires Fits(c, |repos|)
  {
    0 <= j < |repos| && name in Dumped(repos[j], c.faults[j])
  }

  /** The holder of `name` that the ring reaches last within `k` calls. */
  ghost predicate LastHolder(repos: seq<Repo>, c: Call, k: nat, name: string, j: int)
    requires Fits(c, |repos|) && k <= |repos|
  {
    && Holds(repos, c, name, j) && Ring.Turn(c.start, j, |repos|) < k
    && forall i :: Holds(repos, c, name, i) && Ring.Turn(c.start, i, |repos|) < k ==>
         Ring.Turn(c.start, i, |repos|) <= Ring.Turn(c.start, j, |repos|)
  }

  lemma {:induction false} MergeHas(repos: seq<Repo>, c: Call, k: nat, name: string)
    requires Fits(c, |repos|) && k <= |repos|
    ensures name in MergeSome(repos, c, k) <==>
            exists j :: Holds(repos, c, name, j) && Ring.Turn(c.start, j, |repos|) < k
  {
    if k > 0 {
      MergeHas(repos, c, k - 1, name);
      Ring.Coverage(c.start, |repos|);
      var r := Ring.At(c.start, k - 1, |repos|);
      assert Holds(repos, c, name, r) <==> name in Dumped(repos[r], c.faults[r]);
    }
  }

  lemma {:induction false} MergeFrom(repos: seq<Repo>, c: Call, k: nat, name: string) returns (j: nat)
    requires Fits(c, |repos|) && k <= |repos| && name in MergeSome(repos, c, k)
    ensures LastHolder(repos, c, k, name, j) && MergeSome(repos, c, k)[name] == repos[j].tab[name]
  {
    Ring.Coverage(c.start, |repos|);
    j := Ring.At(c.start, k - 1, |repos|);
    if name !in Dumped(repos[j], c.faults[j]) {
      assert !Holds(repos, c, name, j);
      j := MergeFrom(repos, c, k - 1, name);
    }
  }

  /** The merge has one entry for each name some responding repository holds,
      taken from the last such repository in ring order. */
  lemma DumpMerges(repos: seq<Repo>, c: Call, name: string)
    requires Fits(c, |repos|)
    ensures name in Merged(repos, c) <==> exists j :: Holds(repos, c, name, j)
    ensures name in Merged(repos, c) ==>
              exists j :: LastHolder(repos, c, |repos|, name, j) && Merged(repos, c)[name] == repos[j].tab[name]
  {
    MergeHas(repos, c, |repos|, name);
    if name in Merged(repos, c) {
      var j := MergeFrom(repos, c, |repos|, name);
    }
  }

  lemma {:induction false} DumpErrors(repos: seq<Repo>, c: Call, k: nat)
    requires Fits(c, |repos|) && k <= |repos|
    ensures LastDumpError(repos, c, k).None? <==>
            forall j :: 0 <= j < |repos| && Ring.Turn(c.start, j, |repos|) < k ==>
              DumpError(repos[j], c.faults[j]).None?
  {
    if k > 0 {
      DumpErrors(repos, c, k - 1);
      Ring.Coverage(c.start, |repos|);
    }
  }

  /** A dump's error is that of the failing repository the ring reaches last. */
  lemma {:induction false} LastDumpErrorIs(repos: seq<Repo>, c: Call, k: nat, j: nat)
    requires Fits(c, |repos|) && k <= |repos| && j < |repos| && Ring.Turn(c.start, j, |repos|) < k
    requires DumpError(repos[j], c.faults[j]).Some?
    requires forall i :: 0 <= i < |repos| && Ring.Turn(c.start, j, |repos|) < Ring.Turn(c.start, i, |repos|) < k ==>
               DumpError(repos[i], c.faults[i]).None?
    ensures LastDumpError(repos, c, k) == DumpError(repos[j], c.faults[j])
  {
    Ring.Coverage(c.start, |repos|);
    if Ring.Turn(c.start, j, |repos|) < k - 1 {
      LastDumpErrorIs(repos, c, k - 1, j);
    }
  }

  ghost predicate SomeDumped(repos: seq<Repo>, c: Call)
    requires Fits(c, |repos|)
  {
    exists j :: Healthy(repos, j) && !c.faults[j]
  }

  lemma DumpsAgree(repos: seq<Repo>, single: Repo, c: Call, name: string)
    requires Coupled(repos, single) && Fits(c, |repos|)
    ensures forall j :: Holds(repos, c, name, j) <==> Healthy(repos, j) && !c.faults[j] && name in single.tab
    ensures forall j :: Holds(repos, c, name, j) ==> RecordOf(repos[j].tab[name]) == RecordOf(single.tab[name])
  {
    forall j | Healthy(repos, j)
      ensures name in repos[j].tab <==> name in single.tab
      ensures name in single.tab ==> RecordOf(repos[j].tab[name]) == RecordOf(single.tab[name])
    {
      ViewDecides(repos[j].tab, single.tab, name);
    }
  }

  lemma EmptyMerge(merged: Table, tab: Table, dumped: bool)
    requires forall name :: name in merged <==> name in tab && dumped
    requires forall name :: name in merged ==> RecordOf(merged[name]) == RecordOf(tab[name])
    ensures View(merged) == View(tab) <==> dumped || tab == map[]
    ensures merged == map[] <==> tab == map[] || !dumped
  {
    if !dumped && tab != map[] {
      var name :| name in tab;
      assert name in View(tab) && name !in View(merged);
    }
    if merged == map[] && dumped {
      assert tab.Keys == {};
    }
  }

  /** The merged dump is the single repository's dump, time stamps apart, exactly
      when some healthy repository answers or there is nothing to dump; it is an
      error exactly when some repository fails and the merge stays empty, because
      the store is or because no repository answers. */
  lemma DumpRefines(repos: seq<Repo>, single: Repo, c: Call)
    requires Coupled(repos, single) && Fits(c, |repos|)
    ensures View(Merged(repos, c)) == View(single.tab) <==> SomeDumped(repos, c) || single.tab == map[]
    ensures (Merged(repos, c) == map[] && LastDumpError(repos, c, |repos|).Some?)
            <==> && (single.tab == map[] || !SomeDumped(repos, c))
                 && exists j :: 0 <= j < |repos| && (repos[j].broken || c.faults[j])
  {
    var merged := Merged(repos, c);
    forall name
      ensures name in merged <==> name in single.tab && SomeDumped(repos, c)
      ensures name in merged ==> RecordOf(merged[name]) == RecordOf(single.tab[name])
    {
      DumpMerges(repos, c, name);
      DumpsAgree(repos, single, c, name);
    }
    DumpErrors(repos, c, |repos|);
    assert forall j :: 0 <= j < |repos| ==>
        (DumpError(repos[j], c.faults[j]).Some? <==> repos[j].broken || c.faults[j]);
    EmptyMerge(merged, single.tab, SomeDumped(repos, c));
  }

  // ----- retried writes -----

  /** Repository `j` took this put exactly once, at some time. */
  ghost predicate TookOnce(before: Repo, after: Repo, name: string, id: string) {
    && after.broken == before.broken
    && name in after.tab
    && after.tab == before.tab[name := Entry(id, Lookup(before.tab, name).changes + 1,
                                              after.tab[name].lastUpdate, Lookup(before.tab, name).token)]
  }

  lemma PutTakesOnce(r: Repo, name: string, id: string, now: int, fault: bool)
    ensures if Accepts(r, name, id, fault) then TookOnce(r, Put(r, name, id, now, fault), name, id)
            else Put(r, name, id, now, fault) == r
  {
  }

  lemma AcceptedIsTaken(repos: seq<Repo>, name: string, id: string, c: Call)
    requires Fits(c, |repos|)
    ensures forall j :: 0 <= j < |repos| ==>
              PutAll(repos, name, id, c)[j] == repos[j] || TookOnce(repos[j], PutAll(repos, name, id, c)[j], name, id)
    ensures SomeAccept(repos, name, id, c) ==>
              exists j :: 0 <= j < |repos| && TookOnce(repos[j], PutAll(repos, name, id, c)[j], name, id)
    ensures !SomeAccept(repos, name, id, c) ==> PutAll(repos, name, id, c) == repos
  {
    forall j | 0 <= j < |repos|
      ensures if Accepts(repos[j], name, id, c.faults[j])
              then TookOnce(repos[j], PutAll(repos, name, id, c)[j], name, id)
              else PutAll(repos, name, id, c)[j] == repos[j]
    {
      PutTakesOnce(repos[j], name, id, c.clock[j], c.faults[j]);
    }
  }

  /** However the attempts fail, no repository counts the put twice; 200 means
      some repository took it, 500 that none changed, and it is 200 exactly when
      some attempt is accepted somewhere. */
  lemma {:induction false} RetryCountsOnce(repos: seq<Repo>, name: string, id: string, attempts: seq<Call>)
    requires forall c :: c in attempts ==> Fits(c, |repos|)
    ensures var (after, status) := Retry(repos, name, id, attempts);
            && |after| == |repos|
            && (forall j :: 0 <= j < |repos| ==> after[j] == repos[j] || TookOnce(repos[j], after[j], name, id))
            && (status == OK ==> exists j :: 0 <= j < |repos| && TookOnce(repos[j], after[j], name, id))
            && (status != OK ==> status == SERVER_ERROR && after == repos)
            && (status == OK <==> exists i :: 0 <= i < |attempts| && SomeAccept(repos, name, id, attempts[i]))
    decreases |attempts|
  {
    if attempts != [] {
      var c := attempts[0];
      PutOutcome(repos, name, id, c);
      AcceptedIsTaken(repos, name, id, c);
      if !SomeAccept(repos, name, id, c) {
        RetryCountsOnce(repos, name, id, attempts[1..]);
        assert forall i :: 1 <= i < |attempts| ==> attempts[i] == attempts[1..][i - 1];
      }
    }
  }

  lemma RetryGoesOn(start: seq<Repo>, name: string, id: string, attempts: seq<Call>)
    requires attempts != [] && forall c :: c in attempts ==> Fits(c, |start|)
    requires !SomeAccept(start, name, id, attempts[0])
    ensures Retry(start, name, id, attempts) == Retry(start, name, id, attempts[1..])
  {
    PutOutcome(start, name, id, attempts[0]);
    AcceptedIsTaken(start, name, id, attempts[0]);
  }

  /** The first attempt accepted somewhere is the last, and leaves its store. */
  lemma {:induction false} RetryStops(start: seq<Repo>, name: string, id: string, attempts: seq<Call>, a: nat)
    requires a < |attempts| && forall c :: c in attempts ==> Fits(c, |start|)
    requires forall b :: 0 <= b < a ==> !SomeAccept(start, name, id, attempts[b])
    requires SomeAccept(start, name, id, attempts[a])
    ensures Retry(start, name, id, attempts) == (PutAll(start, name, id, attempts[a]), OK)
    decreases a
  {
    if a == 0 {
      PutOutcome(start, name, id, attempts[0]);
    } else {
      var rest := attempts[1..];
      RetryGoesOn(start, name, id, attempts);
      forall b | 0 <= b < a - 1 ensures !SomeAccept(start, name, id, rest[b]) {
        assert rest[b] == attempts[b + 1];
      }
      RetryStops(start, name, id, rest, a - 1);
    }
  }
}

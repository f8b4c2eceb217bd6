/** Fan-out of every operation over the configured repositories, and the PUT
    and GET handlers on top (cmd/gateboard/service.go). */
module Service {
  import opened GoLib
  import opened Repository
  import Ring

  /** What the environment decides during one write fan-out: the random start of
      the ring, and for each repository the time its call runs at and whether
      the call faults. */
  datatype Call = Call(start: nat, clock: seq<int>, faults: seq<bool>)

  predicate Fits(c: Call, n: nat) {
    |c.clock| == n && |c.faults| == n && (n > 0 ==> c.start < n)
  }

  /** What it decides during one read: the order in which answers arrive, which
      queries fault, and at which receive the timer wins, if it does. */
  datatype Read = Read(order: seq<nat>, faults: seq<bool>, expires: Option<nat>)

  function Iota(n: nat): seq<nat> { seq(n, i => i) }

  predicate FitsRead(r: Read, n: nat) {
    |r.faults| == n && multiset(r.order) == multiset(Iota(n))
  }

  lemma OrderCovers(order: seq<nat>, n: nat)
    requires multiset(order) == multiset(Iota(n))
    ensures |order| == n
    ensures forall r: nat :: r in order <==> r < n
  {
    assert |multiset(order)| == |multiset(Iota(n))|;
    forall r: nat
      ensures r in order <==> r < n
    {
      assert r in order <==> r in multiset(order);
      assert r in Iota(n) <==> r in multiset(Iota(n));
      if r < n {
        assert Iota(n)[r] == r;
      }
    }
  }

  // ----- writes -----

  /** The repositories after the first `k` calls. */
  function PutSome(repos: seq<Repo>, name: string, id: string, c: Call, k: nat): (after: seq<Repo>)
    requires Fits(c, |repos|) && k <= |repos|
    ensures |after| == |repos|
  {
    seq(|repos|, j requires 0 <= j < |repos| =>
      if Ring.Turn(c.start, j, |repos|) < k then Put(repos[j], name, id, c.clock[j], c.faults[j]) else repos[j])
  }

  function PutAll(repos: seq<Repo>, name: string, id: string, c: Call): (after: seq<Repo>)
    requires Fits(c, |repos|)
    ensures |after| == |repos|
    ensures forall j :: 0 <= j < |repos| ==> after[j] == Put(repos[j], name, id, c.clock[j], c.faults[j])
  {
    PutSome(repos, name, id, c, |repos|)
  }

  lemma PutNext(repos: seq<Repo>, name: string, id: string, c: Call, k: nat)
    requires Fits(c, |repos|) && k < |repos|
    ensures var r := Ring.At(c.start, k, |repos|);
            && PutSome(repos, name, id, c, k)[r] == repos[r]
            && PutSome(repos, name, id, c, k + 1)
               == PutSome(repos, name, id, c, k)[r := Put(repos[r], name, id, c.clock[r], c.faults[r])]
  {
    Ring.Coverage(c.start, |repos|);
  }

  predicate SomeAccept(repos: seq<Repo>, name: string, id: string, c: Call)
    requires Fits(c, |repos|)
  {
    exists j :: 0 <= j < |repos| && Accepts(repos[j], name, id, c.faults[j])
  }

  /** Successes and last error after the first `k` calls. */
  function Tally(repos: seq<Repo>, name: string, id: string, c: Call, k: nat): (nat, Option<Error>)
    requires Fits(c, |repos|) && k <= |repos|
  {
    if k == 0 then (0, None)
    else
      var (successes, errLast) := Tally(repos, name, id, c, k - 1);
      var r := Ring.At(c.start, k - 1, |repos|);
      var err := PutError(repos[r], name, id, c.faults[r]);
      if err.None? then (successes + 1, errLast) else (successes, err)
  }

  function PutAllError(repos: seq<Repo>, name: string, id: string, c: Call): Option<Error>
    requires Fits(c, |repos|)
  {
    if repos == [] then Some(EmptyRepoList)
    else
      var (successes, errLast) := Tally(repos, name, id, c, |repos|);
      if successes < 1 then errLast else None
  }

  lemma {:induction false} TallyMeans(repos: seq<Repo>, name: string, id: string, c: Call, k: nat)
    requires Fits(c, |repos|) && k <= |repos|
    ensures var (successes, errLast) := Tally(repos, name, id, c, k);
            && (successes > 0 <==> exists j :: 0 <= j < |repos| && Ring.Turn(c.start, j, |repos|) < k
                                     && Accepts(repos[j], name, id, c.faults[j]))
            && (k > 0 && successes == 0 ==>
                  var r := Ring.At(c.start, k - 1, |repos|);
                  errLast == PutError(repos[r], name, id, c.faults[r]))
  {
    if k > 0 {
      TallyMeans(repos, name, id, c, k - 1);
      var r := Ring.At(c.start, k - 1, |repos|);
      Ring.Coverage(c.start, |repos|);
      assert Accepts(repos[r], name, id, c.faults[r]) <==> PutError(repos[r], name, id, c.faults[r]).None?;
    }
  }

  /** A write succeeds exactly when some repository accepts it, wherever the ring
      starts; otherwise it reports the error of the last one, the start itself. */
  lemma PutOutcome(repos: seq<Repo>, name: string, id: string, c: Call)
    requires Fits(c, |repos|)
    ensures PutAllError(repos, name, id, c).None? <==> SomeAccept(repos, name, id, c)
    ensures repos != [] && !SomeAccept(repos, name, id, c) ==>
              PutAllError(repos, name, id, c) == PutError(repos[c.start], name, id, c.faults[c.start])
  {
    if repos != [] {
      TallyMeans(repos, name, id, c, |repos|);
      Ring.Coverage(c.start, |repos|);
    }
  }

  function TokenSome(repos: seq<Repo>, name: string, token: string, c: Call, k: nat): (after: seq<Repo>)
    requires Fits(c, |repos|) && k <= |repos|
    ensures |after| == |repos|
  {
    seq(|repos|, j requires 0 <= j < |repos| =>
      if Ring.Turn(c.start, j, |repos|) < k then PutToken(repos[j], name, token, c.faults[j]) else repos[j])
  }

  function TokenAll(repos: seq<Repo>, name: string, token: string, c: Call): (after: seq<Repo>)
    requires Fits(c, |repos|)
    ensures |after| == |repos|
    ensures forall j :: 0 <= j < |repos| ==> after[j] == PutToken(repos[j], name, token, c.faults[j])
  {
    TokenSome(repos, name, token, c, |repos|)
  }

  /** The one way a token write fails: some repository's call faulted. */
  function TokenAllError(c: Call): Option<Error> { if true in c.faults then Some(Fault) else None }

  /** The last error after the first `k` calls. */
  function LastTokenError(c: Call, n: nat, k: nat): Option<Error>
    requires Fits(c, n) && k <= n
  {
    if k == 0 then None
    else if c.faults[Ring.At(c.start, k - 1, n)] then Some(Fault)
    else LastTokenError(c, n, k - 1)
  }

  lemma {:induction false} TokenErrorMeans(c: Call, n: nat, k: nat)
    requires Fits(c, n) && k <= n
    ensures LastTokenError(c, n, k) in {None, Some(Fault)}
    ensures LastTokenError(c, n, k).Some? <==> exists j :: 0 <= j < n && Ring.Turn(c.start, j, n) < k && c.faults[j]
  {
    if k > 0 {
      TokenErrorMeans(c, n, k - 1);
      Ring.Coverage(c.start, n);
    }
  }

  lemma TokenOutcome(c: Call, n: nat)
    requires Fits(c, n) && n > 0
    ensures LastTokenError(c, n, n) == TokenAllError(c)
  {
    TokenErrorMeans(c, n, n);
    Ring.Coverage(c.start, n);
    if true in c.faults {
      var j :| 0 <= j < n && c.faults[j];
      assert Ring.Turn(c.start, j, n) < n;
    }
  }

  lemma TokenNext(repos: seq<Repo>, name: string, token: string, c: Call, k: nat)
    requires Fits(c, |repos|) && k < |repos|
    ensures var r := Ring.At(c.start, k, |repos|);
            && TokenSome(repos, name, token, c, k)[r] == repos[r]
            && TokenSome(repos, name, token, c, k + 1)
               == TokenSome(repos, name, token, c, k)[r := PutToken(repos[r], name, token, c.faults[r])]
  {
    Ring.Coverage(c.start, |repos|);
  }

  // ----- reads -----

  datatype Answer = Answer(body: Body, repo: Option<nat>, err: Option<Error>)

  const NO_ANSWER := Answer(Body("", ZERO_ENTRY), None, None)

  function AnswerOf(repos: seq<Repo>, name: string, faults: seq<bool>, r: nat): Answer
    requires |faults| == |repos| && r < |repos|
  {
    Answer(GetBody(repos[r], name, faults[r]), Some(r), GetError(repos[r], name, faults[r]))
  }

  /** The collector's loop over answers in arrival order, from receive `k` on;
      `last` is the answer received before, `notFound` whether one said so. */
  function Collect(answers: seq<Answer>, expires: Option<nat>, k: nat, notFound: bool, last: Answer): Answer
    requires k <= |answers|
    decreases |answers| - k
  {
    if k == |answers| then
      if notFound then last.(err := Some(NotFound)) else last
    else if expires == Some(k) then Answer(last.body, None, Some(Timeout))
    else if answers[k].err.None? then answers[k]
    else Collect(answers, expires, k + 1, notFound || answers[k].err == Some(NotFound), answers[k])
  }

  function Arrivals(repos: seq<Repo>, name: string, read: Read): (answers: seq<Answer>)
    requires FitsRead(read, |repos|)
    ensures |answers| == |repos|
    ensures forall k :: 0 <= k < |repos| ==>
              && |read.order| == |repos| && read.order[k] < |repos|
              && answers[k] == AnswerOf(repos, name, read.faults, read.order[k])
  {
    OrderCovers(read.order, |repos|);
    assert forall k :: 0 <= k < |read.order| ==> read.order[k] in read.order;
    seq(|repos|, k requires 0 <= k < |repos| => AnswerOf(repos, name, read.faults, read.order[k]))
  }

  function GetAll(repos: seq<Repo>, name: string, read: Read): Answer
    requires FitsRead(read, |repos|)
  {
    if repos == [] then NO_ANSWER.(err := Some(EmptyRepoList))
    else Collect(Arrivals(repos, name, read), read.expires, 0, false, NO_ANSWER)
  }

  function InvalidToken(repos: seq<Repo>, name: string, token: string, read: Read): bool
    requires FitsRead(read, |repos|)
  {
    token == "" || GetAll(repos, name, read).err.Some? || GetAll(repos, name, read).body.entry.token != token
  }

  // ----- dumps -----

  /** The merge after the first `k` dumps: later ones overwrite by name. */
  function MergeSome(repos: seq<Repo>, c: Call, k: nat): Table
    requires Fits(c, |repos|) && k <= |repos|
  {
    if k == 0 then map[]
    else
      var r := Ring.At(c.start, k - 1, |repos|);
      MergeSome(repos, c, k - 1) + Dumped(repos[r], c.faults[r])
  }

  function Merged(repos: seq<Repo>, c: Call): Table
    requires Fits(c, |repos|)
  {
    MergeSome(repos, c, |repos|)
  }

  function LastDumpError(repos: seq<Repo>, c: Call, k: nat): Option<Error>
    requires Fits(c, |repos|) && k <= |repos|
  {
    if k == 0 then None
    else
      var r := Ring.At(c.start, k - 1, |repos|);
      if DumpError(repos[r], c.faults[r]).Some? then DumpError(repos[r], c.faults[r])
      else LastDumpError(repos, c, k - 1)
  }

  function AddItems(merge: Table, d: seq<(string, Entry)>, k: nat): Table
    requires k <= |d|
  {
    if k == 0 then merge else AddItems(merge, d, k - 1)[d[k - 1].0 := d[k - 1].1]
  }

  lemma ListCovers(items: seq<(string, Entry)>, tab: Table)
    requires Lists(items, tab)
    ensures forall name :: name in tab <==> exists j :: 0 <= j < |items| && items[j].0 == name
    ensures forall j :: 0 <= j < |items| ==> items[j].0 in tab && tab[items[j].0] == items[j].1
  {
    forall j | 0 <= j < |items| ensures items[j].0 in tab && tab[items[j].0] == items[j].1 {
      assert (items[j].0, items[j].1) in items;
    }
    forall name | name in tab ensures exists j :: 0 <= j < |items| && items[j].0 == name {
      assert (name, tab[name]) in items;
    }
  }

  lemma {:induction false} AddSome(merge: Table, d: seq<(string, Entry)>, k: nat, tab: Table) returns (seen: Table)
    requires k <= |d|
    requires forall j :: 0 <= j < |d| ==> d[j].0 in tab && tab[d[j].0] == d[j].1
    ensures AddItems(merge, d, k) == merge + seen
    ensures forall name :: name in seen ==> name in tab && tab[name] == seen[name]
    ensures forall j :: 0 <= j < k ==> d[j].0 in seen
  {
    seen := map[];
    if k > 0 {
      seen := AddSome(merge, d, k - 1, tab);
      seen := seen[d[k - 1].0 := d[k - 1].1];
    }
  }

  lemma AddAllOf(merge: Table, d: seq<(string, Entry)>, tab: Table)
    requires forall name :: name in tab ==> exists j :: 0 <= j < |d| && d[j].0 == name
    requires forall j :: 0 <= j < |d| ==> d[j].0 in tab && tab[d[j].0] == d[j].1
    ensures AddItems(merge, d, |d|) == merge + tab
  {
    var seen := AddSome(merge, d, |d|, tab);
    assert seen == tab;
  }

  /** Adding a listed table item by item overrides the merge with that table. */
  lemma AddListed(merge: Table, d: seq<(string, Entry)>, tab: Table)
    requires Lists(d, tab)
    ensures AddItems(merge, d, |d|) == merge + tab
  {
    ListCovers(d, tab);
    AddAllOf(merge, d, tab);
  }

  /** The inner loop of the merge. */
  method MergeItems(merge: Table, d: seq<(string, Entry)>) returns (merged: Table)
    ensures merged == AddItems(merge, d, |d|)
  {
    merged := merge;
    for i := 0 to |d|
      invariant merged == AddItems(merge, d, i)
    {
      merged := merged[d[i].0 := d[i].1];
    }
  }

  /** The merged items, and an error only if there are none. */
  method ListMerged(merge: Table, errLast: Option<Error>) returns (items: seq<(string, Entry)>, err: Option<Error>)
    ensures Lists(items, merge)
    ensures err == if merge == map[] then errLast else None
  {
    items := ListItems(merge);
    err := if |items| < 1 then errLast else None;
  }

  // ----- the handlers -----

  const OK := 200
  const BAD_REQUEST := 400
  const UNAUTHORIZED := 401
  const NOT_FOUND := 404
  const SERVER_ERROR := 500

  /** A parsed PUT body. */
  datatype PutBody = PutBody(id: string, token: string)

  /** One PUT: the name from the path, the body (None when it does not parse),
      and the environment's choices for the token check and each attempt. */
  datatype PutRequest = PutRequest(name: string, body: Option<PutBody>, read: Read, attempts: seq<Call>)

  predicate FitsRequest(q: PutRequest, n: nat) {
    FitsRead(q.read, n) && forall c :: c in q.attempts ==> Fits(c, n)
  }

  /** At most |attempts| fan-outs, until one is accepted somewhere. */
  function Retry(repos: seq<Repo>, name: string, id: string, attempts: seq<Call>): (seq<Repo>, int)
    requires forall c :: c in attempts ==> Fits(c, |repos|)
    decreases |attempts|
  {
    if attempts == [] then (repos, SERVER_ERROR)
    else
      var after := PutAll(repos, name, id, attempts[0]);
      if PutAllError(repos, name, id, attempts[0]).None? then (after, OK)
      else Retry(after, name, id, attempts[1..])
  }

  function HandlePut(repos: seq<Repo>, writeToken: bool, q: PutRequest): (seq<Repo>, int)
    requires FitsRequest(q, |repos|)
  {
    if !ValidName(q.name) || q.body.None? || BlankId(q.body.value.id) then (repos, BAD_REQUEST)
    else if writeToken && InvalidToken(repos, q.name, q.body.value.token, q.read) then (repos, UNAUTHORIZED)
    else Retry(repos, q.name, TrimSpace(q.body.value.id), q.attempts)
  }

  datatype GetReply = GetReply(status: int, body: Body, ttl: int)

  function HandleGet(repos: seq<Repo>, ttl: int, name: string, read: Read): GetReply
    requires FitsRead(read, |repos|)
  {
    var a := GetAll(repos, name, read);
    if !ValidName(name) then GetReply(BAD_REQUEST, Body(name, ZERO_ENTRY), ttl)
    else
      var shown := a.body.entry.(token := "");
      match a.err
      case None => GetReply(OK, a.body.(entry := shown), ttl)
      case Some(NotFound) => GetReply(NOT_FOUND, Body(name, shown), ttl)
      case Some(_) => GetReply(SERVER_ERROR, Body(name, shown), ttl)
  }

  /** The server's configuration and its repositories. */
  class Application {
    const repoList: seq<RepoMem>
    const writeToken: bool
    const ttl: int

    constructor (repoList: seq<RepoMem>, writeToken: bool, ttl: int)
      requires NoDuplicates(repoList)
      ensures Valid() && this.repoList == repoList && this.writeToken == writeToken && this.ttl == ttl
    {
      this.repoList := repoList;
      this.writeToken := writeToken;
      this.ttl := ttl;
    }

    ghost predicate Valid() { NoDuplicates(repoList) }

    ghost function Values(): (repos: seq<Repo>)
      reads repoList
      ensures |repos| == |repoList|
      ensures forall j :: 0 <= j < |repoList| ==> repos[j] == repoList[j].Value()
    {
      seq(|repoList|, j requires 0 <= j < |repoList| reads repoList => repoList[j].Value())
    }

    /** Call `k` of the write loop, made to repository `r`, and its bookkeeping. */
    method SaveAt(r: nat, name: string, id: string, c: Call, countSuccess: nat, errLast: Option<Error>,
                  ghost k: nat, ghost before: seq<Repo>)
      returns (countSuccess': nat, errLast': Option<Error>)
      requires Valid() && Fits(c, |repoList|) && k < |repoList| == |before| && r == Ring.At(c.start, k, |repoList|)
      requires Values() == PutSome(before, name, id, c, k)
      requires (countSuccess, errLast) == Tally(before, name, id, c, k)
      modifies repoList[r]
      ensures Values() == PutSome(before, name, id, c, k + 1)
      ensures (countSuccess', errLast') == Tally(before, name, id, c, k + 1)
    {
      PutNext(before, name, id, c, k);
      var err := repoList[r].Save(name, id, c.clock[r], c.faults[r]);
      if err.None? {
        return countSuccess + 1, errLast;
      }
      return countSuccess, err;
    }

    /** Call `k` of the token loop, made to repository `r`, and its bookkeeping. */
    method SaveTokenAt(r: nat, name: string, token: string, c: Call, errLast: Option<Error>,
                       ghost k: nat, ghost before: seq<Repo>)
      returns (errLast': Option<Error>)
      requires Valid() && Fits(c, |repoList|) && k < |repoList| == |before| && r == Ring.At(c.start, k, |repoList|)
      requires Values() == TokenSome(before, name, token, c, k)
      requires errLast == LastTokenError(c, |repoList|, k)
      modifies repoList[r]
      ensures Values() == TokenSome(before, name, token, c, k + 1)
      ensures errLast' == LastTokenError(c, |repoList|, k + 1)
    {
      TokenNext(before, name, token, c, k);
      var err := repoList[r].SaveToken(name, token, c.faults[r]);
      return if err.Some? then err else errLast;
    }

    /** repoPutMultiple. */
    method PutMultiple(name: string, id: string, c: Call) returns (err: Option<Error>)
      requires Valid() && Fits(c, |repoList|)
      modifies repoList
      ensures Values() == PutAll(old(Values()), name, id, c)
      ensures err == PutAllError(old(Values()), name, id, c)
    {
      ghost var before := Values();
      if |repoList| < 1 {
        return Some(EmptyRepoList);
      }
      var size := |repoList|;
      var countSuccess: nat, errLast: Option<Error>, r := 0, None, c.start;
      for k := 0 to size
        invariant r == Ring.Before(c.start, k, size)
        invariant Values() == PutSome(before, name, id, c, k)
        invariant (countSuccess, errLast) == Tally(before, name, id, c, k)
      {
        r := Ring.Advance(r, size, c.start, k);
        countSuccess, errLast := SaveAt(r, name, id, c, countSuccess, errLast, k, before);
      }
      if countSuccess < 1 {
        return errLast;
      }
      return None;
    }

    /** repoPutTokenMultiple; picking a random start needs a repository. */
    method PutTokenMultiple(name: string, token: string, c: Call) returns (err: Option<Error>)
      requires Valid() && Fits(c, |repoList|) && |repoList| >= 1
      modifies repoList
      ensures Values() == TokenAll(old(Values()), name, token, c)
      ensures err == TokenAllError(c)
    {
      ghost var before := Values();
      var size := |repoList|;
      var r := c.start;
      err := None;
      for k := 0 to size
        invariant r == Ring.Before(c.start, k, size)
        invariant Values() == TokenSome(before, name, token, c, k)
        invariant err == LastTokenError(c, size, k)
      {
        r := Ring.Advance(r, size, c.start, k);
        err := SaveTokenAt(r, name, token, c, err, k, before);
      }
      TokenOutcome(c, size);
    }

    /** repoGetMultiple: each goroutine's answer, taken in arrival order. */
    method GetMultiple(name: string, read: Read) returns (answer: Answer)
      requires FitsRead(read, |repoList|)
      ensures answer == GetAll(Values(), name, read)
    {
      answer := NO_ANSWER;
      if |repoList| < 1 {
        return answer.(err := Some(EmptyRepoList));
      }
      ghost var arrivals := Arrivals(Values(), name, read);
      var notFound := false;
      for k := 0 to |repoList|
        invariant Collect(arrivals, read.expires, 0, false, NO_ANSWER) ==
                  Collect(arrivals, read.expires, k, notFound, answer)
      {
        if read.expires == Some(k) {
          return Answer(answer.body, None, Some(Timeout));
        }
        var r := read.order[k];
        var body, err := repoList[r].Get(name, read.faults[r]);
        answer := Answer(body, Some(r), err);
        if err.None? {
          return answer;
        }
        if err == Some(NotFound) {
          notFound := true;
        }
      }
      if notFound {
        return answer.(err := Some(NotFound));
      }
    }

    /** One call of the dump loop. */
    method MergeDump(merge: Table, r: nat, fault: bool, ghost repos: seq<Repo>)
      returns (merged: Table, err: Option<Error>)
      requires r < |repoList| && Values() == repos
      ensures Values() == repos
      ensures merged == merge + Dumped(repos[r], fault) && err == DumpError(repos[r], fault)
    {
      var d;
      d, err := repoList[r].Dump(fault);
      AddListed(merge, d, Dumped(repoList[r].Value(), fault));
      merged := MergeItems(merge, d);
    }

    /** Call `k` of the dump loop, made to repository `r`, and its bookkeeping. */
    method DumpAt(r: nat, c: Call, merge: Table, errLast: Option<Error>, ghost k: nat, ghost repos: seq<Repo>)
      returns (merge': Table, errLast': Option<Error>)
      requires Fits(c, |repoList|) && k < |repoList| && r == Ring.At(c.start, k, |repoList|) && Values() == repos
      requires merge == MergeSome(repos, c, k) && errLast == LastDumpError(repos, c, k)
      ensures Values() == repos
      ensures merge' == MergeSome(repos, c, k + 1) && errLast' == LastDumpError(repos, c, k + 1)
    {
      var err;
      merge', err := MergeDump(merge, r, c.faults[r], repos);
      errLast' := if err.Some? then err else errLast;
    }

    /** The loop over the ring. */
    method MergeDumps(c: Call, ghost repos: seq<Repo>) returns (merge: Table, errLast: Option<Error>)
      requires Fits(c, |repoList|) && |repoList| >= 1 && Values() == repos
      ensures Values() == repos
      ensures merge == Merged(repos, c) && errLast == LastDumpError(repos, c, |repos|)
    {
      var size := |repoList|;
      var r := c.start;
      merge, errLast := map[], None;
      for k := 0 to size
        invariant r == Ring.Before(c.start, k, size)
        invariant Values() == repos
        invariant merge == MergeSome(repos, c, k) && errLast == LastDumpError(repos, c, k)
      {
        r := Ring.Advance(r, size, c.start, k);
        merge, errLast := DumpAt(r, c, merge, errLast, k, repos);
      }
    }

    /** repoDumpMultiple; picking a random start needs a repository. */
    method DumpMultiple(c: Call) returns (items: seq<(string, Entry)>, err: Option<Error>)
      requires Fits(c, |repoList|) && |repoList| >= 1
      ensures Lists(items, Merged(Values(), c))
      ensures err == if Merged(Values(), c) == map[] then LastDumpError(Values(), c, |repoList|) else None
    {
      ghost var repos := Values();
      var merge, errLast := MergeDumps(c, repos);
      items, err := ListMerged(merge, errLast);
      assert Values() == repos;
    }

    /** invalidToken. */
    method CheckToken(name: string, token: string, read: Read) returns (invalid: bool)
      requires FitsRead(read, |repoList|)
      ensures invalid == InvalidToken(Values(), name, token, read)
    {
      if token == "" {
        return true;
      }
      var result := GetMultiple(name, read);
      if result.err.Some? {
        return true;
      }
      return result.body.entry.token != token;
    }

    /** gatewayPut. */
    method ServePut(q: PutRequest) returns (status: int)
      requires Valid() && FitsRequest(q, |repoList|)
      modifies repoList
      ensures (Values(), status) == HandlePut(old(Values()), writeToken, q)
    {
      if !ValidName(q.name) {
        return BAD_REQUEST;
      }
      if q.body.None? {
        return BAD_REQUEST;
      }
      var id := TrimSpace(q.body.value.id);
      if id == "" {
        return BAD_REQUEST;
      }
      if writeToken {
        var invalid := CheckToken(q.name, q.body.value.token, q.read);
        if invalid {
          return UNAUTHORIZED;
        }
      }
      ghost var before := Values();
      for attempt := 0 to |q.attempts|
        invariant Retry(before, q.name, id, q.attempts) == Retry(Values(), q.name, id, q.attempts[attempt..])
      {
        var c := q.attempts[attempt];
        assert c in q.attempts && q.attempts[attempt..][1..] == q.attempts[attempt + 1..];
        var err := PutMultiple(q.name, id, c);
        if err.None? {
          return OK;
        }
      }
      return SERVER_ERROR;
    }

    /** gatewayGet, direct query. */
    method ServeGet(name: string, read: Read) returns (reply: GetReply)
      requires FitsRead(read, |repoList|)
      ensures reply == HandleGet(Values(), ttl, name, read)
    {
      if !ValidName(name) {
        return GetReply(BAD_REQUEST, Body(name, ZERO_ENTRY), ttl);
      }
      var a := GetMultiple(name, read);
      var out := a.body.(entry := a.body.entry.(token := ""));
      if a.err.None? {
        return GetReply(OK, out, ttl);
      }
      out := out.(name := name);
      return GetReply(if a.err == Some(NotFound) then NOT_FOUND else SERVER_ERROR, out, ttl);
    }
  }
}

/** What the PUT and GET handlers promise their callers. */
module HandlerLaws {
  import opened GoLib
  import opened Repository
  import opened Service
  import opened StoreLaws

  lemma StatusCodes()
    ensures OK == 200 && BAD_REQUEST == 400 && UNAUTHORIZED == 401 && NOT_FOUND == 404 && SERVER_ERROR == 500
  {
  }

  predicate BadRequest(q: PutRequest) {
    !ValidName(q.name) || q.body.None? || BlankId(q.body.value.id)
  }

  /** Which PUTs are bad requests, in terms of the characters sent. */
  lemma BadRequestsAre(q: PutRequest)
    ensures BadRequest(q) <==>
            || AllSpace(q.name) || (exists c :: c in q.name && c in {' ', '$', '{', '}'})
            || q.body.None? || AllSpace(q.body.value.id)
  {
    RefusedNames(q.name);
    if q.body.Some? {
      BlankIds(q.body.value.id);
    }
  }

  predicate Unauthorized(repos: seq<Repo>, writeToken: bool, q: PutRequest)
    requires FitsRequest(q, |repos|)
  {
    !BadRequest(q) && writeToken && InvalidToken(repos, q.name, q.body.value.token, q.read)
  }

  ghost predicate TakenSomewhere(repos: seq<Repo>, q: PutRequest)
    requires FitsRequest(q, |repos|) && q.body.Some?
  {
    exists i :: 0 <= i < |q.attempts| && SomeAccept(repos, q.name, TrimSpace(q.body.value.id), q.attempts[i])
  }

  /** The status of a PUT says what happened to the store: 200 that some
      repository took the trimmed id, once per repository at most; anything else
      that nothing changed.  Each status has its exact condition. */
  lemma PutStatus(repos: seq<Repo>, writeToken: bool, q: PutRequest)
    requires FitsRequest(q, |repos|)
    ensures var (after, status) := HandlePut(repos, writeToken, q);
            && |after| == |repos|
            && (status == BAD_REQUEST <==> BadRequest(q))
            && (status == UNAUTHORIZED <==> Unauthorized(repos, writeToken, q))
            && (status == OK <==> !BadRequest(q) && !Unauthorized(repos, writeToken, q) && TakenSomewhere(repos, q))
            && status in {OK, BAD_REQUEST, UNAUTHORIZED, SERVER_ERROR}
            && (status != OK ==> after == repos)
            && (status == OK ==>
                  var id := TrimSpace(q.body.value.id);
                  && (exists j :: 0 <= j < |repos| && TookOnce(repos[j], after[j], q.name, id))
                  && forall j :: 0 <= j < |repos| ==> after[j] == repos[j] || TookOnce(repos[j], after[j], q.name, id))
  {
    if !BadRequest(q) {
      RetryCountsOnce(repos, q.name, TrimSpace(q.body.value.id), q.attempts);
    }
  }

  /** Space around the id makes no difference: the PUT has the status and leaves
      the store of the bare id, and is no bad request if the name is good. */
  lemma PaddedPut(repos: seq<Repo>, writeToken: bool, q: PutRequest, pre: string, core: string, post: string)
    requires FitsRequest(q, |repos|) && q.body.Some? && q.body.value.id == core
    requires AllSpace(pre) && AllSpace(post) && core != "" && Trimmed(core)
    ensures var padded := q.(body := Some(q.body.value.(id := pre + core + post)));
            && HandlePut(repos, writeToken, padded) == HandlePut(repos, writeToken, q)
            && (ValidName(q.name) ==> HandlePut(repos, writeToken, q).1 != BAD_REQUEST)
  {
    TrimPadded(pre, core, post);
    assert TrimSpace(core) == core;
    PutStatus(repos, writeToken, q);
  }

  /** What an authorized PUT of a bare id leaves: the store of its first fan-out
      that some repository accepts, with that id. */
  lemma PutLeaves(repos: seq<Repo>, writeToken: bool, q: PutRequest, a: nat)
    requires FitsRequest(q, |repos|) && !BadRequest(q) && !Unauthorized(repos, writeToken, q)
    requires Trimmed(q.body.value.id) && a < |q.attempts|
    requires forall b :: 0 <= b < a ==> !SomeAccept(repos, q.name, q.body.value.id, q.attempts[b])
    requires SomeAccept(repos, q.name, q.body.value.id, q.attempts[a])
    ensures HandlePut(repos, writeToken, q) == (PutAll(repos, q.name, q.body.value.id, q.attempts[a]), OK)
  {
    RetryStops(repos, q.name, q.body.value.id, q.attempts, a);
  }

  lemma {:induction false} BlankWhileFailing(
    answers: seq<Answer>, expires: Option<nat>, k: nat, notFound: bool, last: Answer)
    requires k <= |answers| && last.body.entry == ZERO_ENTRY
    requires forall a :: a in answers && a.err.Some? ==> a.body.entry == ZERO_ENTRY
    ensures Collect(answers, expires, k, notFound, last).err.Some? ==>
              Collect(answers, expires, k, notFound, last).body.entry == ZERO_ENTRY
    decreases |answers| - k
  {
    if k < |answers| && expires != Some(k) && answers[k].err.Some? {
      assert answers[k] in answers;
      BlankWhileFailing(answers, expires, k + 1, notFound || answers[k].err == Some(NotFound), answers[k]);
    }
  }

  lemma ErrorsAreBlank(repos: seq<Repo>, name: string, read: Read)
    requires FitsRead(read, |repos|) && GetAll(repos, name, read).err.Some?
    ensures GetAll(repos, name, read).body.entry == ZERO_ENTRY
  {
    if repos != [] {
      BlankWhileFailing(Arrivals(repos, name, read), read.expires, 0, false, NO_ANSWER);
    }
  }

  /** A GET never shows the token and carries the configured TTL.  Each status
      has its exact condition, timeouts and the empty repository list included:
      200 iff some receive brings a success, and it shows one of those; 404 iff
      everything was received, without a success but with a not-found; 500 in all
      other cases with a valid name. */
  lemma GetStatus(repos: seq<Repo>, ttl: int, name: string, read: Read)
    requires FitsRead(read, |repos|)
    ensures var reply := HandleGet(repos, ttl, name, read);
            && reply.ttl == ttl && reply.body.name == name && reply.body.entry.token == ""
            && reply.status in {OK, BAD_REQUEST, NOT_FOUND, SERVER_ERROR}
            && (reply.status == BAD_REQUEST <==> !ValidName(name))
            && (reply.status == OK <==> ValidName(name) && exists k :: Received(repos, name, read, k, None))
            && (reply.status == OK ==>
                  exists k :: Received(repos, name, read, k, None)
                    && reply.body.entry == Arrivals(repos, name, read)[k].body.entry.(token := ""))
            && (reply.status == NOT_FOUND <==>
                  && ValidName(name) && Receives(|repos|, read.expires) == |repos|
                  && (exists k :: Received(repos, name, read, k, Some(NotFound)))
                  && !exists k :: Received(repos, name, read, k, None))
            && (reply.status != OK ==> reply.body.entry == ZERO_ENTRY)
  {
    GetExactly(repos, name, read);
    if GetAll(repos, name, read).err.Some? {
      ErrorsAreBlank(repos, name, read);
    }
  }
}

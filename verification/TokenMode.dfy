/** Write tokens over whole runs: with tokens preloaded and required, only the
    holder of a name's token can ever change its id, through either door. */
module TokenMode {
  import opened GoLib
  import opened Repository
  import opened Service
  import opened StoreLaws
  import L = Listener

  /** An HTTP PUT or a queue message. */
  datatype Event = Http(q: PutRequest) | Message(cfg: L.Config, d: L.Delivery)

  predicate Possible(e: Event, n: nat) {
    match e
    case Http(q) => FitsRequest(q, n)
    case Message(cfg, d) => cfg.writeToken && L.FitsDelivery(d, n)
  }

  /** The store after the event, in token mode. */
  function Next(repos: seq<Repo>, e: Event): (after: seq<Repo>)
    requires Possible(e, |repos|)
  {
    match e
    case Http(q) => HandlePut(repos, true, q).0
    case Message(cfg, d) => L.Written(cfg, repos, d)
  }

  /** The event asks to set `name` to `id` and shows `token`. */
  predicate Asks(e: Event, name: string, id: string, token: string) {
    match e
    case Http(q) => q.body.Some? && q.name == name && TrimSpace(q.body.value.id) == id && q.body.value.token == token
    case Message(_, d) =>
      d.content.Update? && d.content.name == name && TrimSpace(d.content.id) == id && d.content.token == token
  }

  /** Every repository, broken or not, stores exactly the preloaded tokens. */
  ghost predicate TokensAre(repos: seq<Repo>, tokens: map<string, string>) {
    forall j: nat, name :: j < |repos| ==>
      Lookup(repos[j].tab, name).token == if name in tokens then tokens[name] else ""
  }

  ghost predicate Authorized(tokens: map<string, string>, e: Event, name: string, id: string) {
    name in tokens && tokens[name] != "" && Asks(e, name, id, tokens[name])
  }

  lemma CheckedTokenIsStored(repos: seq<Repo>, tokens: map<string, string>, name: string, token: string, read: Read)
    requires FitsRead(read, |repos|) && TokensAre(repos, tokens) && !InvalidToken(repos, name, token, read)
    ensures name in tokens && tokens[name] == token != ""
  {
    if repos != [] {
      GetOutcome(repos, name, read);
      var r: nat :| Answers(repos, name, read.faults, r, None)
                    && GetAll(repos, name, read) == AnswerOf(repos, name, read.faults, r);
      assert Lookup(repos[r].tab, name).token == token;
    }
  }

  /** While the stored tokens are the preloaded ones, which they always are, a
      request passes the check exactly when it shows the name's own non-empty
      token and some receive brings a working repository's answer. */
  lemma HolderPasses(repos: seq<Repo>, tokens: map<string, string>, name: string, token: string, read: Read)
    requires FitsRead(read, |repos|) && TokensAre(repos, tokens) && ValidName(name)
    ensures !InvalidToken(repos, name, token, read)
            <==> && name in tokens && token == tokens[name] && token != "" && exists k :: ReadAt(repos, read, k)
  {
    if !InvalidToken(repos, name, token, read) {
      CheckedTokenIsStored(repos, tokens, name, token, read);
    }
    if name in tokens && tokens[name] != "" {
      forall j | Healthy(repos, j) ensures name in repos[j].tab && repos[j].tab[name].token == tokens[name] {
        assert Lookup(repos[j].tab, name).token == tokens[name];
      }
      HeldIsFound(repos, name, read);
    }
  }

  /** A repository is untouched or has taken one put. */
  ghost predicate AtMostOnePut(before: seq<Repo>, after: seq<Repo>, name: string, id: string) {
    && |after| == |before|
    && forall j :: 0 <= j < |before| ==> after[j] == before[j] || TookOnce(before[j], after[j], name, id)
  }

  /** One event: nothing changes, or an authorized put of its name was taken. */
  lemma Guarded(repos: seq<Repo>, tokens: map<string, string>, e: Event)
    requires TokensAre(repos, tokens) && Possible(e, |repos|)
    ensures |Next(repos, e)| == |repos|
    ensures Next(repos, e) == repos
            || exists name, id :: Authorized(tokens, e, name, id) && AtMostOnePut(repos, Next(repos, e), name, id)
  {
    if Next(repos, e) != repos {
      match e {
        case Http(q) =>
          var id := TrimSpace(q.body.value.id);
          CheckedTokenIsStored(repos, tokens, q.name, q.body.value.token, q.read);
          RetryCountsOnce(repos, q.name, id, q.attempts);
          assert Authorized(tokens, e, q.name, id) && AtMostOnePut(repos, Next(repos, e), q.name, id);
        case Message(cfg, d) =>
          var id := TrimSpace(d.content.id);
          CheckedTokenIsStored(repos, tokens, d.content.name, d.content.token, d.read);
          AcceptedIsTaken(repos, d.content.name, id, d.call);
          assert Authorized(tokens, e, d.content.name, id) && AtMostOnePut(repos, Next(repos, e), d.content.name, id);
      }
    } else {
      match e {
        case Http(q) => if q.body.Some? { RetryCountsOnce(repos, q.name, TrimSpace(q.body.value.id), q.attempts); }
        case Message(_, _) =>
      }
    }
  }

  predicate Legal(repos: seq<Repo>, es: seq<Event>)
    decreases |es|
  {
    es == [] || (Possible(es[0], |repos|) && Legal(Next(repos, es[0]), es[1..]))
  }

  function Run(repos: seq<Repo>, es: seq<Event>): seq<Repo>
    requires Legal(repos, es)
    decreases |es|
  {
    if es == [] then repos else Run(Next(repos, es[0]), es[1..])
  }

  /** Every request, and every message in token mode, is a run. */
  lemma AnyEventIsARun(repos: seq<Repo>, e: Event)
    requires e.Http? ==> FitsRequest(e.q, |repos|)
    requires e.Message? ==> e.cfg.writeToken && L.FitsDelivery(e.d, |repos|)
    ensures Legal(repos, [e])
    ensures e.Http? ==> Run(repos, [e]) == HandlePut(repos, true, e.q).0
    ensures e.Message? ==> Run(repos, [e]) == L.Written(e.cfg, repos, e.d)
  {
    assert [e][1..] == [];
    assert Legal(Next(repos, e), []);
  }

  /** `id` is what the store had for `name`, or an authorized event of the run brought it. */
  ghost predicate Explained(tokens: map<string, string>, es: seq<Event>, name: string, was: string, id: string) {
    id == was || exists e :: e in es && Authorized(tokens, e, name, id)
  }

  lemma OnePut(before: Repo, after: Repo, name: string, id: string, other: string)
    requires after == before || TookOnce(before, after, name, id)
    ensures Lookup(after.tab, other).token == Lookup(before.tab, other).token
    ensures Lookup(after.tab, other).id == Lookup(before.tab, other).id
            || (other == name && Lookup(after.tab, other).id == id)
  {
  }

  lemma AuthorizedPut(
    repos: seq<Repo>, after: seq<Repo>, tokens: map<string, string>, e: Event, name: string, id: string)
    requires TokensAre(repos, tokens) && Authorized(tokens, e, name, id) && AtMostOnePut(repos, after, name, id)
    ensures TokensAre(after, tokens)
    ensures forall j: nat, other :: j < |repos| ==>
              Explained(tokens, [e], other, Lookup(repos[j].tab, other).id, Lookup(after[j].tab, other).id)
  {
    forall j: nat, other | j < |repos|
      ensures Lookup(after[j].tab, other).token == Lookup(repos[j].tab, other).token
      ensures Explained(tokens, [e], other, Lookup(repos[j].tab, other).id, Lookup(after[j].tab, other).id)
    {
      OnePut(repos[j], after[j], name, id, other);
      assert e in [e];
    }
  }

  lemma OneStep(repos: seq<Repo>, tokens: map<string, string>, e: Event)
    requires TokensAre(repos, tokens) && Possible(e, |repos|)
    ensures |Next(repos, e)| == |repos| && TokensAre(Next(repos, e), tokens)
    ensures forall j: nat, name :: j < |repos| ==>
              Explained(tokens, [e], name, Lookup(repos[j].tab, name).id, Lookup(Next(repos, e)[j].tab, name).id)
  {
    Guarded(repos, tokens, e);
    if Next(repos, e) != repos {
      var name, id :| Authorized(tokens, e, name, id) && AtMostOnePut(repos, Next(repos, e), name, id);
      AuthorizedPut(repos, Next(repos, e), tokens, e, name, id);
    }
  }

  /** Over every run of requests and messages, with any faults, timeouts and
      arrival orders: no stored token ever changes, and every id was there before
      or came from a request carrying the preloaded token of that very name. */
  lemma {:induction false} OnlyTheHolderWrites(repos: seq<Repo>, tokens: map<string, string>, es: seq<Event>)
    requires TokensAre(repos, tokens) && Legal(repos, es)
    ensures |Run(repos, es)| == |repos| && TokensAre(Run(repos, es), tokens)
    ensures forall j: nat, name :: j < |repos| ==>
              Explained(tokens, es, name, Lookup(repos[j].tab, name).id, Lookup(Run(repos, es)[j].tab, name).id)
    decreases |es|
  {
    if es != [] {
      var e, mid := es[0], Next(repos, es[0]);
      OneStep(repos, tokens, e);
      OnlyTheHolderWrites(mid, tokens, es[1..]);
      var final := Run(repos, es);
      forall j: nat, name | j < |repos|
        ensures Explained(tokens, es, name, Lookup(repos[j].tab, name).id, Lookup(final[j].tab, name).id)
      {
        var id0, id1, id2 := Lookup(repos[j].tab, name).id, Lookup(mid[j].tab, name).id, Lookup(final[j].tab, name).id;
        assert Explained(tokens, [e], name, id0, id1) && Explained(tokens, es[1..], name, id1, id2);
        assert e in es && forall x :: x in es[1..] ==> x in es;
      }
    }
  }

  /** In particular a name without a preloaded token never gets an id. */
  lemma NoTokenNoId(repos: seq<Repo>, tokens: map<string, string>, es: seq<Event>, name: string, j: nat)
    requires TokensAre(repos, tokens) && Legal(repos, es) && j < |repos|
    requires name !in tokens || tokens[name] == ""
    ensures |Run(repos, es)| == |repos|
    ensures Lookup(Run(repos, es)[j].tab, name).id == Lookup(repos[j].tab, name).id
  {
    OnlyTheHolderWrites(repos, tokens, es);
    assert Explained(tokens, es, name, Lookup(repos[j].tab, name).id, Lookup(Run(repos, es)[j].tab, name).id);
  }

  // ----- preloading -----

  /** One line of the token file, and the ring it is written with. */
  datatype Line = Line(name: string, token: string, call: Call)

  /** How preloading ends: done, stopped by a failed write, or panicking on the
      random start among no repositories. */
  datatype Loading = Loaded | Fatal | Panics

  function Preload(repos: seq<Repo>, lines: seq<Line>): (res: (seq<Repo>, Loading))
    requires forall l :: l in lines ==> Fits(l.call, |repos|)
    ensures |res.0| == |repos|
  {
    if lines == [] then (repos, Loaded)
    else
      var l := lines[|lines| - 1];
      var (front, loading) := Preload(repos, lines[..|lines| - 1]);
      if loading != Loaded then (front, loading)
      else if front == [] then (front, Panics)
      else (TokenAll(front, l.name, l.token, l.call), if TokenAllError(l.call).None? then Loaded else Fatal)
  }

  lemma {:induction false} StopsForGood(repos: seq<Repo>, lines: seq<Line>, k: nat)
    requires k <= |lines| && forall l :: l in lines ==> Fits(l.call, |repos|)
    requires Preload(repos, lines[..k]).1 != Loaded
    ensures Preload(repos, lines) == Preload(repos, lines[..k])
  {
    if k < |lines| {
      assert lines[..|lines| - 1][..k] == lines[..k];
      StopsForGood(repos, lines[..|lines| - 1], k);
    } else {
      assert lines[..k] == lines;
    }
  }

  /** The preloading loop of main. */
  method PreloadTokens(app: Application, lines: seq<Line>) returns (loading: Loading)
    requires app.Valid() && forall l :: l in lines ==> Fits(l.call, |app.repoList|)
    modifies app.repoList
    ensures (app.Values(), loading) == Preload(old(app.Values()), lines)
  {
    ghost var before := app.Values();
    for i := 0 to |lines|
      invariant Preload(before, lines[..i]) == (app.Values(), Loaded)
    {
      var l := lines[i];
      assert l in lines && lines[..i + 1][..i] == lines[..i];
      if |app.repoList| == 0 {
        assert Preload(before, lines[..i + 1]).1 == Panics;
        StopsForGood(before, lines, i + 1);
        return Panics;
      }
      var err := app.PutTokenMultiple(l.name, l.token, l.call);
      if err.Some? {
        StopsForGood(before, lines, i + 1);
        return Fatal;
      }
    }
    assert lines[..|lines|] == lines;
    return Loaded;
  }

  function TokenMap(lines: seq<Line>): map<string, string> {
    if lines == [] then map[]
    else TokenMap(lines[..|lines| - 1])[lines[|lines| - 1].name := lines[|lines| - 1].token]
  }

  /** The name's entry with its preloaded token, if it has one. */
  function WithToken(e: Entry, tokens: map<string, string>, name: string): Entry {
    if name in tokens then e.(token := tokens[name]) else e
  }

  /** Preloading changes tokens and nothing else. */
  lemma {:induction false} PreloadKeepsIds(repos: seq<Repo>, lines: seq<Line>, j: nat, name: string)
    requires (forall l :: l in lines ==> Fits(l.call, |repos|)) && j < |repos|
    requires Preload(repos, lines).1 == Loaded
    ensures var after := Preload(repos, lines).0;
            && after[j].broken == repos[j].broken
            && Lookup(after[j].tab, name) == WithToken(Lookup(repos[j].tab, name), TokenMap(lines), name)
            && (name in after[j].tab <==> name in repos[j].tab || name in TokenMap(lines))
  {
    if lines != [] {
      var front, l := lines[..|lines| - 1], lines[|lines| - 1];
      PreloadKeepsIds(repos, front, j, name);
      assert l.call.faults[j] in l.call.faults;
    }
  }

  /** Preloading panics exactly when there are tokens but no repositories, stops
      exactly when some write fails, and otherwise makes every repository, broken
      or not, hold the tokens. */
  lemma {:induction false} PreloadEstablishes(repos: seq<Repo>, lines: seq<Line>)
    requires TokensAre(repos, map[]) && forall l :: l in lines ==> Fits(l.call, |repos|)
    ensures var (after, loading) := Preload(repos, lines);
            && (loading == Panics <==> repos == [] && lines != [])
            && (loading == Fatal <==> repos != [] && exists l :: l in lines && true in l.call.faults)
            && (loading == Loaded ==> TokensAre(after, TokenMap(lines)))
  {
    if lines != [] {
      var front, l := lines[..|lines| - 1], lines[|lines| - 1];
      PreloadEstablishes(repos, front);
      assert lines == front + [l];
      assert TokenAllError(l.call).None? ==> forall j :: 0 <= j < |repos| ==> l.call.faults[j] in l.call.faults;
    }
  }
}

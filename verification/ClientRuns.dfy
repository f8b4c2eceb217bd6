/** Clients of one process at work: lookups and refreshes as threads that
    interleave at their lock-protected steps, and the global refresh flag. */
module ClientRuns {
  import opened GoLib
  import opened Client

  /** Where a thread stands.  A lookup that finds an entry measures its age, then
      reads the TTL; a query is answered, updates the TTL, stamps, stores, ends. */
  datatype Phase =
    | Looked(entry: CacheEntry)
    | Measured(entry: CacheEntry, elapsed: int, at: int)
    | Querying
    | Answered(reply: ServerReply)
    | Stamping(id: string)
    | Stamped(entry: CacheEntry)
    | Ending

  /** `job` marks the goroutine of a Refresh call; `began` counts the stores made
      before the thread began. */
  datatype Thread = Thread(client: nat, name: string, job: bool, began: nat, phase: Phase)

  /** A non-empty server reply, and a list served from the cache. */
  datatype Reply = Reply(client: nat, name: string, id: string, at: int)

  datatype Serving = Serving(client: nat, name: string, entry: CacheEntry, began: nat, at: int)

  /** One write to a client's cache. */
  datatype Store = Store(client: nat, name: string, entry: CacheEntry)

  datatype World = World(
    now: int,
    refreshing: bool,
    clients: seq<Memory>,
    threads: map<nat, Thread>,
    replies: set<Reply>,
    served: set<Serving>,
    stored: seq<Store>)

  datatype Step =
    | Ask(t: nat, client: nat, name: string)
    | CallRefresh(t: nat, client: nat, name: string)
    | Advance(t: nat)
    | Respond(t: nat, reply: ServerReply)
    | Tick(d: nat)

  predicate Enabled(w: World, s: Step) {
    match s
    case Ask(t, c, _) => t !in w.threads && c < |w.clients|
    case CallRefresh(t, c, _) => t !in w.threads && c < |w.clients|
    case Advance(t) => t in w.threads && !w.threads[t].phase.Querying? && w.threads[t].client < |w.clients|
    case Respond(t, _) => t in w.threads && w.threads[t].phase.Querying?
    case Tick(_) => true
  }

  function SetPhase(w: World, t: nat, phase: Phase): World
    requires t in w.threads
  {
    w.(threads := w.threads[t := w.threads[t].(phase := phase)])
  }

  /** A thread's next step on its own. */
  function Advanced(w: World, t: nat): World
    requires Enabled(w, Advance(t))
  {
    var th := w.threads[t];
    var m := w.clients[th.client];
    match th.phase
    case Looked(entry) => SetPhase(w, t, Measured(entry, w.now - entry.creation, w.now))
    case Measured(entry, elapsed, at) =>
      if elapsed < m.ttl then
        w.(threads := w.threads - {t}, served := w.served + {Serving(th.client, th.name, entry, th.began, at)})
      else SetPhase(w, t, Querying)
    case Answered(reply) =>
      SetPhase(w, t, if reply.id == "" then Ending else Stamping(reply.id))
      .(clients := w.clients[th.client := WithTTL(m, reply.ttl)])
    case Stamping(id) => SetPhase(w, t, Stamped(CacheEntry(id, w.now)))
    case Stamped(entry) =>
      SetPhase(w, t, Ending)
      .(clients := w.clients[th.client := WithEntry(m, th.name, entry.id, entry.creation)],
        stored := w.stored + [Store(th.client, th.name, entry)])
    case Ending => w.(threads := w.threads - {t}, refreshing := w.refreshing && !th.job)
    case Querying => w
  }

  function Next(w: World, s: Step): World
    requires Enabled(w, s)
  {
    match s
    case Ask(t, c, name) =>
      var phase := if name in w.clients[c].cache then Looked(w.clients[c].cache[name]) else Querying;
      w.(threads := w.threads[t := Thread(c, name, false, |w.stored|, phase)])
    case CallRefresh(t, c, name) =>
      if w.refreshing then w
      else w.(refreshing := true, threads := w.threads[t := Thread(c, name, true, |w.stored|, Querying)])
    case Advance(t) => Advanced(w, t)
    case Respond(t, reply) =>
      var th := w.threads[t];
      SetPhase(w, t, Answered(reply))
      .(replies := w.replies + if reply.id == "" then {} else {Reply(th.client, th.name, reply.id, w.now)})
    case Tick(d) => w.(now := w.now + d)
  }

  // ----- invariants -----

  /** The list came from the server for this very name, before it was stamped. */
  ghost predicate Sourced(w: World, client: nat, name: string, entry: CacheEntry) {
    && entry.id != "" && entry.creation <= w.now
    && exists r :: r in w.replies && r == Reply(client, name, entry.id, r.at) && r.at <= entry.creation
  }

  ghost predicate ReplySeen(w: World, client: nat, name: string, id: string) {
    id != "" && exists r :: r in w.replies && r == Reply(client, name, id, r.at) && r.at <= w.now
  }

  ghost predicate ThreadOk(w: World, th: Thread) {
    && th.client < |w.clients|
    && match th.phase
       case Looked(entry) => !th.job && Sourced(w, th.client, th.name, entry)
       case Measured(entry, elapsed, at) =>
         && !th.job && Sourced(w, th.client, th.name, entry)
         && elapsed == at - entry.creation && entry.creation <= at <= w.now
       case Querying => true
       case Answered(reply) => reply.id != "" ==> ReplySeen(w, th.client, th.name, reply.id)
       case Stamping(id) => ReplySeen(w, th.client, th.name, id)
       case Stamped(entry) => Sourced(w, th.client, th.name, entry)
       case Ending => true
  }

  ghost predicate ClientOk(w: World, c: nat)
    requires c < |w.clients|
  {
    var m := w.clients[c];
    && m.ttl <= Cap(m.options) && (Consistent(m.options) ==> InRange(m.options, m.ttl))
    && forall name :: name in m.cache ==> Sourced(w, c, name, m.cache[name])
  }

  ghost predicate ServiceOk(w: World, s: Serving) {
    && s.client < |w.clients| && Sourced(w, s.client, s.name, s.entry)
    && 0 <= s.at - s.entry.creation < Cap(w.clients[s.client].options)
  }

  function Jobs(w: World): set<nat> { set t | t in w.threads && w.threads[t].job }

  ghost predicate Inv(w: World) {
    && (forall c: nat :: c < |w.clients| ==> ClientOk(w, c))
    && (forall t :: t in w.threads ==> ThreadOk(w, w.threads[t]))
    && (forall s :: s in w.served ==> ServiceOk(w, s))
    && |Jobs(w)| == (if w.refreshing then 1 else 0)
  }

  /** `w'` knows at least as much as `w`, with the same clients' options. */
  ghost predicate Grows(w: World, w': World) {
    && w.now <= w'.now && w.replies <= w'.replies && |w'.clients| == |w.clients|
    && forall c: nat :: c < |w.clients| ==> w'.clients[c].options == w.clients[c].options
  }

  lemma SourcedStays(w: World, w': World, client: nat, name: string, entry: CacheEntry)
    requires Grows(w, w') && Sourced(w, client, name, entry)
    ensures Sourced(w', client, name, entry)
  {
    var r :| r in w.replies && r == Reply(client, name, entry.id, r.at) && r.at <= entry.creation;
    assert r in w'.replies;
  }

  lemma ReplyStays(w: World, w': World, client: nat, name: string, id: string)
    requires Grows(w, w') && ReplySeen(w, client, name, id)
    ensures ReplySeen(w', client, name, id)
  {
    var r :| r in w.replies && r == Reply(client, name, id, r.at) && r.at <= w.now;
    assert r in w'.replies;
  }

  lemma ThreadStays(w: World, w': World, th: Thread)
    requires Grows(w, w') && ThreadOk(w, th)
    ensures ThreadOk(w', th)
  {
    match th.phase
    case Looked(entry) => SourcedStays(w, w', th.client, th.name, entry);
    case Measured(entry, _, _) => SourcedStays(w, w', th.client, th.name, entry);
    case Stamped(entry) => SourcedStays(w, w', th.client, th.name, entry);
    case Answered(reply) => if reply.id != "" { ReplyStays(w, w', th.client, th.name, reply.id); }
    case Stamping(id) => ReplyStays(w, w', th.client, th.name, id);
    case _ =>
  }

  /** What a step must establish beyond what simply stays. */
  ghost predicate Touches(w: World, w': World) {
    && Grows(w, w')
    && (forall c: nat :: c < |w.clients| && w'.clients[c] != w.clients[c] ==> ClientOk(w', c))
    && (forall t :: t in w'.threads && (t in w.threads ==> w'.threads[t] != w.threads[t]) ==>
          ThreadOk(w', w'.threads[t]))
    && (forall s :: s in w'.served && s !in w.served ==> ServiceOk(w', s))
    && |Jobs(w')| == (if w'.refreshing then 1 else 0)
  }

  lemma TouchKeepsInv(w: World, w': World)
    requires Inv(w) && Touches(w, w')
    ensures Inv(w')
  {
    forall c: nat | c < |w'.clients| ensures ClientOk(w', c) {
      assert ClientOk(w, c);
      if w'.clients[c] == w.clients[c] {
        forall name | name in w'.clients[c].cache ensures Sourced(w', c, name, w'.clients[c].cache[name]) {
          SourcedStays(w, w', c, name, w.clients[c].cache[name]);
        }
      }
    }
    forall t | t in w'.threads ensures ThreadOk(w', w'.threads[t]) {
      if t in w.threads && w'.threads[t] == w.threads[t] {
        ThreadStays(w, w', w.threads[t]);
      }
    }
    forall s | s in w'.served ensures ServiceOk(w', s) {
      if s in w.served {
        SourcedStays(w, w', s.client, s.name, s.entry);
      }
    }
  }

  lemma SameJobs(w: World, w': World)
    requires forall t :: t in w.threads && w.threads[t].job <==> t in w'.threads && w'.threads[t].job
    ensures Jobs(w') == Jobs(w)
  {
  }

  lemma ServeTouches(w: World, t: nat)
    requires Inv(w) && Enabled(w, Advance(t)) && w.threads[t].phase.Measured?
    ensures Touches(w, Advanced(w, t))
  {
    var w', th := Advanced(w, t), w.threads[t];
    assert ThreadOk(w, th) && ClientOk(w, th.client);
    SameJobs(w, w');
    SourcedStays(w, w', th.client, th.name, th.phase.entry);
  }

  lemma TTLTouches(w: World, t: nat)
    requires Inv(w) && Enabled(w, Advance(t)) && w.threads[t].phase.Answered?
    ensures Touches(w, Advanced(w, t))
  {
    var w', th := Advanced(w, t), w.threads[t];
    var c := th.client;
    assert ThreadOk(w, th) && ClientOk(w, c);
    SameJobs(w, w');
    forall name | name in w'.clients[c].cache ensures Sourced(w', c, name, w'.clients[c].cache[name]) {
      SourcedStays(w, w', c, name, w.clients[c].cache[name]);
    }
    if th.phase.reply.id != "" {
      ReplyStays(w, w', c, th.name, th.phase.reply.id);
    }
  }

  lemma StampTouches(w: World, t: nat)
    requires Inv(w) && Enabled(w, Advance(t)) && w.threads[t].phase.Stamping?
    ensures Touches(w, Advanced(w, t))
  {
    var w', th := Advanced(w, t), w.threads[t];
    assert ThreadOk(w, th);
    SameJobs(w, w');
    assert Sourced(w', th.client, th.name, CacheEntry(th.phase.id, w.now));
  }

  lemma StoreTouches(w: World, t: nat)
    requires Inv(w) && Enabled(w, Advance(t)) && w.threads[t].phase.Stamped?
    ensures Touches(w, Advanced(w, t))
  {
    var w', th := Advanced(w, t), w.threads[t];
    var c := th.client;
    assert ThreadOk(w, th) && ClientOk(w, c);
    SameJobs(w, w');
    SourcedStays(w, w', c, th.name, th.phase.entry);
    forall name | name in w'.clients[c].cache ensures Sourced(w', c, name, w'.clients[c].cache[name]) {
      if name != th.name {
        SourcedStays(w, w', c, name, w.clients[c].cache[name]);
      }
    }
  }

  lemma EndTouches(w: World, t: nat)
    requires Inv(w) && Enabled(w, Advance(t)) && w.threads[t].phase.Ending?
    ensures Touches(w, Advanced(w, t))
  {
    var w' := Advanced(w, t);
    if w.threads[t].job {
      assert Jobs(w') == Jobs(w) - {t} && t in Jobs(w);
    } else {
      SameJobs(w, w');
    }
  }

  lemma LookTouches(w: World, t: nat)
    requires Inv(w) && Enabled(w, Advance(t)) && w.threads[t].phase.Looked?
    ensures Touches(w, Advanced(w, t))
  {
    var w', th := Advanced(w, t), w.threads[t];
    assert ThreadOk(w, th);
    SameJobs(w, w');
    SourcedStays(w, w', th.client, th.name, th.phase.entry);
  }

  lemma AdvanceTouches(w: World, t: nat)
    requires Inv(w) && Enabled(w, Advance(t))
    ensures Touches(w, Advanced(w, t))
  {
    match w.threads[t].phase
    case Looked(_) => LookTouches(w, t);
    case Measured(_, _, _) => ServeTouches(w, t);
    case Answered(_) => TTLTouches(w, t);
    case Stamping(_) => StampTouches(w, t);
    case Stamped(_) => StoreTouches(w, t);
    case Ending => EndTouches(w, t);
  }

  lemma AskTouches(w: World, t: nat, c: nat, name: string)
    requires Inv(w) && Enabled(w, Ask(t, c, name))
    ensures Touches(w, Next(w, Ask(t, c, name)))
  {
    var w' := Next(w, Ask(t, c, name));
    assert ClientOk(w, c);
    SameJobs(w, w');
    if name in w.clients[c].cache {
      SourcedStays(w, w', c, name, w.clients[c].cache[name]);
    }
  }

  lemma RefreshTouches(w: World, t: nat, c: nat, name: string)
    requires Inv(w) && Enabled(w, CallRefresh(t, c, name))
    ensures Touches(w, Next(w, CallRefresh(t, c, name)))
  {
    var w' := Next(w, CallRefresh(t, c, name));
    if !w.refreshing {
      assert Jobs(w') == Jobs(w) + {t};
    }
  }

  lemma RespondTouches(w: World, t: nat, reply: ServerReply)
    requires Inv(w) && Enabled(w, Respond(t, reply))
    ensures Touches(w, Next(w, Respond(t, reply)))
  {
    var w', th := Next(w, Respond(t, reply)), w.threads[t];
    assert ThreadOk(w, th);
    SameJobs(w, w');
    if reply.id != "" {
      assert Reply(th.client, th.name, reply.id, w.now) in w'.replies;
    }
  }

  lemma StepKeepsInv(w: World, s: Step)
    requires Inv(w) && Enabled(w, s)
    ensures Inv(Next(w, s)) && Grows(w, Next(w, s))
  {
    match s {
      case Ask(t, c, name) => AskTouches(w, t, c, name);
      case CallRefresh(t, c, name) => RefreshTouches(w, t, c, name);
      case Advance(t) => AdvanceTouches(w, t);
      case Respond(t, reply) => RespondTouches(w, t, reply);
      case Tick(d) => SameJobs(w, Next(w, s));
    }
    TouchKeepsInv(w, Next(w, s));
  }

  predicate Legal(w: World, steps: seq<Step>)
    decreases |steps|
  {
    steps == [] || (Enabled(w, steps[0]) && Legal(Next(w, steps[0]), steps[1..]))
  }

  function Exec(w: World, steps: seq<Step>): World
    requires Legal(w, steps)
    decreases |steps|
  {
    if steps == [] then w else Exec(Next(w, steps[0]), steps[1..])
  }

  lemma {:induction false} ExecKeepsInv(w: World, steps: seq<Step>)
    requires Inv(w) && Legal(w, steps)
    ensures Inv(Exec(w, steps)) && |Exec(w, steps).clients| == |w.clients|
    ensures forall c: nat :: c < |w.clients| ==> Exec(w, steps).clients[c].options == w.clients[c].options
    decreases |steps|
  {
    if steps != [] {
      StepKeepsInv(w, steps[0]);
      ExecKeepsInv(Next(w, steps[0]), steps[1..]);
    }
  }

  // ----- the theorems -----

  /** Fresh clients with the given options, nothing going on. */
  function Start(now: int, options: seq<Options>): World {
    World(now, false, seq(|options|, i requires 0 <= i < |options| => Fresh(options[i])), map[], {}, {}, [])
  }

  lemma StartInv(now: int, options: seq<Options>)
    ensures Inv(Start(now, options))
  {
    var w := Start(now, options);
    forall c: nat | c < |w.clients| ensures ClientOk(w, c) {
      assert options[c] in options;
    }
    assert Jobs(w) == {};
  }

  /** Over every run: the TTL of a client with consistent options stays within
      its limits, no cached list is empty, and a list served from the cache was
      given by the server for that very name to that client, and was stored less
      than the cap (the maximum TTL, for consistent options) before its age was
      taken. */
  lemma BoundedStaleness(now: int, options: seq<Options>, steps: seq<Step>)
    requires Legal(Start(now, options), steps)
    ensures var w := Exec(Start(now, options), steps);
            && |w.clients| == |options|
            && (forall c: nat :: c < |w.clients| ==>
                  && w.clients[c].options == Effective(options[c])
                  && (Consistent(w.clients[c].options) ==> InRange(w.clients[c].options, w.clients[c].ttl))
                  && forall name :: name in w.clients[c].cache ==> w.clients[c].cache[name].id != "")
            && (forall s :: s in w.served ==>
                  && s.client < |w.clients|
                  && s.at - s.entry.creation < Cap(w.clients[s.client].options)
                  && exists r :: r in w.replies && r == Reply(s.client, s.name, s.entry.id, r.at)
                       && r.at <= s.entry.creation <= s.at)
  {
    StartInv(now, options);
    ExecKeepsInv(Start(now, options), steps);
    var w := Exec(Start(now, options), steps);
    forall c: nat | c < |w.clients|
      ensures Consistent(w.clients[c].options) ==> InRange(w.clients[c].options, w.clients[c].ttl)
      ensures forall name :: name in w.clients[c].cache ==> w.clients[c].cache[name].id != ""
    {
      assert ClientOk(w, c);
    }
    assert forall s :: s in w.served ==> ServiceOk(w, s);
  }

  /** Across all clients and interleavings the flag is set exactly while a refresh
      job lives, there is never a second one, and it is free again after the last. */
  lemma SingleRefresh(now: int, options: seq<Options>, steps: seq<Step>)
    requires Legal(Start(now, options), steps)
    ensures var w := Exec(Start(now, options), steps);
            && (w.refreshing <==> exists t :: t in w.threads && w.threads[t].job)
            && (forall t, u :: t in w.threads && w.threads[t].job && u in w.threads && w.threads[u].job ==> t == u)
  {
    StartInv(now, options);
    ExecKeepsInv(Start(now, options), steps);
    var w := Exec(Start(now, options), steps);
    if w.refreshing {
      assert Jobs(w) != {};
      var t :| t in Jobs(w);
    }
    forall t, u | t in w.threads && w.threads[t].job && u in w.threads && w.threads[u].job
      ensures w.refreshing && t == u
    {
      assert t in Jobs(w) && u in Jobs(w);
      AtMostOne(Jobs(w), t, u);
    }
  }

  // ----- which store a lookup serves -----

  /** The last of these stores for a client's name. */
  function LastStore(stored: seq<Store>, client: nat, name: string): Option<CacheEntry> {
    if stored == [] then None
    else
      var last := stored[|stored| - 1];
      if last.client == client && last.name == name then Some(last.entry)
      else LastStore(stored[..|stored| - 1], client, name)
  }

  lemma {:induction false} LastStoreIs(stored: seq<Store>, client: nat, name: string)
    ensures LastStore(stored, client, name).None? <==>
            forall k :: 0 <= k < |stored| ==> stored[k].client != client || stored[k].name != name
    ensures LastStore(stored, client, name).Some? ==>
              exists k :: 0 <= k < |stored| && stored[k] == Store(client, name, LastStore(stored, client, name).value)
                && forall j :: k < j < |stored| ==> stored[j].client != client || stored[j].name != name
  {
    if stored != [] {
      LastStoreIs(stored[..|stored| - 1], client, name);
    }
  }

  /** An entry a thread holds is the last one stored before the thread began. */
  ghost predicate HeldIsLast(w: World, th: Thread, entry: CacheEntry) {
    th.began <= |w.stored| && LastStore(w.stored[..th.began], th.client, th.name) == Some(entry)
  }

  ghost predicate ThreadHolds(w: World, th: Thread) {
    match th.phase
    case Looked(entry) => HeldIsLast(w, th, entry)
    case Measured(entry, _, _) => HeldIsLast(w, th, entry)
    case _ => true
  }

  ghost predicate StoresOk(w: World) {
    && (forall c: nat, name :: c < |w.clients| ==>
          LastStore(w.stored, c, name) == if name in w.clients[c].cache then Some(w.clients[c].cache[name]) else None)
    && (forall t :: t in w.threads ==> ThreadHolds(w, w.threads[t]))
    && forall s :: s in w.served ==>
         s.began <= |w.stored| && LastStore(w.stored[..s.began], s.client, s.name) == Some(s.entry)
  }

  lemma SamePrefix(stored: seq<Store>, more: seq<Store>, k: nat)
    requires k <= |stored|
    ensures (stored + more)[..k] == stored[..k]
  {
  }

  lemma StoreKeepsOk(w: World, t: nat)
    requires StoresOk(w) && Enabled(w, Advance(t)) && w.threads[t].phase.Stamped?
    ensures StoresOk(Advanced(w, t))
  {
    var w', th := Advanced(w, t), w.threads[t];
    var store := Store(th.client, th.name, th.phase.entry);
    assert w'.stored[..|w.stored|] == w.stored;
    forall k: nat | k <= |w.stored| ensures w'.stored[..k] == w.stored[..k] {
      SamePrefix(w.stored, [store], k);
    }
  }

  /** Nothing is stored, and what threads newly hold or serve is right. */
  ghost predicate StoresNothing(w: World, w': World) {
    && w'.stored == w.stored && |w'.clients| == |w.clients|
    && (forall c: nat :: c < |w.clients| ==> w'.clients[c].cache == w.clients[c].cache)
    && (forall t :: t in w'.threads && (t in w.threads ==> w'.threads[t] != w.threads[t]) ==>
          ThreadHolds(w', w'.threads[t]))
    && forall s :: s in w'.served && s !in w.served ==>
         s.began <= |w.stored| && LastStore(w.stored[..s.began], s.client, s.name) == Some(s.entry)
  }

  lemma NothingStored(w: World, w': World)
    requires StoresOk(w) && StoresNothing(w, w')
    ensures StoresOk(w')
  {
    forall t | t in w'.threads ensures ThreadHolds(w', w'.threads[t]) {
      if t in w.threads && w'.threads[t] == w.threads[t] {
        assert ThreadHolds(w, w.threads[t]);
      }
    }
  }

  lemma AskStoresNothing(w: World, t: nat, c: nat, name: string)
    requires StoresOk(w) && Enabled(w, Ask(t, c, name))
    ensures StoresNothing(w, Next(w, Ask(t, c, name)))
  {
    assert w.stored[..|w.stored|] == w.stored;
  }

  lemma LookStoresNothing(w: World, t: nat)
    requires StoresOk(w) && Enabled(w, Advance(t)) && w.threads[t].phase.Looked?
    ensures StoresNothing(w, Advanced(w, t))
  {
    assert ThreadHolds(w, w.threads[t]);
  }

  lemma ServeStoresNothing(w: World, t: nat)
    requires StoresOk(w) && Enabled(w, Advance(t)) && w.threads[t].phase.Measured?
    ensures StoresNothing(w, Advanced(w, t))
  {
    assert ThreadHolds(w, w.threads[t]);
  }

  lemma RestStoresNothing(w: World, t: nat)
    requires StoresOk(w) && Enabled(w, Advance(t))
    requires w.threads[t].phase.Answered? || w.threads[t].phase.Stamping? || w.threads[t].phase.Ending?
    ensures StoresNothing(w, Advanced(w, t))
  {
  }

  lemma AdvanceStoresNothing(w: World, t: nat)
    requires StoresOk(w) && Enabled(w, Advance(t)) && !w.threads[t].phase.Stamped?
    ensures StoresNothing(w, Advanced(w, t))
  {
    match w.threads[t].phase
    case Looked(_) => LookStoresNothing(w, t);
    case Measured(_, _, _) => ServeStoresNothing(w, t);
    case _ => RestStoresNothing(w, t);
  }

  lemma OtherStepsKeepOk(w: World, s: Step)
    requires StoresOk(w) && Enabled(w, s)
    requires s.Advance? ==> !w.threads[s.t].phase.Stamped?
    ensures StoresOk(Next(w, s))
  {
    match s {
      case Ask(t, c, name) => AskStoresNothing(w, t, c, name);
      case Advance(t) => AdvanceStoresNothing(w, t);
      case CallRefresh(_, _, _) =>
      case Respond(_, _) =>
      case Tick(_) =>
    }
    NothingStored(w, Next(w, s));
  }

  lemma {:induction false} ExecKeepsStores(w: World, steps: seq<Step>)
    requires StoresOk(w) && Legal(w, steps)
    ensures StoresOk(Exec(w, steps))
    decreases |steps|
  {
    if steps != [] {
      if steps[0].Advance? && w.threads[steps[0].t].phase.Stamped? {
        StoreKeepsOk(w, steps[0].t);
      } else {
        OtherStepsKeepOk(w, steps[0]);
      }
      ExecKeepsStores(Next(w, steps[0]), steps[1..]);
    }
  }

  /** Over every interleaving: what a client has cached for a name is what was
      stored for it last, and a lookup that is served from the cache gets what had
      been stored last when it began. */
  lemma ServesTheLastStore(now: int, options: seq<Options>, steps: seq<Step>)
    requires Legal(Start(now, options), steps)
    ensures var w := Exec(Start(now, options), steps);
            && (forall c: nat, name :: c < |w.clients| ==>
                  LastStore(w.stored, c, name) ==
                  if name in w.clients[c].cache then Some(w.clients[c].cache[name]) else None)
            && forall s :: s in w.served ==>
                 s.began <= |w.stored| && LastStore(w.stored[..s.began], s.client, s.name) == Some(s.entry)
  {
    ExecKeepsStores(Start(now, options), steps);
  }

  // ----- threads on their own -----

  /** No thread is ever stuck, and any call can be made at any time. */
  lemma ThreadsCanMove(w: World, t: nat, c: nat, name: string, reply: ServerReply, d: nat)
    requires t in w.threads ==> w.threads[t].client < |w.clients|
    ensures t in w.threads ==> Enabled(w, if w.threads[t].phase.Querying? then Respond(t, reply) else Advance(t))
    ensures t !in w.threads && c < |w.clients| ==> Enabled(w, Ask(t, c, name)) && Enabled(w, CallRefresh(t, c, name))
    ensures Enabled(w, Tick(d)) && Next(w, Tick(d)) == w.(now := w.now + d)
  {
  }

  /** A server's answer is remembered with the time it came, if it has a list. */
  lemma AnswersAreRemembered(w: World, t: nat, reply: ServerReply, r: Reply)
    requires Enabled(w, Respond(t, reply))
    ensures r in Next(w, Respond(t, reply)).replies <==>
            || r in w.replies
            || (reply.id != "" && r == Reply(w.threads[t].client, w.threads[t].name, reply.id, w.now))
  {
  }

  /** A lookup that finds no entry goes on to query at once. */
  lemma LookupMisses(w: World, t: nat, c: nat, name: string)
    requires Enabled(w, Ask(t, c, name)) && name !in w.clients[c].cache
    ensures var w' := Next(w, Ask(t, c, name));
            && w'.clients == w.clients && w'.served == w.served
            && t in w'.threads && w'.threads[t].phase.Querying? && !w'.threads[t].job
            && w'.threads[t].client == c && w'.threads[t].name == name
  {
  }

  /** Refresh starts a job exactly when none is running, and does nothing else. */
  lemma RefreshStartsOne(w: World, t: nat, c: nat, name: string)
    requires Enabled(w, CallRefresh(t, c, name))
    ensures var w' := Next(w, CallRefresh(t, c, name));
            && w'.refreshing && w'.clients == w.clients && w'.served == w.served && w'.stored == w.stored
            && (w.refreshing ==> w' == w)
            && (!w.refreshing ==>
                  && t in w'.threads && w'.threads[t].job && w'.threads[t].phase.Querying?
                  && w'.threads[t].client == c && w'.threads[t].name == name
                  && forall u :: u in w.threads ==> u in w'.threads && w'.threads[u] == w.threads[u])
  {
  }

  /** A job at its end frees the flag. */
  lemma JobFreesFlag(w: World, t: nat)
    requires Enabled(w, Advance(t)) && w.threads[t].job && w.threads[t].phase.Ending?
    ensures var w' := Next(w, Advance(t));
            !w'.refreshing && t !in w'.threads && w'.clients == w.clients
  {
  }

  ghost predicate Runs(w: World, steps: seq<Step>, w': World) {
    Legal(w, steps) && Exec(w, steps) == w'
  }

  lemma RunsFirst(w: World, s: Step, rest: seq<Step>, w': World)
    requires Enabled(w, s) && Runs(Next(w, s), rest, w')
    ensures Runs(w, [s] + rest, w')
  {
    assert ([s] + rest)[1..] == rest;
  }

  lemma RunsOne(w: World, s: Step)
    requires Enabled(w, s)
    ensures Runs(w, [s], Next(w, s))
  {
    assert Runs(Next(w, s), [], Next(w, s));
    RunsFirst(w, s, [], Next(w, s));
    assert [s] + [] == [s];
  }

  lemma RunsTwo(w: World, s1: Step, s2: Step)
    requires Enabled(w, s1) && Enabled(Next(w, s1), s2)
    ensures Runs(w, [s1, s2], Next(Next(w, s1), s2))
  {
    RunsOne(Next(w, s1), s2);
    RunsFirst(w, s1, [s2], Next(Next(w, s1), s2));
    assert [s1] + [s2] == [s1, s2];
  }

  /** What a refresh thread does after the server's reply, when undisturbed. */
  function AfterReply(w: World, t: nat, reply: ServerReply): (steps: seq<Step>) {
    [Respond(t, reply), Advance(t)] + if reply.id == "" then [] else [Advance(t), Advance(t)]
  }

  /** A refresh thread that runs undisturbed is the client's refresh. */
  lemma RefreshAlone(w: World, t: nat, reply: ServerReply)
    requires t in w.threads && w.threads[t].phase.Querying? && w.threads[t].client < |w.clients|
    ensures exists w' :: Runs(w, AfterReply(w, t, reply), w')
              && w'.clients == w.clients[w.threads[t].client :=
                   Refreshed(w.clients[w.threads[t].client], w.threads[t].name, reply, w.now)]
              && t in w'.threads && w'.threads[t].phase == Ending
  {
    var w1 := Next(w, Respond(t, reply));
    var w2 := Next(w1, Advance(t));
    if reply.id == "" {
      RunsTwo(w, Respond(t, reply), Advance(t));
      assert AfterReply(w, t, reply) == [Respond(t, reply), Advance(t)];
    } else {
      var w4 := Next(Next(w2, Advance(t)), Advance(t));
      RunsTwo(w2, Advance(t), Advance(t));
      RunsFirst(w1, Advance(t), [Advance(t), Advance(t)], w4);
      RunsFirst(w, Respond(t, reply), [Advance(t)] + [Advance(t), Advance(t)], w4);
      assert AfterReply(w, t, reply) == [Respond(t, reply)] + ([Advance(t)] + [Advance(t), Advance(t)]);
    }
  }

  /** A lookup that runs undisturbed serves from the cache exactly when the entry
      is servable, and otherwise goes on to query. */
  lemma LookupAlone(w: World, t: nat, c: nat, name: string)
    requires t !in w.threads && c < |w.clients| && name in w.clients[c].cache
    ensures exists w' :: Runs(w, [Ask(t, c, name), Advance(t), Advance(t)], w')
              && w'.clients == w.clients
              && if Servable(w.clients[c], name, w.now)
                 then w'.served == w.served + {Serving(c, name, w.clients[c].cache[name], |w.stored|, w.now)}
                      && t !in w'.threads
                 else w'.served == w.served && t in w'.threads && w'.threads[t].phase == Querying
  {
    var w1 := Next(w, Ask(t, c, name));
    var w3 := Next(Next(w1, Advance(t)), Advance(t));
    RunsTwo(w1, Advance(t), Advance(t));
    RunsFirst(w, Ask(t, c, name), [Advance(t), Advance(t)], w3);
    assert [Ask(t, c, name)] + [Advance(t), Advance(t)] == [Ask(t, c, name), Advance(t), Advance(t)];
  }
}

/** The queue listener of cmd/gateboard/sqs.go: an at-least-once consumer that
    writes each message's gateway id into the store. */
module Listener {
  import opened GoLib
  import opened Repository
  import opened Service
  import opened StoreLaws

  datatype Config = Config(writeToken: bool, consumeBadMessage: bool, consumeInvalidToken: bool)

  /** A message body as YAML decoding leaves it. */
  datatype Content = Malformed | Update(name: string, id: string, token: string)

  /** One message of a received batch: its queue identity, its body, and the
      environment's choices while it is processed. */
  datatype Delivery = Delivery(m: nat, content: Content, read: Read, call: Call, deleteFails: bool)

  predicate FitsDelivery(d: Delivery, n: nat) { FitsRead(d.read, n) && Fits(d.call, n) }

  /** Why the processing of a message ended as it did. */
  datatype Verdict = Bad | Refused | NotStored | Stored

  predicate BadContent(b: Content) { b.Malformed? || !ValidName(b.name) || BlankId(b.id) }

  function Judge(cfg: Config, repos: seq<Repo>, d: Delivery): Verdict
    requires FitsDelivery(d, |repos|)
  {
    if BadContent(d.content) then Bad
    else if cfg.writeToken && InvalidToken(repos, d.content.name, d.content.token, d.read) then Refused
    else if PutAllError(repos, d.content.name, TrimSpace(d.content.id), d.call).Some? then NotStored
    else Stored
  }

  predicate Consumes(cfg: Config, v: Verdict) {
    match v
    case Bad => cfg.consumeBadMessage
    case Refused => cfg.consumeInvalidToken
    case NotStored => false
    case Stored => true
  }

  function Written(cfg: Config, repos: seq<Repo>, d: Delivery): (after: seq<Repo>)
    requires FitsDelivery(d, |repos|)
    ensures |after| == |repos|
  {
    if Judge(cfg, repos, d) in {NotStored, Stored}
    then PutAll(repos, d.content.name, TrimSpace(d.content.id), d.call) else repos
  }

  predicate Deleted(cfg: Config, repos: seq<Repo>, d: Delivery)
    requires FitsDelivery(d, |repos|)
  {
    Consumes(cfg, Judge(cfg, repos, d)) && !d.deleteFails
  }

  // ----- the listener itself -----

  /** Processing deliveries one after another: store and remaining queue. */
  function ProcessAll(cfg: Config, repos: seq<Repo>, queued: set<nat>, ds: seq<Delivery>): (seq<Repo>, set<nat>)
    requires forall d :: d in ds ==> FitsDelivery(d, |repos|)
    decreases |ds|
  {
    if ds == [] then (repos, queued)
    else
      ProcessAll(cfg, Written(cfg, repos, ds[0]),
                 if Deleted(cfg, repos, ds[0]) then queued - {ds[0].m} else queued, ds[1..])
  }

  /** The queue as the listener sees it. */
  class Queue {
    var queued: set<nat>

    constructor ()
      ensures queued == {}
    {
      queued := {};
    }

    method Delete(m: nat, fails: bool) returns (ok: bool)
      modifies this
      ensures ok == !fails && queued == if fails then old(queued) else old(queued) - {m}
    {
      if fails {
        return false;
      }
      queued := queued - {m};
      return true;
    }
  }

  /** The part of the loop body that ends in a write or a refusal. */
  method Store(app: Application, d: Delivery, ghost cfg: Config) returns (v: Verdict)
    requires app.Valid() && FitsDelivery(d, |app.repoList|) && cfg.writeToken == app.writeToken
    modifies app.repoList
    ensures v == Judge(cfg, old(app.Values()), d) && app.Values() == Written(cfg, old(app.Values()), d)
  {
    if d.content.Malformed? {
      return Bad;
    }
    if !ValidName(d.content.name) {
      return Bad;
    }
    var id := TrimSpace(d.content.id);
    if id == "" {
      return Bad;
    }
    if app.writeToken {
      var invalid := app.CheckToken(d.content.name, d.content.token, d.read);
      if invalid {
        return Refused;
      }
    }
    var err := app.PutMultiple(d.content.name, id, d.call);
    return if err.Some? then NotStored else Stored;
  }

  /** The loop body for one message. */
  method Handle(app: Application, q: Queue, cfg: Config, d: Delivery)
    requires app.Valid() && FitsDelivery(d, |app.repoList|) && cfg.writeToken == app.writeToken
    modifies app.repoList, q
    ensures app.Values() == Written(cfg, old(app.Values()), d)
    ensures q.queued == if Deleted(cfg, old(app.Values()), d) then old(q.queued) - {d.m} else old(q.queued)
  {
    var v := Store(app, d, cfg);
    match v
    case Bad =>
      if cfg.consumeBadMessage {
        var _ := q.Delete(d.m, d.deleteFails);
      }
    case Refused =>
      if cfg.consumeInvalidToken {
        var _ := q.Delete(d.m, d.deleteFails);
      }
    case NotStored =>
    case Stored =>
      var _ := q.Delete(d.m, d.deleteFails);
  }

  /** What one call of receive brings: an error, or a batch (perhaps empty). */
  datatype Round = ReceiveError | Batch(ds: seq<Delivery>)

  function Batches(rounds: seq<Round>): seq<Delivery> {
    if rounds == [] then []
    else (match rounds[0] case ReceiveError => [] case Batch(ds) => ds) + Batches(rounds[1..])
  }

  lemma {:induction false} ProcessConcat(
    cfg: Config, repos: seq<Repo>, queued: set<nat>, a: seq<Delivery>, b: seq<Delivery>)
    requires forall d :: d in a + b ==> FitsDelivery(d, |repos|)
    ensures forall d :: d in a ==> FitsDelivery(d, |repos|)
    ensures |ProcessAll(cfg, repos, queued, a).0| == |repos|
    ensures forall d :: d in b ==> FitsDelivery(d, |repos|)
    ensures ProcessAll(cfg, repos, queued, a + b)
            == ProcessAll(cfg, ProcessAll(cfg, repos, queued, a).0, ProcessAll(cfg, repos, queued, a).1, b)
    decreases |a|
  {
    assert forall d :: d in a ==> d in a + b;
    assert forall d :: d in b ==> d in a + b;
    if a == [] {
      assert a + b == b;
    } else {
      assert (a + b)[1..] == a[1..] + b && (a + b)[0] == a[0];
      ProcessConcat(cfg, Written(cfg, repos, a[0]),
                    if Deleted(cfg, repos, a[0]) then queued - {a[0].m} else queued, a[1..], b);
    }
  }

  /** One batch. */
  method HandleBatch(app: Application, q: Queue, cfg: Config, ds: seq<Delivery>)
    requires app.Valid() && cfg.writeToken == app.writeToken
    requires forall d :: d in ds ==> FitsDelivery(d, |app.repoList|)
    modifies app.repoList, q
    ensures (app.Values(), q.queued) == ProcessAll(cfg, old(app.Values()), old(q.queued), ds)
  {
    for i := 0 to |ds|
      invariant ProcessAll(cfg, old(app.Values()), old(q.queued), ds)
                == ProcessAll(cfg, app.Values(), q.queued, ds[i..])
    {
      assert ds[i] in ds && ds[i..][1..] == ds[i + 1..];
      Handle(app, q, cfg, ds[i]);
    }
  }

  /** Nothing received is left out, doubled or reordered; errors bring nothing. */
  lemma {:induction false} BatchesAre(a: seq<Round>, b: seq<Round>, ds: seq<Delivery>)
    ensures Batches(a + b) == Batches(a) + Batches(b)
    ensures Batches([Batch(ds)]) == ds && Batches([ReceiveError]) == [] && Batches([]) == []
  {
    assert [Batch(ds)][1..] == [] && [ReceiveError][1..] == [];
    assert ds + [] == ds;
    if a == [] {
      assert a + b == b;
    } else {
      assert (a + b)[1..] == a[1..] + b;
      BatchesAre(a[1..], b, ds);
    }
  }

  predicate FitAll(ds: seq<Delivery>, n: nat) { forall d :: d in ds ==> FitsDelivery(d, n) }

  /** What is left to process when round `i` brings `ds`: the batch, then the rest. */
  lemma NextRound(rounds: seq<Round>, i: nat)
    requires i < |rounds|
    ensures var rest := Batches(rounds[i + 1..]);
            Batches(rounds[i..]) == match rounds[i] case ReceiveError => rest case Batch(ds) => ds + rest
  {
    assert rounds[i..][1..] == rounds[i + 1..];
  }

  lemma BatchThenRest(cfg: Config, repos: seq<Repo>, queued: set<nat>, ds: seq<Delivery>, rest: seq<Delivery>)
    requires FitAll(ds + rest, |repos|)
    ensures FitAll(ds, |repos|) && |ProcessAll(cfg, repos, queued, ds).0| == |repos| && FitAll(rest, |repos|)
    ensures var (repos', queued') := ProcessAll(cfg, repos, queued, ds);
            ProcessAll(cfg, repos, queued, ds + rest) == ProcessAll(cfg, repos', queued', rest)
  {
    ProcessConcat(cfg, repos, queued, ds, rest);
  }

  /** One round of the endless loop, `rest` being what later rounds will bring. */
  method HandleRound(app: Application, q: Queue, cfg: Config, round: Round, ghost rest: seq<Delivery>)
    requires app.Valid() && cfg.writeToken == app.writeToken
    requires FitAll(match round case ReceiveError => rest case Batch(ds) => ds + rest, |app.repoList|)
    modifies app.repoList, q
    ensures FitAll(rest, |app.repoList|)
    ensures ProcessAll(cfg, app.Values(), q.queued, rest)
            == ProcessAll(cfg, old(app.Values()), old(q.queued),
                          match round case ReceiveError => rest case Batch(ds) => ds + rest)
  {
    match round
    case ReceiveError =>
    case Batch(ds) =>
      BatchThenRest(cfg, app.Values(), q.queued, ds, rest);
      HandleBatch(app, q, cfg, ds);
  }

  /** sqsListener, for as many rounds as `rounds` lists. */
  method Listen(app: Application, q: Queue, cfg: Config, rounds: seq<Round>)
    requires app.Valid() && cfg.writeToken == app.writeToken
    requires FitAll(Batches(rounds), |app.repoList|)
    modifies app.repoList, q
    ensures (app.Values(), q.queued) == ProcessAll(cfg, old(app.Values()), old(q.queued), Batches(rounds))
  {
    for i := 0 to |rounds|
      invariant FitAll(Batches(rounds[i..]), |app.repoList|)
      invariant ProcessAll(cfg, app.Values(), q.queued, Batches(rounds[i..]))
                == ProcessAll(cfg, old(app.Values()), old(q.queued), Batches(rounds))
    {
      NextRound(rounds, i);
      HandleRound(app, q, cfg, rounds[i], Batches(rounds[i + 1..]));
    }
  }

  // ----- runs of listener, queue and everybody else -----

  /** What was seen when a message left the queue. */
  datatype Receipt = Receipt(verdict: Verdict, delivery: Delivery, before: seq<Repo>, after: seq<Repo>)

  /** `sent` remembers every message ever sent, `receipts` those that left. */
  datatype State = State(repos: seq<Repo>, sent: map<nat, Content>, queued: set<nat>, receipts: map<nat, Receipt>)

  /** A new message; a delivery of any message sent so far, in the queue, hidden
      or even gone; or the store changed by someone else. */
  datatype Event = Sent(m: nat, content: Content) | Delivered(d: Delivery) | StoreChanged(repos: seq<Repo>)

  predicate Possible(s: State, e: Event) {
    match e
    case Sent(m, _) => m !in s.sent
    case Delivered(d) => FitsDelivery(d, |s.repos|) && d.m in s.sent && s.sent[d.m] == d.content
    case StoreChanged(repos) => true
  }

  function Next(cfg: Config, s: State, e: Event): State
    requires Possible(s, e)
  {
    match e
    case Sent(m, content) => s.(sent := s.sent[m := content], queued := s.queued + {m})
    case StoreChanged(repos) => s.(repos := repos)
    case Delivered(d) =>
      var after := Written(cfg, s.repos, d);
      if Deleted(cfg, s.repos, d) && d.m in s.queued then
        State(after, s.sent, s.queued - {d.m},
              s.receipts[d.m := Receipt(Judge(cfg, s.repos, d), d, s.repos, after)])
      else s.(repos := after)
  }

  /** Only a good reason lets a message go: it was stored by some repository, or
      it is bad or its token was found invalid, and it may be consumed for that. */
  ghost predicate Justified(cfg: Config, content: Content, rc: Receipt) {
    && rc.delivery.content == content && FitsDelivery(rc.delivery, |rc.before|) && |rc.after| == |rc.before|
    && match rc.verdict
       case Stored =>
         && !BadContent(content)
         && exists j :: 0 <= j < |rc.before| && TookOnce(rc.before[j], rc.after[j], content.name, TrimSpace(content.id))
       case Bad => cfg.consumeBadMessage && BadContent(content) && rc.after == rc.before
       case Refused =>
         && cfg.writeToken && cfg.consumeInvalidToken && !BadContent(content) && rc.after == rc.before
         && InvalidToken(rc.before, content.name, content.token, rc.delivery.read)
       case NotStored => false
  }

  ghost predicate AllJustified(cfg: Config, sent: map<nat, Content>, receipts: map<nat, Receipt>) {
    forall m :: m in receipts ==> m in sent && Justified(cfg, sent[m], receipts[m])
  }

  ghost predicate Inv(cfg: Config, s: State) {
    && s.queued + s.receipts.Keys == s.sent.Keys
    && s.queued !! s.receipts.Keys
    && AllJustified(cfg, s.sent, s.receipts)
  }

  lemma LeavesForAReason(cfg: Config, repos: seq<Repo>, d: Delivery)
    requires FitsDelivery(d, |repos|) && Deleted(cfg, repos, d)
    ensures Justified(cfg, d.content, Receipt(Judge(cfg, repos, d), d, repos, Written(cfg, repos, d)))
  {
    if Judge(cfg, repos, d) == Stored {
      var id := TrimSpace(d.content.id);
      PutOutcome(repos, d.content.name, id, d.call);
      AcceptedIsTaken(repos, d.content.name, id, d.call);
    }
  }

  lemma DeletionMoves(sent: set<nat>, queued: set<nat>, left: set<nat>, m: nat)
    requires queued + left == sent && queued !! left && m in queued
    ensures (queued - {m}) + (left + {m}) == sent && (queued - {m}) !! (left + {m})
  {
  }

  lemma OneMoreJustified(
    cfg: Config, sent: map<nat, Content>, receipts: map<nat, Receipt>, m: nat, rc: Receipt)
    requires AllJustified(cfg, sent, receipts) && m in sent && Justified(cfg, sent[m], rc)
    ensures AllJustified(cfg, sent, receipts[m := rc])
  {
    var all := receipts[m := rc];
    forall k | k in all && k != m ensures all[k] == receipts[k] && Justified(cfg, sent[k], receipts[k]) {
    }
  }

  lemma DeletionKeepsInv(cfg: Config, s: State, m: nat, rc: Receipt, repos: seq<Repo>)
    requires Inv(cfg, s) && m in s.queued && AllJustified(cfg, s.sent, s.receipts[m := rc])
    ensures Inv(cfg, State(repos, s.sent, s.queued - {m}, s.receipts[m := rc]))
  {
    DeletionMoves(s.sent.Keys, s.queued, s.receipts.Keys, m);
    assert s.receipts[m := rc].Keys == s.receipts.Keys + {m};
  }

  lemma NextKeepsInv(cfg: Config, s: State, e: Event)
    requires Inv(cfg, s) && Possible(s, e)
    ensures Inv(cfg, Next(cfg, s, e))
  {
    if e.Delivered? && Deleted(cfg, s.repos, e.d) && e.d.m in s.queued {
      var after := Written(cfg, s.repos, e.d);
      var rc := Receipt(Judge(cfg, s.repos, e.d), e.d, s.repos, after);
      LeavesForAReason(cfg, s.repos, e.d);
      OneMoreJustified(cfg, s.sent, s.receipts, e.d.m, rc);
      DeletionKeepsInv(cfg, s, e.d.m, rc, after);
    }
  }

  predicate Legal(cfg: Config, s: State, es: seq<Event>)
    decreases |es|
  {
    es == [] || (Possible(s, es[0]) && Legal(cfg, Next(cfg, s, es[0]), es[1..]))
  }

  function Exec(cfg: Config, s: State, es: seq<Event>): State
    requires Legal(cfg, s, es)
    decreases |es|
  {
    if es == [] then s else Exec(cfg, Next(cfg, s, es[0]), es[1..])
  }

  /** A delivery in a run is what the listener does with that message. */
  lemma DeliveryIsProcessing(cfg: Config, s: State, d: Delivery)
    requires Possible(s, Delivered(d))
    ensures var s' := Next(cfg, s, Delivered(d));
            (s'.repos, s'.queued) == ProcessAll(cfg, s.repos, s.queued, [d])
  {
    assert [d][1..] == [];
    if d.m !in s.queued {
      assert s.queued - {d.m} == s.queued;
    }
  }

  /** These deliveries one after another. */
  function AsRun(ds: seq<Delivery>): (es: seq<Event>)
    ensures |es| == |ds| && forall i :: 0 <= i < |ds| ==> es[i] == Delivered(ds[i])
  {
    seq(|ds|, i requires 0 <= i < |ds| => Delivered(ds[i]))
  }

  /** A run of deliveries is the listener's loop over them: same store, same queue. */
  lemma {:induction false} DeliveriesAreProcessing(cfg: Config, s: State, ds: seq<Delivery>)
    requires forall d :: d in ds ==> Possible(s, Delivered(d))
    ensures forall d :: d in ds ==> FitsDelivery(d, |s.repos|)
    ensures Legal(cfg, s, AsRun(ds))
    ensures (Exec(cfg, s, AsRun(ds)).repos, Exec(cfg, s, AsRun(ds)).queued) == ProcessAll(cfg, s.repos, s.queued, ds)
    decreases |ds|
  {
    if ds != [] {
      var s' := Next(cfg, s, Delivered(ds[0]));
      assert ds[0] in ds && AsRun(ds)[1..] == AsRun(ds[1..]);
      DeliveryIsProcessing(cfg, s, ds[0]);
      assert forall d :: d in ds[1..] ==> d in ds && Possible(s', Delivered(d));
      DeliveriesAreProcessing(cfg, s', ds[1..]);
    }
  }

  function LeftAs(s: State, v: Verdict): set<nat> { set m | m in s.receipts && s.receipts[m].verdict == v }

  lemma ReceiptParts(s: State)
    requires forall m :: m in s.receipts ==> s.receipts[m].verdict != NotStored
    ensures s.receipts.Keys == LeftAs(s, Stored) + LeftAs(s, Bad) + LeftAs(s, Refused)
  {
  }

  lemma ReceiptCounts(s: State)
    requires forall m :: m in s.receipts ==> s.receipts[m].verdict != NotStored
    ensures |s.receipts.Keys| == |LeftAs(s, Stored)| + |LeftAs(s, Bad)| + |LeftAs(s, Refused)|
  {
    ReceiptParts(s);
    DisjointSizes(LeftAs(s, Stored), LeftAs(s, Bad), LeftAs(s, Refused));
  }

  lemma CountsAddUp(s: State)
    requires s.queued + s.receipts.Keys == s.sent.Keys && s.queued !! s.receipts.Keys
    requires forall m :: m in s.receipts ==> s.receipts[m].verdict != NotStored
    ensures |s.sent| == |s.queued| + |LeftAs(s, Stored)| + |LeftAs(s, Bad)| + |LeftAs(s, Refused)|
  {
    ReceiptCounts(s);
    assert |s.queued + s.receipts.Keys| == |s.queued| + |s.receipts.Keys|;
  }

  /** Over every run, from any state reached so far, no message is lost: each one
      sent is still queued or left for a justified reason, and the counts add up. */
  lemma {:induction false} RunsLoseNothing(cfg: Config, s: State, es: seq<Event>)
    requires Inv(cfg, s) && Legal(cfg, s, es)
    ensures var s' := Exec(cfg, s, es);
            && Inv(cfg, s') && s.sent.Keys <= s'.sent.Keys
            && |s'.sent| == |s'.queued| + |LeftAs(s', Stored)| + |LeftAs(s', Bad)| + |LeftAs(s', Refused)|
    decreases |es|
  {
    if es == [] {
      forall m | m in s.receipts ensures s.receipts[m].verdict != NotStored {
        assert Justified(cfg, s.sent[m], s.receipts[m]);
      }
      CountsAddUp(s);
    } else {
      NextKeepsInv(cfg, s, es[0]);
      RunsLoseNothing(cfg, Next(cfg, s, es[0]), es[1..]);
    }
  }

  /** Nothing sent yet, over any store. */
  function Empty(repos: seq<Repo>): State { State(repos, map[], {}, map[]) }

  /** Over every run from an empty queue. */
  lemma NoMessageLost(cfg: Config, repos: seq<Repo>, es: seq<Event>)
    requires Legal(cfg, Empty(repos), es)
    ensures var s := Exec(cfg, Empty(repos), es);
            && (forall m :: m in s.sent ==> m in s.queued <==> m !in s.receipts)
            && (forall m :: m in s.receipts ==> m in s.sent && Justified(cfg, s.sent[m], s.receipts[m]))
            && |s.sent| == |s.queued| + |LeftAs(s, Stored)| + |LeftAs(s, Bad)| + |LeftAs(s, Refused)|
  {
    RunsLoseNothing(cfg, Empty(repos), es);
    var s := Exec(cfg, Empty(repos), es);
    forall m
      ensures m in s.sent <==> m in s.queued || m in s.receipts
      ensures !(m in s.queued && m in s.receipts)
    {
      assert m in s.sent.Keys <==> m in s.queued + s.receipts.Keys;
    }
  }

  /** A message is stored exactly when it is well formed, its token (if required)
      passes and some repository accepts it; otherwise the store is as before. */
  lemma StoredExactly(cfg: Config, repos: seq<Repo>, d: Delivery)
    requires FitsDelivery(d, |repos|)
    ensures Judge(cfg, repos, d) == Stored
            <==> !BadContent(d.content)
                 && !(cfg.writeToken && InvalidToken(repos, d.content.name, d.content.token, d.read))
                 && SomeAccept(repos, d.content.name, TrimSpace(d.content.id), d.call)
    ensures Judge(cfg, repos, d) != Stored ==> Written(cfg, repos, d) == repos
    ensures Judge(cfg, repos, d) == Stored && !d.deleteFails ==> Deleted(cfg, repos, d)
  {
    if !BadContent(d.content) {
      PutOutcome(repos, d.content.name, TrimSpace(d.content.id), d.call);
      AcceptedIsTaken(repos, d.content.name, TrimSpace(d.content.id), d.call);
    }
  }

  /** The token of a well-formed message does not pass. */
  predicate Refuses(cfg: Config, repos: seq<Repo>, d: Delivery)
    requires d.content.Update? && FitsDelivery(d, |repos|)
  {
    cfg.writeToken && InvalidToken(repos, d.content.name, d.content.token, d.read)
  }

  /** Exactly when processing a message takes it off the queue: its delete works,
      and it is bad and bad ones are consumed, or its token does not pass and such
      ones are consumed, or its token passes and some repository accepts its put. */
  lemma DeletedExactly(cfg: Config, repos: seq<Repo>, d: Delivery)
    requires FitsDelivery(d, |repos|)
    ensures Deleted(cfg, repos, d)
            <==> && !d.deleteFails
                 && if BadContent(d.content) then cfg.consumeBadMessage
                    else if Refuses(cfg, repos, d) then cfg.consumeInvalidToken
                    else SomeAccept(repos, d.content.name, TrimSpace(d.content.id), d.call)
  {
    if !BadContent(d.content) {
      PutOutcome(repos, d.content.name, TrimSpace(d.content.id), d.call);
    }
  }

  /** And so over runs: then a queued message leaves, and no other ever does. */
  lemma LeavesExactly(cfg: Config, s: State, d: Delivery)
    requires Possible(s, Delivered(d)) && d.m in s.queued
    ensures d.m !in Next(cfg, s, Delivered(d)).queued
            <==> && !d.deleteFails
                 && if BadContent(d.content) then cfg.consumeBadMessage
                    else if Refuses(cfg, s.repos, d) then cfg.consumeInvalidToken
                    else SomeAccept(s.repos, d.content.name, TrimSpace(d.content.id), d.call)
    ensures forall m :: m != d.m ==> (m in Next(cfg, s, Delivered(d)).queued <==> m in s.queued)
  {
    DeletedExactly(cfg, s.repos, d);
  }

  /** Which messages are bad, in terms of the characters sent. */
  lemma BadContentsAre(b: Content)
    ensures BadContent(b) <==>
            || b.Malformed? || AllSpace(b.name) || (exists c :: c in b.name && c in {' ', '$', '{', '}'})
            || AllSpace(b.id)
  {
    if b.Update? {
      RefusedNames(b.name);
      BlankIds(b.id);
    }
  }

  /** Space around the id makes no difference to a message: a good one whose token
      passes leaves the store of one fan-out of the bare id, and is stored iff some
      repository accepts that. */
  lemma PaddedMessage(cfg: Config, repos: seq<Repo>, d: Delivery, pre: string, core: string, post: string)
    requires FitsDelivery(d, |repos|) && d.content.Update? && d.content.id == pre + core + post
    requires AllSpace(pre) && AllSpace(post) && core != "" && Trimmed(core) && ValidName(d.content.name)
    ensures if Refuses(cfg, repos, d) then Judge(cfg, repos, d) == Refused && Written(cfg, repos, d) == repos
            else
              && Judge(cfg, repos, d) == (if SomeAccept(repos, d.content.name, core, d.call) then Stored else NotStored)
              && Written(cfg, repos, d) == PutAll(repos, d.content.name, core, d.call)
  {
    TrimPadded(pre, core, post);
    PutOutcome(repos, d.content.name, core, d.call);
  }

  /** Runs are free: any new message can be sent, any sent one delivered again
      whatever the environment does, and the store may change at any time. */
  lemma AnythingCanHappen(s: State, e: Event)
    ensures !Possible(s, e) <==>
            || (e.Sent? && e.m in s.sent)
            || (e.Delivered? && !(e.d.m in s.sent && s.sent[e.d.m] == e.d.content && FitsDelivery(e.d, |s.repos|)))
  {
  }

  /** A well-formed message leaves the queue unstored exactly when tokens are
      required, refused messages are consumed, the delete works and the check
      found its token invalid. */
  lemma ConsumedUnstored(cfg: Config, s: State, d: Delivery)
    requires Possible(s, Delivered(d)) && d.m in s.queued && !BadContent(d.content)
    ensures var s' := Next(cfg, s, Delivered(d));
            (d.m !in s'.queued && s'.receipts[d.m].verdict != Stored)
            <==> cfg.writeToken && cfg.consumeInvalidToken && !d.deleteFails
                 && InvalidToken(s.repos, d.content.name, d.content.token, d.read)
  {
  }

  /** What the token check says, whatever the arrival order and timer: with
      `stored` on every healthy repository, a token passes exactly when it is the
      stored one, is not empty, and some receive brings a working repository's
      answer.  So a right token is refused when the timer or failures win. */
  lemma RightTokenRefused(repos: seq<Repo>, name: string, stored: string, token: string, read: Read)
    requires FitsRead(read, |repos|) && ValidName(name)
    requires forall j :: Healthy(repos, j) ==> name in repos[j].tab && repos[j].tab[name].token == stored
    ensures !InvalidToken(repos, name, token, read)
            <==> token == stored && token != "" && exists k :: ReadAt(repos, read, k)
  {
    HeldIsFound(repos, name, read);
  }

  /** Redelivery after a failed delete applies the update again: same ids, and a
      counter one higher than a single processing leaves. */
  lemma RedeliveryCountsAgain(cfg: Config, repos: seq<Repo>, d1: Delivery, d2: Delivery, j: nat)
    requires FitsDelivery(d1, |repos|) && FitsDelivery(d2, |repos|) && d1.content == d2.content && j < |repos|
    requires Judge(cfg, repos, d1) == Stored && Judge(cfg, Written(cfg, repos, d1), d2) == Stored
    requires !repos[j].broken && !d1.call.faults[j] && !d2.call.faults[j]
    ensures var (name, once) := (d1.content.name, Written(cfg, repos, d1)[j].tab);
            var twice := Written(cfg, Written(cfg, repos, d1), d2)[j].tab;
            && name in once && name in twice
            && twice[name].id == once[name].id && twice[name].token == once[name].token
            && twice[name].changes == once[name].changes + 1
  {
    var id := TrimSpace(d1.content.id);
    assert !BlankId(id);
    assert Accepts(repos[j], d1.content.name, id, false);
  }
}

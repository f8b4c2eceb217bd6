/** The goroutines and channel behind one read: N queries, a channel of capacity
    N, and a collector that waits for each answer at most `timeout`. */
module Collector {
  import opened GoLib
  import opened Repository
  import opened Service

  /** `answers[r]` is what the query of repository `r` comes back with. */
  datatype Setup = Setup(answers: seq<Answer>, timeout: nat, start: int)

  datatype Phase =
    | Receiving(notFound: bool, last: Answer, since: int)
    | Done(result: Answer, expired: bool, at: int)

  /** `received` lists the repositories whose answers the collector has taken,
      `channel` those buffered, `querying` those still to answer. */
  datatype State = State(now: int, querying: set<nat>, channel: seq<nat>, received: seq<nat>, phase: Phase)

  datatype Step = Send(r: nat) | Receive | Expire | Tick(d: nat)

  function Init(c: Setup): State {
    State(c.start, set r | r in Iota(|c.answers|), [], [], Receiving(false, NO_ANSWER, c.start))
  }

  /** A send needs room in the buffer; time passes a running timer's deadline
      only by letting it fire. */
  predicate Enabled(c: Setup, s: State, step: Step) {
    match step
    case Send(r) => r in s.querying && |s.channel| < |c.answers|
    case Receive => s.phase.Receiving? && s.channel != []
    case Expire => s.phase.Receiving? && s.now >= s.phase.since + c.timeout
    case Tick(d) => s.phase.Receiving? ==> s.now + d <= s.phase.since + c.timeout
  }

  /** The loop body after receiving one answer, perhaps the final one. */
  function Take(phase: Phase, answer: Answer, final: bool, now: int): Phase
    requires phase.Receiving?
  {
    var notFound := phase.notFound || answer.err == Some(NotFound);
    if answer.err.None? then Done(answer, false, now)
    else if final then Done(if notFound then answer.(err := Some(NotFound)) else answer, false, now)
    else Receiving(notFound, answer, now)
  }

  function Next(c: Setup, s: State, step: Step): State
    requires Enabled(c, s, step)
    requires forall r :: r in s.channel ==> r < |c.answers|
  {
    match step
    case Send(r) => s.(querying := s.querying - {r}, channel := s.channel + [r])
    case Tick(d) => s.(now := s.now + d)
    case Expire => s.(phase := Done(Answer(s.phase.last.body, None, Some(Timeout)), true, s.now))
    case Receive =>
      assert s.channel[0] in s.channel;
      var answer := c.answers[s.channel[0]];
      s.(channel := s.channel[1..], received := s.received + [s.channel[0]],
         phase := Take(s.phase, answer, |s.received| + 1 == |c.answers|, s.now))
  }

  // ----- the invariant -----

  /** Every repository is querying, buffered or received, exactly once. */
  ghost predicate Conserved(c: Setup, s: State) {
    multiset(s.querying) + multiset(s.channel) + multiset(s.received) == multiset(Iota(|c.answers|))
  }

  ghost predicate InRange(c: Setup, rs: seq<nat>) { forall r :: r in rs ==> r < |c.answers| }

  /** The answers of the repositories `rs`. */
  function Got(c: Setup, rs: seq<nat>): (got: seq<Answer>)
    requires forall r :: r in rs ==> r < |c.answers|
    ensures |got| == |rs|
  {
    seq(|rs|, i requires 0 <= i < |rs| => assert rs[i] in rs; c.answers[rs[i]])
  }

  predicate AllErrors(got: seq<Answer>) { forall i :: 0 <= i < |got| ==> got[i].err.Some? }

  predicate SomeAbsent(got: seq<Answer>) { exists i :: 0 <= i < |got| && got[i].err == Some(NotFound) }

  function LastOf(got: seq<Answer>): Answer { if got == [] then NO_ANSWER else got[|got| - 1] }

  /** What the collector knows or has returned, from the answers it has got. */
  predicate PhaseOk(c: Setup, got: seq<Answer>, now: int, phase: Phase) {
    match phase
    case Receiving(notFound, last, since) =>
      && |got| < |c.answers| && AllErrors(got) && notFound == SomeAbsent(got) && last == LastOf(got)
      && since <= c.start + |got| * c.timeout && since <= now <= since + c.timeout
    case Done(result, expired, at) =>
      && at <= c.start + |c.answers| * c.timeout
      && if expired then
           |got| < |c.answers| && AllErrors(got) && result == Answer(LastOf(got).body, None, Some(Timeout))
         else
           && 0 < |got| <= |c.answers| && AllErrors(got[..|got| - 1])
           && if LastOf(got).err.None? then result == LastOf(got)
              else
                && |got| == |c.answers|
                && result == if SomeAbsent(got) then LastOf(got).(err := Some(NotFound)) else LastOf(got)
  }

  ghost predicate Inv(c: Setup, s: State) {
    && |c.answers| > 0 && Conserved(c, s) && InRange(c, s.received) && InRange(c, s.channel)
    && PhaseOk(c, Got(c, s.received), s.now, s.phase)
  }

  lemma {:induction false} IotaOnce(n: nat, r: nat)
    ensures multiset(Iota(n))[r] == if r < n then 1 else 0
  {
    if n > 0 {
      assert Iota(n) == Iota(n - 1) + [n - 1];
      IotaOnce(n - 1, r);
    }
  }

  lemma InitInv(c: Setup)
    requires |c.answers| > 0
    ensures Inv(c, Init(c))
  {
    var n, s := |c.answers|, Init(c);
    forall r: nat ensures multiset(s.querying)[r] == multiset(Iota(n))[r] {
      IotaOnce(n, r);
    }
  }

  lemma SumBounds(c: Setup, s: State)
    requires Conserved(c, s)
    ensures |s.querying| + |s.channel| + |s.received| == |c.answers|
    ensures InRange(c, s.channel) && InRange(c, s.received)
  {
    var all := multiset(s.querying) + multiset(s.channel) + multiset(s.received);
    assert |all| == |s.querying| + |s.channel| + |s.received|;
    assert |multiset(Iota(|c.answers|))| == |c.answers|;
    forall r | r in s.channel || r in s.received ensures r < |c.answers| {
      assert r in multiset(s.channel) || r in multiset(s.received);
      assert r in all;
      assert r in Iota(|c.answers|);
    }
  }

  lemma AppendAbsent(got: seq<Answer>, answer: Answer)
    ensures SomeAbsent(got + [answer]) == (SomeAbsent(got) || answer.err == Some(NotFound))
  {
    var more := got + [answer];
    if i :| 0 <= i < |got| && got[i].err == Some(NotFound) {
      assert more[i].err == Some(NotFound);
    }
    if answer.err == Some(NotFound) {
      assert more[|got|].err == Some(NotFound);
    }
  }

  lemma TimesGrow(a: nat, b: nat, t: nat)
    requires a <= b
    ensures a * t <= b * t
  {
    assert b * t == a * t + (b - a) * t;
  }

  lemma NextDeadline(c: Setup, k: nat)
    requires k < |c.answers|
    ensures c.start + k * c.timeout + c.timeout == c.start + (k + 1) * c.timeout
    ensures c.start + (k + 1) * c.timeout <= c.start + |c.answers| * c.timeout
  {
    TimesGrow(k + 1, |c.answers|, c.timeout);
  }

  lemma TakeKeepsPhase(c: Setup, got: seq<Answer>, answer: Answer, now: int, phase: Phase)
    requires phase.Receiving? && PhaseOk(c, got, now, phase)
    ensures PhaseOk(c, got + [answer], now, Take(phase, answer, |got| + 1 == |c.answers|, now))
  {
    assert (got + [answer])[..|got|] == got;
    AppendAbsent(got, answer);
    NextDeadline(c, |got|);
  }

  lemma ReceiveKeepsInv(c: Setup, s: State)
    requires Inv(c, s) && Enabled(c, s, Receive)
    ensures Inv(c, Next(c, s, Receive))
  {
    var s' := Next(c, s, Receive);
    var r := s.channel[0];
    assert r in s.channel;
    assert s.channel == [r] + s.channel[1..];
    SumBounds(c, s');
    assert Got(c, s'.received) == Got(c, s.received) + [c.answers[r]];
    TakeKeepsPhase(c, Got(c, s.received), c.answers[r], s.now, s.phase);
  }

  lemma StepKeepsInv(c: Setup, s: State, step: Step)
    requires Inv(c, s) && Enabled(c, s, step)
    ensures Inv(c, Next(c, s, step))
  {
    match step
    case Receive => ReceiveKeepsInv(c, s);
    case Send(r) =>
      assert multiset(s.querying) == multiset(s.querying - {r}) + multiset{r};
      SumBounds(c, Next(c, s, step));
    case Expire =>
      NextDeadline(c, |s.received|);
    case Tick(d) =>
  }

  predicate InRangeState(c: Setup, s: State) { forall r :: r in s.channel ==> r < |c.answers| }

  predicate Legal(c: Setup, s: State, steps: seq<Step>)
    requires InRangeState(c, s)
    decreases |steps|
  {
    steps == []
    || (Enabled(c, s, steps[0]) && InRangeState(c, Next(c, s, steps[0])) && Legal(c, Next(c, s, steps[0]), steps[1..]))
  }

  function Exec(c: Setup, s: State, steps: seq<Step>): State
    requires InRangeState(c, s) && Legal(c, s, steps)
    decreases |steps|
  {
    if steps == [] then s else Exec(c, Next(c, s, steps[0]), steps[1..])
  }

  lemma {:induction false} ExecKeepsInv(c: Setup, s: State, steps: seq<Step>)
    requires Inv(c, s) && Legal(c, s, steps)
    ensures Inv(c, Exec(c, s, steps))
    decreases |steps|
  {
    if steps != [] {
      StepKeepsInv(c, s, steps[0]);
      ExecKeepsInv(c, Next(c, s, steps[0]), steps[1..]);
    }
  }

  // ----- the theorems -----

  /** In every interleaving answers are conserved, so a query that comes back can
      always send (even after the collector has left), a waiting collector always
      has an answer on its way, and it is done within N timeouts. */
  lemma NeverStuck(c: Setup, steps: seq<Step>)
    requires |c.answers| > 0 && Legal(c, Init(c), steps)
    ensures var s := Exec(c, Init(c), steps);
            && |s.querying| + |s.channel| + |s.received| == |c.answers|
            && (forall r :: r in s.querying ==> Enabled(c, s, Send(r)))
            && (s.phase.Receiving? ==> s.channel != [] || s.querying != {})
            && (s.phase.Receiving? ==> s.now <= c.start + |c.answers| * c.timeout)
            && (s.phase.Done? ==> s.phase.at <= c.start + |c.answers| * c.timeout)
  {
    InitInv(c);
    ExecKeepsInv(c, Init(c), steps);
    var s := Exec(c, Init(c), steps);
    SumBounds(c, s);
    forall r | r in s.querying ensures Enabled(c, s, Send(r)) {
      assert |s.querying - {r}| == |s.querying| - 1;
    }
    if s.phase.Receiving? {
      NextDeadline(c, |s.received|);
    }
  }

  lemma {:induction false} CollectSkips(answers: seq<Answer>, expires: Option<nat>, k: nat)
    requires k <= |answers| && (expires.Some? ==> k <= expires.value)
    requires forall i :: 0 <= i < k ==> answers[i].err.Some?
    ensures Collect(answers, expires, 0, false, NO_ANSWER)
            == Collect(answers, expires, k, SomeAbsent(answers[..k]), LastOf(answers[..k]))
  {
    if k > 0 {
      CollectSkips(answers, expires, k - 1);
      AppendAbsent(answers[..k - 1], answers[k - 1]);
      assert answers[..k - 1] + [answers[k - 1]] == answers[..k];
    }
  }

  lemma SetAsSeq(s: set<nat>) returns (q: seq<nat>)
    ensures multiset(q) == multiset(s)
    decreases |s|
  {
    q := [];
    if s != {} {
      var x :| x in s;
      q := SetAsSeq(s - {x});
      q := q + [x];
      assert multiset(s) == multiset(s - {x}) + multiset{x};
    }
  }

  lemma DoneIsCollect(c: Setup, got: seq<Answer>, now: int, phase: Phase, answers: seq<Answer>)
    requires phase.Done? && PhaseOk(c, got, now, phase)
    requires |answers| == |c.answers| && got <= answers
    ensures Collect(answers, if phase.expired then Some(|got|) else None, 0, false, NO_ANSWER) == phase.result
  {
    if phase.expired {
      CollectSkips(answers, Some(|got|), |got|);
    } else {
      var k := |got| - 1;
      assert answers[..k] == got[..k];
      CollectSkips(answers, None, k);
      AppendAbsent(got[..k], got[k]);
      assert got[..k] + [got[k]] == got;
    }
  }

  lemma ArrivalOrder(c: Setup, s: State) returns (order: seq<nat>)
    requires Inv(c, s)
    ensures s.received <= order && multiset(order) == multiset(Iota(|c.answers|))
  {
    var waiting := SetAsSeq(s.querying);
    order := s.received + s.channel + waiting;
  }

  /** Whatever the interleaving, the collector's result is the read loop's over
      some arrival order of all the answers, with some timer choice. */
  lemma RefinesReadLoop(repos: seq<Repo>, name: string, faults: seq<bool>, c: Setup, steps: seq<Step>)
    requires |faults| == |repos| > 0
    requires |c.answers| == |repos| && forall r :: 0 <= r < |repos| ==> c.answers[r] == AnswerOf(repos, name, faults, r)
    requires Legal(c, Init(c), steps)
    ensures var s := Exec(c, Init(c), steps);
            s.phase.Done? ==>
              exists read :: FitsRead(read, |repos|) && read.faults == faults
                && (read.expires.Some? <==> s.phase.expired) && GetAll(repos, name, read) == s.phase.result
  {
    InitInv(c);
    ExecKeepsInv(c, Init(c), steps);
    var s := Exec(c, Init(c), steps);
    if s.phase.Done? {
      var order := ArrivalOrder(c, s);
      var k := |s.received|;
      var read := Read(order, faults, if s.phase.expired then Some(k) else None);
      var answers := Arrivals(repos, name, read);
      assert forall i :: 0 <= i < k ==> order[i] == s.received[i];
      assert Got(c, s.received) <= answers;
      DoneIsCollect(c, Got(c, s.received), s.now, s.phase, answers);
    }
  }

  /** The timer starts anew with each receive: a collector that waits on after an
      answer can wait for the whole timeout again, and then only expire. */
  lemma TimerRestarts(c: Setup, s: State, d: nat)
    requires InRangeState(c, s) && Enabled(c, s, Receive) && Next(c, s, Receive).phase.Receiving?
    ensures var s1 := Next(c, s, Receive);
            && (Enabled(c, s1, Tick(d)) <==> d <= c.timeout)
            && (d <= c.timeout && InRangeState(c, s1) ==>
                  && Next(c, s1, Tick(d)).now == s.now + d
                  && (Enabled(c, Next(c, s1, Tick(d)), Expire) <==> d == c.timeout))
    ensures Enabled(c, Init(c), Tick(d)) <==> d <= c.timeout
    ensures Enabled(c, Init(c), Expire) <==> c.timeout == 0
  {
  }

  // ----- every read of the loop is the result of some interleaving -----

  function Sends(order: seq<nat>): (steps: seq<Step>)
    ensures |steps| == |order| && forall i :: 0 <= i < |order| ==> steps[i] == Send(order[i])
  {
    seq(|order|, i requires 0 <= i < |order| => Send(order[i]))
  }

  lemma {:induction false} SendAll(c: Setup, s: State, order: seq<nat>)
    requires InRangeState(c, s) && NoDuplicates(order) && |s.channel| + |order| <= |c.answers|
    requires (forall r :: r in order ==> r < |c.answers|) && forall r :: r in s.querying <==> r in order
    ensures Legal(c, s, Sends(order))
    ensures Exec(c, s, Sends(order)) == s.(querying := {}, channel := s.channel + order)
    decreases |order|
  {
    if order == [] {
      assert s.querying == {} && s.channel + order == s.channel;
    } else {
      var s' := Next(c, s, Send(order[0]));
      assert order[0] in order && Sends(order)[1..] == Sends(order[1..]);
      assert s'.channel + order[1..] == s.channel + order;
      assert order == [order[0]] + order[1..];
      assert forall j :: 0 <= j < |order| - 1 ==> order[1..][j] == order[j + 1];
      forall r ensures r in s'.querying <==> r in order[1..] {
        assert r in order <==> r == order[0] || r in order[1..];
      }
      forall r | r in order[1..] ensures r < |c.answers| {
        assert r in order;
      }
      SendAll(c, s', order[1..]);
    }
  }

  lemma OrderIsDistinct(order: seq<nat>, n: nat)
    requires multiset(order) == multiset(Iota(n))
    ensures NoDuplicates(order)
  {
    forall i, j | 0 <= i < j < |order| ensures order[i] != order[j] {
      if order[i] == order[j] {
        var rest := order[..i] + order[i + 1..];
        assert order == order[..i] + [order[i]] + order[i + 1..];
        assert rest[j - 1] == order[j] && order[j] in rest;
        assert multiset(order)[order[i]] == multiset(rest)[order[i]] + 1;
        IotaOnce(n, order[i]);
      }
    }
  }

  /** Everything is buffered, `k` answers are received, and no time has passed. */
  ghost predicate Buffered(c: Setup, s: State, order: seq<nat>, k: nat, notFound: bool, last: Answer) {
    && k < |order| == |c.answers| && (forall r :: r in order ==> r < |c.answers|)
    && s.channel == order[k..] && s.received == order[..k] && s.now == c.start
    && s.phase == Receiving(notFound, last, c.start)
  }

  lemma ExpireNow(c: Setup, s: State, order: seq<nat>, k: nat, notFound: bool, last: Answer)
    requires Buffered(c, s, order, k, notFound, last) && InRangeState(c, s)
    ensures var steps := [Tick(c.timeout), Expire];
            && Legal(c, s, steps) && Exec(c, s, steps).phase.Done?
            && Exec(c, s, steps).phase.result == Answer(last.body, None, Some(Timeout))
  {
    var steps := [Tick(c.timeout), Expire];
    var s1 := Next(c, s, Tick(c.timeout));
    assert steps[1..] == [Expire] && [Expire][1..] == [];
    assert Enabled(c, s1, Expire) && InRangeState(c, s1) && InRangeState(c, Next(c, s1, Expire));
    assert Legal(c, Next(c, s1, Expire), []);
    assert Legal(c, s1, [Expire]);
  }

  lemma ReceiveOne(c: Setup, s: State, order: seq<nat>, k: nat, notFound: bool, last: Answer)
    requires Buffered(c, s, order, k, notFound, last) && InRangeState(c, s)
    ensures Enabled(c, s, Receive) && InRangeState(c, Next(c, s, Receive))
    ensures var (answer, s') := (Got(c, order)[k], Next(c, s, Receive));
            var notFound' := notFound || answer.err == Some(NotFound);
            if answer.err.None? then s'.phase.Done? && s'.phase.result == answer
            else if k + 1 == |order| then
              s'.phase.Done? && s'.phase.result == if notFound' then answer.(err := Some(NotFound)) else answer
            else Buffered(c, s', order, k + 1, notFound', answer)
  {
    var s' := Next(c, s, Receive);
    assert s.channel[0] == order[k] && s.channel[1..] == order[k + 1..];
    assert s'.received == order[..k + 1];
    assert forall r :: r in s'.channel ==> r in s.channel;
  }

  lemma ReceiveAll(
    c: Setup, s: State, order: seq<nat>, expires: Option<nat>, k: nat, notFound: bool, last: Answer)
    returns (steps: seq<Step>)
    requires Buffered(c, s, order, k, notFound, last) && InRangeState(c, s)
    ensures Legal(c, s, steps) && Exec(c, s, steps).phase.Done?
    ensures Exec(c, s, steps).phase.result == Collect(Got(c, order), expires, k, notFound, last)
    decreases |order| - k
  {
    if expires == Some(k) {
      steps := [Tick(c.timeout), Expire];
      ExpireNow(c, s, order, k, notFound, last);
    } else {
      var answer, s' := Got(c, order)[k], Next(c, s, Receive);
      ReceiveOne(c, s, order, k, notFound, last);
      var rest: seq<Step> := [];
      if answer.err.Some? && k + 1 < |order| {
        rest := ReceiveAll(c, s', order, expires, k + 1, notFound || answer.err == Some(NotFound), answer);
      }
      steps := [Receive] + rest;
      assert steps[1..] == rest;
    }
  }

  lemma {:induction false} ExecConcat(c: Setup, s: State, a: seq<Step>, b: seq<Step>)
    requires InRangeState(c, s) && Legal(c, s, a) && InRangeState(c, Exec(c, s, a)) && Legal(c, Exec(c, s, a), b)
    ensures Legal(c, s, a + b) && Exec(c, s, a + b) == Exec(c, Exec(c, s, a), b)
    decreases |a|
  {
    if a == [] {
      assert a + b == b;
    } else {
      assert (a + b)[1..] == a[1..] + b;
      ExecConcat(c, Next(c, s, a[0]), a[1..], b);
    }
  }

  lemma AllSent(c: Setup, order: seq<nat>)
    requires multiset(order) == multiset(Iota(|c.answers|)) && c.answers != []
    ensures Legal(c, Init(c), Sends(order))
    ensures Buffered(c, Exec(c, Init(c), Sends(order)), order, 0, false, NO_ANSWER)
    ensures InRangeState(c, Exec(c, Init(c), Sends(order)))
  {
    var n := |c.answers|;
    OrderCovers(order, n);
    OrderCovers(Iota(n), n);
    OrderIsDistinct(order, n);
    SendAll(c, Init(c), order);
    assert [] + order == order && order[0..] == order && order[..0] == [];
  }

  /** For every arrival order and timer choice some interleaving of the goroutines,
      the channel and the clock ends with the read loop's result. */
  lemma EveryReadHappens(repos: seq<Repo>, name: string, read: Read, c: Setup) returns (steps: seq<Step>)
    requires FitsRead(read, |repos|) && repos != [] && |c.answers| == |repos|
    requires forall r :: 0 <= r < |repos| ==> c.answers[r] == AnswerOf(repos, name, read.faults, r)
    ensures Legal(c, Init(c), steps) && Exec(c, Init(c), steps).phase.Done?
    ensures Exec(c, Init(c), steps).phase.result == GetAll(repos, name, read)
  {
    AllSent(c, read.order);
    var s := Exec(c, Init(c), Sends(read.order));
    var receives := ReceiveAll(c, s, read.order, read.expires, 0, false, NO_ANSWER);
    ExecConcat(c, Init(c), Sends(read.order), receives);
    steps := Sends(read.order) + receives;
    assert Got(c, read.order) == Arrivals(repos, name, read);
  }
}

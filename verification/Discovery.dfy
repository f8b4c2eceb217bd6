/** Gateway discovery: deduplication, renaming and saving with bounded retry
    (cmd/gateboard-discovery/main.go), and the check that configured renames do
    not collide (cmd/gateboard-discovery/creds.go). */
module Discovery {
  import opened GoLib

  datatype Item = Item(name: string, id: string)

  datatype Gateway = Gateway(rename: string, token: string)

  datatype Credential = Credential(region: string, only: map<string, Gateway>, defaultToken: string)

  // ----- dedup -----

  function Occurrences(items: seq<Item>, name: string): nat {
    if items == [] then 0
    else Occurrences(items[..|items| - 1], name) + if items[|items| - 1].name == name then 1 else 0
  }

  datatype Dup = Dup(count: nat, id: string)

  /** Exactly the items whose name occurs once, each once, in some order. */
  ghost predicate Unique(items: seq<Item>, unique: seq<Item>) {
    && (forall i, j :: 0 <= i < j < |unique| ==> unique[i].name != unique[j].name)
    && forall it :: it in unique <==> it in items && Occurrences(items, it.name) == 1
  }

  /** One pass of the counting loop. */
  function Count(table: map<string, Dup>, it: Item): map<string, Dup> {
    var gw := if it.name in table then table[it.name] else Dup(0, it.id);
    table[it.name := gw.(count := gw.count + 1)]
  }

  function Counted(items: seq<Item>): map<string, Dup> {
    if items == [] then map[] else Count(Counted(items[..|items| - 1]), items[|items| - 1])
  }

  lemma {:induction false} CountedMeans(items: seq<Item>, name: string)
    ensures name in Counted(items) <==> Occurrences(items, name) > 0
    ensures name in Counted(items) ==>
              Counted(items)[name].count == Occurrences(items, name) && Item(name, Counted(items)[name].id) in items
    ensures name in Counted(items) && Occurrences(items, name) == 1 ==>
              forall it :: it in items && it.name == name ==> it.id == Counted(items)[name].id
    ensures Occurrences(items, name) == 0 <==> forall it :: it in items ==> it.name != name
  {
    if items != [] {
      var n := |items| - 1;
      CountedMeans(items[..n], name);
      assert items == items[..n] + [items[n]];
    }
  }

  method Dedup(items: seq<Item>) returns (unique: seq<Item>)
    ensures Unique(items, unique)
  {
    var table: map<string, Dup> := map[];
    for i := 0 to |items|
      invariant table == Counted(items[..i])
    {
      assert items[..i + 1][..i] == items[..i];
      table := Count(table, items[i]);
    }
    assert items[..|items|] == items;
    var keys := Enumerate(table.Keys);
    unique := [];
    for i := 0 to |keys|
      invariant forall it :: it in unique <==>
                  it.name in keys[..i] && it.name in table && table[it.name] == Dup(1, it.id)
      invariant forall j, k :: 0 <= j < k < |unique| ==> unique[j].name != unique[k].name
    {
      var k := keys[i];
      assert k in keys;
      assert k !in keys[..i];
      assert keys[..i + 1] == keys[..i] + [k];
      if table[k].count == 1 {
        unique := unique + [Item(k, table[k].id)];
      }
    }
    assert keys[..|keys|] == keys;
    forall it ensures it in unique <==> it in items && Occurrences(items, it.name) == 1 {
      CountedMeans(items, it.name);
    }
  }

  // ----- saving -----

  /** One save: full name, id and write token. */
  datatype Save = Save(full: string, id: string, token: string)

  datatype Called = Called(save: Save, ok: bool)

  /** With a filter only listed names are taken. */
  predicate Accepted(cred: Credential, name: string) { cred.only == map[] || name in cred.only }

  function RenameOf(cred: Credential, name: string): string {
    if name in cred.only && cred.only[name].rename != "" then cred.only[name].rename else name
  }

  function TokenOf(cred: Credential, name: string): string {
    if name in cred.only && cred.only[name].token != "" then cred.only[name].token else cred.defaultToken
  }

  function FullName(cred: Credential, account: string, name: string): string {
    account + ":" + cred.region + ":" + RenameOf(cred, name)
  }

  function Targets(unique: seq<Item>, cred: Credential, account: string): seq<Save> {
    if unique == [] then []
    else
      var it := unique[|unique| - 1];
      Targets(unique[..|unique| - 1], cred, account)
      + if Accepted(cred, it.name) then [Save(FullName(cred, account, it.name), it.id, TokenOf(cred, it.name))] else []
  }

  /** The calls for one target: up to `retry`, all failing except perhaps the
      last, which succeeds unless the attempts ran out. */
  predicate Attempts(calls: seq<Called>, target: Save, retry: int) {
    && 1 <= |calls| <= retry
    && (forall i :: 0 <= i < |calls| ==> calls[i].save == target)
    && (forall i :: 0 <= i < |calls| - 1 ==> !calls[i].ok)
    && (|calls| < retry ==> calls[|calls| - 1].ok)
  }

  /** The log is one block of attempts per target, `saved` of them successful. */
  ghost predicate Explains(log: seq<Called>, targets: seq<Save>, retry: int, saved: int) {
    if targets == [] || retry < 1 then log == [] && saved == 0
    else exists n :: 0 <= n < |log| && Attempts(log[n..], targets[|targets| - 1], retry)
           && Explains(log[..n], targets[..|targets| - 1], retry, saved - if log[|log| - 1].ok then 1 else 0)
  }

  lemma ExplainsMore(log: seq<Called>, targets: seq<Save>, retry: int, saved: int, calls: seq<Called>, target: Save)
    requires retry >= 1 && Explains(log, targets, retry, saved) && Attempts(calls, target, retry)
    ensures Explains(log + calls, targets + [target], retry, saved + if calls[|calls| - 1].ok then 1 else 0)
  {
    var n := |log|;
    assert (log + calls)[n..] == calls && (log + calls)[..n] == log;
    assert (targets + [target])[..|targets|] == targets;
  }

  /** Where saves go; each may fail. */
  class Saver {
    var log: seq<Called>

    constructor ()
      ensures log == []
    {
      log := [];
    }

    method Call(save: Save) returns (ok: bool)
      modifies this
      ensures log == old(log) + [Called(save, ok)]
    {
      ok := *;
      log := log + [Called(save, ok)];
    }
  }

  /** The attempts for one gateway. */
  method SaveOne(saver: Saver, target: Save, retry: int) returns (ok: bool, ghost calls: seq<Called>)
    modifies saver
    ensures saver.log == old(saver.log) + calls
    ensures retry < 1 ==> calls == [] && !ok
    ensures retry >= 1 ==> Attempts(calls, target, retry) && ok == calls[|calls| - 1].ok
  {
    calls := [];
    ok := false;
    var attempt := 1;
    while attempt <= retry
      invariant 1 <= attempt && (attempt == 1 || attempt <= retry + 1) && |calls| == attempt - 1 && !ok
      invariant saver.log == old(saver.log) + calls
      invariant forall i :: 0 <= i < |calls| ==> calls[i] == Called(target, false)
      decreases retry - attempt
    {
      ok := saver.Call(target);
      calls := calls + [Called(target, ok)];
      if ok {
        return;
      }
      attempt := attempt + 1;
    }
  }

  /** The target of an accepted gateway, None when it is filtered out. */
  method TargetOf(it: Item, cred: Credential, account: string) returns (target: Option<Save>)
    ensures target == if Accepted(cred, it.name)
                      then Some(Save(FullName(cred, account, it.name), it.id, TokenOf(cred, it.name))) else None
  {
    var rename, token := it.name, cred.defaultToken;
    if |cred.only| != 0 {
      if it.name !in cred.only {
        return None;
      }
      var gw := cred.only[it.name];
      if gw.rename != "" {
        rename := gw.rename;
      }
      if gw.token != "" {
        token := gw.token;
      }
    }
    return Some(Save(account + ":" + cred.region + ":" + rename, it.id, token));
  }

  lemma TargetsNext(unique: seq<Item>, cred: Credential, account: string, i: nat)
    requires i < |unique|
    ensures Targets(unique[..i + 1], cred, account) ==
            if Accepted(cred, unique[i].name) then
              Targets(unique[..i], cred, account)
              + [Save(FullName(cred, account, unique[i].name), unique[i].id, TokenOf(cred, unique[i].name))]
            else Targets(unique[..i], cred, account)
  {
    assert unique[..i + 1][..i] == unique[..i];
  }

  /** The attempts for one more gateway, and the counter. */
  method SaveCounted(
    saver: Saver, target: Save, retry: int, saved: nat, ghost log: seq<Called>, ghost targets: seq<Save>)
    returns (saved': nat, ghost calls: seq<Called>)
    requires Explains(log, targets, retry, saved)
    modifies saver
    ensures saver.log == old(saver.log) + calls
    ensures Explains(log + calls, targets + [target], retry, saved')
  {
    saved' := saved;
    var ok;
    ok, calls := SaveOne(saver, target, retry);
    if ok {
      saved' := saved' + 1;
    }
    if retry >= 1 {
      ExplainsMore(log, targets, retry, saved, calls, target);
    }
  }

  /** The loop over the unique gateways. */
  method SaveAll(saver: Saver, unique: seq<Item>, cred: Credential, account: string, dryRun: bool, retry: int)
    returns (saved: nat, ghost calls: seq<Called>)
    modifies saver
    ensures saver.log == old(saver.log) + calls
    ensures if dryRun then calls == [] && saved == 0
            else Explains(calls, Targets(unique, cred, account), retry, saved)
  {
    saved, calls := 0, [];
    for i := 0 to |unique|
      invariant saver.log == old(saver.log) + calls
      invariant if dryRun then calls == [] && saved == 0
                else Explains(calls, Targets(unique[..i], cred, account), retry, saved)
    {
      TargetsNext(unique, cred, account, i);
      var target := TargetOf(unique[i], cred, account);
      if target.Some? && !dryRun {
        ghost var block;
        saved, block := SaveCounted(saver, target.value, retry, saved, calls, Targets(unique[..i], cred, account));
        ConcatAssociative(old(saver.log), calls, block);
        calls := calls + block;
      }
    }
    assert unique[..|unique|] == unique;
  }

  /** The log ends with the last target's block. */
  lemma LastBlock(log: seq<Called>, targets: seq<Save>, retry: int, saved: int) returns (n: nat, before: int)
    requires Explains(log, targets, retry, saved) && retry >= 1 && targets != []
    ensures n < |log| && Attempts(log[n..], targets[|targets| - 1], retry)
    ensures Explains(log[..n], targets[..|targets| - 1], retry, before)
    ensures saved == before + if log[|log| - 1].ok then 1 else 0
  {
    before := saved - if log[|log| - 1].ok then 1 else 0;
    n :| 0 <= n < |log| && Attempts(log[n..], targets[|targets| - 1], retry)
         && Explains(log[..n], targets[..|targets| - 1], retry, before);
  }

  // ----- which saves are made -----

  /** The save that this item asks for: it is not filtered out; its full name is
      the account, the region and the configured name if there is one; its token is
      the configured one if there is one. */
  predicate Wants(cred: Credential, account: string, it: Item, s: Save) {
    var listed := it.name in cred.only;
    && (cred.only == map[] || listed)
    && s.full == account + ":" + cred.region + ":"
                 + (if listed && cred.only[it.name].rename != "" then cred.only[it.name].rename else it.name)
    && s.id == it.id
    && s.token == if listed && cred.only[it.name].token != "" then cred.only[it.name].token else cred.defaultToken
  }

  ghost predicate ShouldSave(items: seq<Item>, cred: Credential, account: string, s: Save) {
    exists it :: it in items && Occurrences(items, it.name) == 1 && Wants(cred, account, it, s)
  }

  ghost predicate IsCalled(log: seq<Called>, s: Save) { exists k :: 0 <= k < |log| && log[k].save == s }

  lemma LastIsWanted(cred: Credential, account: string, it: Item, s: Save)
    ensures Wants(cred, account, it, s) <==>
            Accepted(cred, it.name) && s == Save(FullName(cred, account, it.name), it.id, TokenOf(cred, it.name))
  {
  }

  lemma {:induction false} TargetsAreWanted(unique: seq<Item>, cred: Credential, account: string, s: Save)
    ensures s in Targets(unique, cred, account) <==> exists it :: it in unique && Wants(cred, account, it, s)
  {
    if unique != [] {
      var front, it := unique[..|unique| - 1], unique[|unique| - 1];
      TargetsAreWanted(front, cred, account, s);
      assert unique == front + [it];
      LastIsWanted(cred, account, it, s);
    }
  }

  lemma {:induction false} CalledAreTargets(log: seq<Called>, targets: seq<Save>, retry: int, saved: int, s: Save)
    requires Explains(log, targets, retry, saved) && retry >= 1
    ensures IsCalled(log, s) <==> s in targets
  {
    if targets != [] {
      var front, last := targets[..|targets| - 1], targets[|targets| - 1];
      var n, before := LastBlock(log, targets, retry, saved);
      CalledAreTargets(log[..n], front, retry, before, s);
      assert targets == front + [last];
      assert log[n..][0] == log[n];
      forall k | 0 <= k < |log| ensures log[k].save == if k < n then log[..n][k].save else last {
        if k >= n {
          assert log[n..][k - n] == log[k];
        }
      }
    }
  }

  /** The saves called are exactly those the items ask for. */
  lemma SavesExactly(
    items: seq<Item>, unique: seq<Item>, cred: Credential, account: string, log: seq<Called>, retry: int, saved: int,
    s: Save)
    requires Unique(items, unique) && retry >= 1
    requires Explains(log, Targets(unique, cred, account), retry, saved)
    ensures IsCalled(log, s) <==> ShouldSave(items, cred, account, s)
  {
    CalledAreTargets(log, Targets(unique, cred, account), retry, saved, s);
    TargetsAreWanted(unique, cred, account, s);
  }

  /** Calls `a` to `b` are the calls to `t`, all of them; none but the last may
      succeed, and if it does not there are `retry` of them. */
  ghost predicate TriedAt(log: seq<Called>, t: Save, retry: int, a: int, b: int) {
    && 0 <= a < b <= |log| && b - a <= retry
    && (forall k :: 0 <= k < |log| ==> (log[k].save == t <==> a <= k < b))
    && (forall k :: a <= k < b - 1 ==> !log[k].ok)
    && (log[b - 1].ok || b - a == retry)
  }

  lemma LastTried(log: seq<Called>, n: nat, t: Save, retry: int)
    requires n < |log| && Attempts(log[n..], t, retry) && !IsCalled(log[..n], t)
    ensures TriedAt(log, t, retry, n, |log|)
  {
    forall k | 0 <= k < |log| ensures k < n ==> log[k].save != t ensures k >= n ==> log[k] == log[n..][k - n] {
      if k < n {
        assert log[..n][k] == log[k];
      }
    }
  }

  lemma TriedEarlier(log: seq<Called>, n: nat, last: Save, t: Save, retry: int, a: int, b: int)
    requires n < |log| && Attempts(log[n..], last, retry) && t != last && TriedAt(log[..n], t, retry, a, b)
    ensures TriedAt(log, t, retry, a, b)
  {
    forall k | 0 <= k < |log|
      ensures k < n ==> log[k] == log[..n][k]
      ensures k >= n ==> log[k].save == last
    {
      if k >= n {
        assert log[n..][k - n] == log[k];
      }
    }
  }

  /** Each distinct save is tried in one go until it succeeds or has been tried
      `retry` times. */
  lemma {:induction false} TriedUntilSuccess(
    log: seq<Called>, targets: seq<Save>, retry: int, saved: int, t: Save) returns (a: int, b: int)
    requires Explains(log, targets, retry, saved) && retry >= 1 && NoDuplicates(targets) && t in targets
    ensures TriedAt(log, t, retry, a, b)
  {
    var front, last := targets[..|targets| - 1], targets[|targets| - 1];
    var n, before := LastBlock(log, targets, retry, saved);
    if t == last {
      CalledAreTargets(log[..n], front, retry, before, t);
      LastTried(log, n, t, retry);
      a, b := n, |log|;
    } else {
      a, b := TriedUntilSuccess(log[..n], front, retry, before, t);
      TriedEarlier(log, n, last, t, retry, a, b);
    }
  }

  /** findGateways. */
  method FindGateways(saver: Saver, items: seq<Item>, cred: Credential, account: string, dryRun: bool, retry: int)
    returns (saved: nat)
    modifies saver
    ensures old(saver.log) <= saver.log
    ensures dryRun ==> saver.log == old(saver.log) && saved == 0
    ensures !dryRun ==>
              exists unique :: Unique(items, unique)
                && Explains(saver.log[|old(saver.log)|..], Targets(unique, cred, account), retry, saved)
    ensures retry < 1 ==> saver.log == old(saver.log) && saved == 0
    ensures !dryRun && retry >= 1 ==>
              forall s :: IsCalled(saver.log[|old(saver.log)|..], s) <==> ShouldSave(items, cred, account, s)
  {
    var unique := Dedup(items);
    ghost var calls;
    saved, calls := SaveAll(saver, unique, cred, account, dryRun, retry);
    assert saver.log[|old(saver.log)|..] == calls;
    if !dryRun && retry >= 1 {
      forall s ensures IsCalled(calls, s) <==> ShouldSave(items, cred, account, s) {
        SavesExactly(items, unique, cred, account, calls, retry, saved, s);
      }
    }
  }

  function Successes(log: seq<Called>): nat {
    if log == [] then 0 else Successes(log[..|log| - 1]) + if log[|log| - 1].ok then 1 else 0
  }

  function CallsTo(log: seq<Called>, target: Save): nat {
    if log == [] then 0 else CallsTo(log[..|log| - 1], target) + if log[|log| - 1].save == target then 1 else 0
  }

  lemma {:induction false} TailCounts(log: seq<Called>, n: nat, k: nat, target: Save, t: Save)
    requires n <= k < |log|
    requires forall i :: n <= i < |log| ==> log[i].save == target
    requires forall i :: n <= i < |log| - 1 ==> !log[i].ok
    ensures Successes(log[..k]) == Successes(log[..n])
    ensures CallsTo(log[..k], t) == CallsTo(log[..n], t) + if t == target then k - n else 0
    ensures Successes(log) == Successes(log[..|log| - 1]) + if log[|log| - 1].ok then 1 else 0
  {
    if n < k {
      TailCounts(log, n, k - 1, target, t);
      assert log[..k][..k - 1] == log[..k - 1];
    }
  }

  lemma {:induction false} BlockCounts(log: seq<Called>, n: nat, target: Save, retry: int, t: Save)
    requires n < |log| && Attempts(log[n..], target, retry)
    ensures Successes(log) == Successes(log[..n]) + if log[|log| - 1].ok then 1 else 0
    ensures CallsTo(log, t) == CallsTo(log[..n], t) + if t == target then |log| - n else 0
  {
    assert forall i :: n <= i < |log| ==> log[i] == log[n..][i - n];
    TailCounts(log, n, |log| - 1, target, t);
  }

  /** `saved` counts exactly the successful saves, at most one per target. */
  lemma {:induction false} SavedIsSuccesses(log: seq<Called>, targets: seq<Save>, retry: int, saved: int)
    requires Explains(log, targets, retry, saved) && retry >= 1
    ensures saved == Successes(log) <= |targets|
  {
    if targets != [] {
      var front, last := targets[..|targets| - 1], targets[|targets| - 1];
      var n, before := LastBlock(log, targets, retry, saved);
      BlockCounts(log, n, last, retry, last);
      SavedIsSuccesses(log[..n], front, retry, before);
    }
  }

  /** Only targets are called. */
  lemma {:induction false} OthersAreNotCalled(log: seq<Called>, targets: seq<Save>, retry: int, saved: int, t: Save)
    requires Explains(log, targets, retry, saved) && retry >= 1 && t !in targets
    ensures CallsTo(log, t) == 0
  {
    if targets != [] {
      var front, last := targets[..|targets| - 1], targets[|targets| - 1];
      var n, before := LastBlock(log, targets, retry, saved);
      BlockCounts(log, n, last, retry, t);
      OthersAreNotCalled(log[..n], front, retry, before, t);
    }
  }

  /** Distinct targets are called between 1 and `retry` times each. */
  lemma {:induction false} CallsAreBounded(log: seq<Called>, targets: seq<Save>, retry: int, saved: int, t: Save)
    requires Explains(log, targets, retry, saved) && retry >= 1 && NoDuplicates(targets) && t in targets
    ensures 1 <= CallsTo(log, t) <= retry
  {
    var front, last := targets[..|targets| - 1], targets[|targets| - 1];
    var n, before := LastBlock(log, targets, retry, saved);
    BlockCounts(log, n, last, retry, t);
    if t == last {
      OthersAreNotCalled(log[..n], front, retry, before, t);
    } else {
      CallsAreBounded(log[..n], front, retry, before, t);
    }
  }

  // ----- the rename check over all credentials -----

  /** Positions (credential, gateway) with a configured rename. */
  predicate Renames(creds: seq<Credential>, i: int, name: string) {
    0 <= i < |creds| && name in creds[i].only && creds[i].only[name].rename != ""
  }

  ghost predicate RenamesDistinct(creds: seq<Credential>) {
    forall i, name, j, other :: Renames(creds, i, name) && Renames(creds, j, other) && (i, name) != (j, other) ==>
      creds[i].only[name].rename != creds[j].only[other].rename
  }

  /** The positions seen before position (i, k) of the nested loops. */
  ghost predicate Seen(i: int, names: seq<string>, j: int, name: string) { j < i || (j == i && name in names) }

  ghost predicate Tabled(creds: seq<Credential>, i: int, names: seq<string>, table: set<string>) {
    && (forall j, name :: Renames(creds, j, name) && Seen(i, names, j, name) ==> creds[j].only[name].rename in table)
    && (forall r :: r in table ==> exists j, name :: Renames(creds, j, name) && Seen(i, names, j, name)
                                     && creds[j].only[name].rename == r)
    && (forall j, name, k, other ::
          Renames(creds, j, name) && Renames(creds, k, other) && (j, name) != (k, other)
          && Seen(i, names, j, name) && Seen(i, names, k, other) ==>
            creds[j].only[name].rename != creds[k].only[other].rename)
  }

  lemma TableSkips(creds: seq<Credential>, i: int, names: seq<string>, name: string, table: set<string>)
    requires Tabled(creds, i, names, table) && !Renames(creds, i, name)
    ensures Tabled(creds, i, names + [name], table)
  {
    assert forall j, n :: Renames(creds, j, n) ==> (Seen(i, names + [name], j, n) <==> Seen(i, names, j, n));
  }

  lemma TableGrows(creds: seq<Credential>, i: int, names: seq<string>, name: string, table: set<string>)
    requires Tabled(creds, i, names, table) && Renames(creds, i, name) && name !in names
    requires creds[i].only[name].rename !in table
    ensures Tabled(creds, i, names + [name], table + {creds[i].only[name].rename})
  {
    assert forall j, n :: Seen(i, names + [name], j, n) <==> Seen(i, names, j, n) || (j, n) == (i, name);
  }

  lemma TableRepeats(creds: seq<Credential>, i: int, names: seq<string>, name: string, table: set<string>)
    requires Tabled(creds, i, names, table) && Renames(creds, i, name) && name !in names
    requires creds[i].only[name].rename in table
    ensures !RenamesDistinct(creds)
  {
    var j, other :| Renames(creds, j, other) && Seen(i, names, j, other)
                    && creds[j].only[other].rename == creds[i].only[name].rename;
    assert !Seen(i, names, i, name);
  }

  lemma TableNextRow(creds: seq<Credential>, i: int, names: seq<string>, table: set<string>)
    requires 0 <= i < |creds| && Tabled(creds, i, names, table)
    requires forall name :: name in names <==> name in creds[i].only
    ensures Tabled(creds, i + 1, [], table)
  {
    assert forall j, n :: Renames(creds, j, n) ==> (Seen(i + 1, [], j, n) <==> Seen(i, names, j, n));
  }

  /** One gateway of the inner loop. */
  method CheckGateway(creds: seq<Credential>, i: nat, name: string, table: set<string>, ghost before: seq<string>)
    returns (ok: bool, grown: set<string>)
    requires i < |creds| && name in creds[i].only && name !in before && Tabled(creds, i, before, table)
    ensures ok ==> Tabled(creds, i, before + [name], grown)
    ensures !ok ==> !RenamesDistinct(creds)
  {
    var rename := creds[i].only[name].rename;
    if rename == "" {
      TableSkips(creds, i, before, name, table);
      return true, table;
    }
    if rename in table {
      TableRepeats(creds, i, before, name, table);
      return false, table;
    }
    TableGrows(creds, i, before, name, table);
    return true, table + {rename};
  }

  /** The inner loop, over one credential's gateways. */
  method CheckCredential(creds: seq<Credential>, i: nat, table: set<string>) returns (ok: bool, grown: set<string>)
    requires i < |creds| && Tabled(creds, i, [], table)
    ensures ok ==> Tabled(creds, i + 1, [], grown)
    ensures !ok ==> !RenamesDistinct(creds)
  {
    grown := table;
    var names := Enumerate(creds[i].only.Keys);
    for k := 0 to |names|
      invariant Tabled(creds, i, names[..k], grown)
    {
      assert names[k] in names && names[k] !in names[..k];
      assert names[..k + 1] == names[..k] + [names[k]];
      ok, grown := CheckGateway(creds, i, names[k], grown, names[..k]);
      if !ok {
        return;
      }
    }
    assert names[..|names|] == names;
    TableNextRow(creds, i, names, grown);
    ok := true;
  }

  /** The check of loadCredentialsFromReader. */
  method CheckRenames(creds: seq<Credential>) returns (ok: bool)
    ensures ok <==> RenamesDistinct(creds)
  {
    var table := {};
    for i := 0 to |creds|
      invariant Tabled(creds, i, [], table)
    {
      ok, table := CheckCredential(creds, i, table);
      if !ok {
        return false;
      }
    }
    assert forall j, name :: Renames(creds, j, name) ==> Seen(|creds|, [], j, name);
    return true;
  }

  /** An accepted gateway keeps a name that another one is renamed to. */
  ghost predicate Clash(unique: seq<Item>, cred: Credential, i: int, j: int) {
    && 0 <= i < |unique| && 0 <= j < |unique|
    && Accepted(cred, unique[i].name) && Renames([cred], 0, unique[j].name)
    && !Renames([cred], 0, unique[i].name) && cred.only[unique[j].name].rename == unique[i].name
  }

  ghost predicate FullNamesDistinct(unique: seq<Item>, cred: Credential, account: string) {
    forall i, j :: 0 <= i < j < |unique| && Accepted(cred, unique[i].name) && Accepted(cred, unique[j].name) ==>
      FullName(cred, account, unique[i].name) != FullName(cred, account, unique[j].name)
  }

  lemma FullNameInjective(cred: Credential, account: string, a: string, b: string)
    ensures FullName(cred, account, a) == FullName(cred, account, b) <==> RenameOf(cred, a) == RenameOf(cred, b)
  {
    var p := account + ":" + cred.region + ":";
    assert FullName(cred, account, a)[|p|..] == RenameOf(cred, a);
    assert FullName(cred, account, b)[|p|..] == RenameOf(cred, b);
  }

  lemma SameRename(unique: seq<Item>, cred: Credential, i: int, j: int)
    requires RenamesDistinct([cred]) && 0 <= i < |unique| && 0 <= j < |unique| && unique[i].name != unique[j].name
    requires Accepted(cred, unique[i].name) && Accepted(cred, unique[j].name)
    ensures RenameOf(cred, unique[i].name) == RenameOf(cred, unique[j].name) ==>
              Clash(unique, cred, i, j) || Clash(unique, cred, j, i)
  {
    var (a, b) := (unique[i].name, unique[j].name);
    assert Renames([cred], 0, a) && Renames([cred], 0, b) ==> (0, a) != (0, b);
  }

  /** Renames checked over all credentials are distinct within each. */
  lemma OneCredential(creds: seq<Credential>, k: nat)
    requires RenamesDistinct(creds) && k < |creds|
    ensures RenamesDistinct([creds[k]])
  {
    forall i, name, j, other |
      Renames([creds[k]], i, name) && Renames([creds[k]], j, other) && (i, name) != (j, other)
      ensures creds[k].only[name].rename != creds[k].only[other].rename
    {
      assert Renames(creds, k, name) && Renames(creds, k, other);
    }
  }

  /** Once the check over all credentials has passed, the full names saved for
      each of them are pairwise distinct exactly when no kept name equals another
      gateway's rename. */
  lemma DistinctFullNames(
    items: seq<Item>, unique: seq<Item>, creds: seq<Credential>, k: nat, account: string)
    requires Unique(items, unique) && RenamesDistinct(creds) && k < |creds|
    ensures FullNamesDistinct(unique, creds[k], account) <==> !exists i, j :: Clash(unique, creds[k], i, j)
  {
    var cred := creds[k];
    OneCredential(creds, k);
    forall i, j | 0 <= i < j < |unique|
      ensures FullName(cred, account, unique[i].name) == FullName(cred, account, unique[j].name)
              <==> RenameOf(cred, unique[i].name) == RenameOf(cred, unique[j].name)
    {
      FullNameInjective(cred, account, unique[i].name, unique[j].name);
    }
    if i, j :| Clash(unique, cred, i, j) {
      assert RenameOf(cred, unique[i].name) == RenameOf(cred, unique[j].name);
      assert i != j;
    }
    forall i, j | 0 <= i < j < |unique| && Accepted(cred, unique[i].name) && Accepted(cred, unique[j].name)
      ensures RenameOf(cred, unique[i].name) == RenameOf(cred, unique[j].name) ==>
                Clash(unique, cred, i, j) || Clash(unique, cred, j, i)
    {
      SameRename(unique, cred, i, j);
    }
  }

  lemma {:induction false} TargetsAreAccepted(unique: seq<Item>, cred: Credential, account: string, t: Save)
    requires t in Targets(unique, cred, account)
    ensures exists i :: 0 <= i < |unique| && Accepted(cred, unique[i].name)
                        && t.full == FullName(cred, account, unique[i].name)
  {
    var n := |unique| - 1;
    if t in Targets(unique[..n], cred, account) {
      TargetsAreAccepted(unique[..n], cred, account, t);
      var i :| 0 <= i < n && Accepted(cred, unique[..n][i].name)
               && t.full == FullName(cred, account, unique[..n][i].name);
      assert unique[i] == unique[..n][i];
    } else {
      assert Accepted(cred, unique[n].name);
    }
  }

  /** Distinct full names make distinct targets, so the call bounds apply. */
  lemma {:induction false} TargetsDistinct(unique: seq<Item>, cred: Credential, account: string)
    requires FullNamesDistinct(unique, cred, account)
    ensures NoDuplicates(Targets(unique, cred, account))
  {
    if unique != [] {
      var n := |unique| - 1;
      TargetsDistinct(unique[..n], cred, account);
      if Accepted(cred, unique[n].name) {
        forall t | t in Targets(unique[..n], cred, account)
          ensures t.full != FullName(cred, account, unique[n].name)
        {
          TargetsAreAccepted(unique[..n], cred, account, t);
        }
      }
    }
  }
}

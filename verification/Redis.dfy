/** The redis repository of cmd/gateboard/repository_redis.go: every field of
    every gateway in one flat hash, under "gateway:<field>:<gateway name>". */
module Redis {
  import opened GoLib
  import opened RecordTable
  import Repository

  const PREFIX := "gateway:"
  const ID := "gateway_id"
  const CHANGES := "changes"
  const LAST_UPDATE := "last_update"
  const TOKEN := "token"

  type Hash = map<string, string>

  /** A name that can stand in the middle of a key. */
  predicate Plain(field: string) { ':' !in field && field != GATEWAY_NAME }

  lemma FieldNames()
    ensures Plain(ID) && Plain(CHANGES) && Plain(LAST_UPDATE) && Plain(TOKEN)
    ensures |ID| == 10 && |CHANGES| == 7 && |LAST_UPDATE| == 11 && |TOKEN| == 5
  {
  }

  function Field(name: string, field: string): string { PREFIX + field + ":" + name }

  /** The four keys of a gateway. */
  lemma KeyTexts(name: string)
    ensures Field(name, ID) == "gateway:gateway_id:" + name
    ensures Field(name, CHANGES) == "gateway:changes:" + name
    ensures Field(name, LAST_UPDATE) == "gateway:last_update:" + name
    ensures Field(name, TOKEN) == "gateway:token:" + name
  {
  }

  /** What dump makes of a key: the field and the gateway name. */
  function DecodeKey(key: string): (string, string) {
    var (_, after, _) := Cut(key, ':');
    var (field, name, _) := Cut(after, ':');
    (field, name)
  }

  /** Decoding inverts the key for every name, colons included, as long as the
      field itself has none. */
  lemma DecodeEncode(name: string, field: string)
    requires ':' !in field
    ensures DecodeKey(Field(name, field)) == (field, name)
  {
    CutConcat("gateway", ':', field + ":" + name);
    assert Field(name, field) == "gateway" + [':'] + (field + ":" + name);
    CutConcat(field, ':', name);
    assert field + ":" + name == field + [':'] + name;
  }

  lemma FieldsDistinct(name1: string, field1: string, name2: string, field2: string)
    requires Plain(field1) && Plain(field2)
    ensures Field(name1, field1) == Field(name2, field2) <==> name1 == name2 && field1 == field2
  {
    DecodeEncode(name1, field1);
    DecodeEncode(name2, field2);
  }

  // ----- reading one gateway -----

  datatype Error = Fault | BadName | BadId | MissingField(field: string)

  datatype Body = Body(name: string, id: string, changes: int, lastUpdate: string, token: string)

  /** strconv.ParseInt's value, whose error is only logged. */
  function ParseIntValue(s: string): int {
    match ParseDecimal(s)
    case None => 0
    case Some(v) => if v > MAX_INT then MAX_INT else if v < -MAX_INT - 1 then -MAX_INT - 1 else v
  }

  /** A counter's text is its value; one that does not fit is the nearest bound,
      and a text that is no number is zero. */
  lemma CounterTexts(sign: string, digits: string)
    requires sign in {"", "+", "-"} && digits != "" && forall c :: c in digits ==> IsDigit(c)
    ensures var (n: int, negative) := (DigitsValue(digits), sign == "-");
            ParseIntValue(sign + digits) ==
            if negative then (if n > MAX_INT + 1 then -MAX_INT - 1 else -n) else if n > MAX_INT then MAX_INT else n
    ensures forall s :: ParseDecimal(s).None? ==> ParseIntValue(s) == 0
  {
    var s := sign + digits;
    assert digits[0] in digits;
    if sign == "" {
      assert s == digits;
    } else {
      assert s[0] == sign[0] && s[1..] == digits;
    }
  }

  function HGet(h: Hash, key: string): Option<string> { if key in h then Some(h[key]) else None }

  /** HMGet never reports a missing hash or field as an error, only as a nil. */
  function GetResult(h: Hash, name: string, fault: bool): Result<Body, Error> {
    if !Repository.ValidName(name) then Err(BadName)
    else if fault then Err(Fault)
    else
      match HGet(h, Field(name, ID))
      case None => Err(MissingField(ID))
      case Some(id) =>
        match HGet(h, Field(name, CHANGES))
        case None => Err(MissingField(CHANGES))
        case Some(changes) =>
          match HGet(h, Field(name, LAST_UPDATE))
          case None => Err(MissingField(LAST_UPDATE))
          case Some(last) =>
            var token := HGet(h, Field(name, TOKEN));
            Ok(Body(name, id, ParseIntValue(changes), last, if token.None? then "" else token.value))
  }

  // ----- writing -----

  /** One more than a canonical integer that does not overflow. */
  function OneAbove(current: string): Option<string> {
    match Atoi(current)
    case Some(v) => if Printed(v) == current && v < MAX_INT then Some(Printed(v + 1)) else None
    case None => None
  }

  /** HINCRBY 1: a missing value counts as zero, one that is not such an integer
      is an error and stays. */
  function Incremented(h: Hash, key: string): Hash {
    if key !in h then h[key := Printed(1)]
    else
      match OneAbove(h[key])
      case Some(next) => h[key := next]
      case None => h
  }

  /** Which of the three commands of a put fail. */
  datatype PutFaults = PutFaults(setId: bool, increment: bool, setTime: bool)

  const NO_FAULTS := PutFaults(false, false, false)

  function PutError(name: string, id: string, f: PutFaults): Option<Error> {
    if !Repository.ValidName(name) then Some(BadName)
    else if Repository.BlankId(id) then Some(BadId)
    else if f.setId then Some(Fault)
    else None
  }

  function PutHash(h: Hash, name: string, id: string, now: string, f: PutFaults): Hash {
    if PutError(name, id, f).Some? then h
    else
      var h1 := h[Field(name, ID) := id];
      var h2 := if f.increment then h1 else Incremented(h1, Field(name, CHANGES));
      if f.setTime then h2 else h2[Field(name, LAST_UPDATE) := now]
  }

  /** A put's error is the first that applies, a get's too; only an accepted put
      writes, and every key starts with what the scan matches. */
  lemma RedisErrors(h: Hash, name: string, id: string, now: string, f: PutFaults, fault: bool)
    ensures PutError(name, id, f) == Some(BadName) <==> !Repository.ValidName(name)
    ensures PutError(name, id, f) == Some(BadId) <==> Repository.ValidName(name) && AllSpace(id)
    ensures PutError(name, id, f) == Some(Fault) <==> Repository.ValidName(name) && !AllSpace(id) && f.setId
    ensures PutError(name, id, f).None? <==> Repository.ValidName(name) && !AllSpace(id) && !f.setId
    ensures PutError(name, id, f).Some? ==> PutHash(h, name, id, now, f) == h
    ensures GetResult(h, name, fault) == Err(BadName) <==> !Repository.ValidName(name)
    ensures GetResult(h, name, fault) == Err(Fault) <==> Repository.ValidName(name) && fault
  {
    Repository.BlankIds(id);
  }

  function PutTokenHash(h: Hash, name: string, token: string, fault: bool): Hash {
    if fault then h else h[Field(name, TOKEN) := token]
  }

  /** Writing one name, with any of its commands failing, leaves every field of
      every other name alone. */
  lemma WritesAreSeparate(h: Hash, name: string, id: string, now: string, f: PutFaults, token: string, fault: bool,
                          other: string, field: string)
    requires other != name && Plain(field)
    ensures HGet(PutHash(h, name, id, now, f), Field(other, field)) == HGet(h, Field(other, field))
    ensures HGet(PutTokenHash(h, name, token, fault), Field(other, field)) == HGet(h, Field(other, field))
  {
    FieldNames();
    FieldsDistinct(name, ID, other, field);
    FieldsDistinct(name, CHANGES, other, field);
    FieldsDistinct(name, LAST_UPDATE, other, field);
    FieldsDistinct(name, TOKEN, other, field);
  }

  // ----- dump -----

  /** The decoder between two items of the scan. */
  datatype Scan = Scan(tab: map<string, Row>, isKey: bool, field: string, name: string)

  const SCAN_START := Scan(map[], true, "", "")

  function ScanItem(s: Scan, val: string): Scan {
    if s.isKey then
      var (field, name) := DecodeKey(val);
      Scan(s.tab, false, field, name)
    else Scan(Add(s.tab, Item(s.field, s.name, val)), true, s.field, s.name)
  }

  function ScanAll(items: seq<string>): Scan {
    if items == [] then SCAN_START else ScanItem(ScanAll(items[..|items| - 1]), items[|items| - 1])
  }

  /** HSCAN's output: keys and values alternating. */
  function Flatten(pairs: seq<(string, string)>): seq<string> {
    if pairs == [] then []
    else Flatten(pairs[..|pairs| - 1]) + [pairs[|pairs| - 1].0, pairs[|pairs| - 1].1]
  }

  function Decoded(pairs: seq<(string, string)>): (items: seq<Item>)
    ensures |items| == |pairs|
    ensures forall i :: 0 <= i < |pairs| ==>
              items[i] == Item(DecodeKey(pairs[i].0).0, DecodeKey(pairs[i].0).1, pairs[i].1)
  {
    seq(|pairs|, i requires 0 <= i < |pairs| => Item(DecodeKey(pairs[i].0).0, DecodeKey(pairs[i].0).1, pairs[i].1))
  }

  predicate ProperKey(key: string) {
    Plain(DecodeKey(key).0) && key == Field(DecodeKey(key).1, DecodeKey(key).0)
  }

  predicate AllProper(h: Hash) { forall k :: k in h ==> ProperKey(k) }

  /** A scan of the hash: any order, repeats allowed, nothing left out. */
  predicate Scans(pairs: seq<(string, string)>, h: Hash) {
    && (forall i :: 0 <= i < |pairs| ==> pairs[i].0 in h && h[pairs[i].0] == pairs[i].1)
    && (forall k :: k in h ==> exists i :: 0 <= i < |pairs| && pairs[i].0 == k)
  }

  lemma ScanTwo(items: seq<string>, key: string, val: string)
    ensures ScanAll(items + [key, val]) == ScanItem(ScanItem(ScanAll(items), key), val)
  {
    var all := items + [key, val];
    assert all[..|all| - 1] == items + [key];
    assert (items + [key])[..|items|] == items;
  }

  lemma {:induction false} ScanGroups(pairs: seq<(string, string)>)
    ensures ScanAll(Flatten(pairs)).isKey && ScanAll(Flatten(pairs)).tab == AddAll(Decoded(pairs))
  {
    if pairs != [] {
      var n := |pairs| - 1;
      ScanGroups(pairs[..n]);
      ScanTwo(Flatten(pairs[..n]), pairs[n].0, pairs[n].1);
      assert Decoded(pairs)[..n] == Decoded(pairs[..n]);
    }
  }

  /** A scan delivers the value stored under a key, for any key that alone
      decodes to its field and name. */
  lemma KeyDelivers(h: Hash, pairs: seq<(string, string)>, key: string, name: string, field: string)
    requires Scans(pairs, h) && DecodeKey(key) == (field, name)
    requires forall k :: k in h && DecodeKey(k) == (field, name) ==> k == key
    ensures (field, name) in Latest(Decoded(pairs)) <==> key in h
    ensures key in h ==> Latest(Decoded(pairs))[(field, name)] == h[key]
  {
    var items := Decoded(pairs);
    LatestIsGiven(items, field, name);
    forall it | it in items && it.field == field && it.name == name ensures key in h && it.val == h[key] {
      var i :| 0 <= i < |items| && items[i] == it;
      assert DecodeKey(pairs[i].0) == (field, name);
    }
    if key in h {
      var i :| 0 <= i < |pairs| && pairs[i].0 == key;
      assert items[i] in items;
    }
  }

  /** A scan delivers each field of each gateway with its stored value. */
  lemma ScanDelivers(h: Hash, pairs: seq<(string, string)>, name: string, field: string)
    requires AllProper(h) && Scans(pairs, h) && Plain(field)
    ensures (field, name) in Latest(Decoded(pairs)) <==> Field(name, field) in h
    ensures Field(name, field) in h ==> Latest(Decoded(pairs))[(field, name)] == h[Field(name, field)]
  {
    DecodeEncode(name, field);
    forall k | k in h && DecodeKey(k) == (field, name) ensures k == Field(name, field) {
      assert ProperKey(k);
    }
    KeyDelivers(h, pairs, Field(name, field), name, field);
  }

  lemma ScannedFieldsPlain(h: Hash, pairs: seq<(string, string)>)
    requires AllProper(h) && Scans(pairs, h)
    ensures forall it :: it in Decoded(pairs) ==> Plain(it.field)
  {
    var items := Decoded(pairs);
    forall it | it in items ensures Plain(it.field) {
      var i :| 0 <= i < |items| && items[i] == it;
      assert ProperKey(pairs[i].0);
    }
  }

  /** The table holds the records of the hash and nothing else. */
  ghost predicate Rebuilt(tab: map<string, Row>, h: Hash) {
    && (forall name :: name in tab <==> exists f :: Plain(f) && Field(name, f) in h)
    && (forall name :: name in tab ==> GATEWAY_NAME in tab[name] && tab[name][GATEWAY_NAME] == name)
    && (forall name, f :: name in tab && Plain(f) ==>
          && (f in tab[name] <==> Field(name, f) in h)
          && (f in tab[name] ==> tab[name][f] == h[Field(name, f)]))
    && (forall name, f :: name in tab && f in tab[name] ==> f == GATEWAY_NAME || Plain(f))
  }

  lemma TableIsRebuilt(tab: map<string, Row>, store: map<(string, string), string>, h: Hash)
    requires IsTable(tab, store)
    requires forall name, f :: (f, name) in store ==> Plain(f)
    requires forall name, f :: Plain(f) ==> ((f, name) in store <==> Field(name, f) in h)
    requires forall name, f :: Plain(f) && Field(name, f) in h ==> store[(f, name)] == h[Field(name, f)]
    ensures Rebuilt(tab, h)
  {
    forall name | name in tab ensures exists f :: Plain(f) && Field(name, f) in h {
      var f :| (f, name) in store;
      assert Plain(f);
    }
    forall name, f | name in tab && f in tab[name] && f != GATEWAY_NAME ensures Plain(f) {
      assert (f, name) in store;
    }
  }

  /** Whatever order the scan takes and however often it repeats itself, dump
      rebuilds one record per name that has a field, with every stored field's
      value and nothing else. */
  lemma DumpRebuilds(h: Hash, pairs: seq<(string, string)>)
    requires AllProper(h) && Scans(pairs, h)
    ensures Rebuilt(ScanAll(Flatten(pairs)).tab, h)
  {
    var items := Decoded(pairs);
    var store := Latest(items);
    ScanGroups(pairs);
    ScannedFieldsPlain(h, pairs);
    GroupsByName(items);
    forall name, f | (f, name) in store ensures Plain(f) {
      LatestIsGiven(items, f, name);
    }
    forall name, f | Plain(f)
      ensures (f, name) in store <==> Field(name, f) in h
      ensures Field(name, f) in h ==> store[(f, name)] == h[Field(name, f)]
    {
      ScanDelivers(h, pairs, name, f);
    }
    TableIsRebuilt(AddAll(items), store, h);
  }

  /** The part of the hash whose keys have been delivered. */
  function Seen(h: Hash, pairs: seq<(string, string)>): Hash {
    map key | key in h && (exists i :: 0 <= i < |pairs| && pairs[i].0 == key) :: h[key]
  }

  lemma {:induction false} FlattenPrefix(pairs: seq<(string, string)>, n: nat)
    requires n <= |pairs|
    ensures |Flatten(pairs)| == 2 * |pairs| && Flatten(pairs)[..2 * n] == Flatten(pairs[..n])
    ensures n < |pairs| ==> Flatten(pairs)[..2 * n + 1] == Flatten(pairs[..n]) + [pairs[n].0]
  {
    if n < |pairs| {
      FlattenPrefix(pairs[..|pairs| - 1], n);
      assert pairs[..|pairs| - 1][..n] == pairs[..n];
    } else {
      if n > 0 {
        FlattenPrefix(pairs[..n - 1], n - 1);
        assert pairs[..n - 1][..n - 1] == pairs[..n - 1];
      }
      assert pairs[..n] == pairs;
      assert Flatten(pairs)[..2 * n] == Flatten(pairs);
    }
  }

  /** A key without its value adds nothing. */
  lemma LooseKey(items: seq<string>, key: string)
    requires ScanAll(items).isKey
    ensures ScanAll(items + [key]).tab == ScanAll(items).tab
  {
    assert (items + [key])[..|items|] == items;
  }

  lemma SeenIsScanned(h: Hash, pairs: seq<(string, string)>, k: nat)
    requires AllProper(h) && Scans(pairs, h) && k <= |pairs|
    ensures AllProper(Seen(h, pairs[..k])) && Scans(pairs[..k], Seen(h, pairs[..k]))
  {
    var front := pairs[..k];
    forall i | 0 <= i < |front| ensures front[i].0 in Seen(h, front) && Seen(h, front)[front[i].0] == front[i].1 {
      assert front[i] == pairs[i];
    }
  }

  lemma OddPrefix(pairs: seq<(string, string)>, k: nat)
    requires k < |pairs| && 2 * k + 1 <= |Flatten(pairs)|
    ensures ScanAll(Flatten(pairs)[..2 * k + 1]).tab == ScanAll(Flatten(pairs[..k])).tab
  {
    FlattenPrefix(pairs, k);
    ScanGroups(pairs[..k]);
    LooseKey(Flatten(pairs[..k]), pairs[k].0);
  }

  /** The first `k` pairs, and perhaps the key of the next one. */
  function Prefix(pairs: seq<(string, string)>, k: nat, loose: bool): seq<string>
    requires k <= |pairs| && (loose ==> k < |pairs|)
  {
    FlattenPrefix(pairs, 0);
    Flatten(pairs)[..if loose then 2 * k + 1 else 2 * k]
  }

  lemma PrefixTable(pairs: seq<(string, string)>, k: nat, loose: bool)
    requires k <= |pairs| && (loose ==> k < |pairs|)
    ensures ScanAll(Prefix(pairs, k, loose)).tab == ScanAll(Flatten(pairs[..k])).tab
  {
    FlattenPrefix(pairs, k);
    if loose {
      OddPrefix(pairs, k);
    }
  }

  lemma RebuiltKeys(tab: map<string, Row>, h1: Hash, h2: Hash, key: string)
    requires Rebuilt(tab, h1) && Rebuilt(tab, h2) && key in h1 && ProperKey(key)
    ensures key in h2
  {
    var (field, name) := DecodeKey(key);
    assert name in tab && field in tab[name];
  }

  lemma AllKeysKept(tab: map<string, Row>, h: Hash, part: Hash)
    requires AllProper(h) && Rebuilt(tab, h) && Rebuilt(tab, part)
    ensures h.Keys <= part.Keys
  {
    forall key | key in h ensures key in part {
      assert ProperKey(key);
      RebuiltKeys(tab, h, part, key);
    }
  }

  lemma SubmapWithAllKeys(h: Hash, part: Hash)
    requires h.Keys <= part.Keys && forall key :: key in part ==> key in h && h[key] == part[key]
    ensures part == h
  {
  }

  /** A scan that breaks off anywhere, even between a key and its value, is no
      error: dump returns the records of exactly the keys delivered with their
      values until then, which is the whole hash iff every key was. */
  lemma InterruptedDump(h: Hash, pairs: seq<(string, string)>, k: nat, loose: bool)
    requires AllProper(h) && Scans(pairs, h) && k <= |pairs| && (loose ==> k < |pairs|)
    ensures Rebuilt(ScanAll(Prefix(pairs, k, loose)).tab, Seen(h, pairs[..k]))
    ensures Rebuilt(ScanAll(Prefix(pairs, k, loose)).tab, h) <==> Seen(h, pairs[..k]) == h
  {
    var tab, part := ScanAll(Prefix(pairs, k, loose)).tab, Seen(h, pairs[..k]);
    PrefixTable(pairs, k, loose);
    SeenIsScanned(h, pairs, k);
    DumpRebuilds(part, pairs[..k]);
    if Rebuilt(tab, h) {
      AllKeysKept(tab, h, part);
      SubmapWithAllKeys(h, part);
    }
  }

  /** The table's records in some order. */
  ghost predicate ListsRows(list: seq<Row>, tab: map<string, Row>) {
    && |list| == |tab|
    && (forall i :: 0 <= i < |list| ==> exists name :: name in tab && list[i] == tab[name])
    && forall name :: name in tab ==> tab[name] in list
  }

  method ListRows(tab: map<string, Row>) returns (list: seq<Row>)
    ensures ListsRows(list, tab)
  {
    var names := Enumerate(tab.Keys);
    list := [];
    for i := 0 to |names|
      invariant |list| == i
      invariant forall j :: 0 <= j < i ==> names[j] in tab && list[j] == tab[names[j]]
    {
      assert names[i] in names;
      list := list + [tab[names[i]]];
    }
    forall name | name in tab ensures tab[name] in list {
      assert name in names;
      var j :| 0 <= j < |names| && names[j] == name;
      assert list[j] == tab[name];
    }
  }

  /** One round of dump's loop. */
  method TakeItem(tab: map<string, Row>, isKey: bool, gatewayField: string, gatewayName: string, val: string)
    returns (tab': map<string, Row>, isKey': bool, field': string, name': string)
    ensures Scan(tab', isKey', field', name') == ScanItem(Scan(tab, isKey, gatewayField, gatewayName), val)
  {
    tab', field', name' := tab, gatewayField, gatewayName;
    if isKey {
      var (field, name) := DecodeKey(val);
      field', name' := field, name;
    } else {
      var gateway := map[GATEWAY_NAME := gatewayName];
      if gatewayName in tab {
        gateway := tab[gatewayName];
      }
      gateway := gateway[gatewayField := val];
      tab' := tab[gatewayName := gateway];
    }
    isKey' := !isKey;
  }

  // ----- the repository -----

  class RepoRedis {
    var hash: Hash

    constructor ()
      ensures hash == map[]
    {
      hash := map[];
    }

    method Get(name: string, fault: bool) returns (r: Result<Body, Error>)
      ensures r == GetResult(hash, name, fault)
    {
      if !Repository.ValidName(name) {
        return Err(BadName);
      }
      if fault {
        return Err(Fault);
      }
      var id, changes := HGet(hash, Field(name, ID)), HGet(hash, Field(name, CHANGES));
      var last, token := HGet(hash, Field(name, LAST_UPDATE)), HGet(hash, Field(name, TOKEN));
      var body := Body(name, "", 0, "", "");
      if id.None? {
        return Err(MissingField(ID));
      }
      body := body.(id := id.value);
      if changes.None? {
        return Err(MissingField(CHANGES));
      }
      body := body.(changes := ParseIntValue(changes.value));
      if last.None? {
        return Err(MissingField(LAST_UPDATE));
      }
      body := body.(lastUpdate := last.value);
      if token.Some? {
        body := body.(token := token.value);
      }
      return Ok(body);
    }

    method Put(name: string, id: string, now: string, f: PutFaults) returns (err: Option<Error>)
      modifies this
      ensures hash == PutHash(old(hash), name, id, now, f) && err == PutError(name, id, f)
    {
      if !Repository.ValidName(name) {
        return Some(BadName);
      }
      if Repository.BlankId(id) {
        return Some(BadId);
      }
      if f.setId {
        return Some(Fault);
      }
      hash := hash[Field(name, ID) := id];
      if !f.increment {
        hash := Incremented(hash, Field(name, CHANGES));
      }
      if !f.setTime {
        hash := hash[Field(name, LAST_UPDATE) := now];
      }
      return None;
    }

    method PutToken(name: string, token: string, fault: bool) returns (err: Option<Error>)
      modifies this
      ensures hash == PutTokenHash(old(hash), name, token, fault) && err == if fault then Some(Fault) else None
    {
      if fault {
        return Some(Fault);
      }
      hash := hash[Field(name, TOKEN) := token];
      return None;
    }

    /** dump, over the items the iterator yields before it ends, complete or not;
        `failsAt` is the item at which it reports an error, if it does. */
    method Dump(items: seq<string>, failsAt: Option<nat>) returns (list: seq<Row>, err: Option<Error>)
      ensures err == if failsAt.Some? && failsAt.value < |items| then Some(Fault) else None
      ensures err.Some? ==> list == []
      ensures err.None? ==> ListsRows(list, ScanAll(items).tab)
    {
      var tab: map<string, Row>, isKey, gatewayField, gatewayName := map[], true, "", "";
      for i := 0 to |items|
        invariant Scan(tab, isKey, gatewayField, gatewayName) == ScanAll(items[..i])
        invariant failsAt.Some? ==> i <= failsAt.value
      {
        if failsAt == Some(i) {
          return [], Some(Fault);
        }
        assert items[..i + 1][..i] == items[..i];
        tab, isKey, gatewayField, gatewayName := TakeItem(tab, isKey, gatewayField, gatewayName, items[i]);
      }
      assert items[..|items|] == items;
      list := ListRows(tab);
      err := None;
    }
  }

  // ----- redis against the in-memory repository -----

  /** Writes, with the commands of each that fail. */
  datatype Op =
    | OpPut(name: string, id: string, time: string, f: PutFaults)
    | OpToken(name: string, token: string, fault: bool)

  function WriteRedis(h: Hash, op: Op): Hash {
    match op
    case OpPut(name, id, time, f) => PutHash(h, name, id, time, f)
    case OpToken(name, token, fault) => PutTokenHash(h, name, token, fault)
  }

  /** The same write in memory, where it fails as a whole or not at all: a put
      is accepted by both or by neither. */
  function WriteMemory(r: Repository.Repo, op: Op): Repository.Repo {
    match op
    case OpPut(name, id, _, f) => Repository.Put(r, name, id, 0, f.setId)
    case OpToken(name, token, fault) => Repository.PutToken(r, name, token, fault)
  }

  function RunRedis(ops: seq<Op>): Hash {
    if ops == [] then map[] else WriteRedis(RunRedis(ops[..|ops| - 1]), ops[|ops| - 1])
  }

  function RunMemory(ops: seq<Op>): (r: Repository.Repo)
    ensures !r.broken
  {
    if ops == [] then Repository.Repo(false, map[]) else WriteMemory(RunMemory(ops[..|ops| - 1]), ops[|ops| - 1])
  }

  predicate PutsName(op: Op, name: string) {
    op.OpPut? && op.name == name && PutError(name, op.id, op.f).None?
  }

  /** Accepted puts of `name` whose counter was not incremented. */
  function Uncounted(ops: seq<Op>, name: string): nat {
    if ops == [] then 0
    else
      var op := ops[|ops| - 1];
      Uncounted(ops[..|ops| - 1], name) + if PutsName(op, name) && op.f.increment then 1 else 0
  }

  /** Some accepted put of `name` was stamped with its time. */
  predicate Stamped(ops: seq<Op>, name: string) {
    if ops == [] then false
    else
      var op := ops[|ops| - 1];
      Stamped(ops[..|ops| - 1], name) || (PutsName(op, name) && !op.f.setTime)
  }

  /** The keys of one gateway's fields. */
  datatype Keys = Keys(id: string, changes: string, time: string, token: string)

  function KeysOf(name: string): Keys {
    Keys(Field(name, ID), Field(name, CHANGES), Field(name, LAST_UPDATE), Field(name, TOKEN))
  }

  /** What the hash holds under these keys where memory holds `e`, when `lost` of
      its changes were not counted and perhaps one was stamped. */
  ghost predicate MirrorsAt(h: Hash, keys: Keys, e: Repository.Entry, lost: nat, stamped: bool) {
    && e.changes >= lost
    && (stamped ==> e.changes > 0)
    && HGet(h, keys.id) == (if e.changes > 0 then Some(e.id) else None)
    && HGet(h, keys.changes) == (if e.changes > lost then Some(Printed(e.changes - lost)) else None)
    && (HGet(h, keys.time).Some? <==> stamped)
    && (match HGet(h, keys.token) case Some(t) => t case None => "") == e.token
  }

  ghost predicate Mirrors(h: Hash, name: string, e: Repository.Entry, lost: nat, stamped: bool) {
    MirrorsAt(h, KeysOf(name), e, lost, stamped)
  }

  lemma OtherNameStays(h: Hash, op: Op, name: string, e: Repository.Entry, lost: nat, stamped: bool)
    requires op.name != name && Mirrors(h, name, e, lost, stamped)
    ensures Mirrors(WriteRedis(h, op), name, e, lost, stamped)
  {
    FieldNames();
    forall field | Plain(field) ensures HGet(WriteRedis(h, op), Field(name, field)) == HGet(h, Field(name, field)) {
      if op.OpPut? {
        WritesAreSeparate(h, op.name, op.id, op.time, op.f, "", true, name, field);
      } else {
        WritesAreSeparate(h, op.name, "", "", NO_FAULTS, op.token, op.fault, name, field);
      }
    }
  }

  lemma OwnFields(name: string)
    ensures Field(name, ID) != Field(name, CHANGES) && Field(name, ID) != Field(name, LAST_UPDATE)
    ensures Field(name, ID) != Field(name, TOKEN) && Field(name, CHANGES) != Field(name, LAST_UPDATE)
    ensures Field(name, CHANGES) != Field(name, TOKEN) && Field(name, LAST_UPDATE) != Field(name, TOKEN)
  {
    FieldNames();
    FieldsDistinct(name, ID, name, CHANGES);
    FieldsDistinct(name, ID, name, LAST_UPDATE);
    FieldsDistinct(name, ID, name, TOKEN);
    FieldsDistinct(name, CHANGES, name, LAST_UPDATE);
    FieldsDistinct(name, CHANGES, name, TOKEN);
    FieldsDistinct(name, LAST_UPDATE, name, TOKEN);
  }

  lemma PutAtKeys(h: Hash, idKey: string, changesKey: string, timeKey: string, tokenKey: string,
                  id: string, now: string, f: PutFaults)
    requires idKey != changesKey && idKey != timeKey && idKey != tokenKey
    requires changesKey != timeKey && changesKey != tokenKey && timeKey != tokenKey
    ensures var h1 := h[idKey := id];
            var h2 := if f.increment then h1 else Incremented(h1, changesKey);
            var h' := if f.setTime then h2 else h2[timeKey := now];
            && HGet(h', idKey) == Some(id)
            && HGet(h', changesKey) == HGet(if f.increment then h else Incremented(h, changesKey), changesKey)
            && HGet(h', timeKey) == (if f.setTime then HGet(h, timeKey) else Some(now))
            && HGet(h', tokenKey) == HGet(h, tokenKey)
  {
  }

  /** The fields of the name after an accepted put. */
  lemma PutFields(h: Hash, name: string, id: string, now: string, f: PutFaults)
    requires PutError(name, id, f).None?
    ensures var h' := PutHash(h, name, id, now, f);
            && HGet(h', Field(name, ID)) == Some(id)
            && HGet(h', Field(name, CHANGES)) ==
                 HGet(if f.increment then h else Incremented(h, Field(name, CHANGES)), Field(name, CHANGES))
            && HGet(h', Field(name, LAST_UPDATE)) ==
                 (if f.setTime then HGet(h, Field(name, LAST_UPDATE)) else Some(now))
            && HGet(h', Field(name, TOKEN)) == HGet(h, Field(name, TOKEN))
  {
    OwnFields(name);
    PutAtKeys(h, Field(name, ID), Field(name, CHANGES), Field(name, LAST_UPDATE), Field(name, TOKEN), id, now, f);
  }

  lemma OneMore(h: Hash, key: string, n: nat)
    requires HGet(h, key) == (if n > 0 then Some(Printed(n)) else None) && n < MAX_INT
    ensures HGet(Incremented(h, key), key) == Some(Printed(n + 1))
  {
    ParsePrinted(n);
  }

  /** The three commands of an accepted put, on any four distinct keys. */
  lemma PutMirrorsAt(h: Hash, h': Hash, keys: Keys, id: string, time: string, f: PutFaults,
                     e: Repository.Entry, lost: nat, stamped: bool)
    requires MirrorsAt(h, keys, e, lost, stamped) && e.changes < MAX_INT
    requires HGet(h', keys.id) == Some(id) && HGet(h', keys.token) == HGet(h, keys.token)
    requires HGet(h', keys.changes) ==
             if f.increment then HGet(h, keys.changes) else Some(Printed(e.changes - lost + 1))
    requires HGet(h', keys.time) == if f.setTime then HGet(h, keys.time) else Some(time)
    ensures MirrorsAt(h', keys, Repository.Entry(id, e.changes + 1, 0, e.token),
                      if f.increment then lost + 1 else lost, stamped || !f.setTime)
  {
  }

  lemma PutMirrors(h: Hash, name: string, id: string, time: string, f: PutFaults,
                   e: Repository.Entry, lost: nat, stamped: bool)
    requires PutError(name, id, f).None? && Mirrors(h, name, e, lost, stamped) && e.changes < MAX_INT
    ensures Mirrors(PutHash(h, name, id, time, f), name, Repository.Entry(id, e.changes + 1, 0, e.token),
                    if f.increment then lost + 1 else lost, stamped || !f.setTime)
  {
    PutFields(h, name, id, time, f);
    OneMore(h, Field(name, CHANGES), e.changes - lost);
    PutMirrorsAt(h, PutHash(h, name, id, time, f), KeysOf(name), id, time, f, e, lost, stamped);
  }

  lemma MemoryAfter(r: Repository.Repo, op: Op)
    requires !r.broken
    ensures var (e, e') := (Repository.Lookup(r.tab, op.name), Repository.Lookup(WriteMemory(r, op).tab, op.name));
            && (PutsName(op, op.name) ==> e' == Repository.Entry(op.id, e.changes + 1, 0, e.token))
            && (op.OpPut? && !PutsName(op, op.name) ==> e' == e)
  {
  }

  lemma TokenMirrorsAt(h: Hash, keys: Keys, token: string, e: Repository.Entry, lost: nat, stamped: bool)
    requires MirrorsAt(h, keys, e, lost, stamped)
    requires keys.token != keys.id && keys.token != keys.changes && keys.token != keys.time
    ensures MirrorsAt(h[keys.token := token], keys, e.(token := token), lost, stamped)
  {
  }

  lemma TokenMirrors(h: Hash, r: Repository.Repo, op: Op, lost: nat, stamped: bool)
    requires op.OpToken? && Mirrors(h, op.name, Repository.Lookup(r.tab, op.name), lost, stamped)
    ensures Mirrors(WriteRedis(h, op), op.name, Repository.Lookup(WriteMemory(r, op).tab, op.name), lost, stamped)
  {
    OwnFields(op.name);
    TokenMirrorsAt(h, KeysOf(op.name), op.token, Repository.Lookup(r.tab, op.name), lost, stamped);
  }

  lemma AcceptedMirrors(h: Hash, r: Repository.Repo, op: Op, lost: nat, stamped: bool)
    requires !r.broken && PutsName(op, op.name)
    requires Mirrors(h, op.name, Repository.Lookup(r.tab, op.name), lost, stamped)
    requires Repository.Lookup(r.tab, op.name).changes < MAX_INT
    ensures Mirrors(WriteRedis(h, op), op.name, Repository.Lookup(WriteMemory(r, op).tab, op.name),
                    if op.f.increment then lost + 1 else lost, stamped || !op.f.setTime)
  {
    MemoryAfter(r, op);
    PutMirrors(h, op.name, op.id, op.time, op.f, Repository.Lookup(r.tab, op.name), lost, stamped);
  }

  lemma RejectedMirrors(h: Hash, r: Repository.Repo, op: Op, lost: nat, stamped: bool)
    requires !r.broken && op.OpPut? && !PutsName(op, op.name)
    requires Mirrors(h, op.name, Repository.Lookup(r.tab, op.name), lost, stamped)
    ensures Mirrors(WriteRedis(h, op), op.name, Repository.Lookup(WriteMemory(r, op).tab, op.name), lost, stamped)
  {
    MemoryAfter(r, op);
    assert WriteRedis(h, op) == h;
  }

  lemma WriteMirrors(h: Hash, r: Repository.Repo, op: Op, name: string, lost: nat, stamped: bool)
    requires !r.broken && Mirrors(h, name, Repository.Lookup(r.tab, name), lost, stamped)
    requires Repository.Lookup(r.tab, name).changes < MAX_INT
    ensures var put := PutsName(op, name);
            Mirrors(WriteRedis(h, op), name, Repository.Lookup(WriteMemory(r, op).tab, name),
                    if put && op.f.increment then lost + 1 else lost, stamped || (put && !op.f.setTime))
  {
    if op.name != name {
      OtherNameStays(h, op, name, Repository.Lookup(r.tab, name), lost, stamped);
    } else if op.OpToken? {
      TokenMirrors(h, r, op, lost, stamped);
    } else if PutsName(op, name) {
      AcceptedMirrors(h, r, op, lost, stamped);
    } else {
      RejectedMirrors(h, r, op, lost, stamped);
    }
  }

  lemma NothingMirrors(h: Hash, name: string)
    requires h == map[]
    ensures Mirrors(h, name, Repository.ZERO_ENTRY, 0, false)
  {
  }

  lemma {:induction false} ChangesBounded(ops: seq<Op>, name: string)
    ensures 0 <= Repository.Lookup(RunMemory(ops).tab, name).changes <= |ops|
  {
    if ops != [] {
      ChangesBounded(ops[..|ops| - 1], name);
    }
  }

  /** What a run leaves behind for `name`. */
  datatype After = After(hash: Hash, entry: Repository.Entry, lost: nat, stamped: bool)

  function RunFor(ops: seq<Op>, name: string): After {
    After(RunRedis(ops), Repository.Lookup(RunMemory(ops).tab, name), Uncounted(ops, name), Stamped(ops, name))
  }

  lemma RunNext(ops: seq<Op>, name: string)
    requires ops != []
    ensures var (op, front) := (ops[|ops| - 1], ops[..|ops| - 1]);
            var (before, put) := (RunFor(front, name), PutsName(op, name));
            RunFor(ops, name) ==
            After(WriteRedis(before.hash, op), Repository.Lookup(WriteMemory(RunMemory(front), op).tab, name),
                  if put && op.f.increment then before.lost + 1 else before.lost,
                  before.stamped || (put && !op.f.setTime))
  {
  }

  ghost predicate MirrorsAfter(a: After, name: string) { Mirrors(a.hash, name, a.entry, a.lost, a.stamped) }

  lemma WriteMirrorsTo(before: After, r: Repository.Repo, op: Op, name: string, after: After)
    requires MirrorsAfter(before, name) && !r.broken && before.entry == Repository.Lookup(r.tab, name)
    requires before.entry.changes < MAX_INT
    requires var put := PutsName(op, name);
             after == After(WriteRedis(before.hash, op), Repository.Lookup(WriteMemory(r, op).tab, name),
                            if put && op.f.increment then before.lost + 1 else before.lost,
                            before.stamped || (put && !op.f.setTime))
    ensures MirrorsAfter(after, name)
  {
    WriteMirrors(before.hash, r, op, name, before.lost, before.stamped);
  }

  lemma NextMirrors(ops: seq<Op>, name: string)
    requires 0 < |ops| <= MAX_INT && MirrorsAfter(RunFor(ops[..|ops| - 1], name), name)
    ensures MirrorsAfter(RunFor(ops, name), name)
  {
    var front, op := ops[..|ops| - 1], ops[|ops| - 1];
    ChangesBounded(front, name);
    RunNext(ops, name);
    WriteMirrorsTo(RunFor(front, name), RunMemory(front), op, name, RunFor(ops, name));
  }

  lemma {:induction false} RunsMirror(ops: seq<Op>, name: string)
    requires |ops| <= MAX_INT
    ensures MirrorsAfter(RunFor(ops, name), name)
  {
    if ops == [] {
      NothingMirrors(map[], name);
    } else {
      RunsMirror(ops[..|ops| - 1], name);
      NextMirrors(ops, name);
    }
  }

  /** What redis answers for a name that memory holds as `e`. */
  function Expected(name: string, e: Repository.Entry, lost: nat, stamped: bool): Result<(string, int, string), Error> {
    if !Repository.ValidName(name) then Err(BadName)
    else if e.changes == 0 then Err(MissingField(ID))
    else if e.changes == lost then Err(MissingField(CHANGES))
    else if !stamped then Err(MissingField(LAST_UPDATE))
    else Ok((e.id, e.changes - lost, e.token))
  }

  function Summary(r: Result<Body, Error>): Result<(string, int, string), Error> {
    match r
    case Ok(body) => Ok((body.id, body.changes, body.token))
    case Err(e) => Err(e)
  }

  lemma MirrorsAnswer(h: Hash, name: string, e: Repository.Entry, lost: nat, stamped: bool)
    requires Mirrors(h, name, e, lost, stamped) && e.changes <= MAX_INT
    ensures Summary(GetResult(h, name, false)) == Expected(name, e, lost, stamped)
  {
    ParsePrinted(e.changes - lost);
  }

  /** Both repositories give the same answer, or both refuse the name. */
  predicate SameAnswer(r: Result<Body, Error>, body: Repository.Body, err: Option<Repository.Error>) {
    if r.Ok? then
      err.None? && r.value.name == body.name && r.value.id == body.entry.id
      && r.value.changes == body.entry.changes && r.value.token == body.entry.token
    else r.error == BadName && err == Some(Repository.BadName)
  }

  /** After any run of writes, whichever of their commands fail, redis answers
      like memory exactly for names that are refused, or that have been put with
      every change counted and some change stamped.  A name never put is a generic
      error where memory says not found or answers with a token alone; a counter
      or time stamp never written is one too. */
  lemma AgreesWithMemory(ops: seq<Op>, name: string)
    requires |ops| <= MAX_INT
    ensures var (h, r) := (RunRedis(ops), RunMemory(ops));
            var (e, lost) := (Repository.Lookup(r.tab, name), Uncounted(ops, name));
            && Summary(GetResult(h, name, false)) == Expected(name, e, lost, Stamped(ops, name))
            && (SameAnswer(GetResult(h, name, false), Repository.GetBody(r, name, false),
                           Repository.GetError(r, name, false))
                <==> !Repository.ValidName(name) || (e.changes > 0 && lost == 0 && Stamped(ops, name)))
  {
    RunsMirror(ops, name);
    ChangesBounded(ops, name);
    var e := Repository.Lookup(RunMemory(ops).tab, name);
    MirrorsAnswer(RunRedis(ops), name, e, Uncounted(ops, name), Stamped(ops, name));
  }

  lemma WritesKeepProper(h: Hash, name: string, field: string, val: string)
    requires AllProper(h) && Plain(field)
    ensures AllProper(h[Field(name, field) := val])
  {
    DecodeEncode(name, field);
  }

  lemma IncrementKeepsProper(h: Hash, name: string, field: string)
    requires AllProper(h) && Plain(field)
    ensures AllProper(Incremented(h, Field(name, field)))
  {
    DecodeEncode(name, field);
  }

  lemma PutKeepsProper(h: Hash, name: string, id: string, now: string, f: PutFaults)
    requires AllProper(h)
    ensures AllProper(PutHash(h, name, id, now, f))
  {
    FieldNames();
    var h1 := h[Field(name, ID) := id];
    WritesKeepProper(h, name, ID, id);
    IncrementKeepsProper(h1, name, CHANGES);
    var h2 := if f.increment then h1 else Incremented(h1, Field(name, CHANGES));
    WritesKeepProper(h2, name, LAST_UPDATE, now);
  }

  /** A first put whose later commands fail is reported as a success, yet the
      gateway can be read exactly when both of them worked. */
  lemma PartialPut(h: Hash, name: string, id: string, now: string, f: PutFaults)
    requires HGet(h, Field(name, CHANGES)).None? && HGet(h, Field(name, LAST_UPDATE)).None?
    requires PutError(name, id, f).None?
    ensures var r := GetResult(PutHash(h, name, id, now, f), name, false);
            && (r.Ok? <==> !f.increment && !f.setTime)
            && (r.Ok? ==> r.value.id == id && r.value.changes == 1 && r.value.lastUpdate == now)
  {
    PutFields(h, name, id, now, f);
    OneMore(h, Field(name, CHANGES), 0);
    ParsePrinted(1);
  }

  /** Every key a run leaves in the hash, whichever commands fail, is a field of
      some gateway, so the records dumped after any run are the stored ones. */
  lemma {:induction false} RunKeysProper(ops: seq<Op>)
    ensures AllProper(RunRedis(ops))
  {
    if ops != [] {
      var h, op := RunRedis(ops[..|ops| - 1]), ops[|ops| - 1];
      RunKeysProper(ops[..|ops| - 1]);
      match op
      case OpPut(name, id, time, f) => PutKeepsProper(h, name, id, time, f);
      case OpToken(name, token, fault) =>
        FieldNames();
        WritesKeepProper(h, name, TOKEN, token);
    }
  }
}

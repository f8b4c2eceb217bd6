/** One repository: the in-memory table of cmd/gateboard/repository_mem.go and
    the name check of cmd/gateboard/service.go. */
module Repository {
  import opened GoLib

  datatype Error = Broken | Fault | BadName | BadId | NotFound | Timeout | EmptyRepoList

  datatype Entry = Entry(id: string, changes: int, lastUpdate: int, token: string)

  type Table = map<string, Entry>

  /** The value of a repository: whether it is configured broken, and its table. */
  datatype Repo = Repo(broken: bool, tab: Table)

  /** BodyGetReply, as far as repositories fill it in. */
  datatype Body = Body(name: string, entry: Entry)

  const ZERO_ENTRY := Entry("", 0, 0, "")

  /** Reading a missing key of a Go map gives the zero value. */
  function Lookup(tab: Table, name: string): Entry {
    if name in tab then tab[name] else ZERO_ENTRY
  }

  predicate ValidName(name: string) {
    TrimSpace(name) != "" && forall c :: c in name ==> c !in " ${}"
  }

  predicate BlankId(id: string) { TrimSpace(id) == "" }

  // ----- the operations on values; `fault` is a backend call that fails and
  // ----- leaves the table as it was (the memory table itself never does)

  function PutError(r: Repo, name: string, id: string, fault: bool): Option<Error> {
    if r.broken then Some(Broken)
    else if fault then Some(Fault)
    else if !ValidName(name) then Some(BadName)
    else if BlankId(id) then Some(BadId)
    else None
  }

  predicate Accepts(r: Repo, name: string, id: string, fault: bool) {
    PutError(r, name, id, fault).None?
  }

  function Stored(tab: Table, name: string, id: string, now: int): Table {
    tab[name := Lookup(tab, name).(id := id, changes := Lookup(tab, name).changes + 1, lastUpdate := now)]
  }

  function Put(r: Repo, name: string, id: string, now: int, fault: bool): Repo {
    if Accepts(r, name, id, fault) then r.(tab := Stored(r.tab, name, id, now)) else r
  }

  /** Tokens are stored without looking at the broken flag or the name. */
  function PutToken(r: Repo, name: string, token: string, fault: bool): Repo {
    if fault then r else r.(tab := r.tab[name := Lookup(r.tab, name).(token := token)])
  }

  function GetError(r: Repo, name: string, fault: bool): Option<Error> {
    if r.broken then Some(Broken)
    else if fault then Some(Fault)
    else if !ValidName(name) then Some(BadName)
    else if name !in r.tab then Some(NotFound)
    else None
  }

  function GetBody(r: Repo, name: string, fault: bool): Body {
    match GetError(r, name, fault)
    case None => Body(name, r.tab[name])
    case Some(NotFound) => Body(name, ZERO_ENTRY)
    case Some(_) => Body("", ZERO_ENTRY)
  }

  function Dumped(r: Repo, fault: bool): Table {
    if r.broken || fault then map[] else r.tab
  }

  function DumpError(r: Repo, fault: bool): Option<Error> {
    if r.broken then Some(Broken) else if fault then Some(Fault) else None
  }

  /** Which names are refused: blank ones, and those with a space or one of "${}". */
  lemma RefusedNames(name: string)
    ensures !ValidName(name) <==> AllSpace(name) || exists c :: c in name && c in {' ', '$', '{', '}'}
  {
    var pre, core, post := Padding(name);
    assert forall c :: c in {' ', '$', '{', '}'} <==> c in " ${}";
  }

  lemma BlankIds(id: string)
    ensures BlankId(id) <==> AllSpace(id)
  {
    var pre, core, post := Padding(id);
  }

  /** A put's error is the first that applies: broken, fault, bad name, bad id. */
  lemma PutErrors(r: Repo, name: string, id: string, fault: bool)
    ensures PutError(r, name, id, fault) == Some(Broken) <==> r.broken
    ensures PutError(r, name, id, fault) == Some(Fault) <==> !r.broken && fault
    ensures PutError(r, name, id, fault) == Some(BadName) <==> !r.broken && !fault && !ValidName(name)
    ensures PutError(r, name, id, fault) == Some(BadId) <==> !r.broken && !fault && ValidName(name) && AllSpace(id)
    ensures PutError(r, name, id, fault).None? <==> !r.broken && !fault && ValidName(name) && !AllSpace(id)
  {
    BlankIds(id);
  }

  /** And so is a get's, a dump's too. */
  lemma GetErrors(r: Repo, name: string, fault: bool)
    ensures GetError(r, name, fault) == Some(Broken) <==> r.broken
    ensures GetError(r, name, fault) == Some(Fault) <==> !r.broken && fault
    ensures GetError(r, name, fault) == Some(BadName) <==> !r.broken && !fault && !ValidName(name)
    ensures GetError(r, name, fault) == Some(NotFound) <==> !r.broken && !fault && ValidName(name) && name !in r.tab
    ensures GetError(r, name, fault).None? <==> !r.broken && !fault && ValidName(name) && name in r.tab
    ensures GetError(r, name, fault) == Some(NotFound) ==> GetBody(r, name, fault) == Body(name, ZERO_ENTRY)
    ensures GetError(r, name, fault).Some? && GetError(r, name, fault) != Some(NotFound) ==>
              GetBody(r, name, fault) == Body("", ZERO_ENTRY)
    ensures DumpError(r, fault) == Some(Broken) <==> r.broken
    ensures DumpError(r, fault) == Some(Fault) <==> !r.broken && fault
    ensures DumpError(r, fault).None? ==> Dumped(r, fault) == r.tab
  {
  }

  // ----- what two repositories must agree on: everything but the time stamp

  datatype Record = Record(id: string, changes: int, token: string)

  function RecordOf(e: Entry): Record { Record(e.id, e.changes, e.token) }

  function View(tab: Table): map<string, Record> {
    map name | name in tab :: RecordOf(tab[name])
  }

  lemma ViewDecides(t1: Table, t2: Table, name: string)
    requires View(t1) == View(t2)
    ensures name in t1 <==> name in t2
    ensures RecordOf(Lookup(t1, name)) == RecordOf(Lookup(t2, name))
  {
    assert name in View(t1) <==> name in View(t2);
    if name in t1 {
      assert View(t1)[name] == View(t2)[name];
    }
  }

  /** A table as its list of (name, entry) items, in any order. */
  ghost predicate Lists(items: seq<(string, Entry)>, tab: Table) {
    && |items| == |tab|
    && (forall i, j :: 0 <= i < j < |items| ==> items[i].0 != items[j].0)
    && forall name, e :: (name, e) in items <==> name in tab && tab[name] == e
  }

  method ListItems(tab: Table) returns (items: seq<(string, Entry)>)
    ensures Lists(items, tab)
  {
    var names := Enumerate(tab.Keys);
    items := [];
    for i := 0 to |names|
      invariant |items| == i
      invariant forall j :: 0 <= j < i ==> names[j] in tab && items[j] == (names[j], tab[names[j]])
    {
      assert names[i] in names;
      items := items + [(names[i], tab[names[i]])];
    }
    forall name, e
      ensures (name, e) in items <==> name in tab && tab[name] == e
    {
      if name in tab {
        assert name in names;
        var j :| 0 <= j < |names| && names[j] == name;
        assert items[j] == (name, tab[name]);
      }
    }
  }

  /** repoMem. */
  class RepoMem {
    const broken: bool
    var tab: Table

    constructor (broken: bool)
      ensures this.broken == broken && tab == map[]
    {
      this.broken := broken;
      tab := map[];
    }

    function Value(): Repo
      reads this
    {
      Repo(broken, tab)
    }

    method Get(name: string, fault: bool) returns (body: Body, err: Option<Error>)
      ensures body == GetBody(Value(), name, fault) && err == GetError(Value(), name, fault)
    {
      body := Body("", ZERO_ENTRY);
      if broken {
        return body, Some(Broken);
      }
      if fault {
        return body, Some(Fault);
      }
      if !ValidName(name) {
        return body, Some(BadName);
      }
      body := Body(name, ZERO_ENTRY);
      if name in tab {
        body := body.(entry := tab[name]);
        return body, None;
      }
      return body, Some(NotFound);
    }

    method Save(name: string, id: string, now: int, fault: bool) returns (err: Option<Error>)
      modifies this
      ensures Value() == Put(old(Value()), name, id, now, fault)
      ensures err == PutError(old(Value()), name, id, fault)
    {
      if broken {
        return Some(Broken);
      }
      if fault {
        return Some(Fault);
      }
      if !ValidName(name) {
        return Some(BadName);
      }
      if BlankId(id) {
        return Some(BadId);
      }
      var e := Lookup(tab, name);
      e := e.(id := id);
      e := e.(changes := e.changes + 1);
      e := e.(lastUpdate := now);
      tab := tab[name := e];
      return None;
    }

    method SaveToken(name: string, token: string, fault: bool) returns (err: Option<Error>)
      modifies this
      ensures Value() == PutToken(old(Value()), name, token, fault)
      ensures err == if fault then Some(Fault) else None
    {
      if fault {
        return Some(Fault);
      }
      var e := Lookup(tab, name);
      e := e.(token := token);
      tab := tab[name := e];
      return None;
    }

    method Dump(fault: bool) returns (items: seq<(string, Entry)>, err: Option<Error>)
      ensures Lists(items, Dumped(Value(), fault)) && err == DumpError(Value(), fault)
    {
      if broken {
        return [], Some(Broken);
      }
      if fault {
        return [], Some(Fault);
      }
      items := ListItems(tab);
      return items, None;
    }
  }
}

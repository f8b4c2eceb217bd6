/** Grouping (field, name, value) triples into one record per name. */
module RecordTable {
  import opened GoLib

  const GATEWAY_NAME := "gateway_name"

  /** A record: its fields' values, and its own name under gateway_name. */
  type Row = map<string, string>

  datatype Item = Item(field: string, name: string, val: string)

  /** One decoded pair added to the table. */
  function Add(tab: map<string, Row>, it: Item): map<string, Row> {
    var row := if it.name in tab then tab[it.name] else map[GATEWAY_NAME := it.name];
    tab[it.name := row[it.field := it.val]]
  }

  function AddAll(items: seq<Item>): map<string, Row> {
    if items == [] then map[] else Add(AddAll(items[..|items| - 1]), items[|items| - 1])
  }

  /** The last value given for each (field, name). */
  function Latest(items: seq<Item>): map<(string, string), string> {
    if items == [] then map[]
    else
      var it := items[|items| - 1];
      Latest(items[..|items| - 1])[(it.field, it.name) := it.val]
  }

  /** `row` is the record of `name` in a store of values by (field, name). */
  ghost predicate IsRow(row: Row, store: map<(string, string), string>, name: string) {
    && GATEWAY_NAME in row && row[GATEWAY_NAME] == name
    && forall f :: f != GATEWAY_NAME ==>
         && (f in row <==> (f, name) in store)
         && (f in row ==> row[f] == store[(f, name)])
  }

  /** The table holds exactly the records of the store. */
  ghost predicate IsTable(tab: map<string, Row>, store: map<(string, string), string>) {
    && (forall name :: name in tab <==> exists f :: (f, name) in store)
    && (forall name :: name in tab ==> IsRow(tab[name], store, name))
  }

  lemma AddKeeps(tab: map<string, Row>, store: map<(string, string), string>, it: Item)
    requires IsTable(tab, store) && it.field != GATEWAY_NAME
    ensures IsTable(Add(tab, it), store[(it.field, it.name) := it.val])
  {
    var store' := store[(it.field, it.name) := it.val];
    var tab' := Add(tab, it);
    assert (it.field, it.name) in store';
    forall name, f | (f, name) in store' ensures name in tab' {
      if name != it.name {
        assert (f, name) in store;
      }
    }
    forall name | name in tab' ensures (exists f :: (f, name) in store') && IsRow(tab'[name], store', name) {
      if name != it.name {
        var f :| (f, name) in store;
        assert (f, name) in store';
        assert IsRow(tab[name], store, name);
      }
    }
  }

  /** Grouping any list of items, in any order and with repeats, gives the table
      of the latest values. */
  lemma {:induction false} GroupsByName(items: seq<Item>)
    requires forall it :: it in items ==> it.field != GATEWAY_NAME
    ensures IsTable(AddAll(items), Latest(items))
  {
    if items != [] {
      GroupsByName(items[..|items| - 1]);
      AddKeeps(AddAll(items[..|items| - 1]), Latest(items[..|items| - 1]), items[|items| - 1]);
    }
  }

  lemma {:induction false} LatestIsGiven(items: seq<Item>, field: string, name: string)
    ensures (field, name) in Latest(items) <==> exists it :: it in items && it.field == field && it.name == name
    ensures (field, name) in Latest(items) ==> Item(field, name, Latest(items)[(field, name)]) in items
  {
    if items != [] {
      var n := |items| - 1;
      LatestIsGiven(items[..n], field, name);
      assert items == items[..n] + [items[n]];
    }
  }
}

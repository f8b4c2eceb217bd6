/** Weighted id lists such as "id1;5,id2;2,id3": parser, printer and the
    random pick (gateboard/idlist.go and the picker of gateboard/client.go). */
module IdList {
  import opened GoLib

  datatype Entry = Entry(id: string, weight: int)

  /** `sum` is a Go int: it holds the total weight modulo 2^64. */
  datatype List = List(entries: seq<Entry>, sum: int)

  datatype Error = BlankId | BadNumber | BadWeight(weight: int)

  // ----- parsing -----

  function NewEntry(s: string): Result<Entry, Error> {
    var (before, after, hasSep) := Cut(s, ';');
    var id := TrimSpace(before);
    if id == "" then Err(BlankId)
    else if !hasSep then Ok(Entry(id, 1))
    else
      match Atoi(TrimSpace(after))
      case None => Err(BadNumber)
      case Some(w) => if w < 1 then Err(BadWeight(w)) else Ok(Entry(id, w))
  }

  /** All the entries, or the error of the first part that has one. */
  function Gather(parsed: seq<Result<Entry, Error>>): Result<seq<Entry>, Error> {
    if parsed == [] then Ok([])
    else
      match Gather(parsed[..|parsed| - 1])
      case Err(e) => Err(e)
      case Ok(front) =>
        match parsed[|parsed| - 1]
        case Err(e) => Err(e)
        case Ok(e) => Ok(front + [e])
  }

  function ParseParts(parts: seq<string>): (parsed: seq<Result<Entry, Error>>)
    ensures |parsed| == |parts|
    ensures forall i :: 0 <= i < |parts| ==> parsed[i] == NewEntry(parts[i])
  {
    seq(|parts|, i requires 0 <= i < |parts| => NewEntry(parts[i]))
  }

  /** Weight of the first `k` entries. */
  function Before(entries: seq<Entry>, k: nat): int
    requires k <= |entries|
  {
    if k == 0 then 0 else Before(entries, k - 1) + entries[k - 1].weight
  }

  function Total(entries: seq<Entry>): int { Before(entries, |entries|) }

  function Parse(s: string): Result<List, Error> {
    match Gather(ParseParts(Split(s, ',')))
    case Err(e) => Err(e)
    case Ok(entries) => Ok(List(entries, Wrap64(Total(entries))))
  }

  lemma {:induction false} FirstErrorWins(parsed: seq<Result<Entry, Error>>, k: nat)
    requires k < |parsed| && Gather(parsed[..k]).Ok? && parsed[k].Err?
    ensures Gather(parsed) == Err(parsed[k].error)
  {
    var n := |parsed| - 1;
    if k < n {
      assert parsed[..n][..k] == parsed[..k];
      FirstErrorWins(parsed[..n], k);
    }
  }

  lemma {:induction false} BeforeAppend(entries: seq<Entry>, e: Entry, k: nat)
    requires k <= |entries|
    ensures Before(entries + [e], k) == Before(entries, k)
  {
    if k > 0 {
      BeforeAppend(entries, e, k - 1);
    }
  }

  lemma GatherNext(parsed: seq<Result<Entry, Error>>, i: nat, entries: seq<Entry>)
    requires i < |parsed| && parsed[i].Ok? && Gather(parsed[..i]) == Ok(entries)
    ensures Gather(parsed[..i + 1]) == Ok(entries + [parsed[i].value])
    ensures Wrap64(Wrap64(Total(entries)) + parsed[i].value.weight) == Wrap64(Total(entries + [parsed[i].value]))
  {
    var e := parsed[i].value;
    assert parsed[..i + 1][..i] == parsed[..i];
    WrapAdd(Total(entries), e.weight);
    BeforeAppend(entries, e, |entries|);
  }

  /** One round of newIDList's loop. */
  method AddPart(part: string, entries: seq<Entry>, sum: int, ghost parsed: seq<Result<Entry, Error>>, ghost i: nat)
    returns (err: Option<Error>, entries': seq<Entry>, sum': int)
    requires i < |parsed| && parsed[i] == NewEntry(part)
    requires Gather(parsed[..i]) == Ok(entries) && sum == Wrap64(Total(entries))
    ensures err.Some? ==> Gather(parsed) == Err(err.value)
    ensures err.None? ==> Gather(parsed[..i + 1]) == Ok(entries') && sum' == Wrap64(Total(entries'))
  {
    var e := NewEntry(part);
    if e.Err? {
      FirstErrorWins(parsed, i);
      return Some(e.error), entries, sum;
    }
    GatherNext(parsed, i, entries);
    return None, entries + [e.value], Wrap64(sum + e.value.weight);
  }

  /** newIDList. */
  method NewList(s: string) returns (r: Result<List, Error>)
    ensures r == Parse(s)
  {
    var parts := Split(s, ',');
    ghost var parsed := ParseParts(parts);
    var entries, sum := [], 0;
    for i := 0 to |parts|
      invariant Gather(parsed[..i]) == Ok(entries)
      invariant sum == Wrap64(Total(entries))
    {
      var err;
      err, entries, sum := AddPart(parts[i], entries, sum, parsed, i);
      if err.Some? {
        return Err(err.value);
      }
    }
    assert parsed[..|parts|] == parsed;
    return Ok(List(entries, sum));
  }

  // ----- printing -----

  function EntryString(e: Entry): string {
    if e.weight == 1 then e.id else e.id + [';'] + Printed(e.weight)
  }

  function EntryStrings(entries: seq<Entry>): seq<string> {
    seq(|entries|, i requires 0 <= i < |entries| => EntryString(entries[i]))
  }

  function ListString(l: List): string { Join(EntryStrings(l.entries), ',') }

  /** idList.String. */
  method Print(l: List) returns (s: string)
    ensures s == ListString(l)
  {
    var parts := [];
    for i := 0 to |l.entries|
      invariant parts == EntryStrings(l.entries[..i])
    {
      parts := parts + [EntryString(l.entries[i])];
    }
    assert l.entries[..|l.entries|] == l.entries;
    return Join(parts, ',');
  }

  // ----- which lists the parser produces, and the round trip -----

  predicate WellFormedEntry(e: Entry) {
    && e.id != "" && Trimmed(e.id) && ';' !in e.id && ',' !in e.id
    && 1 <= e.weight <= MAX_INT
  }

  predicate WellFormed(l: List) {
    && l.entries != []
    && (forall e :: e in l.entries ==> WellFormedEntry(e))
    && l.sum == Wrap64(Total(l.entries))
  }

  lemma ParsedEntry(s: string)
    requires ',' !in s && NewEntry(s).Ok?
    ensures WellFormedEntry(NewEntry(s).value)
  {
    var (before, _, _) := Cut(s, ';');
    assert forall c :: c in before ==> c in s;
  }

  lemma {:induction false} GatheredAreParsed(parsed: seq<Result<Entry, Error>>)
    requires Gather(parsed).Ok?
    ensures |Gather(parsed).value| == |parsed|
    ensures forall i :: 0 <= i < |parsed| ==> parsed[i] == Ok(Gather(parsed).value[i])
  {
    if parsed != [] {
      GatheredAreParsed(parsed[..|parsed| - 1]);
    }
  }

  lemma ParsedIsWellFormed(s: string)
    requires Parse(s).Ok?
    ensures WellFormed(Parse(s).value)
  {
    var parts := Split(s, ',');
    var entries := Parse(s).value.entries;
    GatheredAreParsed(ParseParts(parts));
    forall e | e in entries ensures WellFormedEntry(e) {
      var i :| 0 <= i < |entries| && entries[i] == e;
      ParsedEntry(parts[i]);
    }
  }

  lemma EntryRoundTrip(e: Entry)
    requires WellFormedEntry(e)
    ensures NewEntry(EntryString(e)) == Ok(e)
    ensures ',' !in EntryString(e)
  {
    if e.weight == 1 {
      assert Cut(e.id, ';') == (e.id, "", false);
    } else {
      CutConcat(e.id, ';', Decimal(e.weight));
      ParsePrinted(e.weight);
    }
  }

  lemma {:induction false} GatherAll(parsed: seq<Result<Entry, Error>>, entries: seq<Entry>)
    requires |parsed| == |entries| && forall i :: 0 <= i < |parsed| ==> parsed[i] == Ok(entries[i])
    ensures Gather(parsed) == Ok(entries)
  {
    if parsed != [] {
      var n := |parsed| - 1;
      GatherAll(parsed[..n], entries[..n]);
      assert entries[..n] + [entries[n]] == entries;
    }
  }

  /** Printing and parsing again gives the list back, weights, sum and all. */
  lemma RoundTrip(l: List)
    requires WellFormed(l)
    ensures Parse(ListString(l)) == Ok(l)
  {
    var parts := EntryStrings(l.entries);
    forall i | 0 <= i < |parts|
      ensures ',' !in parts[i] && NewEntry(parts[i]) == Ok(l.entries[i])
    {
      EntryRoundTrip(l.entries[i]);
    }
    SplitJoin(parts, ',');
    GatherAll(ParseParts(parts), l.entries);
  }

  /** The parser's results are exactly the well-formed lists. */
  lemma ParserImage(l: List)
    ensures WellFormed(l) <==> exists s :: Parse(s) == Ok(l)
  {
    if WellFormed(l) {
      RoundTrip(l);
    }
    forall s | Parse(s) == Ok(l) ensures WellFormed(l) {
      ParsedIsWellFormed(s);
    }
  }

  /** Whatever text a list came from, its printed form means the same list, and
      two texts print alike only when they mean the same list. */
  lemma PrintIsCanonical(s1: string, s2: string)
    requires Parse(s1).Ok? && Parse(s2).Ok?
    ensures Parse(ListString(Parse(s1).value)) == Parse(s1)
    ensures ListString(Parse(s1).value) == ListString(Parse(s2).value) <==> Parse(s1) == Parse(s2)
  {
    ParserImage(Parse(s1).value);
    ParserImage(Parse(s2).value);
    RoundTrip(Parse(s1).value);
    RoundTrip(Parse(s2).value);
  }

  // ----- texts as they come: any padding, any legal number -----

  /** One part of a list as written: an id, and perhaps a separator and the text of
      a weight, all padded with any space. */
  datatype Part = Part(before: string, id: string, after: string, weighted: bool,
                       front: string, number: string, back: string)

  predicate WrittenWell(p: Part) {
    && AllSpace(p.before) && AllSpace(p.after) && AllSpace(p.front) && AllSpace(p.back)
    && Trimmed(p.id) && ';' !in p.id && Trimmed(p.number)
  }

  function TextOf(p: Part): string {
    p.before + p.id + p.after + if p.weighted then [';'] + (p.front + p.number + p.back) else ""
  }

  lemma NoSpaceIsSeparator(s: string)
    requires AllSpace(s)
    ensures ';' !in s && ',' !in s
  {
    assert !IsSpace(';') && !IsSpace(',');
  }

  /** Exactly what a part means, and which parts fail how: a blank id; a weight that
      is no integer; one below 1.  Everything else is an entry, an explicit weight
      1 included, and no weight is 1. */
  lemma PartMeans(p: Part)
    requires WrittenWell(p)
    ensures NewEntry(TextOf(p)) ==
            if p.id == "" then Err(BlankId)
            else if !p.weighted then Ok(Entry(p.id, 1))
            else if Atoi(p.number).None? then Err(BadNumber)
            else if Atoi(p.number).value < 1 then Err(BadWeight(Atoi(p.number).value))
            else Ok(Entry(p.id, Atoi(p.number).value))
  {
    var left := p.before + p.id + p.after;
    NoSpaceIsSeparator(p.before);
    NoSpaceIsSeparator(p.after);
    assert ';' !in left;
    TrimPadded(p.before, p.id, p.after);
    if p.weighted {
      var right := p.front + p.number + p.back;
      assert TextOf(p) == left + [';'] + right;
      CutConcat(left, ';', right);
      TrimPadded(p.front, p.number, p.back);
    } else {
      assert TextOf(p) == left;
      assert Cut(left, ';') == (left, "", false);
    }
  }

  lemma WholePart(left: string) returns (p: Part)
    requires ';' !in left
    ensures WrittenWell(p) && TextOf(p) == left
  {
    var before, id, after := Padding(left);
    assert forall c :: c in id ==> c in left;
    p := Part(before, id, after, false, "", "", "");
    assert left + "" == left;
  }

  lemma SplitPart(left: string, right: string) returns (p: Part)
    requires ';' !in left
    ensures WrittenWell(p) && TextOf(p) == left + [';'] + right
  {
    var before, id, after := Padding(left);
    var front, number, back := Padding(right);
    assert forall c :: c in id ==> c in left;
    p := Part(before, id, after, true, front, number, back);
    ConcatAssociative(left, [';'], right);
  }

  /** Every text is such a part. */
  lemma EveryPart(s: string) returns (p: Part)
    ensures WrittenWell(p) && TextOf(p) == s
  {
    var i := Index(s, ';');
    if i < |s| {
      p := SplitPart(s[..i], s[i + 1..]);
      assert s == s[..i] + [';'] + s[i + 1..];
    } else {
      assert s[..i] == s;
      p := WholePart(s);
    }
  }

  /** An id with a weight of 1 or more, in any padding and any way of writing the
      number, is the entry. */
  lemma WeightedPart(p: Part, w: int)
    requires WrittenWell(p) && p.id != "" && p.weighted && Atoi(p.number) == Some(w) && w >= 1
    ensures NewEntry(TextOf(p)) == Ok(Entry(p.id, w))
  {
    PartMeans(p);
  }

  /** Ways of writing a weight: plainly, with a sign, with a leading zero. */
  lemma WeightTexts(w: nat)
    requires w <= MAX_INT
    ensures Atoi(Decimal(w)) == Some(w) && Atoi("+" + Decimal(w)) == Some(w) && Atoi(['0'] + Decimal(w)) == Some(w)
  {
    ParsePrinted(w);
    AtoiOf("+", Decimal(w));
    ZerosDoNotCount(Decimal(w));
    AtoiOf("", ['0'] + Decimal(w));
    assert "" + (['0'] + Decimal(w)) == ['0'] + Decimal(w);
  }

  lemma EntriesParse(parts: seq<string>, entries: seq<Entry>)
    requires parts != [] && |entries| == |parts|
    requires forall i :: 0 <= i < |parts| ==> ',' !in parts[i] && NewEntry(parts[i]) == Ok(entries[i])
    ensures Parse(Join(parts, ',')) == Ok(List(entries, Wrap64(Total(entries))))
  {
    SplitJoin(parts, ',');
    GatherAll(ParseParts(parts), entries);
  }

  function EntryOf(p: Part): Result<Entry, Error> { NewEntry(TextOf(p)) }

  function Texts(parts: seq<Part>): (texts: seq<string>)
    ensures |texts| == |parts| && forall i :: 0 <= i < |parts| ==> texts[i] == TextOf(parts[i])
  {
    seq(|parts|, i requires 0 <= i < |parts| => TextOf(parts[i]))
  }

  /** A list of parts without commas, joined by commas, is the list of what the
      parts mean, or the error of the first that has one. */
  lemma ListMeans(parts: seq<Part>, entries: seq<Entry>)
    requires parts != [] && forall i :: 0 <= i < |parts| ==> ',' !in TextOf(parts[i])
    requires |entries| <= |parts|
    requires forall i :: 0 <= i < |entries| ==> EntryOf(parts[i]) == Ok(entries[i])
    ensures |entries| == |parts| ==> Parse(Join(Texts(parts), ',')) == Ok(List(entries, Wrap64(Total(entries))))
    ensures |entries| < |parts| && EntryOf(parts[|entries|]).Err? ==>
              Parse(Join(Texts(parts), ',')) == Err(EntryOf(parts[|entries|]).error)
  {
    var texts := Texts(parts);
    if |entries| == |parts| {
      EntriesParse(texts, entries);
    } else if EntryOf(parts[|entries|]).Err? {
      var parsed := ParseParts(texts);
      SplitJoin(texts, ',');
      GatherAll(parsed[..|entries|], entries);
      FirstErrorWins(parsed, |entries|);
    }
  }

  /** An entry of weight 1 prints as its bare id, any other with its weight. */
  lemma PrintedEntry(e: Entry)
    requires WellFormedEntry(e)
    ensures e.weight == 1 ==> EntryString(e) == e.id
    ensures e.weight != 1 ==> EntryString(e) == e.id + ";" + Decimal(e.weight)
  {
  }

  // ----- sums -----

  lemma {:induction false} BeforeGrows(entries: seq<Entry>, j: nat, k: nat)
    requires j <= k <= |entries| && forall e :: e in entries ==> e.weight >= 1
    ensures Before(entries, j) + (k - j) <= Before(entries, k)
  {
    if j < k {
      BeforeGrows(entries, j, k - 1);
    }
  }

  // ----- the random pick -----

  /** Position pickRandom stops at, starting at `k` with `running` summed so
      far; the length stands for falling through the loop. */
  function Stop(entries: seq<Entry>, k: nat, running: int, random: int): (p: nat)
    requires k <= |entries|
    ensures p <= |entries|
    decreases |entries| - k
  {
    if k == |entries| then k
    else
      var running' := Wrap64(running + entries[k].weight);
      if random <= running' then k else Stop(entries, k + 1, running', random)
  }

  /** The position whose id is returned: the first one after falling through. */
  function Position(entries: seq<Entry>, random: int): (p: nat)
    requires entries != []
    ensures p < |entries|
  {
    var p := Stop(entries, 0, 0, random);
    if p == |entries| then 0 else p
  }

  /** pickRandom. */
  method PickRandom(l: List, random: int) returns (id: string)
    requires l.entries != []
    ensures id == l.entries[Position(l.entries, random)].id
  {
    var running := 0;
    for k := 0 to |l.entries|
      invariant Stop(l.entries, 0, 0, random) == Stop(l.entries, k, running, random)
    {
      running := Wrap64(running + l.entries[k].weight);
      if random <= running {
        return l.entries[k].id;
      }
    }
    return l.entries[0].id;
  }

  /** Among the values 1..n, how many make the picker choose position `i`. */
  function Share(entries: seq<Entry>, i: nat, n: nat): nat
    requires entries != []
  {
    if n == 0 then 0
    else Share(entries, i, n - 1) + if Position(entries, n) == i then 1 else 0
  }

  lemma {:induction false} StopsWithin(entries: seq<Entry>, k: nat, random: int)
    requires forall e :: e in entries ==> e.weight >= 1
    requires Total(entries) <= MAX_INT
    requires k <= |entries| && Before(entries, k) < random <= Total(entries)
    ensures var p := Stop(entries, k, Before(entries, k), random);
            k <= p < |entries| && Before(entries, p) < random <= Before(entries, p + 1)
    decreases |entries| - k
  {
    BeforeGrows(entries, 0, k);
    BeforeGrows(entries, k + 1, |entries|);
    if Before(entries, k + 1) < random {
      StopsWithin(entries, k + 1, random);
    }
  }

  lemma {:induction false} ShareSoFar(entries: seq<Entry>, i: nat, n: nat)
    requires i < |entries| && forall e :: e in entries ==> e.weight >= 1
    requires n <= Total(entries) <= MAX_INT
    ensures var (low, high) := (Before(entries, i), Before(entries, i + 1));
            Share(entries, i, n) == if n <= low then 0 else if n <= high then n - low else high - low
  {
    BeforeGrows(entries, 0, i);
    if n > 0 {
      ShareSoFar(entries, i, n - 1);
      StopsWithin(entries, 0, n);
      var p := Position(entries, n);
      if p < i {
        BeforeGrows(entries, p + 1, i);
      } else if i < p {
        BeforeGrows(entries, i + 1, p);
      }
    }
  }

  function ShareSum(entries: seq<Entry>, k: nat, n: nat): nat
    requires entries != [] && k <= |entries|
  {
    if k == 0 then 0 else ShareSum(entries, k - 1, n) + Share(entries, k - 1, n)
  }

  lemma {:induction false} SharesAddUp(entries: seq<Entry>, k: nat, n: nat)
    requires entries != [] && k <= |entries|
    ensures n > 0 ==> ShareSum(entries, k, n) ==
                      ShareSum(entries, k, n - 1) + if Position(entries, n) < k then 1 else 0
    ensures n == 0 ==> ShareSum(entries, k, n) == 0
  {
    if k > 0 {
      SharesAddUp(entries, k - 1, n);
    }
  }

  /** Every value picks some position. */
  lemma {:induction false} SharesPartition(entries: seq<Entry>, n: nat)
    requires entries != []
    ensures ShareSum(entries, |entries|, n) == n
  {
    SharesAddUp(entries, |entries|, n);
    if n > 0 {
      SharesPartition(entries, n - 1);
    }
  }

  lemma {:induction false} ExactSharesSum(entries: seq<Entry>, k: nat, n: nat)
    requires entries != [] && k <= |entries|
    requires forall i :: 0 <= i < |entries| ==> Share(entries, i, n) == entries[i].weight
    ensures ShareSum(entries, k, n) == Before(entries, k)
  {
    if k > 0 {
      ExactSharesSum(entries, k - 1, n);
    }
  }

  predicate SharesAreExact(l: List)
    requires l.entries != []
  {
    && l.sum >= 1
    && forall i :: 0 <= i < |l.entries| ==> Share(l.entries, i, l.sum) == l.entries[i].weight
  }

  /** Over the draws 1..sum every position is picked in exact proportion to its
      weight, and there are draws at all, if and only if the total fits an int. */
  lemma WeightedShares(l: List)
    requires WellFormed(l)
    ensures SharesAreExact(l) <==> Total(l.entries) <= MAX_INT
  {
    BeforeGrows(l.entries, 0, |l.entries|);
    if Total(l.entries) <= MAX_INT {
      forall i | 0 <= i < |l.entries|
        ensures Share(l.entries, i, l.sum) == l.entries[i].weight
      {
        BeforeGrows(l.entries, 0, i);
        BeforeGrows(l.entries, i + 1, |l.entries|);
        ShareSoFar(l.entries, i, l.sum);
      }
    }
    if SharesAreExact(l) {
      SharesPartition(l.entries, l.sum);
      ExactSharesSum(l.entries, |l.entries|, l.sum);
    }
  }

  lemma {:induction false} StopsSomewhere(entries: seq<Entry>, k: nat, random: int)
    requires k < |entries| && random <= Wrap64(Total(entries))
    ensures Stop(entries, k, Wrap64(Before(entries, k)), random) < |entries|
    decreases |entries| - k
  {
    WrapAdd(Before(entries, k), entries[k].weight);
    if k + 1 < |entries| {
      StopsSomewhere(entries, k + 1, random);
    }
  }

  /** For every list, its total fitting or not, no draw up to the sum falls
      through the loop: the wrapped running sum ends at the sum itself. */
  lemma FallbackUnreachable(l: List, random: int)
    requires WellFormed(l) && random <= l.sum
    ensures Stop(l.entries, 0, 0, random) < |l.entries|
  {
    StopsSomewhere(l.entries, 0, random);
  }

  lemma {:induction false} StopsAtFirst(entries: seq<Entry>, k: nat, p: nat, random: int)
    requires k <= p <= |entries|
    requires forall i :: k < i <= p ==> Wrap64(Before(entries, i)) < random
    requires p < |entries| ==> random <= Wrap64(Before(entries, p + 1))
    ensures Stop(entries, k, Wrap64(Before(entries, k)), random) == p
    decreases p - k
  {
    if k < |entries| {
      WrapAdd(Before(entries, k), entries[k].weight);
      if k < p {
        StopsAtFirst(entries, k + 1, p, random);
      }
    }
  }

  /** The position picked, for every list and number: the first whose wrapped
      running sum reaches the number, and the first of all if none does. */
  lemma PositionExactly(entries: seq<Entry>, p: nat, random: int)
    requires entries != [] && p <= |entries|
    requires forall i :: 0 < i <= p ==> Wrap64(Before(entries, i)) < random
    requires p < |entries| ==> random <= Wrap64(Before(entries, p + 1))
    ensures Position(entries, random) == if p < |entries| then p else 0
  {
    StopsAtFirst(entries, 0, p, random);
  }

  // ----- pickOne -----

  datatype Pick = Picked(id: string) | ListError(error: Error) | Panics

  /** A value below `n` made from what the generator supplies. */
  function Intn(draw: nat, n: int): (r: int)
    requires n >= 1
    ensures 0 <= r < n
  {
    draw % n
  }

  /** Every value below `n` can be drawn. */
  lemma AnyValueIsDrawn(v: nat, n: nat)
    requires v < n
    ensures Intn(v, n) == v
  {
  }

  /** The id that a draw picks by the general rule. */
  function PickedId(l: List, draw: nat): string
    requires l.entries != [] && l.sum >= 1
  {
    l.entries[Position(l.entries, Intn(draw, l.sum) + 1)].id
  }

  lemma PositionByStretch(l: List, random: int, i: nat)
    requires WellFormed(l) && Total(l.entries) <= MAX_INT && i < |l.entries|
    requires Before(l.entries, i) < random <= Before(l.entries, i + 1)
    ensures Position(l.entries, random) == i
  {
    BeforeGrows(l.entries, 0, i);
    BeforeGrows(l.entries, i + 1, |l.entries|);
    StopsWithin(l.entries, 0, random);
    var p := Position(l.entries, random);
    if p < i {
      BeforeGrows(l.entries, p + 1, i);
    } else if i < p {
      BeforeGrows(l.entries, i + 1, p);
    }
  }

  /** Which id a draw picks: while the total fits, the one whose stretch of the
      draws 0..sum-1 it falls into, each as long as its weight. */
  lemma PickedByStretch(l: List, draw: nat, i: nat)
    requires WellFormed(l) && Total(l.entries) <= MAX_INT && i < |l.entries| && l.sum >= 1
    requires Before(l.entries, i) <= Intn(draw, l.sum) < Before(l.entries, i + 1)
    ensures PickedId(l, draw) == l.entries[i].id
  {
    PositionByStretch(l, Intn(draw, l.sum) + 1, i);
  }

  lemma SingleEntry(l: List)
    requires WellFormed(l) && |l.entries| == 1
    ensures l.sum == l.entries[0].weight >= 1
  {
    assert l.entries[0] in l.entries;
    assert Total(l.entries) == Before(l.entries, 0) + l.entries[0].weight;
  }

  /** The pick from a parsed list. */
  method PickFrom(l: List, draw: nat) returns (p: Pick)
    requires WellFormed(l)
    ensures p == if l.sum < 1 then Panics else Picked(PickedId(l, draw))
  {
    if |l.entries| == 1 {
      SingleEntry(l);
      return Picked(l.entries[0].id);
    }
    if l.sum < 1 {
      return Panics;
    }
    var id := PickRandom(l, Intn(draw, l.sum) + 1);
    return Picked(id);
  }

  /** pickOne: its shortcut for a single entry is the general pick too, and the
      generator panics on a sum below one. */
  method PickOne(text: string, draw: nat) returns (p: Pick)
    ensures match Parse(text)
            case Err(e) => p == ListError(e)
            case Ok(l) => l.entries != [] && p == if l.sum < 1 then Panics else Picked(PickedId(l, draw))
  {
    var r := NewList(text);
    if r.Err? {
      return ListError(r.error);
    }
    ParsedIsWellFormed(text);
    p := PickFrom(r.value, draw);
  }

  lemma TwoEntriesSum(l: List)
    requires WellFormed(l) && |l.entries| == 2
    ensures l.sum < 1 <==> Total(l.entries) > MAX_INT
  {
    assert l.entries[0] in l.entries && l.entries[1] in l.entries;
    assert Before(l.entries, 1) == l.entries[0].weight;
    assert Total(l.entries) == l.entries[0].weight + l.entries[1].weight;
    WrapTwo(l.entries[0].weight, l.entries[1].weight);
  }

  /** Two legal weights are enough to make pickOne panic: with two entries it
      does so exactly when their total no longer fits an int. */
  lemma TwoEntriesPanic(l: List)
    requires WellFormed(l) && |l.entries| == 2
    ensures Parse(ListString(l)) == Ok(l)
    ensures l.sum < 1 <==> Total(l.entries) > MAX_INT
  {
    RoundTrip(l);
    TwoEntriesSum(l);
  }

  lemma PrintedPair(e1: Entry, e2: Entry)
    ensures Join(EntryStrings([e1, e2]), ',') == EntryString(e1) + [','] + EntryString(e2)
  {
    assert EntryStrings([e1, e2]) == [EntryString(e1), EntryString(e2)];
    assert [EntryString(e1), EntryString(e2)][1..] == [EntryString(e2)];
  }

  lemma PairText(weight: string)
    ensures "a" + [';'] + weight + [','] + "b" == "a;" + weight + ",b"
  {
  }

  /** A text that makes pickOne panic: "a;M,b" parses for every legal weight M
      (other than 1, which is not printed), and its sum is below one exactly when M
      is the largest int. */
  lemma PanickingText(m: int)
    requires 2 <= m <= MAX_INT
    ensures var parsed := Parse("a;" + Printed(m) + ",b");
            && parsed.Ok? && parsed.value.entries == [Entry("a", m), Entry("b", 1)]
            && (parsed.value.sum < 1 <==> m == MAX_INT)
  {
    var entries := [Entry("a", m), Entry("b", 1)];
    var l := List(entries, Wrap64(Total(entries)));
    assert Before(entries, 1) == m;
    assert Total(entries) == Before(entries, 2) == m + 1;
    TwoEntriesPanic(l);
    PrintedPair(entries[0], entries[1]);
    PairText(Printed(m));
  }

  /** A pick is safe from panicking for every list whose total fits. */
  lemma NoPanicWhenTotalFits(text: string)
    requires Parse(text).Ok? && Total(Parse(text).value.entries) <= MAX_INT
    ensures Parse(text).value.sum == Total(Parse(text).value.entries) >= |Parse(text).value.entries| >= 1
  {
    ParserImage(Parse(text).value);
    BeforeGrows(Parse(text).value.entries, 0, |Parse(text).value.entries|);
  }
}

/**
  CSV output, and the reader of section 2 of RFC 4180 with a line feed between records:
  what is printed reads back as the same cells.
 */
module Csv {
  import opened Wrappers
  import opened Lists
  import opened Strings
  import opened Prototypes

  // ---------------------------------------------------------------- the reader

  /** A parsed prefix and what follows it, or malformed text. */
  datatype Step<+T> = Malformed | Got(value: T, rest: string)

  function Prepend(c: char, step: Step<string>): Step<string> {
    match step case Malformed => Malformed case Got(v, rest) => Got([c] + v, rest)
  }

  /** The inside of a quoted field, up to its closing quote. */
  function ReadQuoted(s: string): (r: Step<string>)
    ensures r.Got? ==> |r.rest| < |s|
  {
    if s == "" then Malformed
    else if s[0] != '"' then Prepend(s[0], ReadQuoted(s[1..]))
    else if |s| > 1 && s[1] == '"' then Prepend('"', ReadQuoted(s[2..]))
    else Got("", s[1..])
  }

  /** A field without quotes: no quote or carriage return may stand in it. */
  function ReadPlain(s: string): (r: Step<string>)
    ensures r.Got? ==> |r.rest| <= |s|
  {
    if s == "" || s[0] == ',' || s[0] == '\n' then Got("", s)
    else if s[0] == '"' || s[0] == '\r' then Malformed
    else Prepend(s[0], ReadPlain(s[1..]))
  }

  function ReadField(s: string): (r: Step<string>)
    ensures r.Got? ==> |r.rest| <= |s|
  {
    if s != "" && s[0] == '"' then ReadQuoted(s[1..]) else ReadPlain(s)
  }

  /** One or more fields with commas between. */
  function ReadRecord(s: string): (r: Step<seq<string>>)
    ensures r.Got? ==> |r.rest| <= |s|
    decreases |s|
  {
    match ReadField(s)
    case Malformed => Malformed
    case Got(v, rest) =>
      if rest == "" || rest[0] != ',' then Got([v], rest)
      else match ReadRecord(rest[1..])
           case Malformed => Malformed
           case Got(more, last) => Got([v] + more, last)
  }

  /** One or more records with line feeds between. */
  function ReadFile(s: string): Option<seq<seq<string>>>
    decreases |s|
  {
    match ReadRecord(s)
    case Malformed => None
    case Got(fields, rest) =>
      if rest == "" then Some([fields])
      else if rest[0] != '\n' then None
      else match ReadFile(rest[1..])
           case None => None
           case Some(more) => Some([fields] + more)
  }

  // --------------------------------------------------------------- the printer

  predicate NeedsQuoting(v: string) {
    exists i :: 0 <= i < |v| && (v[i] == ',' || v[i] == '"' || v[i] == '\n' || v[i] == '\r')
  }

  function Doubled(v: string): string {
    if v == "" then "" else (if v[0] == '"' then "\"\"" else [v[0]]) + Doubled(v[1..])
  }

  function QuoteField(v: string): string {
    if NeedsQuoting(v) then "\"" + (Doubled(v) + "\"") else v
  }

  function QuoteAll(fields: seq<string>): seq<string> {
    if fields == [] then [] else [QuoteField(fields[0])] + QuoteAll(fields[1..])
  }

  function Line(fields: seq<string>): string {
    Join(QuoteAll(fields), ",")
  }

  function Lines(records: seq<seq<string>>): seq<string> {
    if records == [] then [] else [Line(records[0])] + Lines(records[1..])
  }

  /** What may stand right after a field. */
  predicate EndsField(rest: string) {
    rest == "" || rest[0] == ',' || rest[0] == '\n'
  }

  lemma {:induction false} QuotedReads(v: string, rest: string)
    requires EndsField(rest)
    ensures ReadQuoted(Doubled(v) + ("\"" + rest)) == Got(v, rest)
  {
    var s := Doubled(v) + ("\"" + rest);
    if v == "" {
      assert s == "\"" + rest;
    } else {
      QuotedReads(v[1..], rest);
      var t := Doubled(v[1..]) + ("\"" + rest);
      assert v == [v[0]] + v[1..];
      if v[0] == '"' {
        assert s == "\"\"" + t && s[2..] == t;
      } else {
        assert s == [v[0]] + t && s[1..] == t;
      }
    }
  }

  lemma {:induction false} PlainReads(v: string, rest: string)
    requires !NeedsQuoting(v) && EndsField(rest)
    ensures ReadPlain(v + rest) == Got(v, rest)
  {
    if v == "" {
      assert v + rest == rest;
    } else {
      assert v[0] != ',' && v[0] != '"' && v[0] != '\n' && v[0] != '\r';
      forall i | 0 <= i < |v[1..]| ensures v[1..][i] == v[i + 1] {
      }
      PlainReads(v[1..], rest);
      assert (v + rest)[1..] == v[1..] + rest;
      assert v == [v[0]] + v[1..];
    }
  }

  lemma QuotedText(v: string, rest: string)
    requires NeedsQuoting(v)
    ensures (QuoteField(v) + rest)[1..] == Doubled(v) + ("\"" + rest) && QuoteField(v)[0] == '"'
  {
    assert ("\"" + (Doubled(v) + "\""))[1..] == Doubled(v) + "\"";
    assert (Doubled(v) + "\"") + rest == Doubled(v) + ("\"" + rest);
  }

  /** A printed field reads back, whatever characters are in it. */
  lemma FieldReads(v: string, rest: string)
    requires EndsField(rest)
    ensures ReadField(QuoteField(v) + rest) == Got(v, rest)
  {
    if NeedsQuoting(v) {
      QuotedReads(v, rest);
      QuotedText(v, rest);
    } else {
      PlainReads(v, rest);
      assert v != "" ==> v[0] != '"';
    }
  }

  lemma OneField(v: string)
    ensures Line([v]) == QuoteField(v)
  {
    assert [v][1..] == [];
    assert QuoteAll([v]) == [QuoteField(v)] + QuoteAll([]);
  }

  lemma OneRecord(fields: seq<string>)
    ensures Lines([fields]) == [Line(fields)]
  {
    assert [fields][1..] == [];
    assert Lines([fields]) == [Line(fields)] + Lines([]);
  }

  lemma LineParts(fields: seq<string>, rest: string)
    requires |fields| > 1
    ensures Line(fields) + rest == QuoteField(fields[0]) + ("," + (Line(fields[1..]) + rest))
  {
    assert fields[1..] != [] && QuoteAll(fields)[1..] == QuoteAll(fields[1..]) && QuoteAll(fields[1..]) != [];
    assert Line(fields) == QuoteField(fields[0]) + ("," + Line(fields[1..]));
  }

  lemma {:induction false} RecordReads(fields: seq<string>, rest: string)
    requires fields != [] && (rest == "" || rest[0] == '\n')
    ensures ReadRecord(Line(fields) + rest) == Got(fields, rest)
  {
    if |fields| == 1 {
      assert fields == [fields[0]];
      OneField(fields[0]);
      FieldReads(fields[0], rest);
    } else {
      RecordReads(fields[1..], rest);
      var tail := "," + (Line(fields[1..]) + rest);
      LineParts(fields, rest);
      FieldReads(fields[0], tail);
      assert tail[1..] == Line(fields[1..]) + rest;
      assert fields == [fields[0]] + fields[1..];
    }
  }

  ghost predicate AllHaveFields(records: seq<seq<string>>) {
    forall i :: 0 <= i < |records| ==> records[i] != []
  }

  /** A printed table reads back as its records, cell by cell. */
  lemma {:induction false} TableReads(records: seq<seq<string>>)
    requires records != [] && AllHaveFields(records)
    ensures ReadFile(Join(Lines(records), "\n")) == Some(records)
  {
    if |records| == 1 {
      assert records == [records[0]];
      OneRecord(records[0]);
      RecordReads(records[0], "");
      assert Line(records[0]) + "" == Line(records[0]);
    } else {
      TableReads(records[1..]);
      var text := Join(Lines(records[1..]), "\n");
      assert Lines(records)[1..] == Lines(records[1..]);
      RecordReads(records[0], "\n" + text);
      assert ("\n" + text)[1..] == text;
      assert records == [records[0]] + records[1..];
    }
  }

  /** The reading in which a line feed may also end the last record. */
  function ReadWithLastBreak(s: string): Option<seq<seq<string>>> {
    match ReadFile(s)
    case None => None
    case Some(records) =>
      if |records| > 1 && records[|records| - 1] == [""] then Some(records[..|records| - 1]) else Some(records)
  }

  /** Under it a table reads back exactly when it does not end in a record of one empty cell. */
  lemma LastBreakReads(records: seq<seq<string>>)
    requires records != [] && AllHaveFields(records)
    ensures ReadWithLastBreak(Join(Lines(records), "\n")) == Some(records)
      <==> |records| == 1 || records[|records| - 1] != [""]
  {
    TableReads(records);
    if |records| > 1 {
      assert |records[..|records| - 1]| < |records|;
    }
  }

  // ------------------------------------------------------------------ the data

  /** A cell value; a structured one is printed as its JSON text. */
  datatype Value = Nothing | Structured(json: string) | Plain(text: string)

  datatype Member = Member(key: string, value: Value)

  /** A plain object; another object, that is an array; or a scalar. */
  datatype Kind = Record | List | Scalar

  /** An array element with its own enumerable members. */
  datatype Item = Item(value: Value, kind: Kind, members: seq<Member>)

  datatype Data = NoData | Object(item: Item) | Array(items: seq<Item>) | Primitive(text: string)

  /** How the host prints a built-in function after its first word, and what lists and scalars inherit. */
  datatype Host = Host(native: string -> string, inherited: (Item, string) -> Value)

  /** Reading a member that an item does not have. */
  function Inherited(item: Item, key: string, host: Host): Value {
    if item.kind != Record then host.inherited(item, key)
    else if key !in ObjectMembers then Nothing
    else if key == "__proto__" then Structured("{}")
    else Plain("function " + host.native(key))
  }

  function ToCsvString(v: Value): string {
    match v case Nothing => "" case Structured(json) => json case Plain(text) => text
  }

  function Keys(members: seq<Member>): seq<string> {
    if members == [] then [] else [members[0].key] + Keys(members[1..])
  }

  function Lookup(members: seq<Member>, key: string): Option<Value> {
    if members == [] then None
    else if members[0].key == key then Some(members[0].value)
    else Lookup(members[1..], key)
  }

  function Cell(item: Item, key: string, host: Host): string {
    match Lookup(item.members, key)
    case Some(v) => ToCsvString(v)
    case None => ToCsvString(Inherited(item, key, host))
  }

  function Cells(item: Item, keys: seq<string>, host: Host): seq<string> {
    if keys == [] then [] else [Cell(item, keys[0], host)] + Cells(item, keys[1..], host)
  }

  function AllKeys(items: seq<Item>): seq<string> {
    if items == [] then [] else AllKeys(items[..|items| - 1]) + Keys(items[|items| - 1].members)
  }

  /** The columns: every key once, in order of first appearance. */
  function Columns(items: seq<Item>): seq<string> {
    Distinct(AllKeys(items))
  }

  lemma {:induction false} KeysIff(members: seq<Member>, key: string)
    ensures key in Keys(members) <==> Lookup(members, key).Some?
  {
    if members != [] {
      KeysIff(members[1..], key);
    }
  }

  /** A column for exactly the keys some item has. */
  lemma {:induction false} ColumnIff(items: seq<Item>, key: string)
    ensures key in Columns(items) <==> exists item :: item in items && Lookup(item.members, key).Some?
  {
    DistinctMembers(AllKeys(items), key);
    if items != [] {
      var front, last := items[..|items| - 1], items[|items| - 1];
      ColumnIff(front, key);
      DistinctMembers(AllKeys(front), key);
      KeysIff(last.members, key);
      assert items == front + [last];
    }
  }

  /** Of a plain object an absent key is an empty cell exactly when no plain object inherits a member of that name. */
  lemma AbsentCellIff(item: Item, key: string, host: Host)
    requires item.kind == Record && key !in Keys(item.members)
    ensures Cell(item, key, host) == "" <==> key !in ObjectMembers
  {
    KeysIff(item.members, key);
    assert "{}" != "" && |"function " + host.native(key)| >= 9;
  }

  function Rows(items: seq<Item>, keys: seq<string>, host: Host): seq<seq<string>> {
    if items == [] then [] else Rows(items[..|items| - 1], keys, host) + [Cells(items[|items| - 1], keys, host)]
  }

  function Values(items: seq<Item>): seq<seq<string>> {
    if items == [] then [] else Values(items[..|items| - 1]) + [[ToCsvString(items[|items| - 1].value)]]
  }

  /** The records printed for some data; none for empty data. */
  function Table(data: Data, host: Host): seq<seq<string>> {
    match data
    case NoData => []
    case Object(item) =>
      var keys := Keys(item.members);
      if keys == [] then [] else [keys, Cells(item, keys, host)]
    case Array(items) =>
      if items == [] then []
      else if items[0].kind == Scalar then [["VALUE"]] + Values(items)
      else [Columns(items)] + Rows(items, Columns(items), host)
    case Primitive(text) => [[text]]
  }

  /** Nothing can be asked for the members of a missing item. */
  predicate Fails(data: Data) {
    data.Array? && data.items != [] && data.items[0].kind != Scalar &&
      exists i :: 0 <= i < |data.items| && data.items[i].value == Nothing
  }

  // ------------------------------------------- the records, said of the data alone

  /** Nothing is the empty text. */
  predicate IsTextOf(v: Value, text: string) {
    (v == Nothing && text == "") || v == Structured(text) || v == Plain(text)
  }

  predicate HasMember(item: Item, key: string, v: Value) {
    Member(key, v) in item.members
  }

  ghost predicate HasKey(item: Item, key: string) {
    exists v :: HasMember(item, key, v)
  }

  /** What an object is: no two members have one key. */
  ghost predicate KeysDiffer(item: Item) {
    forall i, j :: 0 <= i < j < |item.members| ==> item.members[i].key != item.members[j].key
  }

  /** The text of the item's member, or of what it inherits under that name. */
  ghost predicate IsCell(item: Item, key: string, host: Host, text: string) {
    && (KeysDiffer(item) ==> forall v :: HasMember(item, key, v) ==> IsTextOf(v, text))
    && (!HasKey(item, key) ==>
          if item.kind != Record then IsTextOf(host.inherited(item, key), text)
          else if key == "__proto__" then text == "{}"
          else if key in ObjectMembers then text == "function " + host.native(key)
          else text == "")
  }

  ghost predicate IsRow(item: Item, keys: seq<string>, host: Host, row: seq<string>) {
    |row| == |keys| && forall j :: 0 <= j < |keys| ==> IsCell(item, keys[j], host, row[j])
  }

  /** Item `i` has `key` as its `j`-th, and neither it nor an item above has `later` up to there. */
  ghost predicate ComesBefore(items: seq<Item>, key: string, later: string, i: int, j: int) {
    && 0 <= i < |items| && 0 <= j < |items[i].members| && items[i].members[j].key == key
    && (forall k :: 0 <= k < i ==> !HasKey(items[k], later))
    && (forall k :: 0 <= k <= j ==> items[i].members[k].key != later)
  }

  /** Each key of some item once, in the order in which they first appear. */
  ghost predicate IsHeader(items: seq<Item>, keys: seq<string>) {
    && (forall key :: key in keys <==> exists item :: item in items && HasKey(item, key))
    && (forall p, q :: 0 <= p < q < |keys| ==> keys[p] != keys[q] && AppearsBefore(items, keys[p], keys[q]))
  }

  ghost predicate AppearsBefore(items: seq<Item>, key: string, later: string) {
    exists i, j :: ComesBefore(items, key, later, i, j)
  }

  /** The records of some data. */
  ghost predicate AreRecords(data: Data, host: Host, records: seq<seq<string>>) {
    match data
    case NoData => records == []
    case Object(item) =>
      if item.members == [] then records == []
      else |records| == 2 && |records[0]| == |item.members|
           && (forall j :: 0 <= j < |item.members| ==> records[0][j] == item.members[j].key)
           && IsRow(item, records[0], host, records[1])
    case Array(items) =>
      if items == [] then records == []
      else if items[0].kind == Scalar then AreValues(items, records) && records[0] == ["VALUE"]
      else AreRows(items, host, records) && IsHeader(items, records[0])
    case Primitive(text) => records == [[text]]
  }

  /** Each item has its record below the header. */
  ghost predicate AreValues(items: seq<Item>, records: seq<seq<string>>)
  {
    |records| == |items| + 1 &&
      forall i :: 0 <= i < |items| ==> |records[i + 1]| == 1 && IsTextOf(items[i].value, records[i + 1][0])
  }

  ghost predicate AreRows(items: seq<Item>, host: Host, records: seq<seq<string>>)
  {
    |records| == |items| + 1 &&
      forall i :: 0 <= i < |items| ==> IsRow(items[i], records[0], host, records[i + 1])
  }

  lemma {:induction false} LookupIs(members: seq<Member>, key: string)
    ensures match Lookup(members, key)
      case Some(v) => Member(key, v) in members
      case None => forall v :: Member(key, v) !in members
  {
    if members != [] {
      LookupIs(members[1..], key);
    }
  }

  lemma CellIs(item: Item, key: string, host: Host)
    ensures IsCell(item, key, host, Cell(item, key, host))
  {
    LookupIs(item.members, key);
    if KeysDiffer(item) {
      forall v | HasMember(item, key, v) ensures Lookup(item.members, key) == Some(v) {
        var w := Lookup(item.members, key).value;
        var i :| 0 <= i < |item.members| && item.members[i] == Member(key, v);
        var j :| 0 <= j < |item.members| && item.members[j] == Member(key, w);
        assert i == j;
      }
    }
    assert Lookup(item.members, key).Some? ==> HasMember(item, key, Lookup(item.members, key).value);
  }

  lemma {:induction false} CellsAre(item: Item, keys: seq<string>, host: Host)
    ensures IsRow(item, keys, host, Cells(item, keys, host))
  {
    if keys != [] {
      CellsAre(item, keys[1..], host);
      CellIs(item, keys[0], host);
      forall j | 1 <= j < |keys| ensures IsCell(item, keys[j], host, Cells(item, keys, host)[j]) {
        assert IsCell(item, keys[1..][j - 1], host, Cells(item, keys[1..], host)[j - 1]);
      }
    }
  }

  lemma {:induction false} KeysAre(members: seq<Member>)
    ensures |Keys(members)| == |members|
    ensures forall j :: 0 <= j < |members| ==> Keys(members)[j] == members[j].key
  {
    if members != [] {
      KeysAre(members[1..]);
    }
  }

  lemma {:induction false} RowsAre(items: seq<Item>, keys: seq<string>, host: Host)
    ensures |Rows(items, keys, host)| == |items|
    ensures forall i :: 0 <= i < |items| ==> IsRow(items[i], keys, host, Rows(items, keys, host)[i])
  {
    if items != [] {
      RowsAre(items[..|items| - 1], keys, host);
      CellsAre(items[|items| - 1], keys, host);
    }
  }

  lemma {:induction false} ValuesAre(items: seq<Item>)
    ensures |Values(items)| == |items|
    ensures forall i :: 0 <= i < |items| ==> |Values(items)[i]| == 1 && IsTextOf(items[i].value, Values(items)[i][0])
  {
    if items != [] {
      ValuesAre(items[..|items| - 1]);
    }
  }

  /** Of two elements kept once, the first one is met before the second. */
  lemma {:induction false} DistinctOrder<T>(s: seq<T>, p: nat, q: nat) returns (k: nat)
    requires p < q < |Distinct(s)|
    ensures k < |s| && s[k] == Distinct(s)[p] && Distinct(s)[p] != Distinct(s)[q] && Distinct(s)[q] !in s[..k + 1]
  {
    var front, last := s[..|s| - 1], s[|s| - 1];
    assert s == front + [last];
    DistinctSnoc(front, last);
    DistinctMembers(front, last);
    if q < |Distinct(front)| {
      k := DistinctOrder(front, p, q);
      assert s[..k + 1] == front[..k + 1];
    } else {
      DistinctMembers(front, Distinct(front)[p]);
      k :| 0 <= k < |front| && front[k] == Distinct(front)[p];
      assert forall i :: 0 <= i <= k ==> s[i] in front;
    }
  }

  /** Where a key of the whole list comes from. */
  lemma {:induction false} KeyFrom(items: seq<Item>, k: nat) returns (i: nat, j: nat)
    requires k < |AllKeys(items)|
    ensures i < |items| && j < |items[i].members| && AllKeys(items)[k] == items[i].members[j].key
    ensures forall m, key :: 0 <= m < i && HasKey(items[m], key) ==> key in AllKeys(items)[..k + 1]
    ensures forall m :: 0 <= m <= j ==> items[i].members[m].key in AllKeys(items)[..k + 1]
  {
    var n := |items| - 1;
    var front := AllKeys(items[..n]);
    KeysAre(items[n].members);
    if k < |front| {
      i, j := KeyFrom(items[..n], k);
      assert AllKeys(items)[..k + 1] == front[..k + 1];
    } else {
      i, j := n, k - |front|;
      forall m, key | 0 <= m < n && HasKey(items[m], key) ensures key in AllKeys(items)[..k + 1] {
        KeyThere(items[..n], m, key);
        assert AllKeys(items)[..k + 1] == front + Keys(items[n].members)[..j + 1];
      }
      forall m | 0 <= m <= j ensures items[i].members[m].key in AllKeys(items)[..k + 1] {
        assert AllKeys(items)[..k + 1][|front| + m] == items[n].members[m].key;
      }
    }
  }

  lemma {:induction false} KeyThere(items: seq<Item>, i: nat, key: string)
    requires i < |items| && HasKey(items[i], key)
    ensures key in AllKeys(items)
  {
    var n := |items| - 1;
    if i < n {
      KeyThere(items[..n], i, key);
    } else {
      HasKeyIff(items[n], key);
      KeysIff(items[n].members, key);
    }
  }

  lemma HasKeyIff(item: Item, key: string)
    ensures HasKey(item, key) <==> Lookup(item.members, key).Some?
  {
    LookupIs(item.members, key);
    if Lookup(item.members, key).Some? {
      assert HasMember(item, key, Lookup(item.members, key).value);
    }
  }

  lemma ColumnsAre(items: seq<Item>)
    ensures IsHeader(items, Columns(items))
  {
    var keys := Columns(items);
    forall key ensures key in keys <==> exists item :: item in items && HasKey(item, key) {
      ColumnIff(items, key);
      forall item ensures HasKey(item, key) <==> Lookup(item.members, key).Some? {
        HasKeyIff(item, key);
      }
    }
    forall p: nat, q: nat | p < q < |keys| ensures keys[p] != keys[q] && AppearsBefore(items, keys[p], keys[q]) {
      var k := DistinctOrder(AllKeys(items), p, q);
      var i, j := KeyFrom(items, k);
      assert ComesBefore(items, keys[p], keys[q], i, j);
    }
  }

  lemma ValueRecords(items: seq<Item>)
    ensures AreValues(items, [["VALUE"]] + Values(items))
  {
    ValuesAre(items);
  }

  lemma RowRecords(items: seq<Item>, keys: seq<string>, host: Host)
    ensures AreRows(items, host, [keys] + Rows(items, keys, host))
  {
    RowsAre(items, keys, host);
  }

  lemma ObjectRecords(item: Item, host: Host)
    requires item.members != []
    ensures AreRecords(Object(item), host, [Keys(item.members), Cells(item, Keys(item.members), host)])
  {
    KeysAre(item.members);
    CellsAre(item, Keys(item.members), host);
  }

  /** The printed records are those of the data. */
  lemma TableIs(data: Data, host: Host)
    ensures AreRecords(data, host, Table(data, host))
  {
    match data
    case NoData =>
    case Primitive(_) =>
    case Object(item) =>
      KeysAre(item.members);
      if item.members != [] {
        ObjectRecords(item, host);
      }
    case Array(items) =>
      if items != [] {
        if items[0].kind == Scalar {
          ValuesAre(items);
          ValueRecords(items);
        } else {
          ColumnsAre(items);
          RowsAre(items, Columns(items), host);
          RowRecords(items, Columns(items), host);
        }
      }
  }

  /** A field is quoted only for a comma, a quote or a line break in it. */
  lemma QuotedIff(v: string)
    ensures QuoteField(v) == v <==> ',' !in v && '"' !in v && '\n' !in v && '\r' !in v
  {
    DoubledSize(v);
    assert NeedsQuoting(v) <==> ',' in v || '"' in v || '\n' in v || '\r' in v by {
      if c: char :| c in v && (c == ',' || c == '"' || c == '\n' || c == '\r') {
        var i :| 0 <= i < |v| && v[i] == c;
      }
    }
  }

  lemma {:induction false} DoubledSize(v: string)
    ensures |Doubled(v)| >= |v|
  {
    if v != "" {
      DoubledSize(v[1..]);
    }
  }

  // --------------------------------------------------------------- the methods

  /** Adding keys to an insertion-ordered set. */
  method AddKeys(seenKeys: seq<string>, keys: seq<string>, ghost seen: seq<string>) returns (r: seq<string>)
    requires seenKeys == Distinct(seen)
    ensures r == Distinct(seen + keys)
  {
    r := seenKeys;
    Prefixes(keys);
    assert seen + [] == seen;
    for i := 0 to |keys|
      invariant r == Distinct(seen + keys[..i])
    {
      Prefix(keys, i);
      DistinctSnoc(seen + keys[..i], keys[i]);
      DistinctMembers(seen + keys[..i], keys[i]);
      assert seen + keys[..i + 1] == (seen + keys[..i]) + [keys[i]];
      if keys[i] !in r {
        r := r + [keys[i]];
      }
    }
  }

  lemma LinesSnoc(records: seq<seq<string>>, fields: seq<string>)
    ensures Lines(records + [fields]) == Lines(records) + [Line(fields)]
  {
    if records != [] {
      LinesSnoc(records[1..], fields);
      assert (records + [fields])[1..] == records[1..] + [fields];
    }
  }

  method FormatArrayCsv(items: seq<Item>, host: Host) returns (r: Option<string>)
    ensures r == None <==> exists i :: 0 <= i < |items| && items[i].value == Nothing
    ensures r.Some? ==> r.value == Join(Lines([Columns(items)] + Rows(items, Columns(items), host)), "\n")
  {
    var columns := [];
    Prefixes(items);
    for i := 0 to |items|
      invariant forall j :: 0 <= j < i ==> items[j].value != Nothing
      invariant columns == Columns(items[..i])
    {
      if items[i].value == Nothing {
        return None;
      }
      columns := AddKeys(columns, Keys(items[i].members), AllKeys(items[..i]));
      assert items[..i + 1][..i] == items[..i];
    }
    var lines := [Line(columns)];
    for i := 0 to |items|
      invariant lines == Lines([columns] + Rows(items[..i], columns, host))
    {
      var row := Cells(items[i], columns, host);
      LinesSnoc([columns] + Rows(items[..i], columns, host), row);
      lines := lines + [Line(row)];
      assert items[..i + 1][..i] == items[..i];
      assert [columns] + Rows(items[..i + 1], columns, host) == ([columns] + Rows(items[..i], columns, host)) + [row];
    }
    return Some(Join(lines, "\n"));
  }

  method FormatPrimitiveCsv(items: seq<Item>) returns (r: string)
    ensures r == Join(Lines([["VALUE"]] + Values(items)), "\n")
  {
    var lines := ["VALUE"];
    Prefixes(items);
    OneField("VALUE");
    assert !NeedsQuoting("VALUE");
    OneRecord(["VALUE"]);
    for i := 0 to |items|
      invariant lines == Lines([["VALUE"]] + Values(items[..i]))
    {
      var row := [ToCsvString(items[i].value)];
      LinesSnoc([["VALUE"]] + Values(items[..i]), row);
      OneField(row[0]);
      lines := lines + [QuoteField(ToCsvString(items[i].value))];
      assert items[..i + 1][..i] == items[..i];
      assert [["VALUE"]] + Values(items[..i + 1]) == ([["VALUE"]] + Values(items[..i])) + [row];
    }
    r := Join(lines, "\n");
  }

  lemma {:induction false} RowsHaveFields(items: seq<Item>, keys: seq<string>, host: Host)
    requires keys != []
    ensures AllHaveFields(Rows(items, keys, host)) && AllHaveFields(Values(items))
  {
    if items != [] {
      RowsHaveFields(items[..|items| - 1], keys, host);
    }
  }

  /** Objects without any member print an empty line each, below an empty header. */
  lemma {:induction false} NoColumns(items: seq<Item>, host: Host)
    ensures |Lines(Rows(items, [], host))| == |items|
    ensures forall i :: 0 <= i < |items| ==> Lines(Rows(items, [], host))[i] == ""
  {
    if items != [] {
      var n := |items| - 1;
      NoColumns(items[..n], host);
      LinesSnoc(Rows(items[..n], [], host), []);
    }
  }

  lemma {:induction false} JoinEmpty(parts: seq<string>)
    requires parts != [] && forall i :: 0 <= i < |parts| ==> parts[i] == ""
    ensures |Join(parts, "\n")| == |parts| - 1 && forall c :: c in Join(parts, "\n") ==> c == '\n'
  {
    if |parts| > 1 {
      JoinEmpty(parts[1..]);
    }
  }

  lemma NoColumnsText(items: seq<Item>, host: Host)
    ensures
      var text := Join(Lines([[]] + Rows(items, [], host)), "\n");
      |text| == |items| && forall c :: c in text ==> c == '\n'
  {
    var rows := Rows(items, [], host);
    assert ([[]] + rows)[1..] == rows;
    assert Lines([[]] + rows) == [Line([])] + Lines(rows);
    NoColumns(items, host);
    JoinEmpty(Lines([[]] + rows));
  }

  /** What a reader of the text gets back, and the text when there is no column. */
  ghost predicate ReadsAs(text: string, records: seq<seq<string>>) {
    if records == [] then text == ""
    else if records[0] == [] then |text| == |records| - 1 && forall c :: c in text ==> c == '\n'
    else ReadFile(text) == Some(records)
  }

  /** A header and one record, or nothing for an object without members. */
  method FormatObjectCsv(item: Item, host: Host) returns (r: string)
    ensures ReadsAs(r, Table(Object(item), host))
  {
    var keys := Keys(item.members);
    if keys == [] {
      return "";
    }
    var row := Cells(item, keys, host);
    TableReads([keys, row]);
    OneRecord(row);
    assert [keys, row][1..] == [row];
    r := Line(keys) + ("\n" + Line(row));
  }

  /** The text of a list reads as its records, of primitives and of objects. */
  lemma ListReads(items: seq<Item>, host: Host)
    requires items != []
    ensures ReadsAs(Join(Lines([["VALUE"]] + Values(items)), "\n"), [["VALUE"]] + Values(items))
    ensures
      var table := [Columns(items)] + Rows(items, Columns(items), host);
      ReadsAs(Join(Lines(table), "\n"), table)
  {
    RowsHaveFields(items, ["VALUE"], host);
    TableReads([["VALUE"]] + Values(items));
    if Columns(items) != [] {
      RowsHaveFields(items, Columns(items), host);
      TableReads([Columns(items)] + Rows(items, Columns(items), host));
    } else {
      RowsAre(items, [], host);
      NoColumnsText(items, host);
    }
  }

  /**
    CSV of any data. It fails only on a list of objects with a missing one. Otherwise,
    when there is at least one column, a reader gets back the header and every cell.
   */
  method FormatCsv(data: Data, host: Host) returns (r: Option<string>)
    ensures r == None <==> Fails(data)
    ensures r.Some? ==> ReadsAs(r.value, Table(data, host))
    ensures r.Some? ==> exists records :: AreRecords(data, host, records) && ReadsAs(r.value, records)
  {
    TableIs(data, host);
    match data
    case NoData => r := Some("");
    case Object(item) =>
      var text := FormatObjectCsv(item, host);
      r := Some(text);
    case Array(items) =>
      if items == [] {
        return Some("");
      }
      ListReads(items, host);
      if items[0].kind == Scalar {
        var text := FormatPrimitiveCsv(items);
        return Some(text);
      }
      r := FormatArrayCsv(items, host);
    case Primitive(text) =>
      TableReads([[text]]);
      OneField(text);
      OneRecord([text]);
      r := Some(QuoteField(text));
  }

  /** `[{constructor: 1}, {a: 2}]`: the second object has no `constructor`, and its cell is not empty. */
  lemma InheritedCell(host: Host)
    ensures
      var first := Item(Structured(""), Record, [Member("constructor", Plain("1"))]);
      var second := Item(Structured(""), Record, [Member("a", Plain("2"))]);
      && Table(Array([first, second]), host)
         == [["constructor", "a"], ["1", ""], ["function " + host.native("constructor"), "2"]]
      && "constructor" !in Keys(second.members) && Cell(second, "constructor", host) != ""
  {
    var one: seq<Member> := [Member("constructor", Plain("1"))];
    var two: seq<Member> := [Member("a", Plain("2"))];
    var first, second := Item(Structured(""), Record, one), Item(Structured(""), Record, two);
    var items, columns := [first, second], ["constructor", "a"];
    assert "constructor"[0] == 'c' && "a"[0] == 'a';
    OneMember("constructor", Plain("1"));
    OneMember("a", Plain("2"));
    TwoColumns(first, second);
    assert Cells(first, columns, host) == ["1", ""] by {
      TwoCells(first, host);
    }
    assert Cells(second, columns, host) == ["function " + host.native("constructor"), "2"] by {
      TwoCells(second, host);
    }
    assert items[..1] == [first] && items[..1][..0] == [];
    assert Rows([first], columns, host) == Rows([], columns, host) + [Cells(first, columns, host)];
    assert Rows(items, columns, host) == Rows([first], columns, host) + [Cells(second, columns, host)];
    assert Rows(items, columns, host) == [["1", ""], ["function " + host.native("constructor"), "2"]];
  }

  lemma OneMember(key: string, v: Value)
    ensures Keys([Member(key, v)]) == [key]
    ensures forall k :: Lookup([Member(key, v)], k) == if k == key then Some(v) else None
  {
    var one := [Member(key, v)];
    assert one[1..] == [];
    assert Keys(one) == [key] + Keys([]);
  }

  lemma TwoCells(item: Item, host: Host)
    ensures Cells(item, ["constructor", "a"], host) == [Cell(item, "constructor", host), Cell(item, "a", host)]
  {
    var keys := ["constructor", "a"];
    assert keys[1..] == ["a"] && ["a"][1..] == [];
    assert Cells(item, ["a"], host) == [Cell(item, "a", host)] + Cells(item, [], host);
    assert Cells(item, keys, host) == [Cell(item, "constructor", host)] + Cells(item, ["a"], host);
  }

  lemma TwoColumns(first: Item, second: Item)
    requires Keys(first.members) == ["constructor"] && Keys(second.members) == ["a"]
    ensures Columns([first, second]) == ["constructor", "a"]
  {
    var items := [first, second];
    assert items[..1] == [first] && [first][..0] == [];
    assert AllKeys([first]) == ["constructor"];
    assert AllKeys(items) == ["constructor"] + ["a"];
    assert "constructor"[0] == 'c' && "a"[0] == 'a';
    DistinctSnoc([], "constructor");
    DistinctSnoc(["constructor"], "a");
    assert [] + ["constructor"] == ["constructor"];
  }
}

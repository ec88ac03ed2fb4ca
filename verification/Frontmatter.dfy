/**
  The front matter of a skill file, line by line: its blocks, the trigger list, and
  merging a generated front matter into an existing one.
 */
module Frontmatter {
  import opened Wrappers
  import opened Lists
  import opened Strings

  /** A key line and the lines below it up to the next key. */
  datatype Block = Block(key: string, lines: seq<string>)

  // -------------------------------------------------------------------- blocks

  predicate IsKeyChar(c: char) {
    'A' <= c <= 'Z' || 'a' <= c <= 'z' || '0' <= c <= '9' || c == '_' || c == '-'
  }

  function KeyLength(line: string): (n: nat)
    ensures n <= |line|
  {
    if line != "" && IsKeyChar(line[0]) then 1 + KeyLength(line[1..]) else 0
  }

  /** The name before the colon a key line starts with. */
  function KeyOf(line: string): Option<string> {
    var n := KeyLength(line);
    if 0 < n < |line| && line[n] == ':' then Some(line[..n]) else None
  }

  /** A line starts a block or belongs to the last; lines before the first key are dropped. */
  function AddLine(blocks: seq<Block>, line: string): seq<Block> {
    match KeyOf(line)
    case Some(key) => blocks + [Block(key, [line])]
    case None =>
      if blocks == [] then []
      else
        var last := blocks[|blocks| - 1];
        blocks[..|blocks| - 1] + [Block(last.key, last.lines + [line])]
  }

  function Blocks(body: seq<string>): seq<Block> {
    Fold(AddLine, [], body)
  }

  /** The block starts with its key line and has no other. */
  ghost predicate WellFormed(b: Block) {
    b.lines != [] && KeyOf(b.lines[0]) == Some(b.key) && forall i :: 0 < i < |b.lines| ==> KeyOf(b.lines[i]) == None
  }

  ghost predicate AllWellFormed(blocks: seq<Block>) {
    forall i :: 0 <= i < |blocks| ==> WellFormed(blocks[i])
  }

  function AllLines(blocks: seq<Block>): seq<string> {
    if blocks == [] then [] else blocks[0].lines + AllLines(blocks[1..])
  }

  lemma {:induction false} AddLineKeeps(blocks: seq<Block>, line: string)
    requires AllWellFormed(blocks)
    ensures AllWellFormed(AddLine(blocks, line))
  {
  }

  lemma {:induction false} FoldKeeps(start: seq<Block>, body: seq<string>)
    requires AllWellFormed(start)
    ensures AllWellFormed(Fold(AddLine, start, body))
    decreases |body|
  {
    if body != [] {
      AddLineKeeps(start, body[0]);
      FoldKeeps(AddLine(start, body[0]), body[1..]);
    }
  }

  /** Lines without a key all go to the last block. */
  lemma {:induction false} Continue(start: seq<Block>, b: Block, more: seq<string>)
    requires forall i :: 0 <= i < |more| ==> KeyOf(more[i]) == None
    ensures Fold(AddLine, start + [b], more) == start + [Block(b.key, b.lines + more)]
    decreases |more|
  {
    if more == [] {
      assert b.lines + more == b.lines;
    } else {
      var b' := Block(b.key, b.lines + [more[0]]);
      assert (start + [b])[..|start|] == start;
      assert AddLine(start + [b], more[0]) == start + [b'];
      Continue(start, b', more[1..]);
      assert (b.lines + [more[0]]) + more[1..] == b.lines + more;
    }
  }

  lemma {:induction false} AddBlock(start: seq<Block>, b: Block)
    requires WellFormed(b)
    ensures Fold(AddLine, start, b.lines) == start + [b]
  {
    var first := Block(b.key, [b.lines[0]]);
    assert AddLine(start, b.lines[0]) == start + [first];
    Continue(start, first, b.lines[1..]);
    assert [b.lines[0]] + b.lines[1..] == b.lines;
  }

  lemma {:induction false} FoldBlocks(start: seq<Block>, blocks: seq<Block>)
    requires AllWellFormed(blocks)
    ensures Fold(AddLine, start, AllLines(blocks)) == start + blocks
    decreases |blocks|
  {
    if blocks == [] {
      assert start + blocks == start;
    } else {
      FoldAppend(AddLine, start, blocks[0].lines, AllLines(blocks[1..]));
      AddBlock(start, blocks[0]);
      FoldBlocks(start + [blocks[0]], blocks[1..]);
      Associative(start, [blocks[0]], blocks[1..]);
      assert [blocks[0]] + blocks[1..] == blocks;
    }
  }

  /** Printed blocks are read as the same blocks. */
  lemma {:induction false} BlocksReadBack(blocks: seq<Block>)
    requires AllWellFormed(blocks)
    ensures Blocks(AllLines(blocks)) == blocks
  {
    FoldBlocks([], blocks);
    assert [] + blocks == blocks;
  }

  // ------------------------------------------------------------------ triggers

  predicate NoTerminator(s: string) {
    forall i :: 0 <= i < |s| ==> !IsTerminator(s[i])
  }

  function UpToTerminator(s: string): (r: string)
    ensures |r| <= |s|
  {
    if s == "" || IsTerminator(s[0]) then "" else [s[0]] + UpToTerminator(s[1..])
  }

  /** The last character but the first that ends no line. */
  function LastPlain(s: string): Option<string> {
    if |s| < 2 then None
    else if !IsTerminator(s[|s| - 1]) then Some([s[|s| - 1]])
    else LastPlain(s[..|s| - 1])
  }

  /** The value of a list line: `-`, white space, the value. */
  function ItemOf(line: string): Option<string> {
    var t := TrimStart(line);
    if |t| < 2 || t[0] != '-' || !IsSpace(t[1]) then None
    else
      var value := TrimStart(t[1..]);
      if value == "" then LastPlain(t[1..])
      else if TrimStart(value[|UpToTerminator(value)|..]) == "" then Some(UpToTerminator(value))
      else None
  }

  function Items(lines: seq<string>): seq<string> {
    if lines == [] then []
    else (match ItemOf(lines[0]) case None => [] case Some(v) => [v]) + Items(lines[1..])
  }

  predicate IsQuote(c: char) {
    c == '\'' || c == '"'
  }

  function StripQuotes(s: string): string {
    var t := if s != "" && IsQuote(s[0]) then s[1..] else s;
    if t != "" && IsQuote(t[|t| - 1]) then t[..|t| - 1] else t
  }

  function Unquoted(parts: seq<string>): seq<string> {
    if parts == [] then []
    else (if StripQuotes(Trim(parts[0])) == "" then [] else [StripQuotes(Trim(parts[0]))]) + Unquoted(parts[1..])
  }

  /** The trigger values of a block: an array or a value on the key line, else a list below it. */
  function TriggerValues(b: Block): seq<string> {
    var rest := TrimStart(if b.lines == [] then "" else AfterKey(b.lines[0]));
    var listed := TrimEnd(rest);
    if |listed| >= 2 && listed[0] == '[' && listed[|listed| - 1] == ']' && NoTerminator(listed[1..|listed| - 1])
    then Unquoted(SplitOn(listed[1..|listed| - 1], ','))
    else if rest != "" && NoTerminator(rest) then Unquoted([rest])
    else if b.lines == [] then [] else Items(b.lines[1..])
  }

  /** What follows the key and its colon. */
  function AfterKey(line: string): string {
    var n := KeyLength(line);
    if n < |line| then line[n + 1..] else ""
  }

  /** A value that its printed line is read as. */
  predicate Stable(v: string) {
    v != "" && NoTerminator(v) && (!IsSpace(v[0]) || |v| == 1)
  }

  lemma {:induction false} TrimStartShape(s: string)
    ensures TrimStart(s) != "" ==> !IsSpace(TrimStart(s)[0])
    ensures |TrimStart(s)| <= |s| && TrimStart(s) == s[|s| - |TrimStart(s)|..]
  {
    if s != "" && IsSpace(s[0]) {
      TrimStartShape(s[1..]);
      var t := TrimStart(s[1..]);
      assert s[1..][|s[1..]| - |t|..] == s[|s| - |t|..];
    }
  }

  lemma {:induction false} UpToTerminatorShape(s: string)
    ensures NoTerminator(UpToTerminator(s))
    ensures NoTerminator(s) ==> UpToTerminator(s) == s
    ensures s != "" && !IsTerminator(s[0]) ==> UpToTerminator(s) != "" && UpToTerminator(s)[0] == s[0]
  {
    if s != "" && !IsTerminator(s[0]) {
      UpToTerminatorShape(s[1..]);
      assert s == [s[0]] + s[1..];
    }
  }

  lemma {:induction false} LastPlainStable(s: string)
    ensures LastPlain(s).Some? ==> Stable(LastPlain(s).value)
  {
    if |s| >= 2 && IsTerminator(s[|s| - 1]) {
      LastPlainStable(s[..|s| - 1]);
    }
  }

  /** Whatever is read from a list is stable. */
  lemma {:induction false} ItemStable(line: string)
    ensures ItemOf(line).Some? ==> Stable(ItemOf(line).value)
  {
    var t := TrimStart(line);
    if |t| >= 2 {
      var value := TrimStart(t[1..]);
      TrimStartShape(t[1..]);
      UpToTerminatorShape(value);
      LastPlainStable(t[1..]);
      if value != "" {
        assert !IsTerminator(value[0]);
      }
    }
  }

  lemma {:induction false} ItemsStable(lines: seq<string>)
    ensures forall i :: 0 <= i < |Items(lines)| ==> Stable(Items(lines)[i])
  {
    if lines != [] {
      ItemsStable(lines[1..]);
      ItemStable(lines[0]);
    }
  }

  /** A stable value is read back from its printed line. */
  lemma {:induction false} PrintedItem(v: string)
    requires Stable(v)
    ensures ItemOf("  - " + v) == Some(v)
  {
    var line := "  - " + v;
    var t := "- " + v;
    assert line[1..] == " - " + v;
    assert (" - " + v)[1..] == t;
    assert TrimStart(line) == TrimStart(" - " + v) == TrimStart(t) == t;
    assert t[1..] == " " + v && (" " + v)[1..] == v;
    assert TrimStart(" " + v) == TrimStart(v);
    if !IsSpace(v[0]) {
      UpToTerminatorShape(v);
      assert v[|v|..] == "";
    } else {
      assert v[1..] == "" && v == [v[0]];
      assert TrimStart(v) == TrimStart("");
    }
  }

  /** A value is read back from its printed line if and only if it is stable. */
  lemma {:induction false} PrintedItemIff(v: string)
    ensures ItemOf("  - " + v) == Some(v) <==> Stable(v)
  {
    ItemStable("  - " + v);
    if Stable(v) {
      PrintedItem(v);
    }
  }

  lemma {:induction false} PrintedItems(values: seq<string>)
    requires forall i :: 0 <= i < |values| ==> Stable(values[i])
    ensures Items(Each("  - ", values)) == values
  {
    if values != [] {
      PrintedItem(values[0]);
      PrintedItems(values[1..]);
      assert Each("  - ", values)[1..] == Each("  - ", values[1..]);
      assert values == [values[0]] + values[1..];
    }
  }

  // ------------------------------------------------------------------- merging

  const Triggers := "triggers"

  /** The trigger list as it is printed. */
  function TriggerBlock(values: seq<string>): Block {
    Block(Triggers, ["triggers:"] + Each("  - ", values))
  }

  /** The last block of a key. */
  function BlockOf(blocks: seq<Block>, key: string): Option<Block> {
    if blocks == [] then None
    else if blocks[|blocks| - 1].key == key then Some(blocks[|blocks| - 1])
    else BlockOf(blocks[..|blocks| - 1], key)
  }

  function TriggersOf(blocks: seq<Block>): seq<string> {
    match BlockOf(blocks, Triggers) case None => [] case Some(b) => TriggerValues(b)
  }

  /** A generated block, the trigger list joined with the existing one. */
  function MergedBlock(b: Block, existing: seq<string>): Block {
    if b.key == Triggers then TriggerBlock(Distinct(TriggerValues(b) + existing)) else b
  }

  function MergedGenerated(generated: seq<Block>, existing: seq<string>): (r: seq<Block>)
    ensures |r| == |generated| && forall i :: 0 <= i < |r| ==> r[i] == MergedBlock(generated[i], existing)
  {
    seq(|generated|, i requires 0 <= i < |generated| => MergedBlock(generated[i], existing))
  }

  predicate HasKey(blocks: seq<Block>, key: string) {
    exists i :: 0 <= i < |blocks| && blocks[i].key == key
  }

  /** The existing blocks whose key is not generated. */
  function ExistingOnly(generated: seq<Block>, existing: seq<Block>): seq<Block> {
    if existing == [] then []
    else (if HasKey(generated, existing[0].key) then [] else [existing[0]]) + ExistingOnly(generated, existing[1..])
  }

  function MergedBlocks(generated: seq<Block>, existing: seq<Block>): seq<Block> {
    MergedGenerated(generated, TriggersOf(existing)) + ExistingOnly(generated, existing)
  }

  /** The lines of a merged front matter between its two `---`. */
  function MergedBody(generated: seq<string>, existing: seq<string>): seq<string> {
    AllLines(MergedBlocks(Blocks(generated), Blocks(existing)))
  }

  // ------------------------------------------------------------------ the code

  method SplitFrontmatterBlocks(body: seq<string>) returns (blocks: seq<Block>)
    ensures blocks == Blocks(body)
  {
    blocks := [];
    for i := 0 to |body|
      invariant Fold(AddLine, blocks, body[i..]) == Blocks(body)
    {
      assert body[i..][0] == body[i] && body[i..][1..] == body[i + 1..];
      var key := KeyOf(body[i]);
      if key.Some? {
        blocks := blocks + [Block(key.value, [body[i]])];
      } else if |blocks| > 0 {
        var last := blocks[|blocks| - 1];
        blocks := blocks[..|blocks| - 1] + [Block(last.key, last.lines + [body[i]])];
      }
    }
  }

  lemma {:induction false} AllLinesSnoc(blocks: seq<Block>, b: Block)
    ensures AllLines(blocks + [b]) == AllLines(blocks) + b.lines
  {
    if blocks == [] {
      assert [b][1..] == [];
      assert AllLines([b]) == b.lines + AllLines([]);
    } else {
      AllLinesSnoc(blocks[1..], b);
      assert (blocks + [b])[1..] == blocks[1..] + [b];
      Associative(blocks[0].lines, AllLines(blocks[1..]), b.lines);
    }
  }

  lemma {:induction false} AllLinesAppend(a: seq<Block>, b: seq<Block>)
    ensures AllLines(a + b) == AllLines(a) + AllLines(b)
  {
    if a == [] {
      assert a + b == b;
    } else {
      AllLinesAppend(a[1..], b);
      assert (a + b)[1..] == a[1..] + b;
      Associative(a[0].lines, AllLines(a[1..]), AllLines(b));
    }
  }

  /** The lines of the generated blocks, the trigger list joined with the known one. */
  method PushGenerated(blocks: seq<Block>, known: seq<string>) returns (body: seq<string>)
    ensures body == AllLines(MergedGenerated(blocks, known))
  {
    body := [];
    for i := 0 to |blocks|
      invariant body == AllLines(MergedGenerated(blocks[..i], known))
    {
      var b := blocks[i];
      ghost var before := MergedGenerated(blocks[..i], known);
      AllLinesSnoc(before, MergedBlock(b, known));
      assert MergedGenerated(blocks[..i + 1], known) == before + [MergedBlock(b, known)];
      if b.key == Triggers {
        var values := Distinct(TriggerValues(b) + known);
        body := body + (["triggers:"] + Each("  - ", values));
      } else {
        body := body + b.lines;
      }
    }
    Prefixes(blocks);
  }

  /** The lines of the existing blocks whose key is not generated. */
  method PushExisting(start: seq<string>, generated: seq<Block>, existing: seq<Block>) returns (body: seq<string>)
    ensures body == start + AllLines(ExistingOnly(generated, existing))
  {
    body := start;
    for i := 0 to |existing|
      invariant body + AllLines(ExistingOnly(generated, existing[i..]))
        == start + AllLines(ExistingOnly(generated, existing))
    {
      ExistingStep(generated, existing, i);
      if !HasKey(generated, existing[i].key) {
        Associative(body, existing[i].lines, AllLines(ExistingOnly(generated, existing[i + 1..])));
        body := body + existing[i].lines;
      }
    }
  }

  lemma {:induction false} ExistingStep(generated: seq<Block>, existing: seq<Block>, i: nat)
    requires i < |existing|
    ensures AllLines(ExistingOnly(generated, existing[i..]))
         == (if HasKey(generated, existing[i].key) then [] else existing[i].lines)
           + AllLines(ExistingOnly(generated, existing[i + 1..]))
  {
    assert existing[i..][1..] == existing[i + 1..];
    var rest := ExistingOnly(generated, existing[i + 1..]);
    assert [] + rest == rest && [] + AllLines(rest) == AllLines(rest);
    assert ([existing[i]] + rest)[1..] == rest;
  }

  /** The merged lines, first the generated blocks and then what only the existing file has. */
  method MergeFrontmatter(existing: seq<string>, generated: seq<string>) returns (merged: seq<string>)
    ensures merged == ["---"] + MergedBody(generated, existing) + ["---"]
  {
    var existingBlocks := SplitFrontmatterBlocks(existing);
    var generatedBlocks := SplitFrontmatterBlocks(generated);
    var known := TriggersOf(existingBlocks);
    var body := PushGenerated(generatedBlocks, known);
    body := PushExisting(body, generatedBlocks, existingBlocks);
    AllLinesAppend(MergedGenerated(generatedBlocks, known), ExistingOnly(generatedBlocks, existingBlocks));
    merged := ["---"] + body + ["---"];
  }

  // ------------------------------------------------------- merging once more

  lemma {:induction false} KeyLengthOf(key: string, rest: string)
    requires (forall i :: 0 <= i < |key| ==> IsKeyChar(key[i])) && (rest == "" || !IsKeyChar(rest[0]))
    ensures KeyLength(key + rest) == |key|
  {
    if key == "" {
      assert key + rest == rest;
    } else {
      KeyLengthOf(key[1..], rest);
      assert (key + rest)[1..] == key[1..] + rest;
    }
  }

  lemma {:induction false} TriggersIsKey()
    ensures forall i :: 0 <= i < |Triggers| ==> IsKeyChar(Triggers[i])
  {
    assert Triggers[0] == 't' && Triggers[1] == 'r' && Triggers[2] == 'i' && Triggers[3] == 'g';
    assert Triggers[4] == 'g' && Triggers[5] == 'e' && Triggers[6] == 'r' && Triggers[7] == 's' && |Triggers| == 8;
  }

  lemma {:induction false} KeyLine(key: string, rest: string)
    requires key != "" && forall i :: 0 <= i < |key| ==> IsKeyChar(key[i])
    ensures KeyOf(key + (":" + rest)) == Some(key) && AfterKey(key + (":" + rest)) == rest
  {
    var line := key + (":" + rest);
    KeyLengthOf(key, ":" + rest);
    assert line[|key|] == ':' && line[..|key|] == key && line[|key| + 1..] == rest;
  }

  lemma {:induction false} TriggerLine()
    ensures KeyOf("triggers:") == Some(Triggers) && AfterKey("triggers:") == ""
  {
    TriggersIsKey();
    KeyLine(Triggers, "");
    assert Triggers + (":" + "") == "triggers:";
  }

  lemma {:induction false} TriggerBlockWellFormed(values: seq<string>)
    ensures WellFormed(TriggerBlock(values))
  {
    TriggerLine();
    var lines := TriggerBlock(values).lines;
    forall i | 0 < i < |lines| ensures KeyOf(lines[i]) == None {
      assert lines[i] == "  - " + values[i - 1];
      assert lines[i][0] == ' ';
    }
  }

  /** A printed trigger list of stable values is read as these values. */
  lemma {:induction false} TriggerBlockReads(values: seq<string>)
    requires forall i :: 0 <= i < |values| ==> Stable(values[i])
    ensures TriggerValues(TriggerBlock(values)) == values
  {
    TriggerLine();
    PrintedItems(values);
    assert TriggerBlock(values).lines[1..] == Each("  - ", values);
  }

  /** Of any printed list only stable values are read. */
  lemma {:induction false} TriggerBlockStable(values: seq<string>)
    ensures
      forall i :: 0 <= i < |TriggerValues(TriggerBlock(values))| ==> Stable(TriggerValues(TriggerBlock(values))[i])
  {
    TriggerLine();
    assert TriggerBlock(values).lines[1..] == Each("  - ", values);
    ItemsStable(Each("  - ", values));
  }

  ghost predicate AllStable(values: seq<string>) {
    forall i :: 0 <= i < |values| ==> Stable(values[i])
  }

  /** A generated front matter: one trigger list, as it is printed, of stable values. */
  ghost predicate Printed(generated: seq<Block>, values: seq<string>, t: nat) {
    && AllWellFormed(generated) && t < |generated| && generated[t] == TriggerBlock(values) && AllStable(values)
    && forall i :: 0 <= i < |generated| && i != t ==> generated[i].key != Triggers
  }

  lemma {:induction false} ExistingOnlyMembers(generated: seq<Block>, existing: seq<Block>)
    ensures forall b :: b in ExistingOnly(generated, existing) <==> b in existing && !HasKey(generated, b.key)
  {
    if existing != [] {
      ExistingOnlyMembers(generated, existing[1..]);
      assert existing == [existing[0]] + existing[1..];
    }
  }

  lemma {:induction false} ExistingOnlyAll(generated: seq<Block>, blocks: seq<Block>)
    requires forall i :: 0 <= i < |blocks| ==> !HasKey(generated, blocks[i].key)
    ensures ExistingOnly(generated, blocks) == blocks
  {
    if blocks != [] {
      ExistingOnlyAll(generated, blocks[1..]);
      assert blocks == [blocks[0]] + blocks[1..];
    }
  }

  lemma {:induction false} ExistingOnlySkips(generated: seq<Block>, front: seq<Block>, rest: seq<Block>)
    requires forall i :: 0 <= i < |front| ==> HasKey(generated, front[i].key)
    ensures ExistingOnly(generated, front + rest) == ExistingOnly(generated, rest)
  {
    if front == [] {
      assert front + rest == rest;
    } else {
      ExistingOnlySkips(generated, front[1..], rest);
      assert (front + rest)[1..] == front[1..] + rest;
      assert [] + ExistingOnly(generated, rest) == ExistingOnly(generated, rest);
    }
  }

  lemma {:induction false} MergedKeys(generated: seq<Block>, existing: seq<string>, i: nat)
    requires i < |generated|
    ensures MergedGenerated(generated, existing)[i].key == generated[i].key
    ensures HasKey(generated, MergedGenerated(generated, existing)[i].key)
  {
  }

  /** What only the existing file had is kept, in order, by every further merge. */
  lemma {:induction false} ExistingOnlyStays(generated: seq<Block>, existing: seq<Block>)
    ensures ExistingOnly(generated, MergedBlocks(generated, existing)) == ExistingOnly(generated, existing)
  {
    var front, rest := MergedGenerated(generated, TriggersOf(existing)), ExistingOnly(generated, existing);
    forall i | 0 <= i < |front| ensures HasKey(generated, front[i].key) {
      MergedKeys(generated, TriggersOf(existing), i);
    }
    ExistingOnlySkips(generated, front, rest);
    ExistingOnlyMembers(generated, existing);
    forall i | 0 <= i < |rest| ensures !HasKey(generated, rest[i].key) {
      assert rest[i] in rest;
    }
    ExistingOnlyAll(generated, rest);
  }

  lemma {:induction false} BlockOfOnly(blocks: seq<Block>, key: string, t: nat)
    requires t < |blocks| && blocks[t].key == key && forall i :: 0 <= i < |blocks| && i != t ==> blocks[i].key != key
    ensures BlockOf(blocks, key) == Some(blocks[t])
  {
    if t < |blocks| - 1 {
      BlockOfOnly(blocks[..|blocks| - 1], key, t);
    }
  }

  /** The union of both trigger lists, in order and without repetitions. */
  function Union(values: seq<string>, existing: seq<Block>): seq<string> {
    Distinct(values + TriggersOf(existing))
  }

  lemma {:induction false} MergedTriggers(generated: seq<Block>, values: seq<string>, t: nat, existing: seq<Block>)
    requires Printed(generated, values, t)
    ensures MergedGenerated(generated, TriggersOf(existing))[t] == TriggerBlock(Union(values, existing))
    ensures TriggersOf(MergedBlocks(generated, existing)) == TriggerValues(TriggerBlock(Union(values, existing)))
  {
    TriggerBlockReads(values);
    var known := TriggersOf(existing);
    var merged := MergedBlocks(generated, existing);
    assert merged[t] == MergedBlock(generated[t], known);
    ExistingOnlyMembers(generated, existing);
    forall i | 0 <= i < |merged| && i != t ensures merged[i].key != Triggers {
      if i < |generated| {
        MergedKeys(generated, known, i);
      } else {
        var b := ExistingOnly(generated, existing)[i - |generated|];
        assert b in ExistingOnly(generated, existing);
        assert HasKey(generated, Triggers);
        assert merged[i] == b;
      }
    }
    BlockOfOnly(merged, Triggers, t);
  }

  lemma {:induction false} DistinctSame<T>(s: seq<T>)
    requires forall i, j :: 0 <= i < j < |s| ==> s[i] != s[j]
    ensures Distinct(s) == s
  {
    if s != [] {
      DistinctSame(s[..|s| - 1]);
      assert s == s[..|s| - 1] + [s[|s| - 1]];
    }
  }

  /** Elements that are there already change nothing. */
  lemma {:induction false} DistinctAgain<T>(s: seq<T>, more: seq<T>)
    requires forall x :: x in more ==> x in s
    ensures Distinct(s + more) == Distinct(s)
  {
    if more == [] {
      assert s + more == s;
    } else {
      var front, last := more[..|more| - 1], more[|more| - 1];
      DistinctAgain(s, front);
      assert s + more == (s + front) + [last];
      assert last in more;
      DistinctSnoc(s + front, last);
    }
  }

  lemma {:induction false} DistinctPrefix<T>(a: seq<T>, b: seq<T>)
    ensures |Distinct(a)| <= |Distinct(a + b)| && Distinct(a + b)[..|Distinct(a)|] == Distinct(a)
    decreases |b|
  {
    if b == [] {
      assert a + b == a;
    } else {
      var front, last := b[..|b| - 1], b[|b| - 1];
      DistinctPrefix(a, front);
      assert a + b == (a + front) + [last];
      DistinctSnoc(a + front, last);
    }
  }

  lemma {:induction false} DistinctAppend<T>(a: seq<T>, c: seq<T>)
    requires forall i, j :: 0 <= i < j < |c| ==> c[i] != c[j]
    requires forall x :: x in c ==> x !in a
    ensures Distinct(a + c) == Distinct(a) + c
    decreases |c|
  {
    if c == [] {
      assert a + c == a && Distinct(a) + c == Distinct(a);
    } else {
      var front, last := c[..|c| - 1], c[|c| - 1];
      DistinctAppend(a, front);
      assert a + c == (a + front) + [last] && last in c;
      DistinctSnoc(a + front, last);
      assert Distinct(a) + c == (Distinct(a) + front) + [last];
    }
  }

  lemma {:induction false} NewBehind<T>(a: seq<T>, b: seq<T>, i: nat)
    requires |Distinct(a)| <= i < |Distinct(a + b)|
    ensures Distinct(a + b)[i] !in a
  {
    DistinctPrefix(a, b);
    var d := Distinct(a + b);
    forall j | 0 <= j < |Distinct(a)| ensures Distinct(a)[j] != d[i] {
      DistinctOnce(a + b, j, i);
      assert Distinct(a)[j] == d[..|Distinct(a)|][j];
    }
    DistinctMembers(a, d[i]);
  }

  /** A list in front of its union with another adds nothing. */
  lemma {:induction false} UnionAgain<T>(a: seq<T>, b: seq<T>)
    ensures Distinct(a + Distinct(a + b)) == Distinct(a + b)
  {
    DistinctPrefix(a, b);
    var d, n := Distinct(a + b), |Distinct(a)|;
    var c := d[n..];
    assert d == Distinct(a) + c;
    forall i, j | 0 <= i < j < |c| ensures c[i] != c[j] {
      DistinctOnce(a + b, n + i, n + j);
    }
    forall i | 0 <= i < |c| ensures c[i] !in a {
      NewBehind(a, b, n + i);
    }
    forall x | x in Distinct(a) ensures x in a {
      DistinctMembers(a, x);
    }
    DistinctAgain(a, Distinct(a));
    Associative(a, Distinct(a), c);
    forall x | x in c ensures x !in a + Distinct(a) {
      DistinctMembers(a, x);
    }
    DistinctAppend(a + Distinct(a), c);
  }

  lemma {:induction false} UnionStable(values: seq<string>, existing: seq<Block>)
    requires AllStable(values) && AllStable(TriggersOf(existing))
    ensures AllStable(Union(values, existing))
  {
    var union := Union(values, existing);
    forall i | 0 <= i < |union| ensures Stable(union[i]) {
      DistinctMembers(values + TriggersOf(existing), union[i]);
      assert union[i] in union;
    }
  }

  lemma {:induction false} UnstableStays(values: seq<string>, existing: seq<Block>)
    requires !AllStable(TriggersOf(existing))
    ensures !AllStable(Union(values, existing))
  {
    var known := TriggersOf(existing);
    var i :| 0 <= i < |known| && !Stable(known[i]);
    DistinctMembers(values + known, known[i]);
    assert known[i] in values + known;
  }

  lemma {:induction false} MergedSame(generated: seq<Block>, a: seq<string>, b: seq<string>, values: seq<string>,
      t: nat)
    requires Printed(generated, values, t)
    ensures MergedGenerated(generated, a) == MergedGenerated(generated, b)
      <==> MergedGenerated(generated, a)[t] == MergedGenerated(generated, b)[t]
  {
  }

  lemma {:induction false} TriggerBlocksDiffer(a: seq<string>, b: seq<string>)
    ensures TriggerBlock(a) == TriggerBlock(b) <==> a == b
  {
    if TriggerBlock(a) == TriggerBlock(b) {
      var x, y := TriggerBlock(a).lines, TriggerBlock(b).lines;
      assert |a| == |b|;
      forall i | 0 <= i < |a| ensures a[i] == b[i] {
        assert x[i + 1] == "  - " + a[i] && y[i + 1] == "  - " + b[i];
        assert x[i + 1][4..] == a[i] && y[i + 1][4..] == b[i];
      }
    }
  }

  /**
    Merging the same front matter again changes nothing if and only if every trigger
    value of the existing file is one that its printed line is read as.
   */
  lemma {:induction false} MergeTwiceIff(generated: seq<Block>, values: seq<string>, t: nat, existing: seq<Block>)
    requires Printed(generated, values, t)
    ensures MergedBlocks(generated, MergedBlocks(generated, existing)) == MergedBlocks(generated, existing)
      <==> AllStable(TriggersOf(existing))
  {
    var once := MergedBlocks(generated, existing);
    var union := Union(values, existing);
    ExistingOnlyStays(generated, existing);
    MergedTriggers(generated, values, t, existing);
    MergedTriggers(generated, values, t, once);
    MergedSame(generated, TriggersOf(once), TriggersOf(existing), values, t);
    TriggerBlocksDiffer(Union(values, once), union);
    FrontsDecide(generated, once, existing);
    if AllStable(TriggersOf(existing)) {
      UnionStable(values, existing);
      TriggerBlockReads(union);
      UnionAgain(values, TriggersOf(existing));
    } else {
      TriggerBlockStable(union);
      UnstableStays(values, existing);
      UnionStable(values, once);
    }
  }

  lemma {:induction false} FrontsDecide(generated: seq<Block>, a: seq<Block>, b: seq<Block>)
    requires ExistingOnly(generated, a) == ExistingOnly(generated, b)
    ensures MergedBlocks(generated, a) == MergedBlocks(generated, b)
      <==> MergedGenerated(generated, TriggersOf(a)) == MergedGenerated(generated, TriggersOf(b))
  {
    assert MergedBlocks(generated, a)[..|generated|] == MergedGenerated(generated, TriggersOf(a));
    assert MergedBlocks(generated, b)[..|generated|] == MergedGenerated(generated, TriggersOf(b));
  }

  /** A trigger in quotes in an array on the key line. */
  function QuotedTrigger(v: string): Block {
    Block(Triggers, [Triggers + (":" + ("[" + (("\"" + (v + "\"")) + "]")))])
  }

  lemma {:induction false} QuotedTriggerReads(v: string)
    requires v != "" && NoTerminator(v) && ',' !in v
    ensures TriggerValues(QuotedTrigger(v)) == [v]
  {
    var inner := "\"" + (v + "\"");
    TriggersIsKey();
    KeyLine(Triggers, "[" + (inner + "]"));
    forall i | 0 <= i < |inner| ensures !IsTerminator(inner[i]) {
      assert 0 < i < |inner| - 1 ==> inner[i] == v[i - 1];
    }
    SplitWhole(inner, ',');
    Unquote(v);
    Bracketed(QuotedTrigger(v), inner);
  }

  lemma {:induction false} Bracketed(b: Block, inner: string)
    requires b.lines != [] && AfterKey(b.lines[0]) == "[" + (inner + "]") && NoTerminator(inner)
    ensures TriggerValues(b) == Unquoted(SplitOn(inner, ','))
  {
    var rest := "[" + (inner + "]");
    assert rest[0] == '[' && rest[|rest| - 1] == ']' && rest[1..|rest| - 1] == inner;
    assert TrimStart(rest) == rest && TrimEnd(rest) == rest;
  }

  lemma {:induction false} Unquote(v: string)
    requires v != ""
    ensures Unquoted(["\"" + (v + "\"")]) == [v]
  {
    var inner := "\"" + (v + "\"");
    TrimTrimmed(inner);
    assert inner[1..] == v + "\"" && (v + "\"")[..|v|] == v;
    assert StripQuotes(inner) == v;
    var one: seq<string> := [inner];
    assert one[1..] == [] && Unquoted(one) == [v] + Unquoted(one[1..]);
  }

  /** A quoted trigger with a blank in front is printed, but its printed line is read as another. */
  lemma {:induction false} QuotedBlankIsUnstable()
    ensures TriggerValues(QuotedTrigger(" a")) == [" a"] && !Stable(" a")
  {
    QuotedTriggerReads(" a");
  }
}

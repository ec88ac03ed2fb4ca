/**
  Canonical JSON: members in one order at every depth, no white space. Texts are token
  lists; numbers and strings are single tokens.
 */
module CanonicalJson {
  import opened Wrappers
  import opened Lists
  import opened Ordering

  /** A member name. */
  datatype Key = Key(text: string)

  datatype Json =
    | Null
    | Bool(b: bool)
    | Num(literal: string)
    | Str(text: string)
    | Arr(items: Items)
    | Obj(members: Members)

  datatype Items = NoItems | Item(head: Json, tail: Items)

  /** An object's own members, in the order the object has them. */
  datatype Members = Nil | Member(key: Key, value: Json, rest: Members)

  function Get(m: Members, k: Key): Option<Json> {
    match m
    case Nil => None
    case Member(key, value, rest) => if key == k then Some(value) else Get(rest, k)
  }

  function KeysOf(m: Members): seq<Key> {
    match m
    case Nil => []
    case Member(key, _, rest) => [key] + KeysOf(rest)
  }

  /** No object has two members of one name. */
  ghost predicate Proper(v: Json) {
    match v
    case Arr(items) => ProperItems(items)
    case Obj(members) => ProperMembers(members)
    case _ => true
  }

  ghost predicate ProperItems(s: Items) {
    s.Item? ==> Proper(s.head) && ProperItems(s.tail)
  }

  ghost predicate ProperMembers(m: Members) {
    m.Member? ==> Get(m.rest, m.key) == None && Proper(m.value) && ProperMembers(m.rest)
  }

  /** The one name an assignment does not turn into a member of its own. */
  const Proto := Key("__proto__")

  // -------------------------------------------------- equality up to order

  /** Equal up to member order at every depth, members named in `dropped` aside. */
  ghost predicate Same(v: Json, w: Json, dropped: set<Key>) {
    match v
    case Arr(items) => w.Arr? && SameItems(items, w.items, dropped)
    case Obj(members) =>
      && w.Obj?
      && NoneMore(members, w.members, dropped)
      && Covered(members, w.members, dropped)
    case _ => v == w
  }

  /** `n` has no member that `m` lacks. */
  ghost predicate NoneMore(m: Members, n: Members, dropped: set<Key>) {
    forall k :: k !in dropped && Get(m, k) == None ==> Get(n, k) == None
  }

  ghost predicate SameItems(s: Items, t: Items, dropped: set<Key>) {
    match s
    case NoItems => t.NoItems?
    case Item(head, tail) => t.Item? && Same(head, t.head, dropped) && SameItems(tail, t.tail, dropped)
  }

  /** Every member of `m` has its equal in `n`. */
  ghost predicate Covered(m: Members, n: Members, dropped: set<Key>) {
    match m
    case Nil => true
    case Member(key, value, rest) =>
      && Covered(rest, n, dropped)
      && (key in dropped || (Get(n, key).Some? && Same(value, Get(n, key).value, dropped)))
  }

  // ------------------------------------------------------ the order of members

  /** An object lists these names first, by number. */
  predicate IsIndex(k: Key) {
    IsIndexName(k.text)
  }

  predicate KeyLeq(a: Key, b: Key) {
    Leq(a.text, b.text)
  }

  /** `a` is listed before `b` in the canonical text. */
  predicate Before(a: Key, b: Key) {
    if IsIndex(a) && IsIndex(b) then |a.text| < |b.text| || (|a.text| == |b.text| && KeyLeq(a, b) && a != b)
    else IsIndex(a) || (!IsIndex(b) && KeyLeq(a, b) && a != b)
  }

  lemma KeyLeqIsTotalOrder()
    ensures TotalOrder(KeyLeq)
  {
    LeqIsTotalOrder();
  }

  lemma BeforeTotal(a: Key, b: Key)
    ensures a == b || Before(a, b) || Before(b, a)
    ensures !(Before(a, b) && Before(b, a)) && !Before(a, a)
  {
    LeqTotal(a.text, b.text);
    if Leq(a.text, b.text) && Leq(b.text, a.text) {
      LeqAntisymmetric(a.text, b.text);
    }
  }

  lemma BeforeTransitive(a: Key, b: Key, c: Key)
    requires Before(a, b) && Before(b, c)
    ensures Before(a, c)
  {
    if Leq(a.text, b.text) && Leq(b.text, c.text) {
      LeqTransitive(a.text, b.text, c.text);
      if Leq(c.text, b.text) {
        LeqAntisymmetric(b.text, c.text);
      }
    }
  }

  ghost predicate Ascending(m: Members) {
    m.Member? ==> Ascending(m.rest) && (m.rest.Member? ==> Before(m.key, m.rest.key))
  }

  lemma {:induction false} AbsentBelow(m: Members, k: Key)
    requires Ascending(m) && (m.Member? ==> Before(k, m.key))
    ensures Get(m, k) == None
  {
    if m.Member? {
      BeforeTotal(k, m.key);
      if m.rest.Member? {
        BeforeTransitive(k, m.key, m.rest.key);
      }
      AbsentBelow(m.rest, k);
    }
  }

  /** Ordered members are determined by what each name stands for. */
  lemma {:induction false} AscendingUnique(m: Members, n: Members)
    requires Ascending(m) && Ascending(n)
    requires forall k :: Get(m, k) == Get(n, k)
    ensures m == n
  {
    if m.Nil? {
      assert n.Member? ==> Get(m, n.key) == Get(n, n.key);
    } else {
      assert Get(n, m.key).Some? && Get(m, n.key).Some?;
      BeforeTotal(m.key, n.key);
      if Before(m.key, n.key) {
        AbsentBelow(n, m.key);
      } else if Before(n.key, m.key) {
        AbsentBelow(m, n.key);
      }
      assert m.key == n.key;
      HeadAbsent(m);
      HeadAbsent(n);
      forall k ensures Get(m.rest, k) == Get(n.rest, k) {
        assert Get(m, k) == Get(n, k);
      }
      AscendingUnique(m.rest, n.rest);
    }
  }

  lemma HeadAbsent(m: Members)
    requires Ascending(m) && m.Member?
    ensures Get(m.rest, m.key) == None
  {
    AbsentBelow(m.rest, m.key);
  }

  // ---------------------------------------------------------- canonical form

  function Insert(m: Members, k: Key, v: Json): Members {
    match m
    case Nil => Member(k, v, Nil)
    case Member(key, value, rest) =>
      if key == k then Member(k, v, rest)
      else if Before(k, key) then Member(k, v, m)
      else Member(key, value, Insert(rest, k, v))
  }

  /** The members in canonical order, without `__proto__`. */
  function Ordered(m: Members): Members {
    match m
    case Nil => Nil
    case Member(key, value, rest) => if key == Proto then Ordered(rest) else Insert(Ordered(rest), key, value)
  }

  function Canon(v: Json): Json {
    match v
    case Arr(items) => Arr(CanonItems(items))
    case Obj(members) => Obj(CanonMembers(members))
    case _ => v
  }

  function CanonItems(s: Items): Items {
    match s
    case NoItems => NoItems
    case Item(head, tail) => Item(Canon(head), CanonItems(tail))
  }

  function CanonMembers(m: Members): Members {
    match m
    case Nil => Nil
    case Member(key, value, rest) =>
      if key == Proto then CanonMembers(rest) else Insert(CanonMembers(rest), key, Canon(value))
  }

  lemma {:induction false} InsertAscends(m: Members, k: Key, v: Json)
    requires Ascending(m)
    ensures Ascending(Insert(m, k, v))
    ensures forall x :: Get(Insert(m, k, v), x) == if x == k then Some(v) else Get(m, x)
  {
    if m.Member? && m.key != k {
      if Before(k, m.key) {
        AbsentBelow(m, k);
      } else {
        BeforeTotal(k, m.key);
        InsertAscends(m.rest, k, v);
      }
    }
  }

  lemma {:induction false} OrderedAscends(m: Members)
    requires ProperMembers(m)
    ensures Ascending(Ordered(m))
    ensures forall x :: Get(Ordered(m), x) == if x == Proto then None else Get(m, x)
  {
    if m.Member? {
      OrderedAscends(m.rest);
      if m.key != Proto {
        InsertAscends(Ordered(m.rest), m.key, m.value);
      }
    }
  }

  function CanonOption(o: Option<Json>): Option<Json> {
    match o case None => None case Some(v) => Some(Canon(v))
  }

  lemma {:induction false} CanonAscends(m: Members)
    requires ProperMembers(m)
    ensures Ascending(CanonMembers(m))
    ensures forall x :: Get(CanonMembers(m), x) == if x == Proto then None else CanonOption(Get(m, x))
  {
    if m.Member? {
      CanonAscends(m.rest);
      if m.key != Proto {
        InsertAscends(CanonMembers(m.rest), m.key, Canon(m.value));
      }
    }
  }

  /** Canonical forms are equal exactly for values equal up to member order, `__proto__` members aside. */
  lemma {:induction false} CanonIffSame(v: Json, w: Json)
    requires Proper(v) && Proper(w)
    ensures Canon(v) == Canon(w) <==> Same(v, w, {Proto})
  {
    match v
    case Arr(items) =>
      if w.Arr? {
        CanonItemsIffSame(items, w.items);
      }
    case Obj(m) =>
      if w.Obj? {
        MembersIffGet(m, w.members);
        CoveredIff(m, w.members);
        SameKeysFromGet(m, w.members);
      }
    case _ =>
  }

  lemma {:induction false} CanonItemsIffSame(s: Items, t: Items)
    requires ProperItems(s) && ProperItems(t)
    ensures CanonItems(s) == CanonItems(t) <==> SameItems(s, t, {Proto})
  {
    if s.Item? && t.Item? {
      CanonIffSame(s.head, t.head);
      CanonItemsIffSame(s.tail, t.tail);
    }
  }

  /** Both have, under each name, values of one canonical form. */
  ghost predicate Agree(m: Members, n: Members) {
    forall k :: k != Proto ==> CanonOption(Get(m, k)) == CanonOption(Get(n, k))
  }

  lemma MembersIffGet(m: Members, n: Members)
    requires ProperMembers(m) && ProperMembers(n)
    ensures CanonMembers(m) == CanonMembers(n) <==> Agree(m, n)
  {
    CanonAscends(m);
    CanonAscends(n);
    if Agree(m, n) {
      AscendingUnique(CanonMembers(m), CanonMembers(n));
    }
    if CanonMembers(m) == CanonMembers(n) {
      forall k | k != Proto ensures CanonOption(Get(m, k)) == CanonOption(Get(n, k)) {
        assert Get(CanonMembers(m), k) == Get(CanonMembers(n), k);
      }
    }
  }

  /** What `Covered` says of each member. */
  ghost predicate Meets(m: Members, n: Members, k: Key) {
    Get(m, k).Some? ==> CanonOption(Get(m, k)) == CanonOption(Get(n, k))
  }

  ghost predicate AllMeet(m: Members, n: Members) {
    forall k :: k != Proto ==> Meets(m, n, k)
  }

  lemma {:induction false} CoveredIff(m: Members, n: Members)
    requires ProperMembers(m) && ProperMembers(n)
    ensures Covered(m, n, {Proto}) <==> AllMeet(m, n)
  {
    if m.Member? {
      CoveredIff(m.rest, n);
      if Get(n, m.key).Some? {
        GetProper(n, m.key);
        CanonIffSame(m.value, Get(n, m.key).value);
      }
      forall k ensures Meets(m, n, k) <==> if k == m.key then CanonOption(Get(n, k)) == Some(Canon(m.value))
        else Meets(m.rest, n, k) {
      }
      assert Meets(m.rest, n, m.key);
      assert Meets(m, n, m.key) <==> CanonOption(Get(n, m.key)) == Some(Canon(m.value));
      if AllMeet(m, n) {
        forall k | k != Proto ensures Meets(m.rest, n, k) {
          assert Meets(m, n, k);
        }
      }
    }
  }

  lemma {:induction false} GetProper(m: Members, k: Key)
    requires ProperMembers(m) && Get(m, k).Some?
    ensures Proper(Get(m, k).value)
  {
    if m.key != k {
      GetProper(m.rest, k);
    }
  }

  lemma SameKeysFromGet(m: Members, n: Members)
    ensures Agree(m, n) <==> NoneMore(m, n, {Proto}) && AllMeet(m, n)
  {
    if NoneMore(m, n, {Proto}) && AllMeet(m, n) {
      forall k | k != Proto ensures CanonOption(Get(m, k)) == CanonOption(Get(n, k)) {
        assert Meets(m, n, k);
      }
    }
  }

  // --------------------------------------------------------------- the text

  datatype Token =
    | LBrace | RBrace | LBracket | RBracket | Comma | Colon
    | NullToken | BoolToken(b: bool) | NumToken(literal: string) | StrToken(text: string)

  datatype Text = End | Then(first: Token, rest: Text)

  /** The tokens of `v`, followed by `rest`. */
  function Emit(v: Json, rest: Text): Text {
    match v
    case Null => Then(NullToken, rest)
    case Bool(b) => Then(BoolToken(b), rest)
    case Num(literal) => Then(NumToken(literal), rest)
    case Str(text) => Then(StrToken(text), rest)
    case Arr(items) => Then(LBracket, EmitItems(items, true, rest))
    case Obj(members) => Then(LBrace, EmitMembers(members, true, rest))
  }

  function EmitItems(s: Items, first: bool, rest: Text): Text {
    match s
    case NoItems => Then(RBracket, rest)
    case Item(head, tail) =>
      var text := Emit(head, EmitItems(tail, false, rest));
      if first then text else Then(Comma, text)
  }

  function EmitMembers(m: Members, first: bool, rest: Text): Text {
    match m
    case Nil => Then(RBrace, rest)
    case Member(key, value, more) =>
      var text := Then(StrToken(key.text), Then(Colon, Emit(value, EmitMembers(more, false, rest))));
      if first then text else Then(Comma, text)
  }

  /** No text of a value is another's with something after it, so a text has one reading. */
  lemma {:induction false} EmitUnambiguous(v: Json, w: Json, s: Text, t: Text)
    requires Emit(v, s) == Emit(w, t)
    ensures v == w && s == t
  {
    match v
    case Arr(items) => ItemsUnambiguous(items, w.items, true, s, t);
    case Obj(members) => MembersUnambiguous(members, w.members, true, s, t);
    case _ =>
  }

  lemma {:induction false} ItemsUnambiguous(a: Items, b: Items, first: bool, s: Text, t: Text)
    requires EmitItems(a, first, s) == EmitItems(b, first, t)
    ensures a == b && s == t
  {
    if a.Item? && b.Item? {
      EmitUnambiguous(a.head, b.head, EmitItems(a.tail, false, s), EmitItems(b.tail, false, t));
      ItemsUnambiguous(a.tail, b.tail, false, s, t);
    }
  }

  lemma {:induction false} MembersUnambiguous(m: Members, n: Members, first: bool, s: Text, t: Text)
    requires EmitMembers(m, first, s) == EmitMembers(n, first, t)
    ensures m == n && s == t
  {
    if m.Member? && n.Member? {
      EmitUnambiguous(m.value, n.value, EmitMembers(m.rest, false, s), EmitMembers(n.rest, false, t));
      MembersUnambiguous(m.rest, n.rest, false, s, t);
    }
  }

  function CanonicalText(v: Json): Text {
    Emit(Canon(v), End)
  }

  /** Canonical texts are equal exactly for values equal up to member order, `__proto__` members aside. */
  lemma {:induction false} CanonicalTextIffSame(v: Json, w: Json)
    requires Proper(v) && Proper(w)
    ensures CanonicalText(v) == CanonicalText(w) <==> Same(v, w, {Proto})
  {
    if CanonicalText(v) == CanonicalText(w) {
      EmitUnambiguous(Canon(v), Canon(w), End, End);
    }
    CanonIffSame(v, w);
  }

  /** No object of the value has a member named `__proto__`. */
  ghost predicate Clean(v: Json) {
    match v
    case Arr(items) => CleanItems(items)
    case Obj(members) => CleanMembers(members)
    case _ => true
  }

  ghost predicate CleanItems(s: Items) {
    s.Item? ==> Clean(s.head) && CleanItems(s.tail)
  }

  ghost predicate CleanMembers(m: Members) {
    m.Member? ==> m.key != Proto && Clean(m.value) && CleanMembers(m.rest)
  }

  lemma {:induction false} CleanGet(m: Members, k: Key)
    requires CleanMembers(m) && Get(m, k).Some?
    ensures k != Proto && Clean(Get(m, k).value)
  {
    if m.key != k {
      CleanGet(m.rest, k);
    }
  }

  lemma {:induction false} CleanSame(v: Json, w: Json)
    requires Clean(v) && Clean(w)
    ensures Same(v, w, {Proto}) <==> Same(v, w, {})
  {
    match v
    case Arr(items) =>
      if w.Arr? {
        CleanSameItems(items, w.items);
      }
    case Obj(m) =>
      if w.Obj? {
        CleanCovered(m, w.members);
        if Get(w.members, Proto).Some? {
          CleanGet(w.members, Proto);
        }
        if NoneMore(m, w.members, {Proto}) {
          assert NoneMore(m, w.members, {});
        }
      }
    case _ =>
  }

  lemma {:induction false} CleanSameItems(s: Items, t: Items)
    requires CleanItems(s) && CleanItems(t)
    ensures SameItems(s, t, {Proto}) <==> SameItems(s, t, {})
  {
    if s.Item? && t.Item? {
      CleanSame(s.head, t.head);
      CleanSameItems(s.tail, t.tail);
    }
  }

  lemma {:induction false} CleanCovered(m: Members, n: Members)
    requires CleanMembers(m) && CleanMembers(n)
    ensures Covered(m, n, {Proto}) <==> Covered(m, n, {})
  {
    if m.Member? {
      CleanCovered(m.rest, n);
      if Get(n, m.key).Some? {
        CleanGet(n, m.key);
        CleanSame(m.value, Get(n, m.key).value);
      }
    }
  }

  /** Without `__proto__` members, equal texts mean equal values up to member order. */
  lemma {:induction false} CleanTextIffSame(v: Json, w: Json)
    requires Proper(v) && Proper(w) && Clean(v) && Clean(w)
    ensures CanonicalText(v) == CanonicalText(w) <==> Same(v, w, {})
  {
    CanonicalTextIffSame(v, w);
    CleanSame(v, w);
  }

  // ---------------------------------------------------------- the code itself

  /** Assigning a property of an ordered object: in place, among the indices, or last. */
  function Assign(m: Members, k: Key, v: Json): Members {
    if k == Proto then m else Place(m, k, v)
  }

  function Place(m: Members, k: Key, v: Json): Members {
    match m
    case Nil => Member(k, v, Nil)
    case Member(key, value, rest) =>
      if key == k then Member(k, v, rest)
      else if IsIndex(k) && (!IsIndex(key) || Before(k, key)) then Member(k, v, m)
      else Member(key, value, Place(rest, k, v))
  }

  /** A new largest name goes where the canonical order wants it. */
  lemma {:induction false} PlaceIsInsert(m: Members, k: Key, v: Json)
    requires Ascending(m)
    requires forall x :: Get(m, x).Some? ==> KeyLeq(x, k) && x != k
    ensures Place(m, k, v) == Insert(m, k, v)
  {
    if m.Member? {
      assert Get(m, m.key).Some?;
      HeadAbsent(m);
      forall x | Get(m.rest, x).Some? ensures KeyLeq(x, k) && x != k {
        assert Get(m, x).Some?;
      }
      PlaceIsInsert(m.rest, k, v);
      if Before(k, m.key) && !IsIndex(k) {
        LeqAntisymmetric(k.text, m.key.text);
      }
    }
  }

  lemma {:induction false} KeysOfGet(m: Members, k: Key)
    ensures k in KeysOf(m) <==> Get(m, k).Some?
  {
    if m.Member? {
      KeysOfGet(m.rest, k);
    }
  }

  lemma {:induction false} KeysOnce(m: Members)
    requires ProperMembers(m)
    ensures forall k :: k in KeysOf(m) ==> multiset(KeysOf(m))[k] == 1
  {
    if m.Member? {
      KeysOnce(m.rest);
      KeysOfGet(m.rest, m.key);
      forall k | k in KeysOf(m) ensures multiset(KeysOf(m))[k] == 1 {
        if k != m.key {
          assert k in KeysOf(m.rest);
        }
      }
    }
  }

  lemma SortedKeys(m: Members)
    requires ProperMembers(m)
    ensures Sorted(Sort(KeysOf(m), KeyLeq), KeyLeq)
    ensures forall k :: k in Sort(KeysOf(m), KeyLeq) <==> Get(m, k).Some?
    ensures forall i, j :: 0 <= i < j < |Sort(KeysOf(m), KeyLeq)| ==>
      Sort(KeysOf(m), KeyLeq)[i] != Sort(KeysOf(m), KeyLeq)[j]
  {
    KeyLeqIsTotalOrder();
    SortSorts(KeysOf(m), KeyLeq);
    SortPermutes(KeysOf(m), KeyLeq);
    var s := Sort(KeysOf(m), KeyLeq);
    forall k ensures k in s <==> Get(m, k).Some? {
      SortMembers(KeysOf(m), KeyLeq, k);
      KeysOfGet(m, k);
    }
    KeysOnce(m);
    forall i, j | 0 <= i < j < |s| ensures s[i] != s[j] {
      Twice(s, i, j);
      SortMembers(KeysOf(m), KeyLeq, s[i]);
    }
  }

  /** The replacer: the members assigned to a fresh object in sorted order. */
  method Replace(m: Members) returns (sorted: Members)
    requires ProperMembers(m)
    ensures sorted == Ordered(m)
  {
    sorted := Nil;
    var keys := Sort(KeysOf(m), KeyLeq);
    SortedKeys(m);
    for i := 0 to |keys|
      invariant Ascending(sorted)
      invariant forall x :: Get(sorted, x) == if x != Proto && x in keys[..i] then Get(m, x) else None
    {
      forall x | Get(sorted, x).Some? ensures KeyLeq(x, keys[i]) && x != keys[i] {
        assert x in keys[..i];
      }
      assert keys[i] in keys && Get(m, keys[i]).Some?;
      PlaceIsInsert(sorted, keys[i], Get(m, keys[i]).value);
      InsertAscends(sorted, keys[i], Get(m, keys[i]).value);
      sorted := Assign(sorted, keys[i], Get(m, keys[i]).value);
      assert keys[..i + 1] == keys[..i] + [keys[i]];
    }
    assert keys[..|keys|] == keys;
    OrderedAscends(m);
    AscendingUnique(sorted, Ordered(m));
  }

  function Size(v: Json): nat {
    match v
    case Arr(items) => 1 + SizeItems(items)
    case Obj(members) => 1 + SizeMembers(members)
    case _ => 1
  }

  function SizeItems(s: Items): nat {
    match s case NoItems => 0 case Item(head, tail) => 1 + Size(head) + SizeItems(tail)
  }

  function SizeMembers(m: Members): nat {
    match m case Nil => 0 case Member(_, value, rest) => 1 + Size(value) + SizeMembers(rest)
  }

  lemma {:induction false} InsertSize(m: Members, k: Key, v: Json)
    requires Proper(v) && ProperMembers(m) && Get(m, k) == None
    ensures SizeMembers(Insert(m, k, v)) == SizeMembers(m) + Size(v) + 1
    ensures ProperMembers(Insert(m, k, v))
    ensures forall x :: Get(Insert(m, k, v), x) == if x == k then Some(v) else Get(m, x)
  {
    if m.Member? {
      InsertSize(m.rest, k, v);
    }
  }

  lemma {:induction false} OrderedSize(m: Members)
    requires ProperMembers(m)
    ensures SizeMembers(Ordered(m)) <= SizeMembers(m) && ProperMembers(Ordered(m))
  {
    if m.Member? {
      OrderedSize(m.rest);
      OrderedAscends(m.rest);
      if m.key != Proto {
        InsertSize(Ordered(m.rest), m.key, m.value);
      }
    }
  }

  function MapCanon(m: Members): Members {
    match m case Nil => Nil case Member(key, value, rest) => Member(key, Canon(value), MapCanon(rest))
  }

  lemma {:induction false} InsertThenMap(m: Members, k: Key, v: Json)
    ensures MapCanon(Insert(m, k, v)) == Insert(MapCanon(m), k, Canon(v))
  {
    if m.Member? {
      InsertThenMap(m.rest, k, v);
    }
  }

  /** Ordering an object before its children are visited, or after, is the same. */
  lemma {:induction false} OrderThenMap(m: Members)
    ensures MapCanon(Ordered(m)) == CanonMembers(m)
  {
    if m.Member? {
      OrderThenMap(m.rest);
      InsertThenMap(Ordered(m.rest), m.key, m.value);
    }
  }

  /** Serialisation with the replacer, top down. */
  method Stringify(v: Json, rest: Text) returns (text: Text)
    requires Proper(v)
    ensures text == Emit(Canon(v), rest)
    decreases Size(v)
  {
    match v
    case Null => text := Then(NullToken, rest);
    case Bool(b) => text := Then(BoolToken(b), rest);
    case Num(literal) => text := Then(NumToken(literal), rest);
    case Str(s) => text := Then(StrToken(s), rest);
    case Arr(items) =>
      var body := StringifyItems(items, true, rest);
      text := Then(LBracket, body);
    case Obj(members) =>
      var sorted := Replace(members);
      OrderedSize(members);
      OrderThenMap(members);
      var body := StringifyMembers(sorted, true, rest);
      text := Then(LBrace, body);
  }

  method StringifyItems(s: Items, first: bool, rest: Text) returns (text: Text)
    requires ProperItems(s)
    ensures text == EmitItems(CanonItems(s), first, rest)
    decreases SizeItems(s)
  {
    match s
    case NoItems => text := Then(RBracket, rest);
    case Item(head, tail) =>
      var more := StringifyItems(tail, false, rest);
      text := Stringify(head, more);
      text := if first then text else Then(Comma, text);
  }

  method StringifyMembers(m: Members, first: bool, rest: Text) returns (text: Text)
    requires ProperMembers(m)
    ensures text == EmitMembers(MapCanon(m), first, rest)
    decreases SizeMembers(m)
  {
    match m
    case Nil => text := Then(RBrace, rest);
    case Member(key, value, more) =>
      var after := StringifyMembers(more, false, rest);
      text := Stringify(value, after);
      text := Then(StrToken(key.text), Then(Colon, text));
      text := if first then text else Then(Comma, text);
  }

  method CanonicalJson(v: Json) returns (text: Text)
    requires Proper(v)
    ensures text == CanonicalText(v)
  {
    text := Stringify(v, End);
  }

  /** Two different schemas with one text: a parameter named `__proto__` leaves no trace. */
  lemma ProtoMemberLeavesNoTrace(value: Json)
    requires Proper(value)
    ensures
      var v, w := Obj(Member(Proto, value, Nil)), Obj(Nil);
      Proper(v) && Proper(w) && CanonicalText(v) == CanonicalText(w) && !Same(v, w, {})
  {
    var m := Member(Proto, value, Nil);
    assert Get(m.rest, Proto) == None && ProperMembers(m);
    assert CanonMembers(m) == CanonMembers(Nil) == Nil;
    assert !Covered(m, Nil, {});
  }

  // ----------------------------------------------------- the surface of a tool

  datatype Tool = Tool(name: string, description: Option<string>, inputSchema: Json, annotations: Option<Json>)

  const MissingDescription := "(no description)"

  function NormalizeDescription(d: Option<string>): string {
    if d == None || d.value == "" || d.value == MissingDescription then "" else d.value
  }

  /** An object of four members. */
  function Four(k: (Key, Key, Key, Key), a: Json, b: Json, c: Json, d: Json): Json {
    Obj(Member(k.0, a, Member(k.1, b, Member(k.2, c, Member(k.3, d, Nil)))))
  }

  const SurfaceKeys := (Key("name"), Key("description"), Key("inputSchema"), Key("annotations"))

  /** What of a tool is hashed. */
  function Surface(t: Tool): Json {
    Four(SurfaceKeys, Str(t.name), Str(NormalizeDescription(t.description)), t.inputSchema, Annotations(t))
  }

  function Annotations(t: Tool): Json {
    if t.annotations == None then Null else t.annotations.value
  }

  /** The ways to say that there is no description. */
  predicate IsUndescribed(d: Option<string>) {
    d == None || d == Some("") || d == Some("(no description)")
  }

  predicate SameDescription(a: Option<string>, b: Option<string>) {
    a == b || (IsUndescribed(a) && IsUndescribed(b))
  }

  /** Equal up to member order; no annotations and null ones are the same. */
  ghost predicate SameAnnotations(a: Option<Json>, b: Option<Json>) {
    || (a in {None, Some(Null)} && b in {None, Some(Null)})
    || (a.Some? && b.Some? && Same(a.value, b.value, {Proto}))
  }

  ghost predicate ProperTool(t: Tool) {
    Proper(t.inputSchema) && (t.annotations.Some? ==> Proper(t.annotations.value))
  }

  lemma SameDescriptionIff(a: Option<string>, b: Option<string>)
    ensures NormalizeDescription(a) == NormalizeDescription(b) <==> SameDescription(a, b)
  {
  }

  lemma SameAnnotationsIff(a: Tool, b: Tool)
    ensures Same(Annotations(a), Annotations(b), {Proto}) <==> SameAnnotations(a.annotations, b.annotations)
  {
  }

  /**
    With an injective digest, two tools hash alike exactly when their names are equal,
    their descriptions are equal once the ways to say "none" are taken as one, and their
    schemas and annotations are equal up to member order.
   */
  lemma {:induction false} HashIffSameSurface<H(!new)>(a: Tool, b: Tool, digest: Text -> H)
    requires forall s, t :: digest(s) == digest(t) ==> s == t
    requires ProperTool(a) && ProperTool(b)
    ensures digest(CanonicalText(Surface(a))) == digest(CanonicalText(Surface(b))) <==>
            && a.name == b.name
            && SameDescription(a.description, b.description)
            && Same(a.inputSchema, b.inputSchema, {Proto})
            && SameAnnotations(a.annotations, b.annotations)
  {
    SameDescriptionIff(a.description, b.description);
    SameAnnotationsIff(a, b);
    var k := SurfaceKeys;
    KeysDiffer();
    SameFour(k, Str(a.name), Str(NormalizeDescription(a.description)), a.inputSchema, Annotations(a),
      Str(b.name), Str(NormalizeDescription(b.description)), b.inputSchema, Annotations(b));
    CanonicalTextIffSame(Surface(a), Surface(b));
  }

  ghost predicate AllDiffer(k: (Key, Key, Key, Key)) {
    && k.0 !in {k.1, k.2, k.3, Proto} && k.1 !in {k.2, k.3, Proto} && k.2 !in {k.3, Proto} && k.3 != Proto
  }

  lemma {:induction false} SameFour(k: (Key, Key, Key, Key), a: Json, b: Json, c: Json, d: Json, a': Json, b': Json,
      c': Json, d': Json)
    requires AllDiffer(k) && Proper(a) && Proper(b) && Proper(c) && Proper(d) && Proper(a') && Proper(b')
      && Proper(c') && Proper(d')
    ensures Proper(Four(k, a, b, c, d)) && Proper(Four(k, a', b', c', d'))
    ensures Same(Four(k, a, b, c, d), Four(k, a', b', c', d'), {Proto}) <==>
            Same(a, a', {Proto}) && Same(b, b', {Proto}) && Same(c, c', {Proto}) && Same(d, d', {Proto})
  {
    FourGet(k, a, b, c, d);
    FourGet(k, a', b', c', d');
    var m, n := Four(k, a, b, c, d).members, Four(k, a', b', c', d').members;
    MemberCovered(k.3, d, Nil, n, d');
    MemberCovered(k.2, c, m.rest.rest.rest, n, c');
    MemberCovered(k.1, b, m.rest.rest, n, b');
    MemberCovered(k.0, a, m.rest, n, a');
    SameObjects(m, n);
  }

  lemma {:induction false} SameObjects(m: Members, n: Members)
    requires forall x :: Get(m, x) == None ==> Get(n, x) == None
    ensures Same(Obj(m), Obj(n), {Proto}) <==> Covered(m, n, {Proto})
  {
  }

  lemma {:induction false} MemberCovered(k: Key, v: Json, rest: Members, n: Members, w: Json)
    requires k != Proto && Get(n, k) == Some(w)
    ensures Covered(Member(k, v, rest), n, {Proto}) <==> Covered(rest, n, {Proto}) && Same(v, w, {Proto})
  {
  }

  lemma {:induction false} FourGet(k: (Key, Key, Key, Key), a: Json, b: Json, c: Json, d: Json)
    requires AllDiffer(k) && Proper(a) && Proper(b) && Proper(c) && Proper(d)
    ensures Proper(Four(k, a, b, c, d))
    ensures forall x :: Get(Four(k, a, b, c, d).members, x) ==
              if x == k.0 then Some(a) else if x == k.1 then Some(b) else if x == k.2 then Some(c)
                else if x == k.3 then Some(d) else None
  {
    var m3 := Member(k.3, d, Nil);
    var m2 := Member(k.2, c, m3);
    var m1 := Member(k.1, b, m2);
    forall x ensures Get(m3, x) == if x == k.3 then Some(d) else None {
      assert Get(Nil, x) == None;
    }
    assert ProperMembers(Nil);
    assert ProperMembers(m3);
    assert ProperMembers(m2);
    assert ProperMembers(m1);
    forall x ensures Get(m1, x) == if x == k.1 then Some(b) else if x == k.2 then Some(c)
      else if x == k.3 then Some(d) else None {
      assert Get(m2, x) == if x == k.2 then Some(c) else Get(m3, x);
    }
  }

  lemma KeysDiffer()
    ensures AllDiffer(SurfaceKeys)
  {
    assert "name"[0] == 'n' && "description"[0] == 'd' && "inputSchema"[0] == 'i' && "annotations"[0] == 'a'
      && Proto.text[0] == '_';
  }
}

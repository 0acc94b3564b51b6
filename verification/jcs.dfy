/** Canonical JSON: the text a proof is hashed as (RFC 8785, restricted to safe integers). */
module Jcs {
  import opened Primitives
  import opened Text
  import opened Numerals
  import opened RegistrationDigest

  /** A JavaScript value as `serialize` sees it; Foreign is anything that is neither JSON nor undefined. */
  datatype Json =
    | Null
    | Bool(b: bool)
    | Integer(n: int)
    | NotAnInteger
    | Words(s: Str)
    | Array(items: Items)
    | Object(members: Members)
    | Undefined
    | Foreign

  datatype Items = NoItems | Item(head: Json, tail: Items)

  /** In insertion order. */
  datatype Members = NoMembers | Member(key: Str, value: Json, rest: Members)

  datatype JcsError = UnpairedSurrogate | NotIntegral | UnsafeInteger | UndefinedMember | NotCanonicalizable

  type Serialized = Result<Str, JcsError>

  // ------------------------------------------------------------------ strings

  /** `JSON.stringify` of one code unit of a well-formed string. */
  function Escape(c: CodeUnit): Str {
    if c == 34 || c == 92 then [92, c]
    else if c == 8 then [92, 98]
    else if c == 9 then [92, 116]
    else if c == 10 then [92, 110]
    else if c == 12 then [92, 102]
    else if c == 13 then [92, 114]
    else if c < 32 then [92, 117, 48, 48, HexDigit(c / 16), HexDigit(c % 16)]
    else [c]
  }

  /** The escaped characters and the closing quote. */
  function Escaped(s: Str): Str {
    if s == [] then [34] else Escape(s[0]) + Escaped(s[1..])
  }

  function SerializeString(s: Str): Serialized {
    if !WellFormed(s) then Failure(UnpairedSurrogate) else Success([34] + Escaped(s))
  }

  // ------------------------------------------------------------------ numbers

  function IntegerText(n: int): Str {
    if n < 0 then [45] + Numeral(-n) else Numeral(n)
  }

  function SerializeNumber(n: int): Serialized {
    if -MAX_SAFE_INTEGER <= n <= MAX_SAFE_INTEGER then Success(IntegerText(n)) else Failure(UnsafeInteger)
  }

  // ------------------------------------------------------------------ sorting

  /** The default comparison of strings: by UTF-16 code units. */
  predicate Before(s: Str, t: Str) {
    t != [] && (s == [] || s[0] < t[0] || (s[0] == t[0] && Before(s[1..], t[1..])))
  }

  datatype Entry = Entry(key: Str, text: Serialized)

  function Insert(e: Entry, es: seq<Entry>): seq<Entry> {
    if es == [] || !Before(es[0].key, e.key) then [e] + es else [es[0]] + Insert(e, es[1..])
  }

  function Sorted(es: seq<Entry>): seq<Entry> {
    if es == [] then [] else Insert(es[0], Sorted(es[1..]))
  }

  // ---------------------------------------------------------------- serialize

  /** Texts joined by commas and closed; the first failure wins. */
  function Closed(texts: seq<Serialized>, end: CodeUnit, first: bool): Serialized {
    if texts == [] then Success([end])
    else if texts[0].Failure? then texts[0]
    else match Closed(texts[1..], end, false)
      case Failure(e) => Failure(e)
      case Success(rest) => Success((if first then [] else [44]) + texts[0].value + rest)
  }

  function EntryText(e: Entry): Serialized {
    if e.text.Failure? then e.text
    else match SerializeString(e.key)
      case Failure(error) => Failure(error)
      case Success(key) => Success(key + [58] + e.text.value)
  }

  function EntryTexts(es: seq<Entry>): (texts: seq<Serialized>)
    ensures |texts| == |es| && forall i :: 0 <= i < |es| ==> texts[i] == EntryText(es[i])
  {
    seq(|es|, i requires 0 <= i < |es| => EntryText(es[i]))
  }

  function Serialize(v: Json): Serialized
    decreases v, 0
  {
    match v
    case Null => Success(Ascii("null"))
    case Bool(b) => Success(if b then Ascii("true") else Ascii("false"))
    case Integer(n) => SerializeNumber(n)
    case NotAnInteger => Failure(NotIntegral)
    case Words(s) => SerializeString(s)
    case Array(items) =>
      (match Closed(ItemTexts(items), 93, true)
       case Failure(e) => Failure(e)
       case Success(rest) => Success([91] + rest))
    case Object(members) =>
      (match Closed(EntryTexts(Sorted(Entries(members))), 125, true)
       case Failure(e) => Failure(e)
       case Success(rest) => Success([123] + rest))
    case Undefined => Failure(NotCanonicalizable)
    case Foreign => Failure(NotCanonicalizable)
  }

  function ItemTexts(items: Items): seq<Serialized>
    decreases items, 0
  {
    match items
    case NoItems => []
    case Item(head, tail) => [Serialize(head)] + ItemTexts(tail)
  }

  /** A member whose value is undefined fails before its key is looked at. */
  function MemberText(key: Str, value: Json): Serialized
    decreases value, 1
  {
    if value.Undefined? then Failure(UndefinedMember)
    else if !WellFormed(key) then Failure(UnpairedSurrogate)
    else Serialize(value)
  }

  function Entries(members: Members): seq<Entry>
    decreases members, 0
  {
    match members
    case NoMembers => []
    case Member(key, value, rest) => [Entry(key, MemberText(key, value))] + Entries(rest)
  }

  // ---------------------------------------------------------------- what is equal

  predicate HasKey(members: Members, key: Str) {
    members.Member? && (members.key == key || HasKey(members.rest, key))
  }

  function Get(members: Members, key: Str): Json
    requires HasKey(members, key)
  {
    if members.key == key then members.value else Get(members.rest, key)
  }

  function Count(members: Members): nat {
    if members.NoMembers? then 0 else 1 + Count(members.rest)
  }

  /** Equality of JSON values: arrays in order, objects whatever their order. */
  predicate SameJson(v: Json, w: Json) {
    match v
    case Array(items) => w.Array? && SameItems(items, w.items)
    case Object(members) => w.Object? && Count(members) == Count(w.members) && Covered(members, w.members)
    case _ => v == w
  }

  predicate SameItems(items: Items, others: Items) {
    match items
    case NoItems => others.NoItems?
    case Item(head, tail) => others.Item? && SameJson(head, others.head) && SameItems(tail, others.tail)
  }

  /** Every member on the left is there on the right, with an equal value. */
  predicate Covered(members: Members, others: Members) {
    match members
    case NoMembers => true
    case Member(key, value, rest) => HasKey(others, key) && SameJson(value, Get(others, key)) && Covered(rest, others)
  }

  /** A JavaScript object holds each key once. */
  predicate Proper(v: Json) {
    match v
    case Array(items) => ProperItems(items)
    case Object(members) => ProperMembers(members)
    case _ => true
  }

  predicate ProperItems(items: Items) {
    items.Item? ==> Proper(items.head) && ProperItems(items.tail)
  }

  predicate ProperMembers(members: Members) {
    members.Member? ==> Proper(members.value) && !HasKey(members.rest, members.key) && ProperMembers(members.rest)
  }

  // --------------------------------------------------- reading strings back

  /** No escape is the beginning of another, and none begins like the closing quote. */
  lemma EscapePrefixFree(c: CodeUnit, d: CodeUnit, x: Str, y: Str)
    requires Escape(c) + x == Escape(d) + y
    ensures c == d && x == y
  {
    var s, t := Escape(c) + x, Escape(d) + y;
    assert s[0] == Escape(c)[0] && t[0] == Escape(d)[0];
    if |Escape(c)| > 1 || |Escape(d)| > 1 {
      assert |Escape(c)| > 1 && |Escape(d)| > 1;
      assert s[1] == Escape(c)[1] && t[1] == Escape(d)[1];
      if Escape(c)[1] == 117 {
        assert s[4] == HexDigit(c / 16) && t[4] == HexDigit(d / 16) && s[5] == HexDigit(c % 16)
          && t[5] == HexDigit(d % 16);
        assert HexValue(HexDigit(c / 16)) == c / 16 && HexValue(HexDigit(d / 16)) == d / 16;
        assert HexValue(HexDigit(c % 16)) == c % 16 && HexValue(HexDigit(d % 16)) == d % 16;
      }
    }
    assert c == d;
    assert x == s[|Escape(c)|..] && y == t[|Escape(d)|..];
  }

  lemma EscapeIsNotQuote(c: CodeUnit)
    ensures |Escape(c)| >= 1 && Escape(c)[0] != 34
  {
  }

  lemma EscapedHead(s: Str, x: Str)
    ensures Escaped(s) + x != []
    ensures s == [] ==> (Escaped(s) + x)[0] == 34 && (Escaped(s) + x)[1..] == x
    ensures s != [] ==> (Escaped(s) + x)[0] != 34 && Escaped(s) + x == Escape(s[0]) + (Escaped(s[1..]) + x)
  {
    if s != [] {
      EscapeIsNotQuote(s[0]);
      assert Escaped(s) + x == Escape(s[0]) + (Escaped(s[1..]) + x);
    }
  }

  /** A quoted string ends where its own quote closes it. */
  lemma {:induction false} EscapedPrefixFree(s: Str, t: Str, x: Str, y: Str)
    requires Escaped(s) + x == Escaped(t) + y
    ensures s == t && x == y
  {
    EscapedHead(s, x);
    EscapedHead(t, y);
    if s != [] {
      EscapePrefixFree(s[0], t[0], Escaped(s[1..]) + x, Escaped(t[1..]) + y);
      EscapedPrefixFree(s[1..], t[1..], x, y);
      assert s == [s[0]] + s[1..] && t == [t[0]] + t[1..];
    }
  }

  /** What may follow a value inside a document: nothing, a comma or a closing bracket. */
  predicate Delimited(x: Str) {
    x == [] || x[0] == 44 || x[0] == 93 || x[0] == 125
  }

  lemma NumeralPrefixFree(n: nat, m: nat, x: Str, y: Str)
    requires Numeral(n) + x == Numeral(m) + y && Delimited(x) && Delimited(y)
    ensures n == m && x == y
  {
    var s := Numeral(n) + x;
    DigitRunStops(Numeral(n), x);
    DigitRunStops(Numeral(m), y);
    assert Numeral(n) == s[..|Numeral(n)|] && Numeral(m) == s[..|Numeral(m)|];
    assert x == s[|Numeral(n)|..] && y == s[|Numeral(m)|..];
    NumeralHasValue(n);
    NumeralHasValue(m);
  }

  lemma SignShows(n: int, x: Str)
    ensures var s := IntegerText(n) + x;
            s != [] && (s[0] == 45 <==> n < 0) && (n < 0 ==> s[1..] == Numeral(-n) + x)
  {
  }

  lemma IntegerPrefixFree(n: int, m: int, x: Str, y: Str)
    requires IntegerText(n) + x == IntegerText(m) + y && Delimited(x) && Delimited(y)
    ensures n == m && x == y
  {
    SignShows(n, x);
    SignShows(m, y);
    if n < 0 {
      NumeralPrefixFree(-n, -m, x, y);
    } else {
      NumeralPrefixFree(n, m, x, y);
    }
  }

  // ------------------------------------------------------ telling kinds apart

  /** The first code unit says what kind of value follows. */
  function Kind(v: Json): nat {
    match v
    case Null => 1
    case Bool(b) => if b then 2 else 3
    case Integer(_) => 4
    case Words(_) => 5
    case Array(_) => 6
    case Object(_) => 7
    case _ => 0
  }

  function KindOf(c: CodeUnit): nat {
    if c == 110 then 1 else if c == 116 then 2 else if c == 102 then 3
    else if IsDigit(c) || c == 45 then 4 else if c == 34 then 5 else if c == 91 then 6 else if c == 123 then 7 else 0
  }

  lemma FirstUnitTellsKind(v: Json)
    requires Serialize(v).Success?
    ensures Serialize(v).value != [] && KindOf(Serialize(v).value[0]) == Kind(v) != 0
  {
  }

  // ------------------------------------------------------------- the key order

  lemma {:induction false} BeforeIsStrict(s: Str, t: Str)
    ensures !(Before(s, t) && Before(t, s))
    ensures s != t ==> Before(s, t) || Before(t, s)
  {
    if s != [] && t != [] && s[0] == t[0] {
      BeforeIsStrict(s[1..], t[1..]);
      assert s == [s[0]] + s[1..] && t == [t[0]] + t[1..];
    }
  }

  lemma {:induction false} BeforeIsTransitive(r: Str, s: Str, t: Str)
    requires Before(r, s) && Before(s, t)
    ensures Before(r, t)
  {
    if r != [] && r[0] == s[0] && s[0] == t[0] {
      BeforeIsTransitive(r[1..], s[1..], t[1..]);
    }
  }

  ghost predicate StrictlySorted(es: seq<Entry>) {
    forall i, j :: 0 <= i < j < |es| ==> Before(es[i].key, es[j].key)
  }

  ghost predicate DistinctKeys(es: seq<Entry>) {
    forall i, j :: 0 <= i < j < |es| ==> es[i].key != es[j].key
  }

  lemma {:induction false} InsertKeeps(e: Entry, es: seq<Entry>)
    ensures |Insert(e, es)| == |es| + 1 && forall x :: x in Insert(e, es) <==> x == e || x in es
  {
    if es != [] && Before(es[0].key, e.key) {
      InsertKeeps(e, es[1..]);
      assert es == [es[0]] + es[1..];
    }
  }

  lemma {:induction false} SortedKeeps(es: seq<Entry>)
    ensures |Sorted(es)| == |es| && forall x :: x in Sorted(es) <==> x in es
  {
    if es != [] {
      SortedKeeps(es[1..]);
      InsertKeeps(es[0], Sorted(es[1..]));
      assert es == [es[0]] + es[1..];
    }
  }

  lemma {:induction false} InsertSorts(e: Entry, es: seq<Entry>)
    requires StrictlySorted(es) && forall x :: x in es ==> x.key != e.key
    ensures StrictlySorted(Insert(e, es))
  {
    if es != [] {
      BeforeIsStrict(es[0].key, e.key);
      if Before(es[0].key, e.key) {
        InsertSorts(e, es[1..]);
        InsertKeeps(e, es[1..]);
        var tail := Insert(e, es[1..]);
        forall j | 0 <= j < |tail| ensures Before(es[0].key, tail[j].key) {
          assert tail[j] in tail;
        }
      } else {
        forall j | 0 <= j < |es| ensures Before(e.key, es[j].key) {
          if j > 0 {
            BeforeIsTransitive(e.key, es[0].key, es[j].key);
          }
        }
      }
    }
  }

  lemma {:induction false} SortedSorts(es: seq<Entry>)
    requires DistinctKeys(es)
    ensures StrictlySorted(Sorted(es))
  {
    if es != [] {
      SortedSorts(es[1..]);
      SortedKeeps(es[1..]);
      InsertSorts(es[0], Sorted(es[1..]));
    }
  }

  /** There is only one strictly sorted arrangement of the same entries. */
  lemma {:induction false} SameEntriesSameOrder(es: seq<Entry>, fs: seq<Entry>)
    requires StrictlySorted(es) && StrictlySorted(fs) && forall e :: e in es <==> e in fs
    ensures es == fs
  {
    assert es != [] ==> es[0] in es;
    assert fs != [] ==> fs[0] in fs;
    if es != [] {
      HeadsAgree(es, fs);
      forall e ensures e in es[1..] <==> e in fs[1..] {
        TailMembers(es, e);
        TailMembers(fs, e);
      }
      SameEntriesSameOrder(es[1..], fs[1..]);
      assert es == [es[0]] + es[1..] && fs == [fs[0]] + fs[1..];
    }
  }

  lemma TailMembers(es: seq<Entry>, e: Entry)
    requires es != [] && StrictlySorted(es)
    ensures e in es[1..] <==> e in es && e != es[0]
  {
    if e in es[1..] {
      var j :| 0 <= j < |es[1..]| && es[1..][j] == e;
      assert Before(es[0].key, es[j + 1].key);
      BeforeIsStrict(e.key, e.key);
    }
  }

  lemma HeadsAgree(es: seq<Entry>, fs: seq<Entry>)
    requires es != [] && fs != [] && StrictlySorted(es) && StrictlySorted(fs) && forall e :: e in es <==> e in fs
    ensures es[0] == fs[0]
  {
    assert es[0] in fs && fs[0] in es;
    var j :| 0 <= j < |fs| && fs[j] == es[0];
    var i :| 0 <= i < |es| && es[i] == fs[0];
    BeforeIsStrict(es[0].key, fs[0].key);
  }

  // ----------------------------------------- entries and the members they are of

  lemma {:induction false} EntriesAreMembers(members: Members)
    requires ProperMembers(members)
    ensures |Entries(members)| == Count(members) && DistinctKeys(Entries(members))
    ensures forall e ::
              e in Entries(members) <==> HasKey(members, e.key) && e.text == MemberText(e.key, Get(members, e.key))
  {
    if members.Member? {
      EntriesAreMembers(members.rest);
    }
  }

  function Max(a: nat, b: nat): nat {
    if a > b then a else b
  }

  function Depth(v: Json): nat {
    match v
    case Array(items) => 1 + ItemsDepth(items)
    case Object(members) => 1 + MembersDepth(members)
    case _ => 0
  }

  function ItemsDepth(items: Items): nat {
    if items.NoItems? then 0 else Max(Depth(items.head), ItemsDepth(items.tail))
  }

  function MembersDepth(members: Members): nat {
    if members.NoMembers? then 0 else Max(Depth(members.value), MembersDepth(members.rest))
  }

  function Length(items: Items): nat {
    if items.NoItems? then 0 else 1 + Length(items.tail)
  }

  lemma {:induction false} MemberIsShallower(members: Members, key: Str)
    requires ProperMembers(members) && HasKey(members, key)
    ensures Depth(Get(members, key)) <= MembersDepth(members) && Proper(Get(members, key))
  {
    if members.key != key {
      MemberIsShallower(members.rest, key);
    }
  }

  lemma {:induction false} CoveredByLookup(members: Members, others: Members)
    requires ProperMembers(members)
    requires forall key :: HasKey(members, key) ==> HasKey(others, key) && SameJson(Get(members, key), Get(others, key))
    ensures Covered(members, others)
  {
    if members.Member? {
      assert HasKey(members, members.key);
      forall key | HasKey(members.rest, key) ensures HasKey(others, key)
        && SameJson(Get(members.rest, key), Get(others, key)) {
        assert HasKey(members, key);
      }
      CoveredByLookup(members.rest, others);
    }
  }

  lemma {:induction false} LookupWhenCovered(members: Members, others: Members, key: Str)
    requires Covered(members, others) && HasKey(members, key)
    ensures HasKey(others, key) && SameJson(Get(members, key), Get(others, key))
  {
    if members.key != key {
      LookupWhenCovered(members.rest, others, key);
    }
  }

  // -------------------------------------------------- one text, one value

  lemma CancelFront(p: Str, x: Str, y: Str)
    requires p + x == p + y
    ensures x == y
  {
    assert x == (p + x)[|p|..] && y == (p + y)[|p|..];
  }

  lemma Regroup(a: Str, b: Str, c: Str, x: Str)
    ensures a + b + c + x == a + (b + (c + x))
  {
  }

  lemma Regroup2(a: Str, b: Str, x: Str)
    ensures (a + b) + x == a + (b + x)
  {
  }

  lemma KindsAgree(v: Json, w: Json, x: Str, y: Str)
    requires Serialize(v).Success? && Serialize(w).Success? && Serialize(v).value + x == Serialize(w).value + y
    ensures Kind(v) == Kind(w) != 0
  {
    var s, t := Serialize(v).value, Serialize(w).value;
    FirstUnitTellsKind(v);
    FirstUnitTellsKind(w);
    assert s[0] == (s + x)[0] && t[0] == (t + y)[0];
  }

  lemma ClosedHead(texts: seq<Serialized>, end: CodeUnit, x: Str)
    requires Closed(texts, end, false).Success? && (end == 93 || end == 125)
    ensures Delimited(Closed(texts, end, false).value + x)
  {
  }

  /** A document can be told where it ends: no accepted value's text begins another's. */
  lemma {:induction false} ValuePrefixFree(v: Json, w: Json, x: Str, y: Str)
    requires Proper(v) && Proper(w) && Serialize(v).Success? && Serialize(w).Success? && Delimited(x) && Delimited(y)
    requires Serialize(v).value + x == Serialize(w).value + y
    ensures SameJson(v, w) && x == y
    decreases Depth(v), 1
  {
    KindsAgree(v, w, x, y);
    match v {
      case Integer(n) => IntegerPrefixFree(n, w.n, x, y);
      case Words(a) => WordsPrefixFree(a, w.s, x, y);
      case Array(items) => ArrayPrefixFree(items, w.items, x, y);
      case Object(members) => ObjectPrefixFree(members, w.members, x, y);
      case Null => CancelFront(Ascii("null"), x, y);
      case Bool(_) => CancelFront(Serialize(v).value, x, y);
      case _ =>
    }
  }

  lemma WordsPrefixFree(a: Str, b: Str, x: Str, y: Str)
    requires ([34] + Escaped(a)) + x == ([34] + Escaped(b)) + y
    ensures a == b && x == y
  {
    Regroup2([34], Escaped(a), x);
    Regroup2([34], Escaped(b), y);
    CancelFront([34], Escaped(a) + x, Escaped(b) + y);
    EscapedPrefixFree(a, b, x, y);
  }

  lemma {:induction false} ArrayPrefixFree(items: Items, others: Items, x: Str, y: Str)
    requires ProperItems(items) && ProperItems(others)
    requires Serialize(Array(items)).Success? && Serialize(Array(others)).Success?
    requires Serialize(Array(items)).value + x == Serialize(Array(others)).value + y
    ensures SameItems(items, others) && x == y
    decreases 1 + ItemsDepth(items), 0
  {
    var rest, other := Closed(ItemTexts(items), 93, true).value, Closed(ItemTexts(others), 93, true).value;
    Regroup2([91], rest, x);
    Regroup2([91], other, y);
    CancelFront([91], rest + x, other + y);
    ItemsPrefixFree(items, others, true, x, y);
  }

  lemma {:induction false} ObjectPrefixFree(members: Members, others: Members, x: Str, y: Str)
    requires ProperMembers(members) && ProperMembers(others)
    requires Serialize(Object(members)).Success? && Serialize(Object(others)).Success?
    requires Serialize(Object(members)).value + x == Serialize(Object(others)).value + y
    ensures SameJson(Object(members), Object(others)) && x == y
    decreases 1 + MembersDepth(members), 0
  {
    var es, fs := Sorted(Entries(members)), Sorted(Entries(others));
    var rest, other := Closed(EntryTexts(es), 125, true).value, Closed(EntryTexts(fs), 125, true).value;
    Regroup2([123], rest, x);
    Regroup2([123], other, y);
    CancelFront([123], rest + x, other + y);
    EntriesAreMembers(members);
    EntriesAreMembers(others);
    SortedKeeps(Entries(members));
    SortedKeeps(Entries(others));
    EntriesPrefixFree(members, others, es, fs, true, x, y);
    MatchedEntriesCover(members, others, es, fs);
  }

  lemma {:induction false} ItemsPrefixFree(items: Items, others: Items, first: bool, x: Str, y: Str)
    requires ProperItems(items) && ProperItems(others)
    requires Closed(ItemTexts(items), 93, first).Success? && Closed(ItemTexts(others), 93, first).Success?
    requires Closed(ItemTexts(items), 93, first).value + x == Closed(ItemTexts(others), 93, first).value + y
    ensures SameItems(items, others) && x == y
    decreases ItemsDepth(items), 1 + Length(items)
  {
    ItemsHead(items, first, x);
    ItemsHead(others, first, y);
    if items.Item? {
      var sep := if first then [] else [44];
      var s, t := Serialize(items.head).value, Serialize(others.head).value;
      var rest, other :=
        Closed(ItemTexts(items.tail), 93, false).value, Closed(ItemTexts(others.tail), 93, false).value;
      Regroup(sep, s, rest, x);
      Regroup(sep, t, other, y);
      CancelFront(sep, s + (rest + x), t + (other + y));
      ClosedHead(ItemTexts(items.tail), 93, x);
      ClosedHead(ItemTexts(others.tail), 93, y);
      ValuePrefixFree(items.head, others.head, rest + x, other + y);
      ItemsPrefixFree(items.tail, others.tail, false, x, y);
    } else {
      CancelFront([93], x, y);
    }
  }

  /** The bracket shows at once whether there is another item. */
  lemma ItemsHead(items: Items, first: bool, x: Str)
    requires Closed(ItemTexts(items), 93, first).Success?
    ensures var s := Closed(ItemTexts(items), 93, first).value + x;
            s != [] && (s[0] == 93 <==> items.NoItems?)
            && (items.NoItems? ==> Closed(ItemTexts(items), 93, first).value == [93])
    ensures items.Item? ==>
              Serialize(items.head).Success? && Closed(ItemTexts(items.tail), 93, false).Success?
              && Closed(ItemTexts(items), 93, first).value
                 == (if first then [] else [44]) + Serialize(items.head).value
                   + Closed(ItemTexts(items.tail), 93, false).value
  {
    if items.Item? {
      assert ItemTexts(items)[0] == Serialize(items.head) && ItemTexts(items)[1..] == ItemTexts(items.tail);
      FirstUnitTellsKind(items.head);
    }
  }

  ghost predicate EntriesOf(members: Members, es: seq<Entry>) {
    forall e :: e in es ==> HasKey(members, e.key) && e.text == MemberText(e.key, Get(members, e.key))
  }

  ghost predicate Matched(members: Members, others: Members, es: seq<Entry>, fs: seq<Entry>)
    requires EntriesOf(members, es) && EntriesOf(others, fs)
  {
    |es| == |fs|
    && forall i :: 0 <= i < |es| ==>
         es[i] in es && fs[i] in fs && es[i].key == fs[i].key
           && SameJson(Get(members, es[i].key), Get(others, es[i].key))
  }

  lemma MatchedCons(members: Members, others: Members, es: seq<Entry>, fs: seq<Entry>)
    requires EntriesOf(members, es) && EntriesOf(others, fs) && es != [] && fs != []
    requires EntriesOf(members, es[1..]) && EntriesOf(others, fs[1..]) && Matched(members, others, es[1..], fs[1..])
    requires es[0] in es && fs[0] in fs && es[0].key == fs[0].key
             && SameJson(Get(members, es[0].key), Get(others, fs[0].key))
    ensures Matched(members, others, es, fs)
  {
    forall i | 0 <= i < |es|
      ensures es[i] in es && fs[i] in fs && es[i].key == fs[i].key
              && SameJson(Get(members, es[i].key), Get(others, es[i].key))
    {
      if i > 0 {
        assert es[1..][i - 1] == es[i] && fs[1..][i - 1] == fs[i];
      }
    }
  }

  lemma {:induction false} EntriesPrefixFree(members: Members, others: Members, es: seq<Entry>, fs: seq<Entry>,
                                             first: bool, x: Str, y: Str)
    requires ProperMembers(members) && ProperMembers(others) && EntriesOf(members, es) && EntriesOf(others, fs)
    requires Closed(EntryTexts(es), 125, first).Success? && Closed(EntryTexts(fs), 125, first).Success?
    requires Closed(EntryTexts(es), 125, first).value + x == Closed(EntryTexts(fs), 125, first).value + y
    ensures Matched(members, others, es, fs) && x == y
    decreases MembersDepth(members), 1 + |es|
  {
    EntriesHead(es, first, x);
    EntriesHead(fs, first, y);
    if es != [] {
      var e, f := es[0], fs[0];
      var rest, other :=
        Closed(EntryTexts(es[1..]), 125, false).value + x, Closed(EntryTexts(fs[1..]), 125, false).value + y;
      EntryPrefixFree(e, f, first, rest, other);
      assert e in es && f in fs && EntriesOf(members, es[1..]) && EntriesOf(others, fs[1..]);
      ClosedHead(EntryTexts(es[1..]), 125, x);
      ClosedHead(EntryTexts(fs[1..]), 125, y);
      MemberIsShallower(members, e.key);
      MemberIsShallower(others, f.key);
      ValuePrefixFree(Get(members, e.key), Get(others, f.key), rest, other);
      EntriesPrefixFree(members, others, es[1..], fs[1..], false, x, y);
      MatchedCons(members, others, es, fs);
    } else {
      CancelFront([125], x, y);
    }
  }

  /** A member's text with what follows, up to but not including the rest of the object. */
  function MemberPiece(e: Entry, first: bool): Str
    requires e.text.Success?
  {
    (if first then [] else [44]) + ([34] + Escaped(e.key) + [58] + e.text.value)
  }

  lemma MemberPieceParts(e: Entry, first: bool, x: Str)
    requires e.text.Success?
    ensures MemberPiece(e, first) + x
            == ((if first then [] else [44]) + [34]) + (Escaped(e.key) + ([58] + (e.text.value + x)))
  {
  }

  lemma EntryPrefixFree(e: Entry, f: Entry, first: bool, x: Str, y: Str)
    requires e.text.Success? && f.text.Success? && MemberPiece(e, first) + x == MemberPiece(f, first) + y
    ensures e.key == f.key && e.text.value + x == f.text.value + y
  {
    var front := (if first then [] else [44]) + [34];
    MemberPieceParts(e, first, x);
    MemberPieceParts(f, first, y);
    var a, b := [58] + (e.text.value + x), [58] + (f.text.value + y);
    CancelFront(front, Escaped(e.key) + a, Escaped(f.key) + b);
    EscapedPrefixFree(e.key, f.key, a, b);
    CancelFront([58], e.text.value + x, f.text.value + y);
  }

  lemma EntriesHead(es: seq<Entry>, first: bool, x: Str)
    requires Closed(EntryTexts(es), 125, first).Success?
    ensures var s := Closed(EntryTexts(es), 125, first).value + x;
            s != [] && (s[0] == 125 <==> es == []) && (es == [] ==> Closed(EntryTexts(es), 125, first).value == [125])
    ensures es != [] ==>
              es[0].text.Success? && Closed(EntryTexts(es[1..]), 125, false).Success?
              && Closed(EntryTexts(es), 125, first).value + x
                == MemberPiece(es[0], first) + (Closed(EntryTexts(es[1..]), 125, false).value + x)
  {
    if es != [] {
      assert EntryTexts(es)[0] == EntryText(es[0]) && EntryTexts(es)[1..] == EntryTexts(es[1..]);
    }
  }

  lemma MatchedEntriesCover(members: Members, others: Members, es: seq<Entry>, fs: seq<Entry>)
    requires ProperMembers(members) && EntriesOf(members, es) && EntriesOf(others, fs)
             && Matched(members, others, es, fs)
    requires |es| == Count(members) && |fs| == Count(others) && forall e :: e in Entries(members) ==> e in es
    ensures Count(members) == Count(others) && Covered(members, others)
  {
    EntriesAreMembers(members);
    forall key | HasKey(members, key) ensures HasKey(others, key) && SameJson(Get(members, key), Get(others, key)) {
      var e := Entry(key, MemberText(key, Get(members, key)));
      assert e in Entries(members) && e in es;
      var i :| 0 <= i < |es| && es[i] == e;
      assert fs[i] in fs;
    }
    CoveredByLookup(members, others);
  }

  // ------------------------------------------------------- one value, one text

  lemma {:induction false} SameValueSameText(v: Json, w: Json)
    requires Proper(v) && Proper(w) && SameJson(v, w)
    ensures Serialize(v) == Serialize(w)
    decreases Depth(v), 0
  {
    match v {
      case Array(items) => SameItemsSameTexts(items, w.items);
      case Object(members) =>
        EntriesAreMembers(members);
        EntriesAreMembers(w.members);
        SameMembersSameEntries(members, w.members);
        SortedKeeps(Entries(members));
        SortedKeeps(Entries(w.members));
        SortedSorts(Entries(members));
        SortedSorts(Entries(w.members));
        SameEntriesSameOrder(Sorted(Entries(members)), Sorted(Entries(w.members)));
      case _ =>
    }
  }

  lemma {:induction false} SameItemsSameTexts(items: Items, others: Items)
    requires ProperItems(items) && ProperItems(others) && SameItems(items, others)
    ensures ItemTexts(items) == ItemTexts(others)
    decreases ItemsDepth(items), 1 + Length(items)
  {
    if items.Item? {
      SameValueSameText(items.head, others.head);
      SameItemsSameTexts(items.tail, others.tail);
    }
  }

  lemma {:induction false} SameMembersSameEntries(members: Members, others: Members)
    requires ProperMembers(members) && ProperMembers(others) && Count(members) == Count(others)
             && Covered(members, others)
    ensures forall e :: e in Entries(members) <==> e in Entries(others)
    decreases MembersDepth(members), 1
  {
    EntriesAreMembers(members);
    EntriesAreMembers(others);
    var es, fs := Entries(members), Entries(others);
    forall e | e in es ensures e in fs {
      LookupWhenCovered(members, others, e.key);
      MemberIsShallower(members, e.key);
      MemberIsShallower(others, e.key);
      SameValueSameText(Get(members, e.key), Get(others, e.key));
    }
    SameSizeSameMembers(es, fs);
  }

  ghost function EntrySet(es: seq<Entry>): set<Entry> {
    set e | e in es
  }

  lemma {:induction false} DistinctEntriesCount(es: seq<Entry>)
    requires DistinctKeys(es)
    ensures |EntrySet(es)| == |es|
  {
    if es != [] {
      var n := |es| - 1;
      DistinctEntriesCount(es[..n]);
      assert EntrySet(es) == EntrySet(es[..n]) + {es[n]};
      assert es[n] !in es[..n];
    }
  }

  lemma SameSizeSameMembers(es: seq<Entry>, fs: seq<Entry>)
    requires DistinctKeys(es) && DistinctKeys(fs) && |es| == |fs| && forall e :: e in es ==> e in fs
    ensures forall e :: e in es <==> e in fs
  {
    DistinctEntriesCount(es);
    DistinctEntriesCount(fs);
    SubsetOfSameSize(EntrySet(es), EntrySet(fs));
    forall e ensures e in es <==> e in fs {
      assert e in EntrySet(es) <==> e in EntrySet(fs);
    }
  }

  lemma SubsetOfSameSize(a: set<Entry>, b: set<Entry>)
    requires a <= b && |a| == |b|
    ensures a == b
  {
    assert b == a + (b - a);
    assert |b| == |a| + |b - a|;
  }

  // ------------------------------------------------------------------ theorems

  /** Two accepted values have one canonical text exactly when they are the same JSON value. */
  lemma CanonicalTextIsUnambiguous(v: Json, w: Json)
    requires Proper(v) && Proper(w) && Serialize(v).Success? && Serialize(w).Success?
    ensures Serialize(v) == Serialize(w) <==> SameJson(v, w)
  {
    if Serialize(v) == Serialize(w) {
      assert Serialize(v).value + [] == Serialize(w).value + [];
      ValuePrefixFree(v, w, [], []);
    }
    if SameJson(v, w) {
      SameValueSameText(v, w);
    }
  }

  /** What is accepted: well-formed texts, safe integers, and nothing that is not JSON, at any depth. */
  predicate Acceptable(v: Json) {
    match v
    case Null => true
    case Bool(_) => true
    case Integer(n) => -MAX_SAFE_INTEGER <= n <= MAX_SAFE_INTEGER
    case Words(s) => WellFormed(s)
    case Array(items) => AcceptableItems(items)
    case Object(members) => AcceptableMembers(members)
    case _ => false
  }

  predicate AcceptableItems(items: Items) {
    items.Item? ==> Acceptable(items.head) && AcceptableItems(items.tail)
  }

  predicate AcceptableMembers(members: Members) {
    members.Member? ==> WellFormed(members.key) && Acceptable(members.value) && AcceptableMembers(members.rest)
  }

  predicate AllSucceed(texts: seq<Serialized>) {
    forall i :: 0 <= i < |texts| ==> texts[i].Success?
  }

  lemma {:induction false} ClosedSucceeds(texts: seq<Serialized>, end: CodeUnit, first: bool)
    ensures Closed(texts, end, first).Success? <==> AllSucceed(texts)
  {
    if texts != [] {
      ClosedSucceeds(texts[1..], end, false);
      assert forall i :: 1 <= i < |texts| ==> texts[i] == texts[1..][i - 1];
      if texts[0].Success? && Closed(texts[1..], end, false).Success? {
        assert AllSucceed(texts);
      }
    }
  }

  lemma ArraySucceeds(items: Items)
    ensures Serialize(Array(items)).Success? <==> AllSucceed(ItemTexts(items))
  {
    ClosedSucceeds(ItemTexts(items), 93, true);
  }

  lemma ObjectSucceeds(members: Members)
    ensures Serialize(Object(members)).Success? <==> forall e :: e in Entries(members) ==> EntryText(e).Success?
  {
    var es := Sorted(Entries(members));
    ClosedSucceeds(EntryTexts(es), 125, true);
    SortedKeeps(Entries(members));
    EntriesSucceed(Entries(members), es);
  }

  lemma {:induction false} AcceptsExactly(v: Json)
    ensures Serialize(v).Success? <==> Acceptable(v)
    decreases v, 0
  {
    match v {
      case Array(items) =>
        ArraySucceeds(items);
        AcceptsItems(items);
      case Object(members) =>
        ObjectSucceeds(members);
        AcceptsMembers(members);
      case _ =>
    }
  }

  lemma EntriesSucceed(es: seq<Entry>, fs: seq<Entry>)
    requires forall e :: e in es <==> e in fs
    ensures AllSucceed(EntryTexts(fs)) <==> forall e :: e in es ==> EntryText(e).Success?
  {
    if AllSucceed(EntryTexts(fs)) {
      forall e | e in es ensures EntryText(e).Success? {
        var i :| 0 <= i < |fs| && fs[i] == e;
        assert EntryTexts(fs)[i] == EntryText(e);
      }
    }
  }

  lemma {:induction false} AcceptsItems(items: Items)
    ensures AllSucceed(ItemTexts(items)) <==> AcceptableItems(items)
    decreases items, 0
  {
    if items.Item? {
      AcceptsExactly(items.head);
      AcceptsItems(items.tail);
      var texts, rest := ItemTexts(items), ItemTexts(items.tail);
      assert texts == [Serialize(items.head)] + rest;
      if AllSucceed(texts) {
        assert texts[0].Success?;
        assert forall i :: 0 <= i < |rest| ==> rest[i] == texts[i + 1];
      }
    }
  }

  lemma {:induction false} AcceptsMembers(members: Members)
    ensures (forall e :: e in Entries(members) ==> EntryText(e).Success?) <==> AcceptableMembers(members)
    decreases members, 0
  {
    if members.Member? {
      AcceptsExactly(members.value);
      AcceptsMembers(members.rest);
      var e := Entry(members.key, MemberText(members.key, members.value));
      assert Entries(members) == [e] + Entries(members.rest);
      assert EntryText(e).Success? <==> WellFormed(members.key) && Acceptable(members.value);
    }
  }

  lemma {:induction false} SameJsonReflexive(v: Json)
    requires Proper(v)
    ensures SameJson(v, v)
    decreases Depth(v), 1
  {
    match v {
      case Array(items) => SameItemsReflexive(items);
      case Object(members) =>
        forall key | HasKey(members, key) ensures SameJson(Get(members, key), Get(members, key)) {
          MemberIsShallower(members, key);
          SameJsonReflexive(Get(members, key));
        }
        CoveredByLookup(members, members);
      case _ =>
    }
  }

  lemma {:induction false} SameItemsReflexive(items: Items)
    requires ProperItems(items)
    ensures SameItems(items, items)
    decreases ItemsDepth(items), 2 + Length(items)
  {
    if items.Item? {
      SameJsonReflexive(items.head);
      SameItemsReflexive(items.tail);
    }
  }

  /** The same members in another order. */
  ghost predicate Rearranged(members: Members, others: Members) {
    Count(members) == Count(others)
    && forall key :: HasKey(members, key) ==> HasKey(others, key) && Get(members, key) == Get(others, key)
  }

  /** Reordering an object's members never shows in the text, or in the error. Being a case of `SameJson`,
      which compares member by member all the way down, it does not show at any depth. */
  lemma ReorderingIsInvisible(members: Members, others: Members)
    requires ProperMembers(members) && ProperMembers(others) && Rearranged(members, others)
    ensures SameJson(Object(members), Object(others))
    ensures Serialize(Object(members)) == Serialize(Object(others))
  {
    forall key | HasKey(members, key) ensures HasKey(others, key) && SameJson(Get(members, key), Get(others, key)) {
      MemberIsShallower(members, key);
      SameJsonReflexive(Get(members, key));
    }
    CoveredByLookup(members, others);
    SameValueSameText(Object(members), Object(others));
  }

  // ------------------------------------------------------------------ the hash

  lemma EscapeIsWellFormed(s: Str)
    requires s != [] && WellFormed(s) && FirstLength(s) == 1
    ensures WellFormed(Escape(s[0]))
  {
    if Escape(s[0]) == [s[0]] {
      assert [s[0]][1..] == [];
    } else {
      PlainIsWellFormed(Escape(s[0]));
    }
  }

  lemma PairIsWellFormed(a: CodeUnit, b: CodeUnit)
    requires IsHigh(a) && IsLow(b)
    ensures WellFormed([a, b])
  {
    assert [a, b][2..] == [];
  }

  /** A surrogate pair passes through unescaped. */
  lemma PairIsNotEscaped(s: Str)
    requires s != [] && FirstLength(s) == 2
    ensures Escaped(s) == [s[0], s[1]] + Escaped(s[2..])
  {
    var rest := s[1..];
    assert rest[1..] == s[2..] && rest[0] == s[1];
    assert Escaped(rest) == [s[1]] + Escaped(s[2..]);
    assert Escaped(s) == [s[0]] + Escaped(rest);
  }

  lemma {:induction false} EscapedIsWellFormed(s: Str)
    requires WellFormed(s)
    ensures WellFormed(Escaped(s))
  {
    if s == [] {
      PlainIsWellFormed([34]);
    } else if FirstLength(s) == 2 {
      EscapedIsWellFormed(s[2..]);
      PairIsWellFormed(s[0], s[1]);
      PairIsNotEscaped(s);
      WellFormedConcat([s[0], s[1]], Escaped(s[2..]));
    } else {
      EscapedIsWellFormed(s[1..]);
      EscapeIsWellFormed(s);
      WellFormedConcat(Escape(s[0]), Escaped(s[1..]));
    }
  }

  ghost predicate AllWellFormed(texts: seq<Serialized>) {
    forall i :: 0 <= i < |texts| && texts[i].Success? ==> WellFormed(texts[i].value)
  }

  lemma {:induction false} ClosedIsWellFormed(texts: seq<Serialized>, end: CodeUnit, first: bool)
    requires AllWellFormed(texts) && end < 0xD800 && Closed(texts, end, first).Success?
    ensures WellFormed(Closed(texts, end, first).value)
  {
    if texts == [] {
      PlainIsWellFormed([end]);
    } else {
      assert AllWellFormed(texts[1..]) by {
        assert forall i :: 0 <= i < |texts[1..]| ==> texts[1..][i] == texts[i + 1];
      }
      ClosedIsWellFormed(texts[1..], end, false);
      var sep: Str := if first then [] else [44];
      PlainIsWellFormed(sep);
      WellFormedConcat(sep, texts[0].value);
      WellFormedConcat(sep + texts[0].value, Closed(texts[1..], end, false).value);
    }
  }

  lemma {:induction false} NumeralIsPlain(n: nat)
    ensures forall i :: 0 <= i < |Numeral(n)| ==> Numeral(n)[i] < 0xD800
  {
    assert AllDigits(Numeral(n));
  }

  lemma EntryTextIsWellFormed(e: Entry)
    requires EntryText(e).Success? && WellFormed(e.text.value)
    ensures WellFormed(EntryText(e).value)
  {
    EscapedIsWellFormed(e.key);
    PlainIsWellFormed([34]);
    PlainIsWellFormed([58]);
    WellFormedConcat([34], Escaped(e.key));
    WellFormedConcat([34] + Escaped(e.key), [58]);
    WellFormedConcat([34] + Escaped(e.key) + [58], e.text.value);
  }

  /** Canonical text never holds half a surrogate pair, so it has a UTF-8 encoding of its own. */
  lemma {:induction false} CanonicalTextIsWellFormed(v: Json)
    requires Serialize(v).Success?
    ensures WellFormed(Serialize(v).value)
    decreases v, 0
  {
    match v {
      case Null => PlainIsWellFormed(Ascii("null"));
      case Bool(b) => PlainIsWellFormed(if b then Ascii("true") else Ascii("false"));
      case Integer(n) =>
        NumeralIsPlain(if n < 0 then -n else n);
        PlainIsWellFormed(IntegerText(n));
      case Words(s) =>
        EscapedIsWellFormed(s);
        PlainIsWellFormed([34]);
        WellFormedConcat([34], Escaped(s));
      case Array(items) =>
        ItemsAreWellFormed(items);
        ClosedIsWellFormed(ItemTexts(items), 93, true);
        PlainIsWellFormed([91]);
        WellFormedConcat([91], Closed(ItemTexts(items), 93, true).value);
      case Object(members) =>
        MembersAreWellFormed(members);
        SortedKeeps(Entries(members));
        var texts := EntryTexts(Sorted(Entries(members)));
        forall i | 0 <= i < |texts| && texts[i].Success? ensures WellFormed(texts[i].value) {
          assert Sorted(Entries(members))[i] in Entries(members);
        }
        ClosedIsWellFormed(texts, 125, true);
        PlainIsWellFormed([123]);
        WellFormedConcat([123], Closed(texts, 125, true).value);
      case _ =>
    }
  }

  lemma {:induction false} ItemsAreWellFormed(items: Items)
    ensures AllWellFormed(ItemTexts(items))
    decreases items, 0
  {
    if items.Item? {
      ItemsAreWellFormed(items.tail);
      if Serialize(items.head).Success? {
        CanonicalTextIsWellFormed(items.head);
      }
    }
  }

  lemma {:induction false} MembersAreWellFormed(members: Members)
    ensures forall e :: e in Entries(members) && EntryText(e).Success? ==> WellFormed(EntryText(e).value)
    decreases members, 0
  {
    if members.Member? {
      MembersAreWellFormed(members.rest);
      var e := Entry(members.key, MemberText(members.key, members.value));
      if EntryText(e).Success? {
        CanonicalTextIsWellFormed(members.value);
        EntryTextIsWellFormed(e);
      }
    }
  }

  /** `proof_hash`: 64 hexadecimal characters over the UTF-8 of the canonical text. */
  function ProofHash(v: Json, sha: Octets -> Bytes32): (r: Result<Str, JcsError>)
    ensures r.Success? ==> IsHash(r.value)
  {
    match Serialize(v)
    case Failure(e) => Failure(e)
    case Success(text) => Success(HexText(sha(Utf8(text))))
  }

  lemma HashNamesText(s: Str, t: Str, sha: Octets -> Bytes32)
    requires WellFormed(s) && WellFormed(t) && HexText(sha(Utf8(s))) == HexText(sha(Utf8(t)))
    ensures s == t || Collision(sha, Utf8(s), Utf8(t))
  {
    HashBytesOfHexText(sha(Utf8(s)));
    HashBytesOfHexText(sha(Utf8(t)));
    HashedTextIsBound(s, t, sha);
    WellFormedIsRepaired(s);
    WellFormedIsRepaired(t);
  }

  /** One hash, one JSON value, unless SHA-256 has a collision. */
  lemma ProofHashBinds(v: Json, w: Json, sha: Octets -> Bytes32)
    requires Proper(v) && Proper(w) && ProofHash(v, sha).Success? && ProofHash(v, sha) == ProofHash(w, sha)
    ensures SameJson(v, w) || Collision(sha, Utf8(Serialize(v).value), Utf8(Serialize(w).value))
  {
    var s, t := Serialize(v).value, Serialize(w).value;
    CanonicalTextIsWellFormed(v);
    CanonicalTextIsWellFormed(w);
    HashNamesText(s, t, sha);
    CanonicalTextIsUnambiguous(v, w);
  }

  // -------------------------------------------------------------- the envelope

  const SIGNATURE_ENVELOPE_KEYS: seq<string> :=
    ["proof_hash", "issuer_public_key", "issuer_signature", "network_passphrase", "contract_id"]

  function EnvelopeKeys(): set<Str> {
    set i | 0 <= i < |SIGNATURE_ENVELOPE_KEYS| :: Ascii(SIGNATURE_ENVELOPE_KEYS[i])
  }

  function Append(members: Members, others: Members): Members {
    if members.NoMembers? then others else Member(members.key, members.value, Append(members.rest, others))
  }

  function Stripped(members: Members, excluded: set<Str>): Members {
    match members
    case NoMembers => NoMembers
    case Member(key, value, rest) =>
      if key in excluded then Stripped(rest, excluded) else Member(key, value, Stripped(rest, excluded))
  }

  lemma {:induction false} AppendOne(members: Members, key: Str, value: Json, others: Members)
    ensures Append(Append(members, Member(key, value, NoMembers)), others)
            == Append(members, Member(key, value, others))
  {
    if members.Member? {
      AppendOne(members.rest, key, value, others);
    }
  }

  lemma {:induction false} AppendNothing(members: Members)
    ensures Append(members, NoMembers) == members
  {
    if members.Member? {
      AppendNothing(members.rest);
    }
  }

  /** Copies every member that is not part of the envelope, in order. */
  method StripEnvelope(signedProof: Members, envelopeKeys: set<Str>) returns (unsigned: Members)
    ensures unsigned == Stripped(signedProof, envelopeKeys)
  {
    unsigned := NoMembers;
    var left := signedProof;
    while left.Member?
      invariant Append(unsigned, Stripped(left, envelopeKeys)) == Stripped(signedProof, envelopeKeys)
      decreases left
    {
      if left.key !in envelopeKeys {
        AppendOne(unsigned, left.key, left.value, Stripped(left.rest, envelopeKeys));
        unsigned := Append(unsigned, Member(left.key, left.value, NoMembers));
      }
      left := left.rest;
    }
    AppendNothing(unsigned);
  }

  /** Exactly the other members survive, with their values. */
  lemma {:induction false} StrippedKeepsTheRest(members: Members, excluded: set<Str>, key: Str)
    ensures HasKey(Stripped(members, excluded), key) <==> HasKey(members, key) && key !in excluded
    ensures HasKey(members, key) && key !in excluded ==> Get(Stripped(members, excluded), key) == Get(members, key)
  {
    if members.Member? {
      StrippedKeepsTheRest(members.rest, excluded, key);
    }
  }

  lemma {:induction false} StrippedIsProper(members: Members, excluded: set<Str>)
    requires ProperMembers(members)
    ensures ProperMembers(Stripped(members, excluded))
  {
    if members.Member? {
      StrippedIsProper(members.rest, excluded);
      StrippedKeepsTheRest(members.rest, excluded, members.key);
    }
  }

  /** What hashes is the payload alone: no envelope field, whatever it says, changes the hash. */
  lemma EnvelopeDoesNotCount(signed: Members, other: Members, sha: Octets -> Bytes32)
    requires ProperMembers(signed) && ProperMembers(other)
    requires Rearranged(Stripped(signed, EnvelopeKeys()), Stripped(other, EnvelopeKeys()))
    ensures ProofHash(Object(Stripped(signed, EnvelopeKeys())), sha)
            == ProofHash(Object(Stripped(other, EnvelopeKeys())), sha)
  {
    StrippedIsProper(signed, EnvelopeKeys());
    StrippedIsProper(other, EnvelopeKeys());
    ReorderingIsInvisible(Stripped(signed, EnvelopeKeys()), Stripped(other, EnvelopeKeys()));
  }
}

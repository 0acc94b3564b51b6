/** What canonical text looks like, and a reader of JSON strings that knows nothing of the writer. */
module CanonicalForm {
  import opened Primitives
  import opened Text
  import opened Numerals
  import opened RegistrationDigest
  import opened Jcs

  // ------------------------------------------------------------- the key order

  /** Equal up to i, where s ends or has the smaller code unit. */
  predicate PrecedesAt(s: Str, t: Str, i: nat) {
    i <= |s| && i < |t| && s[..i] == t[..i] && (i == |s| || s[i] < t[i])
  }

  ghost predicate Precedes(s: Str, t: Str) {
    exists i: nat :: PrecedesAt(s, t, i)
  }

  /** Keys are compared code unit by code unit at the first difference; a proper prefix comes first. */
  lemma {:induction false} BeforeIsCodeUnitOrder(s: Str, t: Str)
    ensures Before(s, t) <==> Precedes(s, t)
  {
    if s != [] && t != [] && s[0] == t[0] {
      BeforeIsCodeUnitOrder(s[1..], t[1..]);
      if i: nat :| PrecedesAt(s[1..], t[1..], i) {
        assert s[..i + 1] == [s[0]] + s[1..][..i] && t[..i + 1] == [t[0]] + t[1..][..i];
        assert PrecedesAt(s, t, i + 1);
      }
      if i: nat :| PrecedesAt(s, t, i) {
        assert i > 0;
        assert s[1..][..i - 1] == s[..i][1..] && t[1..][..i - 1] == t[..i][1..];
        assert PrecedesAt(s[1..], t[1..], i - 1);
      }
    } else {
      if Before(s, t) {
        assert PrecedesAt(s, t, 0);
      }
      if i: nat :| i > 0 && PrecedesAt(s, t, i) {
        FirstUnitsAgree(s, t, i);
      }
    }
  }

  lemma FirstUnitsAgree(s: Str, t: Str, i: nat)
    requires i > 0 && PrecedesAt(s, t, i)
    ensures s[0] == t[0]
  {
    assert s[..i][0] == t[..i][0];
  }

  ghost predicate Ascending(keys: seq<Str>) {
    forall j, k :: 0 <= j < k < |keys| ==> Precedes(keys[j], keys[k])
  }

  // -------------------------------------------------------- arrays and objects

  /** Texts with a comma between them. */
  function Joined(texts: seq<Str>): Str {
    if texts == [] then [] else texts[0] + Trailing(texts[1..])
  }

  /** Texts with a comma before each. */
  function Trailing(texts: seq<Str>): Str {
    if texts == [] then [] else [44] + texts[0] + Trailing(texts[1..])
  }

  ghost predicate AllAre(results: seq<Serialized>, texts: seq<Str>) {
    |results| == |texts| && forall i :: 0 <= i < |texts| ==> results[i] == Success(texts[i])
  }

  lemma {:induction false} ClosedTrails(results: seq<Serialized>, texts: seq<Str>, end: CodeUnit)
    requires AllAre(results, texts)
    ensures Closed(results, end, false) == Success(Trailing(texts) + [end])
  {
    if texts != [] {
      ClosedTrails(results[1..], texts[1..], end);
      assert [44] + texts[0] + (Trailing(texts[1..]) + [end]) == [44] + texts[0] + Trailing(texts[1..]) + [end];
    } else {
      assert [] + [end] == [end];
    }
  }

  lemma ClosedJoins(results: seq<Serialized>, texts: seq<Str>, end: CodeUnit)
    requires AllAre(results, texts)
    ensures Closed(results, end, true) == Success(Joined(texts) + [end])
  {
    if texts != [] {
      ClosedTrails(results[1..], texts[1..], end);
      assert [] + texts[0] + (Trailing(texts[1..]) + [end]) == texts[0] + Trailing(texts[1..]) + [end];
    } else {
      assert [] + [end] == [end];
    }
  }

  /** The first text that cannot be written, in order, is the error. */
  lemma {:induction false} FirstFailureCloses(results: seq<Serialized>, end: CodeUnit, first: bool, i: nat)
    requires i < |results| && results[i].Failure? && forall j :: 0 <= j < i ==> results[j].Success?
    ensures Closed(results, end, first) == Failure(results[i].error)
  {
    if i > 0 {
      FirstFailureCloses(results[1..], end, false, i - 1);
    }
  }

  function ItemAt(items: Items, i: nat): Json
    requires i < Length(items)
  {
    if i == 0 then items.head else ItemAt(items.tail, i - 1)
  }

  lemma {:induction false} ItemTextsAre(items: Items, i: nat)
    ensures |ItemTexts(items)| == Length(items)
    ensures i < Length(items) ==> ItemTexts(items)[i] == Serialize(ItemAt(items, i))
  {
    if items.Item? {
      ItemTextsAre(items.tail, if i > 0 then i - 1 else 0);
    }
  }

  ghost predicate AreItemTexts(items: Items, texts: seq<Str>) {
    |texts| == Length(items)
    && forall i: nat :: i < |texts| ==> Serialize(ItemAt(items, i)) == Success(texts[i])
  }

  /** `[`, the items' texts in order with commas between, `]`. */
  lemma ArrayText(items: Items) returns (texts: seq<Str>)
    requires Serialize(Array(items)).Success?
    ensures AreItemTexts(items, texts) && Serialize(Array(items)).value == [91] + Joined(texts) + [93]
  {
    var results := ItemTexts(items);
    ArraySucceeds(items);
    ItemTextsAre(items, 0);
    texts := seq(|results|, i requires 0 <= i < |results| => results[i].value);
    forall i: nat | i < |texts| ensures Serialize(ItemAt(items, i)) == Success(texts[i]) {
      ItemTextsAre(items, i);
    }
    ClosedJoins(results, texts, 93);
  }

  /** The first item that cannot be written is the error of the array. */
  lemma ArrayFails(items: Items, i: nat)
    requires i < Length(items) && Serialize(ItemAt(items, i)).Failure?
    requires forall j: nat :: j < i ==> Serialize(ItemAt(items, j)).Success?
    ensures Serialize(Array(items)) == Failure(Serialize(ItemAt(items, i)).error)
  {
    ItemTextsAre(items, i);
    forall j: nat | j < i ensures ItemTexts(items)[j].Success? {
      ItemTextsAre(items, j);
    }
    FirstFailureCloses(ItemTexts(items), 93, true, i);
  }

  /** A member: its key as a string, a colon, its value. */
  ghost predicate IsMemberText(members: Members, key: Str, text: Str) {
    HasKey(members, key) && Serialize(Words(key)).Success? && Serialize(Get(members, key)).Success?
    && text == Serialize(Words(key)).value + [58] + Serialize(Get(members, key)).value
  }

  /** `{`, the members, each exactly once, in ascending order of their keys with commas between, `}`. */
  lemma ObjectText(members: Members) returns (keys: seq<Str>, texts: seq<Str>)
    requires ProperMembers(members) && Serialize(Object(members)).Success?
    ensures Ascending(keys) && |keys| == |texts| == Count(members)
            && forall key :: key in keys <==> HasKey(members, key)
    ensures forall i :: 0 <= i < |keys| ==> IsMemberText(members, keys[i], texts[i])
    ensures Serialize(Object(members)).value == [123] + Joined(texts) + [125]
  {
    var es := SortedMembers(members);
    keys := seq(|es|, i requires 0 <= i < |es| => es[i].key);
    SortedKeysAscend(es, keys);
    KeysOfEntries(members, es, keys);
    texts := TextsOfEntries(members, es);
    ClosesWith(members, es, texts);
  }

  lemma ClosesWith(members: Members, es: seq<Entry>, texts: seq<Str>)
    requires es == Sorted(Entries(members)) && AllAre(EntryTexts(es), texts)
    ensures Serialize(Object(members)) == Success([123] + Joined(texts) + [125])
  {
    ClosedJoins(EntryTexts(es), texts, 125);
    assert [123] + (Joined(texts) + [125]) == [123] + Joined(texts) + [125];
  }

  lemma SortedMembers(members: Members) returns (es: seq<Entry>)
    requires ProperMembers(members)
    ensures es == Sorted(Entries(members)) && StrictlySorted(es) && |es| == Count(members)
    ensures forall e :: e in es <==> e in Entries(members)
  {
    es := Sorted(Entries(members));
    EntriesAreMembers(members);
    SortedKeeps(Entries(members));
    SortedSorts(Entries(members));
  }

  lemma SortedKeysAscend(es: seq<Entry>, keys: seq<Str>)
    requires StrictlySorted(es) && |keys| == |es| && forall i :: 0 <= i < |es| ==> keys[i] == es[i].key
    ensures Ascending(keys)
  {
    forall j, k | 0 <= j < k < |keys| ensures Precedes(keys[j], keys[k]) {
      assert Before(es[j].key, es[k].key);
      BeforeIsCodeUnitOrder(keys[j], keys[k]);
    }
  }

  lemma TextsOfEntries(members: Members, es: seq<Entry>) returns (texts: seq<Str>)
    requires ProperMembers(members) && Serialize(Object(members)).Success?
    requires forall e :: e in es ==> e in Entries(members)
    ensures AllAre(EntryTexts(es), texts) && |texts| == |es|
    ensures forall i :: 0 <= i < |es| ==> IsMemberText(members, es[i].key, texts[i])
  {
    ObjectSucceeds(members);
    texts := seq(|es|, i requires 0 <= i < |es| => if EntryText(es[i]).Success? then EntryText(es[i]).value else []);
    forall i | 0 <= i < |es|
      ensures EntryText(es[i]) == Success(texts[i]) && IsMemberText(members, es[i].key, texts[i])
    {
      assert es[i] in Entries(members);
      MemberTextOfEntry(members, es[i]);
    }
  }

  /** What keeps a member from being written: undefined before the key's own fault, that before the value's. */
  function MemberFault(key: Str, value: Json): Option<JcsError> {
    if value.Undefined? then Some(UndefinedMember)
    else if !WellFormed(key) then Some(UnpairedSurrogate)
    else match Serialize(value)
      case Failure(error) => Some(error)
      case Success(_) => None
  }

  /** The faulty member whose key comes first is the error of the object. */
  lemma ObjectFails(members: Members, key: Str)
    requires ProperMembers(members) && HasKey(members, key) && MemberFault(key, Get(members, key)).Some?
    requires forall k :: HasKey(members, k) && Precedes(k, key) ==> MemberFault(k, Get(members, k)).None?
    ensures Serialize(Object(members)) == Failure(MemberFault(key, Get(members, key)).value)
  {
    var es := SortedMembers(members);
    var i := IndexOfKey(members, es, key);
    EntryFault(members, es[i]);
    forall j | 0 <= j < i ensures EntryText(es[j]).Success? {
      assert es[j] in Entries(members) && Before(es[j].key, es[i].key);
      BeforeIsCodeUnitOrder(es[j].key, key);
      EntryFault(members, es[j]);
    }
    FailsAt(members, es, i);
  }

  lemma IndexOfKey(members: Members, es: seq<Entry>, key: Str) returns (i: nat)
    requires ProperMembers(members) && HasKey(members, key) && forall e :: e in es <==> e in Entries(members)
    ensures i < |es| && es[i].key == key && es[i] in Entries(members)
  {
    var e := Entry(key, MemberText(key, Get(members, key)));
    EntriesAreMembers(members);
    assert e in es;
    i :| 0 <= i < |es| && es[i] == e;
  }

  lemma EntryFault(members: Members, e: Entry)
    requires ProperMembers(members) && e in Entries(members)
    ensures HasKey(members, e.key)
    ensures var fault := MemberFault(e.key, Get(members, e.key));
            (fault.None? <==> EntryText(e).Success?) && (fault.Some? ==> EntryText(e) == Failure(fault.value))
  {
    EntriesAreMembers(members);
  }

  lemma FailsAt(members: Members, es: seq<Entry>, i: nat)
    requires es == Sorted(Entries(members)) && i < |es| && EntryText(es[i]).Failure?
    requires forall j :: 0 <= j < i ==> EntryText(es[j]).Success?
    ensures Serialize(Object(members)) == Failure(EntryText(es[i]).error)
  {
    FirstFailureCloses(EntryTexts(es), 125, true, i);
  }

  lemma KeysOfEntries(members: Members, es: seq<Entry>, keys: seq<Str>)
    requires ProperMembers(members) && |keys| == |es| && forall i :: 0 <= i < |es| ==> keys[i] == es[i].key
    requires forall e :: e in es <==> e in Entries(members)
    ensures forall key :: key in keys <==> HasKey(members, key)
  {
    EntriesAreMembers(members);
    forall key ensures key in keys <==> HasKey(members, key) {
      if key in keys {
        var i :| 0 <= i < |keys| && keys[i] == key;
        assert es[i] in Entries(members);
      }
      if HasKey(members, key) {
        var e := Entry(key, MemberText(key, Get(members, key)));
        assert e in es;
        var i :| 0 <= i < |es| && es[i] == e;
        assert keys[i] == key;
      }
    }
  }

  lemma MemberTextOfEntry(members: Members, e: Entry)
    requires ProperMembers(members) && e in Entries(members) && EntryText(e).Success?
    ensures IsMemberText(members, e.key, EntryText(e).value)
  {
    EntriesAreMembers(members);
  }

  /** The values that hold no others: their texts, and what is refused. */
  lemma SimpleTexts(n: int, s: Str)
    ensures Serialize(Null) == Success([110, 117, 108, 108])
    ensures Serialize(Bool(true)) == Success([116, 114, 117, 101])
    ensures Serialize(Bool(false)) == Success([102, 97, 108, 115, 101])
    ensures Serialize(NotAnInteger) == Failure(NotIntegral)
    ensures Serialize(Undefined) == Serialize(Foreign) == Failure(NotCanonicalizable)
    ensures Serialize(Words(s)) == if WellFormed(s) then Success([34] + Escaped(s)) else Failure(UnpairedSurrogate)
    ensures Serialize(Integer(n)).Success? <==> -0x1F_FFFF_FFFF_FFFF <= n <= 0x1F_FFFF_FFFF_FFFF
    ensures Serialize(Integer(n)).Failure? ==> Serialize(Integer(n)).error == UnsafeInteger
  {
    assert Ascii("null") == [110, 117, 108, 108];
    assert Ascii("true") == [116, 114, 117, 101];
    assert Ascii("false") == [102, 97, 108, 115, 101];
  }

  /** An integer's text: a minus sign when it is below zero, then its digits with no zero leading. */
  lemma IntegerReads(n: int)
    requires Serialize(Integer(n)).Success?
    ensures var text := Serialize(Integer(n)).value;
            var digits := if n < 0 && text != [] then text[1..] else text;
            (n < 0 ==> text != [] && text[0] == 45) && Canonical(digits) && ValueOf(digits) == if n < 0 then -n else n
  {
    NumeralHasValue(if n < 0 then -n else n);
  }

  // ------------------------------------------------------------------ strings

  /** The value of a hexadecimal digit, either case. */
  function HexOf(c: CodeUnit): Option<nat> {
    if 48 <= c <= 57 then Some(c - 48)
    else if 97 <= c <= 102 then Some(c - 97 + 10)
    else if 65 <= c <= 70 then Some(c - 65 + 10)
    else None
  }

  function HexRun(text: Str): Option<CodeUnit>
    requires |text| >= 4
  {
    match (HexOf(text[0]), HexOf(text[1]), HexOf(text[2]), HexOf(text[3]))
    case (Some(a), Some(b), Some(c), Some(d)) =>
      var unit := 4096 * a + 256 * b + 16 * c + d;
      if unit < 0x1_0000 then Some(unit) else None
    case _ => None
  }

  /** The one-letter escapes of JSON. */
  function Letter(c: CodeUnit): Option<CodeUnit> {
    if c == 34 || c == 92 || c == 47 then Some(c)
    else if c == 98 then Some(8)
    else if c == 102 then Some(12)
    else if c == 110 then Some(10)
    else if c == 114 then Some(13)
    else if c == 116 then Some(9)
    else None
  }

  /** Reads a JSON string whose opening quote has been read: its content, and what follows its closing quote. */
  function ReadString(text: Str): Option<(Str, Str)> {
    if text == [] || text[0] < 32 then None
    else if text[0] == 34 then Some(([], text[1..]))
    else if text[0] != 92 then
      (match ReadString(text[1..])
       case None => None
       case Some((s, rest)) => Some(([text[0]] + s, rest)))
    else if |text| >= 2 && Letter(text[1]).Some? then
      (match ReadString(text[2..])
       case None => None
       case Some((s, rest)) => Some(([Letter(text[1]).value] + s, rest)))
    else if |text| >= 6 && text[1] == 117 && HexRun(text[2..6]).Some? then
      (match ReadString(text[6..])
       case None => None
       case Some((s, rest)) => Some(([HexRun(text[2..6]).value] + s, rest)))
    else None
  }

  lemma LongEscapeReads(c: CodeUnit, text: Str)
    requires |Escape(c)| == 6 && ReadString(text).Some?
    ensures var (s, rest) := ReadString(text).value;
            ReadString(Escape(c) + text) == Some(([c] + s, rest))
  {
    var whole := Escape(c) + text;
    assert whole[6..] == text && whole[0] == 92 && whole[1] == 117;
    assert whole[2..6] == Escape(c)[2..6] == [48, 48, HexDigit(c / 16), HexDigit(c % 16)];
    assert HexOf(HexDigit(c / 16)) == Some(c / 16) && HexOf(HexDigit(c % 16)) == Some(c % 16);
    assert HexRun(whole[2..6]) == Some(c);
  }

  lemma EscapeReads(c: CodeUnit, text: Str)
    requires ReadString(text).Some?
    ensures var (s, rest) := ReadString(text).value;
            ReadString(Escape(c) + text) == Some(([c] + s, rest))
  {
    if |Escape(c)| == 6 {
      LongEscapeReads(c, text);
    } else {
      var whole := Escape(c) + text;
      assert whole[|Escape(c)|..] == text && whole[0] == Escape(c)[0];
      assert |Escape(c)| == 2 ==> whole[1] == Escape(c)[1];
    }
  }

  /** Any reader of JSON gets back the string that was written, and where it ends. */
  lemma {:induction false} StringsReadBack(s: Str, rest: Str)
    ensures ReadString(Escaped(s) + rest) == Some((s, rest))
  {
    if s == [] {
      assert [34] + rest != [] && ([34] + rest)[1..] == rest;
    } else {
      StringsReadBack(s[1..], rest);
      assert Escaped(s) + rest == Escape(s[0]) + (Escaped(s[1..]) + rest);
      EscapeReads(s[0], Escaped(s[1..]) + rest);
      assert [s[0]] + s[1..] == s;
    }
  }

  /** Only quote, backslash and control characters are escaped: in two code units where JSON has a letter for it, in
      six with lowercase digits otherwise. */
  lemma EscapesAreMinimal(c: CodeUnit)
    ensures c != 34 && c != 92 && c >= 32 ==> Escape(c) == [c]
    ensures c == 34 || c == 92 || c == 8 || c == 9 || c == 10 || c == 12 || c == 13 ==>
            |Escape(c)| == 2 && Escape(c)[0] == 92
    ensures c < 32 && c != 8 && c != 9 && c != 10 && c != 12 && c != 13 ==>
              |Escape(c)| == 6 && Escape(c)[..2] == [92, 117] && forall i :: 2 <= i < 6 ==> IsHex(Escape(c)[i])
  {
  }
}

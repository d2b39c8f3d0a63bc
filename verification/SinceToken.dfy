/**
 * The opaque `since` token: base64 over a JSON object from partition numbers to offsets,
 * with the names sorted as strings, whatever order the Go map was walked in.
 */
module SinceToken {
  import opened Decimal
  import opened Options
  import opened TokenJson
  import Base64

  type Offsets = map<Int32, Int64>

  /** Byte-wise lexicographic order, by which `json.Marshal` sorts the names of a map. */
  predicate Before(a: string, b: string) {
    if b == [] then false else if a == [] then true
    else if a[0] != b[0] then a[0] < b[0] else Before(a[1..], b[1..])
  }

  lemma {:induction false} BeforeIsStrictTotal(a: string, b: string)
    ensures Before(a, b) ==> a != b && !Before(b, a)
    ensures a == b || Before(a, b) || Before(b, a)
  {
    if a != [] && b != [] {
      BeforeIsStrictTotal(a[1..], b[1..]);
      assert a[0] == b[0] && a[1..] == b[1..] ==> a == [a[0]] + a[1..] == b;
    }
  }

  lemma {:induction false} BeforeIsTransitive(a: string, b: string, c: string)
    requires Before(a, b) && Before(b, c)
    ensures Before(a, c)
  {
    if a != [] && a[0] == b[0] == c[0] {
      BeforeIsTransitive(a[1..], b[1..], c[1..]);
    }
  }

  predicate Sorted(ms: seq<Member>) {
    forall i, j | 0 <= i < j < |ms| :: Before(ms[i].name, ms[j].name)
  }

  predicate DistinctNames(ms: seq<Member>) {
    forall i, j | 0 <= i < j < |ms| :: ms[i].name != ms[j].name
  }

  function Elements<T>(s: seq<T>): set<T> {
    set x | x in s
  }

  lemma ElementsOfList<T>(s: seq<T>)
    ensures Elements(s) == {} <==> s == []
    ensures s != [] ==> Elements(s) == {s[0]} + Elements(s[1..])
  {
    if s != [] {
      assert s[0] in Elements(s);
      assert s == [s[0]] + s[1..];
    }
  }

  function Insert(m: Member, ms: seq<Member>): (r: seq<Member>)
    ensures Elements(r) == Elements(ms) + {m}
  {
    if ms == [] || Before(m.name, ms[0].name) then
      ElementsOfList([m] + ms);
      [m] + ms
    else
      var r := [ms[0]] + Insert(m, ms[1..]);
      ElementsOfList(ms);
      ElementsOfList(r);
      r
  }

  lemma {:induction false} InsertKeepsSorted(m: Member, ms: seq<Member>)
    requires Sorted(ms) && forall x | x in ms :: x.name != m.name
    ensures Sorted(Insert(m, ms))
  {
    if ms != [] {
      BeforeIsStrictTotal(m.name, ms[0].name);
      if Before(m.name, ms[0].name) {
        forall j | 1 <= j < |ms| ensures Before(m.name, ms[j].name) {
          BeforeIsTransitive(m.name, ms[0].name, ms[j].name);
        }
      } else {
        InsertKeepsSorted(m, ms[1..]);
        var r := Insert(m, ms[1..]);
        forall j | 0 <= j < |r| ensures Before(ms[0].name, r[j].name) {
          assert r[j] in Elements(r);
        }
      }
    }
  }

  lemma SortedNamesAreDistinct(ms: seq<Member>)
    requires Sorted(ms)
    ensures DistinctNames(ms)
  {
    forall i, j | 0 <= i < j < |ms| ensures ms[i].name != ms[j].name {
      BeforeIsStrictTotal(ms[i].name, ms[j].name);
    }
  }

  function Sort(ms: seq<Member>): (r: seq<Member>)
    ensures Elements(r) == Elements(ms)
  {
    if ms == [] then []
    else
      ElementsOfList(ms);
      Insert(ms[0], Sort(ms[1..]))
  }

  lemma {:induction false} SortSorts(ms: seq<Member>)
    requires DistinctNames(ms)
    ensures Sorted(Sort(ms))
  {
    if ms != [] {
      SortSorts(ms[1..]);
      forall x | x in Sort(ms[1..]) ensures x.name != ms[0].name {
        assert x in Elements(ms[1..]);
      }
      InsertKeepsSorted(ms[0], Sort(ms[1..]));
    }
  }

  /** A set of members has only one sorted listing. */
  lemma {:induction false} SortedListingIsUnique(a: seq<Member>, b: seq<Member>)
    requires Sorted(a) && Sorted(b) && Elements(a) == Elements(b)
    ensures a == b
  {
    ElementsOfList(a);
    ElementsOfList(b);
    if a != [] {
      assert a[0] in Elements(b) && b[0] in Elements(a);
      BeforeIsStrictTotal(a[0].name, b[0].name);
      assert a[0] == b[0];
      BeforeIsStrictTotal(a[0].name, a[0].name);
      assert Elements(a[1..]) == Elements(a) - {a[0]} && Elements(b[1..]) == Elements(b) - {b[0]};
      SortedListingIsUnique(a[1..], b[1..]);
      assert a == [a[0]] + a[1..] && b == [b[0]] + b[1..];
    }
  }

  function MemberOf(p: Int32, offset: Int64): (m: Member) {
    Member(Itoa(p), Itoa(offset))
  }

  function Members(entries: seq<(Int32, Int64)>): (ms: seq<Member>) {
    seq(|entries|, i requires 0 <= i < |entries| => MemberOf(entries[i].0, entries[i].1))
  }

  /** `entries` is the map `m`, walked in some order. */
  ghost predicate Enumerates(entries: seq<(Int32, Int64)>, m: Offsets) {
    && (forall i | 0 <= i < |entries| :: entries[i].0 in m && m[entries[i].0] == entries[i].1)
    && (forall i, j | 0 <= i < j < |entries| :: entries[i].0 != entries[j].0)
    && (forall p | p in m :: (p, m[p]) in entries)
  }

  /** The characters of the text of a token. */
  predicate IsTextChar(c: char) {
    IsNumberChar(c) || c in "{\":,}"
  }

  lemma {:induction false} MembersAreText(ms: seq<Member>)
    requires |ms| > 0
    requires forall m, c | m in ms && (c in m.name || c in m.value) :: IsNumberChar(c)
    ensures forall c | c in PrintMembers(ms) :: IsTextChar(c)
  {
    if |ms| > 1 {
      MembersAreText(ms[1..]);
    }
    assert ms[0] in ms;
  }

  lemma ItoaIsNumeric(n: int)
    ensures |Itoa(n)| > 0 && forall c | c in Itoa(n) :: IsNumberChar(c)
  {
  }

  /** The text under the base64, for one order of walking the map. */
  function Text(entries: seq<(Int32, Int64)>): (s: string)
    ensures forall c | c in s :: IsTextChar(c)
  {
    var ms := Sort(Members(entries));
    assert forall c | c in PrintObject(ms) :: IsTextChar(c) by {
      SortedMembersArePrintable(entries);
      if ms != [] {
        MembersAreText(ms);
      }
    }
    PrintObject(ms)
  }

  lemma SortedMembersArePrintable(entries: seq<(Int32, Int64)>)
    ensures forall m | m in Sort(Members(entries)) :: Printable(m)
    ensures forall m, c | m in Sort(Members(entries)) && (c in m.name || c in m.value) :: IsNumberChar(c)
  {
    forall m | m in Sort(Members(entries))
      ensures Printable(m) && forall c | c in m.name || c in m.value :: IsNumberChar(c)
    {
      assert m in Elements(Sort(Members(entries)));
      var i :| 0 <= i < |entries| && Members(entries)[i] == m;
      ItoaIsNumeric(entries[i].0);
      ItoaIsNumeric(entries[i].1);
    }
  }

  function Token(entries: seq<(Int32, Int64)>): string {
    Base64.Encode(Text(entries))
  }

  /** Later duplicates of a name win; a name or value out of range spoils the whole object. */
  function ToOffsets(ms: seq<Member>): Option<Offsets> {
    if ms == [] then Some(map[]) else
    var m := ms[|ms| - 1];
    match (ToOffsets(ms[..|ms| - 1]), ParseInt(m.name, MIN_INT32, MAX_INT32), ParseJsonInteger(m.value))
    case (Some(offsets), Some(p), Some(v)) => Some(offsets[p := v])
    case _ => None
  }

  /** JSON numbers have no leading zero. */
  function ParseJsonInteger(s: string): Option<Int64> {
    var digits := if s != [] && s[0] == '-' then s[1..] else s;
    if |digits| > 1 && digits[0] == '0' then None else ParseInt(s, MIN_INT64, MAX_INT64)
  }

  /** Anything that does not decode counts as no token at all. */
  function DecodeSince(since: string): Offsets {
    match Base64.Decode(since)
    case None => map[]
    case Some(text) => DecodeText(text)
  }

  function DecodeText(text: string): Offsets {
    match ParseObject(text)
    case None => map[]
    case Some(ms) =>
      match ToOffsets(ms)
      case None => map[]
      case Some(offsets) => offsets
  }

  function MembersOf(m: Offsets): set<Member> {
    set p | p in m :: MemberOf(p, m[p])
  }

  lemma JsonIntegerRoundTrip(v: int)
    requires MIN_INT64 <= v <= MAX_INT64
    ensures ParseJsonInteger(Itoa(v)) == Some(v)
  {
    ItoaRoundTrip(v, MIN_INT64, MAX_INT64);
    var s := Itoa(v);
    if v < 0 {
      assert s[1..] == Digits(-v);
    } else {
      assert s[0] in Digits(v);
    }
  }

  /** The last member of a listing of `m` names some partition, and the others list the rest of `m`. */
  lemma SplitLastMember(ms: seq<Member>, m: Offsets) returns (p: Int32)
    requires ms != [] && DistinctNames(ms) && Elements(ms) == MembersOf(m)
    ensures p in m && ms[|ms| - 1] == MemberOf(p, m[p])
    ensures DistinctNames(ms[..|ms| - 1]) && Elements(ms[..|ms| - 1]) == MembersOf(m - {p})
  {
    hide Itoa;
    var last, init := ms[|ms| - 1], ms[..|ms| - 1];
    assert last in Elements(ms);
    p :| p in m && last == MemberOf(p, m[p]);
    forall x | x in Elements(init) ensures x in MembersOf(m - {p}) {
      assert x in Elements(ms) && x.name != last.name;
      var q :| q in m && x == MemberOf(q, m[q]);
      assert q in m - {p};
    }
    forall x | x in MembersOf(m - {p}) ensures x in Elements(init) {
      var q :| q in m && q != p && x == MemberOf(q, m[q]);
      assert x in MembersOf(m);
      if x == last { ItoaInjective(p, q); }
    }
  }

  lemma ToOffsetsStep(ms: seq<Member>, p: Int32, v: Int64)
    requires ms != [] && ms[|ms| - 1] == MemberOf(p, v)
    ensures ToOffsets(ms[..|ms| - 1]).Some? ==> ToOffsets(ms) == Some(ToOffsets(ms[..|ms| - 1]).value[p := v])
  {
    ItoaRoundTrip(p, MIN_INT32, MAX_INT32);
    JsonIntegerRoundTrip(v);
  }

  lemma NoMembers(ms: seq<Member>, m: Offsets)
    requires ms == [] && Elements(ms) == MembersOf(m)
    ensures m == map[] && ToOffsets(ms) == Some(map[])
  {
    assert forall p | p in m :: MemberOf(p, m[p]) in MembersOf(m);
    ElementsOfList(ms);
  }

  lemma {:induction false} ToOffsetsRoundTrip(ms: seq<Member>, m: Offsets)
    requires DistinctNames(ms) && Elements(ms) == MembersOf(m)
    ensures ToOffsets(ms) == Some(m)
  {
    hide *;
    if ms == [] {
      NoMembers(ms, m);
    } else {
      var p := SplitLastMember(ms, m);
      ToOffsetsRoundTrip(ms[..|ms| - 1], m - {p});
      ToOffsetsStep(ms, p, m[p]);
      assert (m - {p})[p := m[p]] == m;
    }
  }

  lemma MembersOfEnumeration(entries: seq<(Int32, Int64)>, m: Offsets)
    requires Enumerates(entries, m)
    ensures DistinctNames(Members(entries)) && Elements(Members(entries)) == MembersOf(m)
  {
    var ms := Members(entries);
    forall i, j | 0 <= i < j < |ms| ensures ms[i].name != ms[j].name {
      if ms[i].name == ms[j].name { ItoaInjective(entries[i].0, entries[j].0); }
    }
    forall x | x in MembersOf(m) ensures x in Elements(ms) {
      var p :| p in m && x == MemberOf(p, m[p]);
      var i :| 0 <= i < |entries| && entries[i] == (p, m[p]);
      assert ms[i] == x;
    }
  }

  lemma TextRoundTrip(entries: seq<(Int32, Int64)>, m: Offsets)
    requires Enumerates(entries, m)
    ensures DecodeText(Text(entries)) == m
  {
    var ms := Sort(Members(entries));
    MembersOfEnumeration(entries, m);
    SortSorts(Members(entries));
    SortedNamesAreDistinct(ms);
    SortedMembersArePrintable(entries);
    ObjectRoundTrip(ms);
    ToOffsetsRoundTrip(ms, m);
  }

  lemma DecodeEncoded(text: Base64.ByteString)
    ensures DecodeSince(Base64.Encode(text)) == DecodeText(text)
  {
    Base64.RoundTrip(text);
  }

  /** Every walk of the map decodes to the map. */
  lemma TokenRoundTrip(entries: seq<(Int32, Int64)>, m: Offsets)
    requires Enumerates(entries, m)
    ensures DecodeSince(Token(entries)) == m
  {
    hide DecodeSince, DecodeText, Base64.Encode, Text;
    TextRoundTrip(entries, m);
    DecodeEncoded(Text(entries));
  }

  /** The token does not show the order in which the map was walked. */
  lemma TokenIsCanonical(e1: seq<(Int32, Int64)>, e2: seq<(Int32, Int64)>, m: Offsets)
    requires Enumerates(e1, m) && Enumerates(e2, m)
    ensures Token(e1) == Token(e2)
  {
    MembersOfEnumeration(e1, m);
    MembersOfEnumeration(e2, m);
    SortSorts(Members(e1));
    SortSorts(Members(e2));
    SortedListingIsUnique(Sort(Members(e1)), Sort(Members(e2)));
  }

  lemma {:induction false} EnumerationExists(m: Offsets) returns (entries: seq<(Int32, Int64)>)
    ensures Enumerates(entries, m)
    decreases |m|
  {
    if m == map[] {
      entries := [];
    } else {
      var p :| p in m;
      var rest := EnumerationExists(m - {p});
      entries := rest + [(p, m[p])];
      assert entries[|rest|] == (p, m[p]);
      assert forall q | q in m - {p} :: (q, m[q]) in rest;
    }
  }

  /** The token of a map. */
  ghost function Since(m: Offsets): (s: string)
    ensures DecodeSince(s) == m
    ensures forall e | Enumerates(e, m) :: s == Token(e)
  {
    assert exists e :: Enumerates(e, m) by {
      var e := EnumerationExists(m);
    }
    var e :| Enumerates(e, m);
    TokenRoundTrip(e, m);
    assert forall e2 | Enumerates(e2, m) :: Token(e) == Token(e2) by {
      forall e2 | Enumerates(e2, m) ensures Token(e) == Token(e2) { TokenIsCanonical(e, e2, m); }
    }
    Token(e)
  }

  /** Marshalling walks the map in an order of the runtime's choosing. */
  method MarshalSince(m: Offsets) returns (s: string)
    ensures s == Since(m)
  {
    var entries: seq<(Int32, Int64)> := [];
    var rest := m;
    while rest != map[]
      invariant forall p | p in rest :: p in m && rest[p] == m[p]
      invariant forall p | p in m && p !in rest :: (p, m[p]) in entries
      invariant forall i | 0 <= i < |entries| ::
                entries[i].0 in m && entries[i].0 !in rest && m[entries[i].0] == entries[i].1
      invariant forall i, j | 0 <= i < j < |entries| :: entries[i].0 != entries[j].0
      decreases |rest|
    {
      var p :| p in rest;
      entries := entries + [(p, rest[p])];
      rest := rest - {p};
    }
    assert Enumerates(entries, m);
    s := Token(entries);
  }

  /** Tokens and maps correspond one to one. */
  lemma SinceInjective(m1: Offsets, m2: Offsets)
    ensures Since(m1) == Since(m2) <==> m1 == m2
  {
    assert DecodeSince(Since(m1)) == m1 && DecodeSince(Since(m2)) == m2;
  }

  predicate IsQuerySafe(c: char) {
    'A' <= c <= 'Z' || 'a' <= c <= 'z' || IsDigit(c) || c == '='
  }

  lemma SextetIsQuerySafe(v: nat)
    requires v < 62
    ensures IsQuerySafe(Base64.SextetChar(v))
  {
  }

  lemma QuantumIsQuerySafe(s: Base64.ByteString)
    requires 1 <= |s| <= 3 && forall c | c in s :: IsTextChar(c)
    ensures forall c | c in Base64.EncodeQuantum(s) :: IsQuerySafe(c)
  {
    var a, b, c := s[0] as int, if |s| > 1 then s[1] as int else 0, if |s| > 2 then s[2] as int else 0;
    TextCharSextets(s[0]);
    if |s| > 1 { TextCharSextets(s[1]); }
    if |s| > 2 { TextCharSextets(s[2]); }
    SextetIsQuerySafe(a / 4);
    SextetIsQuerySafe(a % 4 * 16 + b / 16);
    SextetIsQuerySafe(b % 16 * 4 + c / 64);
    SextetIsQuerySafe(c % 64);
  }

  /** No six bits cut out of the text reach the last two letters of the alphabet. */
  lemma TextCharSextets(c: char)
    requires IsTextChar(c)
    ensures c as int / 16 < 8 && c as int % 16 < 14 && c as int % 64 < 62
  {
  }

  lemma {:induction false} EncodingIsQuerySafe(s: Base64.ByteString)
    requires forall c | c in s :: IsTextChar(c)
    ensures forall c | c in Base64.Encode(s) :: IsQuerySafe(c)
  {
    if |s| > 3 {
      QuantumIsQuerySafe(s[..3]);
      EncodingIsQuerySafe(s[3..]);
    } else if |s| > 0 {
      QuantumIsQuerySafe(s);
    }
  }

  /**
   * A token comes back unchanged through a query string: the two characters of the base64
   * alphabet that a URL treats specially never occur in the token of any map.
   */
  lemma SinceIsQuerySafe(m: Offsets)
    ensures forall c | c in Since(m) :: IsQuerySafe(c)
  {
    var e := EnumerationExists(m);
    EncodingIsQuerySafe(Text(e));
  }

  /** `i` is the first place where the names differ, and there `a` ends or has the smaller character. */
  predicate FirstDifference(a: string, b: string, i: nat) {
    i <= |a| && i < |b| && a[..i] == b[..i] && (i == |a| || a[i] < b[i])
  }

  /** Names are ordered by their first difference. */
  lemma {:induction false} BeforeIff(a: string, b: string)
    ensures Before(a, b) <==> exists i: nat :: FirstDifference(a, b, i)
  {
    if b != [] && a != [] && a[0] == b[0] {
      BeforeIff(a[1..], b[1..]);
      if i: nat :| FirstDifference(a[1..], b[1..], i) {
        assert a[..i + 1] == [a[0]] + a[1..][..i] && b[..i + 1] == [b[0]] + b[1..][..i];
        assert FirstDifference(a, b, i + 1);
      }
      if i: nat :| FirstDifference(a, b, i) {
        assert a[1..][..i - 1] == a[..i][1..] && b[1..][..i - 1] == b[..i][1..];
        assert FirstDifference(a[1..], b[1..], i - 1);
      }
    } else if b != [] {
      assert FirstDifference(a, b, 0) <==> a == [] || a[0] < b[0];
      assert forall i | 0 < i <= |a| && i < |b| && a[..i] == b[..i] :: a[..i][0] == b[..i][0];
    }
  }

  /** A token's text has the partitions and offsets of the map in decimal, one member for each, the names in order. */
  lemma TextIs(entries: seq<(Int32, Int64)>, m: Offsets) returns (ms: seq<Member>)
    requires Enumerates(entries, m)
    ensures Text(entries) == "{" + Joined(ms) + "}" && Token(entries) == Base64.Encode("{" + Joined(ms) + "}")
    ensures Sorted(ms) && Elements(ms) == set p | p in m :: Member(Itoa(p), Itoa(m[p]))
  {
    ms := Sort(Members(entries));
    MembersOfEnumeration(entries, m);
    SortSorts(Members(entries));
    ObjectIsJoined(ms);
    assert MembersOf(m) == set p | p in m :: Member(Itoa(p), Itoa(m[p]));
  }

  /** The token of partition 0 at offset 0. */
  lemma KnownToken()
    ensures Since(map[0 := 0]) == "eyIwIjowfQ=="
  {
    var entries: seq<(Int32, Int64)>, m: Offsets := [(0, 0)], map[0 := 0];
    assert Enumerates(entries, m);
    assert Members(entries) == [Member("0", "0")];
    assert Sort([Member("0", "0")]) == [Member("0", "0")];
    assert Text(entries) == "{\"0\":0}";
    Base64.KnownText();
  }

  /** JSON integers are read as their number: a printed integer, or a zero with a minus sign. */
  lemma JsonIntegerIff(s: string, v: Int64)
    requires forall c | c in s :: IsNumberChar(c)
    ensures ParseJsonInteger(s) == Some(v) <==> s == Itoa(v) || (s == "-0" && v == 0)
  {
    hide ParseInt, Itoa, Digits, NumberOf;
    ParseIntIff(s, MIN_INT64, MAX_INT64, v);
    ItoaIff(v, s);
    if s != [] {
      assert s[0] in s;
      if IsSigned(s) {
        assert s == "-" + s[1..];
        ItoaIff(0, s[1..]);
        KnownZero();
        if AllDigits(s[1..]) { NumberIsNat(s[1..]); }
        SignedJson(s, s[1..], v);
      } else if AllDigits(s) {
        NumberIsNat(s);
      }
    }
  }

  lemma SignedJson(s: string, t: string, v: Int64)
    requires s == "-" + t && (AllDigits(t) ==> NumberOf(t) >= 0)
    requires t == "0" <==> t != [] && AllDigits(t) && (t[0] == '0' ==> |t| == 1) && NumberOf(t) == 0
    ensures ParseJsonInteger(s) == Some(v) <==> s == Itoa(v) || (s == "-0" && v == 0)
  {
    hide ParseInt, Itoa, Digits, NumberOf;
    assert s[1..] == t && s[0] == '-';
    ParseIntIff(s, MIN_INT64, MAX_INT64, v);
    ItoaIff(v, s);
    assert s[0] in s && (s == "-0" <==> t == "0");
  }

  lemma KnownZero()
    ensures Itoa(0) == "0" && AllDigits("0") && NumberOf("0") == 0
  {
    DigitsMean(0);
  }

  /** The number of partition that a name is read as, and the offset. */
  function PartitionOf(m: Member): Option<int> {
    ParseInt(m.name, MIN_INT32, MAX_INT32)
  }

  predicate Readable(ms: seq<Member>) {
    forall m | m in ms :: PartitionOf(m).Some? && ParseJsonInteger(m.value).Some?
  }

  /** Of the members for one partition the last one counts. */
  predicate IsLastFor(ms: seq<Member>, i: nat, p: Int32, v: Int64) {
    && i < |ms| && PartitionOf(ms[i]) == Some(p) && ParseJsonInteger(ms[i].value) == Some(v)
    && forall j | i < j < |ms| :: PartitionOf(ms[j]) != Some(p)
  }

  ghost predicate HasLast(ms: seq<Member>, p: Int32, v: Int64) {
    exists i: nat :: IsLastFor(ms, i, p, v)
  }

  /**
   * The members are read as a map exactly if every one of them can be read, and the map has the
   * last offset of every partition.
   */
  lemma {:induction false} ToOffsetsIff(ms: seq<Member>)
    ensures ToOffsets(ms).Some? <==> Readable(ms)
    ensures ToOffsets(ms).Some? ==>
              forall p: Int32, v: Int64 ::
                HasLast(ms, p, v) <==> p in ToOffsets(ms).value && ToOffsets(ms).value[p] == v
  {
    if ms != [] {
      var init, last := ms[..|ms| - 1], ms[|ms| - 1];
      ToOffsetsIff(init);
      assert ms == init + [last] && last in ms;
      assert Readable(ms) <==> Readable(init) && PartitionOf(last).Some? && ParseJsonInteger(last.value).Some?;
      if Readable(ms) {
        var q, w := PartitionOf(last).value, ParseJsonInteger(last.value).value;
        assert ToOffsets(ms).value == ToOffsets(init).value[q := w];
        hide ToOffsets, Readable, ParseJsonInteger, PartitionOf, HasLast;
        forall p: Int32, v: Int64
          ensures HasLast(ms, p, v) <==> if p == q then v == w else HasLast(init, p, v)
        {
          LastForStep(ms, q, w, p, v);
        }
      }
    }
  }

  lemma LastForStep(ms: seq<Member>, q: Int32, w: Int64, p: Int32, v: Int64)
    requires ms != [] && PartitionOf(ms[|ms| - 1]) == Some(q) && ParseJsonInteger(ms[|ms| - 1].value) == Some(w)
    ensures HasLast(ms, p, v) <==> if p == q then v == w else HasLast(ms[..|ms| - 1], p, v)
  {
    hide ParseJsonInteger, PartitionOf;
    var init, n := ms[..|ms| - 1], |ms| - 1;
    if p == q {
      if v == w { assert IsLastFor(ms, n, p, v); }
      if i: nat :| IsLastFor(ms, i, p, v) { assert i == n; }
    } else {
      if i: nat :| IsLastFor(ms, i, p, v) {
        assert i < n;
        assert IsLastFor(init, i, p, v);
      }
      if i: nat :| IsLastFor(init, i, p, v) {
        assert IsLastFor(ms, i, p, v);
      }
    }
  }

  /** The token is base64 of an object of readable members. */
  predicate IsTokenFor(since: string, ms: seq<Member>) {
    Base64.Decode(since) == Some("{" + Joined(ms) + "}") && (forall m | m in ms :: Printable(m)) && Readable(ms)
  }

  /** A token is read as its members, and everything else as no token at all. */
  lemma DecodeSinceIs(since: string)
    ensures forall ms | IsTokenFor(since, ms) :: ToOffsets(ms) == Some(DecodeSince(since))
    ensures (forall ms :: !IsTokenFor(since, ms)) ==> DecodeSince(since) == map[]
  {
    forall ms | IsTokenFor(since, ms) ensures ToOffsets(ms) == Some(DecodeSince(since)) {
      ParseObjectIff("{" + Joined(ms) + "}", ms);
      ToOffsetsIff(ms);
    }
    if Base64.Decode(since).Some? && ParseObject(Base64.Decode(since).value).Some? {
      var ms := ParseObject(Base64.Decode(since).value).value;
      ParseObjectIff(Base64.Decode(since).value, ms);
      ToOffsetsIff(ms);
      if Readable(ms) { assert IsTokenFor(since, ms); }
    }
  }
}

/**
 * The fragment of JSON that a `since` token uses (RFC 8259, sections 4, 6 and 7): one object
 * without white space, whose names need no escape and whose values are integers.
 */
module TokenJson {
  import opened Decimal
  import opened Options

  /** One name and the text of its value. */
  datatype Member = Member(name: string, value: string)

  predicate IsNameChar(c: char) {
    c != '"' && c != '\\' && ' ' <= c
  }

  predicate IsNumberChar(c: char) {
    IsDigit(c) || c == '-'
  }

  predicate Printable(m: Member) {
    && (forall c | c in m.name :: IsNameChar(c))
    && |m.value| > 0 && (forall c | c in m.value :: IsNumberChar(c))
  }

  function PrintMember(m: Member): string {
    "\"" + m.name + "\":" + m.value
  }

  function PrintMembers(ms: seq<Member>): string
    requires |ms| > 0
  {
    PrintMember(ms[0]) + if |ms| == 1 then "}" else "," + PrintMembers(ms[1..])
  }

  function PrintObject(ms: seq<Member>): string {
    if |ms| == 0 then "{}" else "{" + PrintMembers(ms)
  }

  /** The length of the longest prefix of `s` that satisfies `p`. */
  function Span(s: string, p: char -> bool): (n: nat)
    ensures n <= |s| && (forall i | 0 <= i < n :: p(s[i])) && (n < |s| ==> !p(s[n]))
  {
    if s == [] || !p(s[0]) then 0 else 1 + Span(s[1..], p)
  }

  /** One member off the front of the text, and what follows it. */
  function ParseMember(s: string): (r: Option<(Member, string)>)
    ensures r.Some? ==> |r.value.1| < |s|
  {
    if s == [] || s[0] != '"' then None else
    var afterQuote := s[1..];
    var n := Span(afterQuote, IsNameChar);
    var afterName := afterQuote[n..];
    if !("\":" <= afterName) then None else
    var afterColon := afterName[2..];
    var k := Span(afterColon, IsNumberChar);
    if k == 0 then None else Some((Member(afterQuote[..n], afterColon[..k]), afterColon[k..]))
  }

  /** The members after an opening brace or a comma, up to the closing brace that ends the text. */
  function ParseMembers(s: string): Option<seq<Member>> {
    match ParseMember(s)
    case None => None
    case Some((m, rest)) =>
      if rest == "}" then Some([m])
      else if rest == [] || rest[0] != ',' then None
      else
        match ParseMembers(rest[1..])
        case None => None
        case Some(ms) => Some([m] + ms)
  }

  function ParseObject(s: string): Option<seq<Member>> {
    if s == "{}" then Some([]) else if s == [] || s[0] != '{' then None else ParseMembers(s[1..])
  }

  lemma SpanStops(a: string, b: string, p: char -> bool)
    requires forall c | c in a :: p(c)
    requires |b| > 0 && !p(b[0])
    ensures Span(a + b, p) == |a|
  {
    assert forall i | 0 <= i < |a| :: p((a + b)[i]);
    assert (a + b)[|a|] == b[0];
  }

  lemma MemberRoundTrip(m: Member, tail: string)
    requires Printable(m) && |tail| > 0 && !IsNumberChar(tail[0])
    ensures ParseMember(PrintMember(m) + tail) == Some((m, tail))
  {
    var s := PrintMember(m) + tail;
    var afterName := "\":" + (m.value + tail);
    assert s[1..] == m.name + afterName;
    SpanStops(m.name, afterName, IsNameChar);
    assert s[1..][|m.name|..] == afterName && s[1..][..|m.name|] == m.name;
    assert afterName[2..] == m.value + tail;
    SpanStops(m.value, tail, IsNumberChar);
    assert (m.value + tail)[|m.value|..] == tail && (m.value + tail)[..|m.value|] == m.value;
  }

  lemma MembersStep(m: Member, more: string)
    requires Printable(m)
    ensures ParseMembers(PrintMember(m) + ("," + more)) ==
            match ParseMembers(more) case None => None case Some(ms) => Some([m] + ms)
  {
    var tail := "," + more;
    MemberRoundTrip(m, tail);
    hide PrintMember, ParseMember, Printable;
    assert tail[0] == ',' && tail[1..] == more && tail != "}";
  }

  lemma FrontRoundTrip(ms: seq<Member>)
    requires |ms| > 0 && Printable(ms[0])
    requires |ms| > 1 ==> ParseMembers(PrintMembers(ms[1..])) == Some(ms[1..])
    ensures ParseMembers(PrintMembers(ms)) == Some(if |ms| == 1 then [ms[0]] else [ms[0]] + ms[1..])
  {
    if |ms| == 1 {
      MemberRoundTrip(ms[0], "}");
    } else {
      MembersStep(ms[0], PrintMembers(ms[1..]));
    }
  }

  lemma {:induction false} MembersRoundTrip(ms: seq<Member>)
    requires |ms| > 0 && forall m | m in ms :: Printable(m)
    ensures ParseMembers(PrintMembers(ms)) == Some(ms)
  {
    hide ParseMembers, PrintMembers;
    if |ms| > 1 {
      MembersRoundTrip(ms[1..]);
    }
    assert ms == if |ms| == 1 then [ms[0]] else [ms[0]] + ms[1..];
    assert ms[0] in ms;
    FrontRoundTrip(ms);
  }

  /** Parsing undoes printing. */
  lemma ObjectRoundTrip(ms: seq<Member>)
    requires forall m | m in ms :: Printable(m)
    ensures ParseObject(PrintObject(ms)) == Some(ms)
  {
    if |ms| > 0 {
      MembersRoundTrip(ms);
      assert PrintObject(ms)[1..] == PrintMembers(ms);
    }
  }

  /** The members one after the other, each a quoted name, a colon and a value, with commas between them. */
  function Joined(ms: seq<Member>): string {
    if ms == [] then "" else
    var m := ms[|ms| - 1];
    Joined(ms[..|ms| - 1]) + (if |ms| > 1 then "," else "") + ("\"" + m.name + "\"" + ":" + m.value)
  }

  lemma {:induction false} JoinedFront(ms: seq<Member>)
    requires |ms| > 1
    ensures Joined(ms) == PrintMember(ms[0]) + "," + Joined(ms[1..])
  {
    var init, last := ms[..|ms| - 1], ms[|ms| - 1];
    if |init| > 1 {
      JoinedFront(init);
    } else {
      assert init[..0] == [] && ms[1..][..0] == [];
    }
    assert ms[1..][..|ms| - 2] == init[1..] && ms[1..][|ms| - 2] == last;
  }

  lemma {:induction false} MembersAreJoined(ms: seq<Member>)
    requires ms != []
    ensures PrintMembers(ms) == Joined(ms) + "}"
  {
    if |ms| == 1 {
      assert ms[..0] == [];
    } else {
      MembersAreJoined(ms[1..]);
      JoinedFront(ms);
    }
  }

  /** An object is printed as its members between braces. */
  lemma ObjectIsJoined(ms: seq<Member>)
    ensures PrintObject(ms) == "{" + Joined(ms) + "}"
  {
    if ms != [] {
      MembersAreJoined(ms);
    }
  }

  lemma TakeSpan(s: string, p: char -> bool)
    ensures s == s[..Span(s, p)] + s[Span(s, p)..] && forall c | c in s[..Span(s, p)] :: p(c)
  {
  }

  /** The parts of a member in front of the text. */
  lemma SplitMember(s: string) returns (m: Member, rest: string, afterName: string, afterColon: string)
    requires ParseMember(s).Some?
    ensures ParseMember(s) == Some((m, rest)) && Printable(m)
    ensures s == "\"" + (m.name + afterName) && afterName == "\":" + afterColon && afterColon == m.value + rest
  {
    hide Span, IsNameChar, IsNumberChar;
    var afterQuote := s[1..];
    TakeSpan(afterQuote, IsNameChar);
    afterName := afterQuote[Span(afterQuote, IsNameChar)..];
    afterColon := afterName[2..];
    TakeSpan(afterColon, IsNumberChar);
    m, rest := ParseMember(s).value.0, ParseMember(s).value.1;
  }

  lemma MemberText(m: Member, rest: string)
    ensures "\"" + (m.name + ("\":" + (m.value + rest))) == PrintMember(m) + rest
  {
  }

  /** What is read off the front is a printed member. */
  lemma MemberIsPrinted(s: string)
    requires ParseMember(s).Some?
    ensures var (m, rest) := ParseMember(s).value; Printable(m) && s == PrintMember(m) + rest
  {
    hide *;
    var m, rest, _, _ := SplitMember(s);
    MemberText(m, rest);
  }

  lemma ParseMembersUnfolds(s: string)
    requires ParseMembers(s).Some?
    ensures ParseMember(s).Some? && |ParseMember(s).value.1| < |s|
    ensures var (m, rest) := ParseMember(s).value;
            if rest == "}" then ParseMembers(s) == Some([m])
            else rest != [] && rest[0] == ',' && ParseMembers(rest[1..]).Some?
                 && ParseMembers(s) == Some([m] + ParseMembers(rest[1..]).value)
  {
    hide ParseMember;
  }

  lemma PrintMembersUnfolds(m: Member, ms: seq<Member>)
    ensures PrintMembers([m]) == PrintMember(m) + "}"
    ensures ms != [] ==> PrintMembers([m] + ms) == PrintMember(m) + ("," + PrintMembers(ms))
  {
    hide PrintMember;
    assert ([m] + ms)[1..] == ms;
  }

  lemma {:induction false} MembersArePrinted(s: string)
    requires ParseMembers(s).Some?
    decreases |s|
    ensures var ms := ParseMembers(s).value; ms != [] && s == PrintMembers(ms) && forall m | m in ms :: Printable(m)
  {
    hide *;
    ParseMembersUnfolds(s);
    MemberIsPrinted(s);
    var (m, rest) := ParseMember(s).value;
    if rest == "}" {
      PrintMembersUnfolds(m, []);
    } else {
      MembersArePrinted(rest[1..]);
      assert rest == "," + rest[1..];
      PrintMembersUnfolds(m, ParseMembers(rest[1..]).value);
    }
  }

  /** Exactly the printed objects are read, as their members. */
  lemma ParseObjectIff(s: string, ms: seq<Member>)
    ensures ParseObject(s) == Some(ms) <==> s == "{" + Joined(ms) + "}" && forall m | m in ms :: Printable(m)
  {
    ObjectIsJoined(ms);
    hide ParseMembers, PrintMembers, Printable, Joined;
    if ParseObject(s) == Some(ms) && s != "{}" {
      MembersArePrinted(s[1..]);
      assert s == "{" + s[1..];
    } else if forall m | m in ms :: Printable(m) {
      ObjectRoundTrip(ms);
    }
  }
}

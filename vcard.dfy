/** The vCard 3.0 text block built for the contact content type (app.js, generateVCard).
    The four values given here are already trimmed. */
module VCard {

  const Header := "BEGIN:VCARD\n" + "VERSION:3.0\n"
  const Footer := "END:VCARD"

  /** The card as the source accumulates it: header lines, one `TAG:value` line per
      non-empty field in the order FN, TEL, EMAIL, ORG, and the footer with no newline
      after it. All four fields empty gives "", the "nothing to render" signal. */
  function Card(name: string, phone: string, email: string, org: string): string {
    if name == "" && phone == "" && email == "" && org == "" then ""
    else
      Header
      + FieldLine("FN:", name) + FieldLine("TEL:", phone) + FieldLine("EMAIL:", email) + FieldLine("ORG:", org)
      + Footer
  }

  /** `TAG:value` and LF, or nothing for an empty value. */
  function FieldLine(tag: string, value: string): string {
    if value != "" then tag + value + "\n" else ""
  }

  /** The lines of a card: an independent description of its layout. */
  function CardLines(name: string, phone: string, email: string, org: string): seq<string> {
    ["BEGIN:VCARD", "VERSION:3.0"]
    + (if name != "" then ["FN:" + name] else [])
    + (if phone != "" then ["TEL:" + phone] else [])
    + (if email != "" then ["EMAIL:" + email] else [])
    + (if org != "" then ["ORG:" + org] else [])
    + ["END:VCARD"]
  }

  /** `lines.join("\n")` */
  function JoinLines(lines: seq<string>): string
    requires |lines| > 0
  {
    if |lines| == 1 then lines[0] else lines[0] + "\n" + JoinLines(lines[1..])
  }

  /** `s.split("\n")` */
  function SplitLines(s: string): (r: seq<string>)
    ensures |r| > 0
  {
    if s == [] then [""]
    else
      var rest := SplitLines(s[1..]);
      if s[0] == '\n' then [""] + rest else [[s[0]] + rest[0]] + rest[1..]
  }

  predicate NoNewline(s: string) {
    '\n' !in s
  }

  // ----- properties -----

  /** The card is empty exactly when every field is. */
  lemma CardEmpty(name: string, phone: string, email: string, org: string)
    ensures Card(name, phone, email, org) == "" <==> name == "" && phone == "" && email == "" && org == ""
  {
    var c := Card(name, phone, email, org);
    if !(name == "" && phone == "" && email == "" && org == "") {
      assert c[0] == 'B';
    }
  }

  /** A non-empty card is its lines joined with LF: it starts with the two header lines
      and ends with END:VCARD, with no newline after it. */
  lemma CardIsJoinedLines(name: string, phone: string, email: string, org: string)
    requires name != "" || phone != "" || email != "" || org != ""
    ensures Card(name, phone, email, org) == JoinLines(CardLines(name, phone, email, org))
  {
    var header := ["BEGIN:VCARD", "VERSION:3.0"];
    var fn := if name != "" then ["FN:" + name] else [];
    var tel := if phone != "" then ["TEL:" + phone] else [];
    var em := if email != "" then ["EMAIL:" + email] else [];
    var og := if org != "" then ["ORG:" + org] else [];
    var lines := header + fn + tel + em + og;
    assert CardLines(name, phone, email, org) == lines + ["END:VCARD"];
    JoinTerminated(lines, "END:VCARD");
    TerminatedAppend(header + fn + tel + em, og);
    TerminatedAppend(header + fn + tel, em);
    TerminatedAppend(header + fn, tel);
    TerminatedAppend(header, fn);
    assert Terminated(header) == "BEGIN:VCARD\n" + "VERSION:3.0\n" by {
      assert header[1..] == ["VERSION:3.0"];
      assert header[1..][1..] == [];
    }
    OptionalLine(fn, "FN:" + name, name != "");
    OptionalLine(tel, "TEL:" + phone, phone != "");
    OptionalLine(em, "EMAIL:" + email, email != "");
    OptionalLine(og, "ORG:" + org, org != "");
  }

  /** A non-empty card opens with the BEGIN and VERSION lines and closes with END:VCARD,
      with no line break after it. */
  lemma CardFrame(name: string, phone: string, email: string, org: string)
    requires name != "" || phone != "" || email != "" || org != ""
    ensures var c := Card(name, phone, email, org);
      |c| >= |Header| + |Footer| && c[..|Header|] == Header && c[|c| - |Footer|..] == Footer
  {
    var middle := FieldLine("FN:", name) + FieldLine("TEL:", phone) + FieldLine("EMAIL:", email) + FieldLine("ORG:", org);
    var c := Card(name, phone, email, org);
    assert c == Header + middle + Footer;
    Framed(Header, middle, Footer);
    assert |c| >= |Header| + |Footer|;
    assert c[..|Header|] == Header;
    assert c[|c| - |Footer|..] == Footer;
  }

  lemma Framed(head: string, middle: string, tail: string)
    ensures var s := head + middle + tail;
      |s| >= |head| + |tail| && s[..|head|] == head && s[|s| - |tail|..] == tail
  {
  }

  /** Every line followed by LF. */
  function Terminated(lines: seq<string>): string {
    if lines == [] then "" else lines[0] + "\n" + Terminated(lines[1..])
  }

  lemma OptionalLine(ls: seq<string>, line: string, present: bool)
    requires ls == if present then [line] else []
    ensures Terminated(ls) == if present then line + "\n" else ""
  {
    if present {
      assert ls[1..] == [];
    }
  }

  lemma {:induction false} TerminatedAppend(a: seq<string>, b: seq<string>)
    ensures Terminated(a + b) == Terminated(a) + Terminated(b)
  {
    if a != [] {
      assert (a + b)[1..] == a[1..] + b;
      TerminatedAppend(a[1..], b);
    } else {
      assert a + b == b;
    }
  }

  lemma {:induction false} JoinTerminated(lines: seq<string>, last: string)
    ensures JoinLines(lines + [last]) == Terminated(lines) + last
  {
    if lines != [] {
      assert (lines + [last])[1..] == lines[1..] + [last];
      JoinTerminated(lines[1..], last);
    } else {
      assert lines + [last] == [last];
    }
  }

  lemma {:induction false} SplitSingle(s: string)
    requires NoNewline(s)
    ensures SplitLines(s) == [s]
  {
    if s != [] {
      SplitSingle(s[1..]);
      assert [s[0]] + s[1..] == s;
    }
  }

  lemma {:induction false} SplitLead(a: string, rest: string)
    requires NoNewline(a)
    ensures SplitLines(a + "\n" + rest) == [a] + SplitLines(rest)
  {
    var s := a + "\n" + rest;
    if a == [] {
      assert s[0] == '\n' && s[1..] == rest;
    } else {
      assert s[1..] == a[1..] + "\n" + rest;
      SplitLead(a[1..], rest);
      assert [a[0]] + a[1..] == a;
    }
  }

  /** Splitting a join of newline-free lines gives the lines back. */
  lemma {:induction false} SplitJoin(lines: seq<string>)
    requires |lines| > 0
    requires forall line :: line in lines ==> NoNewline(line)
    ensures SplitLines(JoinLines(lines)) == lines
  {
    if |lines| == 1 {
      SplitSingle(lines[0]);
    } else {
      SplitJoin(lines[1..]);
      SplitLead(lines[0], JoinLines(lines[1..]));
      assert [lines[0]] + lines[1..] == lines;
    }
  }

  lemma PrefixedNoNewline(tag: string, value: string)
    requires NoNewline(tag) && NoNewline(value)
    ensures NoNewline(tag + value)
  {
  }

  /** When no field holds a line break, reading the card back line by line yields
      exactly the header, one line per non-empty field in the fixed order, and the
      footer. */
  lemma CardSplits(name: string, phone: string, email: string, org: string)
    requires name != "" || phone != "" || email != "" || org != ""
    requires NoNewline(name) && NoNewline(phone) && NoNewline(email) && NoNewline(org)
    ensures SplitLines(Card(name, phone, email, org)) == CardLines(name, phone, email, org)
  {
    CardIsJoinedLines(name, phone, email, org);
    PrefixedNoNewline("FN:", name);
    PrefixedNoNewline("TEL:", phone);
    PrefixedNoNewline("EMAIL:", email);
    PrefixedNoNewline("ORG:", org);
    SplitJoin(CardLines(name, phone, email, org));
  }
}

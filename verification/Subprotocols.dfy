/** The sub-protocols a WebSocket client asks for, read off the headers of its request. */
module Subprotocols {
  import opened Prelude

  datatype Header = Header(name: string, value: string)

  const HEADER_NAME := "sec-websocket-protocol"

  function LowerChar(c: char): char {
    if 'A' <= c <= 'Z' then (c as int + 32) as char else c
  }

  function ToLower(s: string): string {
    seq(|s|, i requires 0 <= i < |s| => LowerChar(s[i]))
  }

  /** The characters with the Unicode property White_Space. */
  predicate IsWhitespace(c: char) {
    var n := c as int;
    || 0x09 <= n <= 0x0D || n == 0x20 || n == 0x85 || n == 0xA0 || n == 0x1680
    || 0x2000 <= n <= 0x200A || n == 0x2028 || n == 0x2029 || n == 0x202F || n == 0x205F || n == 0x3000
  }

  /** Blank, the controls from tabulator to carriage return, and the blanks beyond ASCII, are all there is. */
  lemma WhitespaceListed(c: char)
    ensures IsWhitespace(c) <==> c as int in {
      0x09, 0x0A, 0x0B, 0x0C, 0x0D, 0x20, 0x85, 0xA0, 0x1680, 0x2000, 0x2001, 0x2002, 0x2003, 0x2004, 0x2005,
      0x2006, 0x2007, 0x2008, 0x2009, 0x200A, 0x2028, 0x2029, 0x202F, 0x205F, 0x3000}
  {
  }

  function Strip(s: string): string {
    if s == "" then "" else (if IsWhitespace(s[0]) then "" else [s[0]]) + Strip(s[1..])
  }

  /** The pieces between the commas; there is always at least one. */
  function Split(s: string): (pieces: seq<string>)
    ensures pieces != []
  {
    if s == "" then [""]
    else Grow(s[0], Split(s[1..]))
  }

  /** The pieces after `c` is put in front of them: a comma starts a piece, anything else extends the first one. */
  function Grow(c: char, pieces: seq<string>): (grown: seq<string>)
    requires pieces != []
    ensures grown != []
  {
    if c == ',' then [""] + pieces else [[c] + pieces[0]] + pieces[1..]
  }

  /** The values of the sub-protocol headers, in the order of the headers. */
  function Lines(headers: seq<Header>): seq<string> {
    if headers == [] then []
    else (if ToLower(headers[0].name) == HEADER_NAME then [headers[0].value] else []) + Lines(headers[1..])
  }

  function SplitAll(lines: seq<string>): seq<string> {
    if lines == [] then [] else Split(Strip(lines[0])) + SplitAll(lines[1..])
  }

  /** What the scope of the connection lists. */
  function Parse(headers: seq<Header>): seq<string> {
    SplitAll(Lines(headers))
  }

  // ---- Splitting and joining ----

  function Join(pieces: seq<string>): string
    requires pieces != []
  {
    if |pieces| == 1 then pieces[0] else pieces[0] + "," + Join(pieces[1..])
  }

  predicate Plain(s: string) {
    forall c :: c in s ==> c != ',' && !IsWhitespace(c)
  }

  lemma {:induction false} StripConcat(a: string, b: string)
    ensures Strip(a + b) == Strip(a) + Strip(b)
  {
    if a == "" {
      assert a + b == b;
    } else {
      assert (a + b)[1..] == a[1..] + b;
      StripConcat(a[1..], b);
    }
  }

  lemma SplitCons(c: char, s: string)
    ensures Split([c] + s) == Grow(c, Split(s))
  {
  }

  lemma GrowConcat(c: char, l: seq<string>, r: seq<string>)
    requires l != []
    ensures Grow(c, l + r) == Grow(c, l) + r
  {
  }

  lemma {:induction false} SplitComma(a: string, b: string)
    ensures Split(a + "," + b) == Split(a) + Split(b)
  {
    if a == "" {
      SplitCons(',', b);
    } else {
      SplitComma(a[1..], b);
      SplitCons(a[0], a[1..] + "," + b);
      GrowConcat(a[0], Split(a[1..]), Split(b));
      assert [a[0]] + (a[1..] + "," + b) == a + "," + b;
    }
  }

  lemma StripComma(a: string, b: string)
    ensures Strip(a + "," + b) == Strip(a) + "," + Strip(b)
  {
    StripConcat(a + ",", b);
    StripConcat(a, ",");
  }

  /** Several header lines mean the same as one line that joins them with commas; section 11.3.4 of RFC 6455. */
  lemma {:induction false} LinesJoin(lines: seq<string>)
    requires lines != []
    ensures SplitAll(lines) == SplitAll([Join(lines)])
  {
    assert SplitAll([Join(lines)]) == Split(Strip(Join(lines)));
    if |lines| > 1 {
      LinesJoin(lines[1..]);
      assert SplitAll([Join(lines[1..])]) == Split(Strip(Join(lines[1..])));
      StripComma(lines[0], Join(lines[1..]));
      SplitComma(Strip(lines[0]), Strip(Join(lines[1..])));
    }
  }

  /** `Split` undoes `Join` on pieces without commas. */
  lemma {:induction false} SplitOne(s: string)
    requires forall c :: c in s ==> c != ','
    ensures Split(s) == [s]
  {
    if s != "" {
      assert forall c :: c in s[1..] ==> c in s;
      SplitOne(s[1..]);
      SplitCons(s[0], s[1..]);
      assert s[0] in s;
      assert [s[0]] + s[1..] == s;
    }
  }

  lemma {:induction false} StripPlain(s: string)
    requires Plain(s)
    ensures Strip(s) == s
  {
    if s != "" {
      StripPlain(s[1..]);
    }
  }

  lemma {:induction false} StripBlank(s: string)
    requires forall c :: c in s ==> IsWhitespace(c)
    ensures Strip(s) == ""
  {
    if s != "" {
      StripBlank(s[1..]);
    }
  }

  /** One listed sub-protocol, with the whitespace that was printed around it. */
  datatype Padded = Padded(before: string, token: string, after: string) {
    ghost predicate Valid() {
      && Plain(token)
      && (forall c :: c in before ==> IsWhitespace(c))
      && (forall c :: c in after ==> IsWhitespace(c))
    }

    function Print(): string {
      before + token + after
    }
  }

  function PrintLine(line: seq<Padded>): string {
    if line == [] then ""
    else if |line| == 1 then line[0].Print() else line[0].Print() + "," + PrintLine(line[1..])
  }

  function Tokens(line: seq<Padded>): seq<string> {
    seq(|line|, i requires 0 <= i < |line| => line[i].token)
  }

  lemma ReadToken(p: Padded)
    requires p.Valid()
    ensures Split(Strip(p.Print())) == [p.token]
  {
    StripConcat(p.before + p.token, p.after);
    StripConcat(p.before, p.token);
    StripBlank(p.before);
    StripBlank(p.after);
    StripPlain(p.token);
    SplitOne(p.token);
    assert "" + p.token + "" == p.token;
  }

  lemma {:induction false} ReadLine(line: seq<Padded>)
    requires line != [] && forall p :: p in line ==> p.Valid()
    ensures Split(Strip(PrintLine(line))) == Tokens(line)
  {
    ReadToken(line[0]);
    if |line| > 1 {
      ReadLine(line[1..]);
      StripComma(line[0].Print(), PrintLine(line[1..]));
      SplitComma(Strip(line[0].Print()), Strip(PrintLine(line[1..])));
    }
  }

  /** `s` is `lower`, written with any of its letters in upper case. */
  ghost predicate SameButForCase(s: string, lower: string) {
    && |s| == |lower|
    && forall i :: 0 <= i < |s| ==>
         s[i] == lower[i] || ('a' <= lower[i] <= 'z' && s[i] as int + 0x20 == lower[i] as int)
  }

  lemma NamesMatchButForCase(name: string)
    ensures ToLower(name) == HEADER_NAME <==> SameButForCase(name, "sec-websocket-protocol")
  {
    var lower := "sec-websocket-protocol";
    assert forall i :: 0 <= i < |lower| ==> lower[i] == '-' || 'a' <= lower[i] <= 'z';
    if SameButForCase(name, lower) {
      assert ToLower(name) == lower;
    }
    if ToLower(name) == lower {
      assert forall i :: 0 <= i < |name| ==> LowerChar(name[i]) == lower[i];
    }
  }

  /** The headers of a request, sub-protocol lines among others. */
  datatype Entry = Other(header: Header) | Protocols(name: string, line: seq<Padded>)

  ghost predicate ValidEntry(e: Entry) {
    match e
    case Other(h) => !SameButForCase(h.name, "sec-websocket-protocol")
    case Protocols(name, line) =>
      && SameButForCase(name, "sec-websocket-protocol")
      && line != [] && forall p :: p in line ==> p.Valid()
  }

  function PrintEntries(entries: seq<Entry>): seq<Header> {
    if entries == [] then []
    else
      [match entries[0] case Other(h) => h case Protocols(name, line) => Header(name, PrintLine(line))]
      + PrintEntries(entries[1..])
  }

  function AllTokens(entries: seq<Entry>): seq<string> {
    if entries == [] then []
    else (if entries[0].Protocols? then Tokens(entries[0].line) else []) + AllTokens(entries[1..])
  }

  /**
   Sub-protocols printed with any whitespace around them, over any number of lines, between any other headers
   and in any letter case of the header name, are read back as the same list in the same order.
   */
  lemma {:induction false} ParsePrinted(entries: seq<Entry>)
    requires forall e :: e in entries ==> ValidEntry(e)
    ensures Parse(PrintEntries(entries)) == AllTokens(entries)
  {
    if entries != [] {
      ParsePrinted(entries[1..]);
      var headers := PrintEntries(entries);
      assert ValidEntry(entries[0]);
      NamesMatchButForCase(headers[0].name);
      if entries[0].Protocols? {
        ReadLine(entries[0].line);
      } else {
        assert Lines(headers) == [] + Lines(headers[1..]) == Lines(headers[1..]);
      }
    }
  }

  lemma {:induction false} StripRemoves(s: string)
    ensures forall c :: c in Strip(s) ==> !IsWhitespace(c)
  {
    if s != "" {
      StripRemoves(s[1..]);
    }
  }

  /** Splitting loses nothing but the commas. */
  lemma {:induction false} SplitLossless(s: string)
    ensures Join(Split(s)) == s
  {
    if s != "" {
      SplitLossless(s[1..]);
    }
  }

  /** Any other way to write a string as comma-free pieces joined is the same way. */
  lemma {:induction false} SplitJoin(pieces: seq<string>)
    requires pieces != []
    requires forall p :: p in pieces ==> ',' !in p
    ensures Split(Join(pieces)) == pieces
  {
    SplitOne(pieces[0]);
    if |pieces| > 1 {
      SplitJoin(pieces[1..]);
      SplitComma(pieces[0], Join(pieces[1..]));
    }
  }

  lemma {:induction false} SplitPlain(s: string)
    requires forall c :: c in s ==> !IsWhitespace(c)
    ensures forall p :: p in Split(s) ==> Plain(p)
  {
    if s != "" {
      SplitPlain(s[1..]);
      var rest := Split(s[1..]);
      assert rest[0] in rest;
    }
  }

  /** Whatever the headers hold, what is listed has neither commas nor whitespace. */
  lemma {:induction false} ParsedArePlain(headers: seq<Header>)
    ensures forall p :: p in Parse(headers) ==> Plain(p)
  {
    LinesArePlain(Lines(headers));
  }

  lemma {:induction false} LinesArePlain(lines: seq<string>)
    ensures forall p :: p in SplitAll(lines) ==> Plain(p)
  {
    if lines != [] {
      LinesArePlain(lines[1..]);
      StripRemoves(lines[0]);
      SplitPlain(Strip(lines[0]));
    }
  }
}

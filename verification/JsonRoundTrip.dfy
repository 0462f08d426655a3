/** Parsing what the helper's printer prints gives the tree back, and newline framing keeps requests apart. */
module JsonRoundTrip {
  import opened Common
  import opened HelperJson

  // ---------------------------------------------------------------- strings

  lemma HexRoundTrip(d: nat)
    requires d < 16
    ensures HexValue(HexChar(d)) == Some(d)
  {
  }

  function Prepend(c: char, t: Option<(string, string)>): Option<(string, string)> {
    if t.None? then None else Some(([c] + t.value.0, t.value.1))
  }

  /** One escaped character parses back to itself, whatever follows. */
  lemma EscapeCharParses(c: char, tail: string)
    ensures ParseString(EscapeChar(c) + tail) == Prepend(c, ParseString(tail))
  {
    var text := EscapeChar(c) + tail;
    if c < ' ' && |EscapeChar(c)| == 6 {
      var hi, lo := c as int / 16, c as int % 16;
      HexRoundTrip(hi);
      HexRoundTrip(lo);
      var s := text[1..];
      assert s[0] == 'u' && s[1..] == ['0', '0', HexChar(hi), HexChar(lo)] + tail && s[5..] == tail;
      assert Hex4(s[1..]) == Some(c as int);
      assert ParseEscape(s) == Some((c, tail));
    } else if |EscapeChar(c)| == 2 {
      assert text[1..][1..] == tail;
      assert ParseEscape(text[1..]) == Some((c, tail));
    } else {
      assert text[1..] == tail;
    }
  }

  lemma {:induction false} StringRoundTrip(s: string, rest: string)
    ensures ParseString(Escape(s) + "\"" + rest) == Some((s, rest))
  {
    if s == [] {
      EmptyStringParses(rest);
      assert Escape(s) + "\"" + rest == "\"" + rest;
    } else {
      StringRoundTrip(s[1..], rest);
      EscapeCharParses(s[0], Escape(s[1..]) + "\"" + rest);
      Reassociate(EscapeChar(s[0]), Escape(s[1..]), "\"", rest);
      assert [s[0]] + s[1..] == s;
    }
  }

  lemma EmptyStringParses(rest: string)
    ensures ParseString("\"" + rest) == Some(([], rest))
  {
    assert ("\"" + rest)[1..] == rest;
  }

  lemma Reassociate(a: string, b: string, c: string, d: string)
    ensures (a + b) + c + d == a + (b + c + d)
  {
  }

  lemma QuotedParses(s: string, rest: string)
    ensures Quoted(s) + rest != [] && (Quoted(s) + rest)[0] == '"' && ParseString((Quoted(s) + rest)[1..]) == Some((s, rest))
  {
    assert (Quoted(s) + rest)[1..] == Escape(s) + "\"" + rest;
    StringRoundTrip(s, rest);
  }

  // ---------------------------------------------------------------- numbers

  /** A text that cannot continue a number. */
  predicate EndsNumber(rest: string) { rest == [] || !(IsDigit(rest[0]) || rest[0] == '.' || rest[0] == 'e' || rest[0] == 'E') }

  lemma {:induction false} DigitsOf(s: string, rest: string)
    requires AllDigits(s) && (rest == [] || !IsDigit(rest[0]))
    ensures Digits(s + rest) == |s|
  {
    if s == [] {
      assert s + rest == rest;
    } else {
      DigitsOf(s[1..], rest);
      assert (s + rest)[1..] == s[1..] + rest;
    }
  }

  /** Where the digits of a printed integer start, and where they end. */
  lemma NumeralParts(n: int, digits: string, rest: string)
    requires digits == Decimal(if n < 0 then -n else n)
    ensures var s, sign := Itoa(n) + rest, if n < 0 then 1 else 0;
            && s != [] && (s[0] == '-' <==> n < 0) && s[sign..] == digits + rest
            && (digits + rest)[..|digits|] == digits && (digits + rest)[|digits|..] == rest
  {
    if n < 0 {
      assert Itoa(n) == ['-'] + digits;
    } else {
      assert Itoa(n) == digits;
    }
  }

  lemma NumberRoundTrip(n: int, rest: string)
    requires EndsNumber(rest)
    ensures ParseNumber(Itoa(n) + rest) == Some((JInt(n), rest))
  {
    var m := if n < 0 then -n else n;
    NumeralParts(n, Decimal(m), rest);
    DigitsOf(Decimal(m), rest);
    DecimalRoundTrip(m);
    assert rest[0..] == rest;
  }

  // ---------------------------------------------------------------- values

  lemma PrintStart(v: Value)
    ensures Print(v) != [] && !IsSpace(Print(v)[0]) && Print(v)[0] != ']' && Print(v)[0] != '}'
  {
    if v.Int? {
      assert IsDigit(Itoa(v.n)[0]) || Itoa(v.n)[0] == '-';
    }
  }

  lemma SkipNothing(s: string)
    requires s == [] || !IsSpace(s[0])
    ensures SkipSpace(s) == s
  {
  }

  lemma WordParses(s: string, word: string, v: Json, rest: string)
    requires word != [] && s == word + rest
    ensures ParseWord(s, word, v) == Some((v, rest))
  {
    assert s[|word|..] == rest;
  }

  lemma ScalarRoundTrip(v: Value, rest: string)
    requires EndsNumber(rest) && !v.List? && !v.Map?
    ensures ParseValue(Print(v) + rest) == Some((ToJson(v), rest))
  {
    var s := Print(v) + rest;
    PrintStart(v);
    assert s[0] == Print(v)[0];
    SkipNothing(s);
    match v
    case Null => WordParses(s, "null", JNull, rest);
    case Other => WordParses(s, "null", JNull, rest);
    case Bool(b) => WordParses(s, if b then "true" else "false", JBool(b), rest);
    case Int(n) => IntRoundTrip(n, rest);
    case Str(x) => QuotedParses(x, rest);
  }

  lemma IntRoundTrip(n: int, rest: string)
    requires EndsNumber(rest)
    ensures ParseValue(Itoa(n) + rest) == Some((JInt(n), rest))
  {
    NumberStarts(Itoa(n) + rest);
    NumberRoundTrip(n, rest);
  }

  lemma NumberStarts(s: string)
    requires s != [] && (IsDigit(s[0]) || s[0] == '-')
    ensures ParseValue(s) == ParseNumber(s)
  {
    SkipNothing(s);
  }

  /** Parsing a printed value followed by anything that cannot extend a number gives the value and what followed. */
  lemma {:induction false} ValueRoundTrip(v: Value, rest: string)
    requires EndsNumber(rest)
    ensures ParseValue(Print(v) + rest) == Some((ToJson(v), rest))
    decreases v, 2
  {
    if v.List? {
      ListRoundTrip(v.items, rest);
    } else if v.Map? {
      MapRoundTrip(v.entries, rest);
    } else {
      ScalarRoundTrip(v, rest);
    }
  }

  lemma {:induction false} ListRoundTrip(items: seq<Value>, rest: string)
    ensures ParseValue(Print(List(items)) + rest) == Some((JArr(ToItems(items)), rest))
    decreases items, 1
  {
    var s := Print(List(items)) + rest;
    var inner := PrintItems(items, true) + "]" + rest;
    assert s == "[" + inner;
    assert s[1..] == inner;
    SkipNothing(s);
    if items == [] {
      assert inner == "]" + rest;
      SkipNothing(inner);
      assert inner[1..] == rest;
    } else {
      PrintStart(items[0]);
      assert inner[0] == Print(items[0])[0];
      SkipNothing(inner);
      ItemsRoundTrip(items, rest);
    }
  }

  /** One step of the item parser: a value, then the bracket or a comma and more. */
  lemma ItemsStep(s: string, v: Json, after: string)
    requires ParseValue(s) == Some((v, after)) && after != [] && !IsSpace(after[0])
    ensures after[0] == ']' ==> ParseItems(s) == Some(([v], after[1..]))
    ensures after[0] == ',' && ParseItems(after[1..]).Some? ==>
              ParseItems(s) == Some(([v] + ParseItems(after[1..]).value.0, ParseItems(after[1..]).value.1))
  {
    SkipNothing(after);
  }

  lemma {:induction false} ItemsRoundTrip(items: seq<Value>, rest: string)
    requires items != []
    ensures ParseItems(PrintItems(items, true) + "]" + rest) == Some((ToItems(items), rest))
    decreases items, 0
  {
    var after := PrintItems(items[1..], false) + "]" + rest;
    assert PrintItems(items, true) + "]" + rest == Print(items[0]) + after;
    if items[1..] == [] {
      assert after == "]" + rest;
      assert ToItems(items) == [ToJson(items[0])];
    } else {
      LaterItems(items[1..], rest);
      ItemsRoundTrip(items[1..], rest);
    }
    ItemParses(items[0], after);
  }

  lemma LaterItems(tail: seq<Value>, rest: string)
    requires tail != []
    ensures var after := PrintItems(tail, false) + "]" + rest;
            after[0] == ',' && after[1..] == PrintItems(tail, true) + "]" + rest
  {
    assert PrintItems(tail, false) + "]" + rest == "," + (PrintItems(tail, true) + "]" + rest);
  }

  lemma {:induction false} ItemParses(v: Value, after: string)
    requires after != [] && (after[0] == ']' || after[0] == ',')
    ensures var s := Print(v) + after;
            && (after[0] == ']' ==> ParseItems(s) == Some(([ToJson(v)], after[1..])))
            && (after[0] == ',' && ParseItems(after[1..]).Some? ==>
                  ParseItems(s) == Some(([ToJson(v)] + ParseItems(after[1..]).value.0, ParseItems(after[1..]).value.1)))
    decreases v, 3
  {
    ValueRoundTrip(v, after);
    ItemsStep(Print(v) + after, ToJson(v), after);
  }

  lemma {:induction false} NoMembers(entries: seq<Entry>, first: bool)
    requires ToMembers(entries) == []
    ensures PrintEntries(entries, first) == []
  {
    if entries != [] {
      NoMembers(entries[1..], first);
    }
  }

  lemma {:induction false} LaterMembers(entries: seq<Entry>)
    requires ToMembers(entries) != []
    ensures PrintEntries(entries, false) == "," + PrintEntries(entries, true)
    ensures PrintEntries(entries, true) != [] && PrintEntries(entries, true)[0] == '"'
  {
    if !entries[0].key.Str? {
      LaterMembers(entries[1..]);
    } else {
      assert PrintEntry(entries[0])[0] == '"';
    }
  }

  lemma {:induction false} MapRoundTrip(entries: seq<Entry>, rest: string)
    ensures ParseValue(Print(Map(entries)) + rest) == Some((JObj(ToMembers(entries)), rest))
    decreases entries, 2
  {
    var s := Print(Map(entries)) + rest;
    var inner := PrintEntries(entries, true) + "}" + rest;
    assert s == "{" + inner;
    assert s[1..] == inner;
    SkipNothing(s);
    if ToMembers(entries) == [] {
      NoMembers(entries, true);
      assert inner == "}" + rest;
      SkipNothing(inner);
      assert inner[1..] == rest;
    } else {
      LaterMembers(entries);
      assert inner[0] == '"';
      SkipNothing(inner);
      MembersRoundTrip(entries, rest);
    }
  }

  /** One step of the member parser: a name, a colon and a value, then the brace or a comma and more. */
  lemma MembersStep(s: string, m: Member, c: string, after: string)
    requires s != [] && s[0] == '"' && ParseString(s[1..]) == Some((m.name, c))
    requires c != [] && c[0] == ':' && ParseValue(c[1..]) == Some((m.value, after))
    requires after != [] && !IsSpace(after[0])
    ensures after[0] == '}' ==> ParseMembers(s) == Some(([m], after[1..]))
    ensures after[0] == ',' && ParseMembers(after[1..]).Some? ==>
              ParseMembers(s) == Some(([m] + ParseMembers(after[1..]).value.0, ParseMembers(after[1..]).value.1))
  {
    SkipNothing(s);
    SkipNothing(c);
    SkipNothing(after);
  }

  lemma {:induction false} MembersRoundTrip(entries: seq<Entry>, rest: string)
    requires ToMembers(entries) != []
    ensures ParseMembers(PrintEntries(entries, true) + "}" + rest) == Some((ToMembers(entries), rest))
    decreases entries, 1
  {
    if !entries[0].key.Str? {
      MembersRoundTrip(entries[1..], rest);
    } else {
      var tail := entries[1..];
      var after := PrintEntries(tail, false) + "}" + rest;
      assert PrintEntries(entries, true) + "}" + rest == PrintEntry(entries[0]) + after;
      if ToMembers(tail) == [] {
        NoMembers(tail, false);
        assert after == "}" + rest;
        assert ToMembers(entries) == [ToMember(entries[0])];
      } else {
        MembersRoundTrip(tail, rest);
        LaterEntries(tail, rest);
      }
      EntryParses(entries[0], after);
    }
  }

  lemma LaterEntries(tail: seq<Entry>, rest: string)
    requires ToMembers(tail) != []
    ensures var after := PrintEntries(tail, false) + "}" + rest;
            after[0] == ',' && after[1..] == PrintEntries(tail, true) + "}" + rest
  {
    LaterMembers(tail);
    assert PrintEntries(tail, false) + "}" + rest == "," + (PrintEntries(tail, true) + "}" + rest);
  }

  lemma {:induction false} EntryParses(e: Entry, after: string)
    requires e.key.Str? && after != [] && (after[0] == '}' || after[0] == ',')
    ensures var s := PrintEntry(e) + after;
            && (after[0] == '}' ==> ParseMembers(s) == Some(([ToMember(e)], after[1..])))
            && (after[0] == ',' && ParseMembers(after[1..]).Some? ==>
                  ParseMembers(s) == Some(([ToMember(e)] + ParseMembers(after[1..]).value.0, ParseMembers(after[1..]).value.1)))
    decreases e, 0
  {
    ValueRoundTrip(e.value, after);
    var c := ":" + Print(e.value) + after;
    ColonSplit(Quoted(e.key.s), Print(e.value), after);
    NamedParses(PrintEntry(e) + after, ToMember(e), c, after);
  }

  lemma ColonSplit(q: string, text: string, after: string)
    ensures var c := ":" + text + after; q + ":" + text + after == q + c && c[0] == ':' && c[1..] == text + after
  {
  }

  lemma NamedParses(s: string, m: Member, c: string, after: string)
    requires s == Quoted(m.name) + c && c != [] && c[0] == ':' && ParseValue(c[1..]) == Some((m.value, after))
    requires after != [] && !IsSpace(after[0])
    ensures after[0] == '}' ==> ParseMembers(s) == Some(([m], after[1..]))
    ensures after[0] == ',' && ParseMembers(after[1..]).Some? ==>
              ParseMembers(s) == Some(([m] + ParseMembers(after[1..]).value.0, ParseMembers(after[1..]).value.1))
  {
    QuotedParses(m.name, c);
    MembersStep(s, m, c, after);
  }

  /** Every printed tree is a JSON text, and parsing it gives the tree's JSON value. */
  lemma TextRoundTrip(v: Value)
    ensures ParseText(Print(v)) == Some(ToJson(v))
  {
    ValueRoundTrip(v, []);
    assert Print(v) + [] == Print(v);
  }

  // ---- back to the tree itself

  function FromJson(j: Json): Value {
    match j
    case JNull => Null
    case JBool(b) => Bool(b)
    case JInt(n) => Int(n)
    case JReal(_) => Other
    case JStr(s) => Str(s)
    case JArr(items) => List(FromItems(items))
    case JObj(members) => Map(FromMembers(members))
  }

  function FromItems(items: seq<Json>): seq<Value> {
    if items == [] then [] else [FromJson(items[0])] + FromItems(items[1..])
  }

  function FromMembers(members: seq<Member>): seq<Entry> {
    if members == [] then [] else [FromMember(members[0])] + FromMembers(members[1..])
  }

  function FromMember(m: Member): Entry { Entry(Str(m.name), FromJson(m.value)) }

  /** Trees of null, bool, integer, string, list and string-keyed map. */
  predicate Plain(v: Value) {
    match v
    case List(items) => forall i :: 0 <= i < |items| ==> Plain(items[i])
    case Map(entries) => forall i :: 0 <= i < |entries| ==> PlainEntry(entries[i])
    case Other => false
    case _ => true
  }

  predicate PlainEntry(e: Entry) { e.key.Str? && Plain(e.value) }

  lemma {:induction false} FromToJson(v: Value)
    requires Plain(v)
    ensures FromJson(ToJson(v)) == v
  {
    match v
    case List(items) => FromToItems(items);
    case Map(entries) => FromToMembers(entries);
    case _ =>
  }

  lemma {:induction false} FromToItems(items: seq<Value>)
    requires forall i :: 0 <= i < |items| ==> Plain(items[i])
    ensures FromItems(ToItems(items)) == items
  {
    if items != [] {
      FromToJson(items[0]);
      FromToItems(items[1..]);
      assert ToItems(items)[1..] == ToItems(items[1..]);
    }
  }

  lemma {:induction false} FromToMembers(entries: seq<Entry>)
    requires forall i :: 0 <= i < |entries| ==> PlainEntry(entries[i])
    ensures FromMembers(ToMembers(entries)) == entries
  {
    if entries != [] {
      FromToEntry(entries[0]);
      FromToMembers(entries[1..]);
      assert ToMembers(entries)[1..] == ToMembers(entries[1..]);
    }
  }

  lemma {:induction false} FromToEntry(e: Entry)
    requires PlainEntry(e)
    ensures FromMember(ToMember(e)) == e
  {
    FromToJson(e.value);
  }

  /** For plain trees parsing the printed text gives back the very tree, so printing is injective on them. */
  lemma TreeRoundTrip(v: Value)
    requires Plain(v)
    ensures ParseText(Print(v)).Some? && FromJson(ParseText(Print(v)).value) == v
  {
    TextRoundTrip(v);
    FromToJson(v);
  }

  // ---------------------------------------------------------------- requests and lines

  /** No control characters, hence neither newline nor carriage return. */
  predicate Clean(s: string) { forall i :: 0 <= i < |s| ==> s[i] >= ' ' }

  lemma {:induction false} EscapeIsClean(s: string)
    ensures Clean(Escape(s))
  {
    if s != [] {
      EscapeIsClean(s[1..]);
      assert Clean(EscapeChar(s[0]));
    }
  }

  lemma {:induction false} PrintIsClean(v: Value)
    ensures Clean(Print(v))
    decreases v, 1
  {
    match v
    case Str(s) => EscapeIsClean(s);
    case List(items) => ItemsAreClean(items, true);
    case Map(entries) => EntriesAreClean(entries, true);
    case Int(n) => assert forall i :: 0 <= i < |Itoa(n)| ==> IsDigit(Itoa(n)[i]) || Itoa(n)[i] == '-';
    case _ =>
  }

  lemma {:induction false} ItemsAreClean(items: seq<Value>, first: bool)
    ensures Clean(PrintItems(items, first))
    decreases items, 0
  {
    if items != [] {
      PrintIsClean(items[0]);
      ItemsAreClean(items[1..], false);
    }
  }

  lemma {:induction false} EntriesAreClean(entries: seq<Entry>, first: bool)
    ensures Clean(PrintEntries(entries, first))
    decreases entries, 0
  {
    if entries != [] {
      if entries[0].key.Str? {
        EntryIsClean(entries[0]);
        EntriesAreClean(entries[1..], false);
      } else {
        EntriesAreClean(entries[1..], first);
      }
    }
  }

  lemma {:induction false} EntryIsClean(e: Entry)
    requires e.key.Str?
    ensures Clean(PrintEntry(e))
    decreases e, 2
  {
    EscapeIsClean(e.key.s);
    PrintIsClean(e.value);
  }

  /** A request line holds exactly one newline, at its end. */
  lemma RequestHasOneNewline(name: string, args: Option<Value>)
    ensures var line := BuildRequest(name, args);
            Clean(Request(name, args)) && line[|line| - 1] == '\n' && forall i :: 0 <= i < |line| - 1 ==> line[i] != '\n'
  {
    RequestIsPrinted(name, args);
    PrintIsClean(RequestTree(name, args));
    var line := BuildRequest(name, args);
    assert forall i :: 0 <= i < |line| - 1 ==> line[i] == Request(name, args)[i];
  }

  /** The tree whose printed form a request is. */
  function RequestTree(name: string, args: Option<Value>): Value {
    Map([Entry(Str("method"), Str(name)), Entry(Str("args"), if args.None? then Map([]) else args.value)])
  }

  lemma RequestIsPrinted(name: string, args: Option<Value>)
    ensures Request(name, args) == Print(RequestTree(name, args))
  {
    var a := if args.None? then Map([]) else args.value;
    PrintPair("method", name, "args", a);
    QuotedNames();
    Glue(Quoted(name), Print(a));
  }

  lemma PrintPair(k1: string, name: string, k2: string, a: Value)
    ensures Print(Map([Entry(Str(k1), Str(name)), Entry(Str(k2), a)]))
            == "{" + (Quoted(k1) + ":" + Quoted(name)) + "," + (Quoted(k2) + ":" + Print(a)) + "}"
  {
    EntriesTwo(Entry(Str(k1), Str(name)), Entry(Str(k2), a));
    var x, y := Quoted(k1) + ":" + Quoted(name), Quoted(k2) + ":" + Print(a);
    assert "{" + (x + "," + y) + "}" == "{" + x + "," + y + "}";
  }

  lemma EntriesTwo(e1: Entry, e2: Entry)
    requires e1.key.Str? && e2.key.Str?
    ensures PrintEntries([e1, e2], true) == PrintEntry(e1) + "," + PrintEntry(e2)
  {
    assert [e1, e2][1..] == [e2] && [e2][1..] == [];
    assert PrintEntries([e2], false) == "," + PrintEntry(e2) + PrintEntries([], false);
    assert PrintEntries([e1, e2], true) == "" + PrintEntry(e1) + PrintEntries([e2], false);
  }

  lemma Glue(x: string, y: string)
    ensures "{" + ("\"method\"" + ":" + x) + "," + ("\"args\"" + ":" + y) + "}" == "{\"method\":" + x + ",\"args\":" + y + "}"
  {
  }

  lemma QuotedNames()
    ensures Quoted("method") == "\"method\"" && Quoted("args") == "\"args\""
  {
    NameIsPlain("method");
    NameIsPlain("args");
  }

  lemma NameIsPlain(name: string)
    requires forall i :: 0 <= i < |name| ==> 'a' <= name[i] <= 'z'
    ensures Quoted(name) == "\"" + name + "\""
  {
    EscapePlain(name);
  }

  lemma {:induction false} EscapePlain(s: string)
    requires forall i :: 0 <= i < |s| ==> 'a' <= s[i] <= 'z'
    ensures Escape(s) == s
  {
    if s != [] {
      EscapePlain(s[1..]);
      assert [s[0]] + s[1..] == s;
    }
  }

  /** Splitting a stream at newlines, each line losing one trailing carriage return; an unterminated tail is a line too. */
  function Lines(s: string): seq<string>
    decreases |s|
  {
    if s == [] then []
    else
      var n := LineLength(s);
      [StripReturn(s[..n])] + (if n == |s| then [] else Lines(s[n + 1..]))
  }

  function LineLength(s: string): (n: nat)
    ensures n <= |s| && (n < |s| ==> s[n] == '\n') && forall i :: 0 <= i < n ==> s[i] != '\n'
  {
    if s == [] || s[0] == '\n' then 0
    else
      var n := LineLength(s[1..]);
      assert forall i :: 0 < i < n + 1 ==> s[i] == s[1..][i - 1];
      n + 1
  }

  function StripReturn(s: string): string { if s != [] && s[|s| - 1] == '\r' then s[..|s| - 1] else s }

  datatype Call = Call(name: string, args: Option<Value>)

  function Stream(calls: seq<Call>): string {
    if calls == [] then [] else BuildRequest(calls[0].name, calls[0].args) + Stream(calls[1..])
  }

  lemma FirstLine(line: string, rest: string)
    requires Clean(line)
    ensures Lines(line + "\n" + rest) == [line] + Lines(rest)
  {
    var s := line + "\n" + rest;
    assert s[|line|] == '\n' && forall i :: 0 <= i < |line| ==> s[i] == line[i];
    assert LineLength(s) == |line|;
    assert s[..|line|] == line && s[|line| + 1..] == rest;
    assert StripReturn(line) == line;
  }

  function Requests(calls: seq<Call>): (r: seq<string>)
    ensures |r| == |calls| && forall i :: 0 <= i < |calls| ==> r[i] == Request(calls[i].name, calls[i].args)
  {
    if calls == [] then [] else [Request(calls[0].name, calls[0].args)] + Requests(calls[1..])
  }

  lemma {:induction false} LinesAreRequests(calls: seq<Call>)
    ensures Lines(Stream(calls)) == Requests(calls)
    decreases |calls|
  {
    if calls != [] {
      var line, rest := Request(calls[0].name, calls[0].args), Stream(calls[1..]);
      RequestHasOneNewline(calls[0].name, calls[0].args);
      FirstLine(line, rest);
      LinesAreRequests(calls[1..]);
    }
  }

  /** What the helper reads line by line from any sequence of requests is those requests, none split or merged,
      and each line parses to its method and arguments. */
  lemma FramingKeepsRequests(calls: seq<Call>)
    ensures var lines := Lines(Stream(calls));
            && |lines| == |calls|
            && forall i :: 0 <= i < |calls| ==>
                 && lines[i] == Request(calls[i].name, calls[i].args)
                 && ParseText(lines[i]) == Some(ToJson(RequestTree(calls[i].name, calls[i].args)))
  {
    LinesAreRequests(calls);
    forall i | 0 <= i < |calls|
      ensures ParseText(Request(calls[i].name, calls[i].args)) == Some(ToJson(RequestTree(calls[i].name, calls[i].args)))
    {
      RequestParses(calls[i].name, calls[i].args);
    }
  }

  lemma RequestParses(name: string, args: Option<Value>)
    ensures ParseText(Request(name, args)) == Some(ToJson(RequestTree(name, args)))
  {
    RequestIsPrinted(name, args);
    TextRoundTrip(RequestTree(name, args));
  }
}

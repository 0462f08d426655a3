/** The helper's JSON printer, a reference parser for the grammar of RFC 8259 (sections 2 to 7), and the
    newline framing of requests and responses. Text is a sequence of code points; the printer passes
    everything from 0x20 up through unchanged, so on UTF-8 text it acts on bytes and code points alike. */
module HelperJson {
  import opened Common

  /** `flutter::EncodableValue` without doubles; `Other` stands for the alternatives printed as null. */
  datatype Value =
    | Null
    | Bool(b: bool)
    | Int(n: int)
    | Str(s: string)
    | List(items: seq<Value>)
    | Map(entries: seq<Entry>)
    | Other

  datatype Entry = Entry(key: Value, value: Value)

  datatype Json =
    | JNull
    | JBool(b: bool)
    | JInt(n: int)
    | JReal(lexeme: string)
    | JStr(s: string)
    | JArr(items: seq<Json>)
    | JObj(members: seq<Member>)

  datatype Member = Member(name: string, value: Json)

  /** The JSON value a tree stands for: entries without a string key are left out. */
  function ToJson(v: Value): Json {
    match v
    case Null => JNull
    case Bool(b) => JBool(b)
    case Int(n) => JInt(n)
    case Str(s) => JStr(s)
    case List(items) => JArr(ToItems(items))
    case Map(entries) => JObj(ToMembers(entries))
    case Other => JNull
  }

  function ToItems(items: seq<Value>): seq<Json> {
    if items == [] then [] else [ToJson(items[0])] + ToItems(items[1..])
  }

  function ToMembers(entries: seq<Entry>): seq<Member> {
    if entries == [] then []
    else if entries[0].key.Str? then [ToMember(entries[0])] + ToMembers(entries[1..])
    else ToMembers(entries[1..])
  }

  function ToMember(e: Entry): Member
    requires e.key.Str?
  {
    Member(e.key.s, ToJson(e.value))
  }

  // ---------------------------------------------------------------- the printer

  function HexChar(d: nat): char
    requires d < 16
  {
    if d < 10 then DigitChar(d) else (d - 10 + 'a' as int) as char
  }

  function EscapeChar(c: char): string {
    if c == '\\' then "\\\\"
    else if c == '"' then "\\\""
    else if c == 8 as char then "\\b"
    else if c == 12 as char then "\\f"
    else if c == '\n' then "\\n"
    else if c == '\r' then "\\r"
    else if c == '\t' then "\\t"
    else if c < ' ' then "\\u00" + [HexChar(c as int / 16), HexChar(c as int % 16)]
    else [c]
  }

  function Escape(s: string): string {
    if s == [] then [] else EscapeChar(s[0]) + Escape(s[1..])
  }

  function Quoted(s: string): string { "\"" + Escape(s) + "\"" }

  function Print(v: Value): string {
    match v
    case Null => "null"
    case Bool(b) => if b then "true" else "false"
    case Int(n) => Itoa(n)
    case Str(s) => Quoted(s)
    case List(items) => "[" + PrintItems(items, true) + "]"
    case Map(entries) => "{" + PrintEntries(entries, true) + "}"
    case Other => "null"
  }

  function PrintItems(items: seq<Value>, first: bool): string {
    if items == [] then []
    else (if first then "" else ",") + Print(items[0]) + PrintItems(items[1..], false)
  }

  function PrintEntries(entries: seq<Entry>, first: bool): string {
    if entries == [] then []
    else if !entries[0].key.Str? then PrintEntries(entries[1..], first)
    else (if first then "" else ",") + PrintEntry(entries[0]) + PrintEntries(entries[1..], false)
  }

  function PrintEntry(e: Entry): string
    requires e.key.Str?
  {
    Quoted(e.key.s) + ":" + Print(e.value)
  }

  /** `BuildHelperRequestJson` without its final newline. */
  function Request(name: string, args: Option<Value>): string {
    "{\"method\":" + Quoted(name) + ",\"args\":" + (if args.None? then "{}" else Print(args.value)) + "}"
  }

  function BuildRequest(name: string, args: Option<Value>): string { Request(name, args) + "\n" }

  // ---------------------------------------------------------------- the reference parser

  predicate IsSpace(c: char) { c == ' ' || c == '\t' || c == '\n' || c == '\r' }

  function SkipSpace(s: string): (r: string)
    ensures |r| <= |s| && (r != [] ==> !IsSpace(r[0]))
  {
    if s != [] && IsSpace(s[0]) then SkipSpace(s[1..]) else s
  }

  function HexValue(c: char): Option<nat> {
    if IsDigit(c) then Some(DigitValue(c))
    else if 'a' <= c <= 'f' then Some(c as int - 'a' as int + 10)
    else if 'A' <= c <= 'F' then Some(c as int - 'A' as int + 10)
    else None
  }

  function Hex4(s: string): Option<nat>
    requires |s| >= 4
  {
    var (a, b, c, d) := (HexValue(s[0]), HexValue(s[1]), HexValue(s[2]), HexValue(s[3]));
    if a.None? || b.None? || c.None? || d.None? then None
    else Some(4096 * a.value + 256 * b.value + 16 * c.value + d.value)
  }

  /** What follows a backslash in a string (section 7), surrogate pairs included. */
  function ParseEscape(s: string): (r: Option<(char, string)>)
    ensures r.Some? ==> |r.value.1| < |s|
  {
    if s == [] then None
    else match s[0]
      case '"' => Some(('"', s[1..]))
      case '\\' => Some(('\\', s[1..]))
      case '/' => Some(('/', s[1..]))
      case 'b' => Some((8 as char, s[1..]))
      case 'f' => Some((12 as char, s[1..]))
      case 'n' => Some(('\n', s[1..]))
      case 'r' => Some(('\r', s[1..]))
      case 't' => Some(('\t', s[1..]))
      case 'u' =>
        if |s| < 5 || Hex4(s[1..]).None? then None
        else
          var h := Hex4(s[1..]).value;
          if h < 0xD800 || 0xE000 <= h <= 0xFFFF then Some((h as char, s[5..]))
          else if h >= 0xDC00 || |s| < 11 || s[5] != '\\' || s[6] != 'u' || Hex4(s[7..]).None? then None
          else
            var l := Hex4(s[7..]).value;
            if 0xDC00 <= l <= 0xDFFF then Some(((0x10000 + 0x400 * (h - 0xD800) + (l - 0xDC00)) as char, s[11..])) else None
      case _ => None
  }

  /** The rest of a string after its opening quote. */
  function ParseString(s: string): (r: Option<(string, string)>)
    ensures r.Some? ==> |r.value.1| < |s|
    decreases |s|
  {
    if s == [] || s[0] < ' ' then None
    else if s[0] == '"' then Some(([], s[1..]))
    else if s[0] == '\\' then
      var e := ParseEscape(s[1..]);
      if e.None? then None
      else
        var t := ParseString(e.value.1);
        if t.None? then None else Some(([e.value.0] + t.value.0, t.value.1))
    else
      var t := ParseString(s[1..]);
      if t.None? then None else Some(([s[0]] + t.value.0, t.value.1))
  }

  /** How many digits a text starts with. */
  function Digits(s: string): (n: nat)
    ensures n <= |s| && AllDigits(s[..n]) && (n < |s| ==> !IsDigit(s[n]))
  {
    if s == [] || !IsDigit(s[0]) then 0
    else
      var n := Digits(s[1..]);
      assert forall i :: 0 < i < n + 1 ==> s[i] == s[1..][i - 1];
      n + 1
  }

  /** Length of an optional fraction, or None for a point without digits. */
  function FracLength(s: string): (r: Option<nat>)
    ensures r.Some? ==> r.value <= |s|
  {
    if s == [] || s[0] != '.' then Some(0)
    else if Digits(s[1..]) == 0 then None
    else Some(1 + Digits(s[1..]))
  }

  /** Length of an optional exponent, or None for one without digits. */
  function ExpLength(s: string): (r: Option<nat>)
    ensures r.Some? ==> r.value <= |s|
  {
    if s == [] || (s[0] != 'e' && s[0] != 'E') then Some(0)
    else
      var sign := if |s| > 1 && (s[1] == '+' || s[1] == '-') then 1 else 0;
      if Digits(s[1 + sign..]) == 0 then None else Some(1 + sign + Digits(s[1 + sign..]))
  }

  /** Numbers (section 6): no leading zeros; with a fraction or an exponent the lexeme is kept as it is. */
  function ParseNumber(s: string): (r: Option<(Json, string)>)
    ensures r.Some? ==> |r.value.1| < |s|
  {
    var sign := if s != [] && s[0] == '-' then 1 else 0;
    var t := s[sign..];
    var n := Digits(t);
    if n == 0 || (t[0] == '0' && n > 1) then None
    else
      var rest := t[n..];
      var frac := FracLength(rest);
      if frac.None? then None
      else
        var exp := ExpLength(rest[frac.value..]);
        if exp.None? then None
        else if frac.value + exp.value == 0 then
          Some((JInt((if sign == 1 then -1 else 1) * DecimalValue(t[..n])), rest))
        else
          Some((JReal(s[..sign + n + frac.value + exp.value]), rest[frac.value..][exp.value..]))
  }

  function ParseWord(s: string, word: string, v: Json): (r: Option<(Json, string)>)
    requires word != []
    ensures r.Some? ==> |r.value.1| < |s|
  {
    if word <= s then Some((v, s[|word|..])) else None
  }

  function ParseValue(text: string): (r: Option<(Json, string)>)
    ensures r.Some? ==> |r.value.1| < |text|
    decreases |text|, 0
  {
    var s := SkipSpace(text);
    if s == [] then None
    else if s[0] == '-' || IsDigit(s[0]) then ParseNumber(s)
    else match s[0]
      case '"' =>
        var t := ParseString(s[1..]);
        if t.None? then None else Some((JStr(t.value.0), t.value.1))
      case '[' =>
        var t := SkipSpace(s[1..]);
        if t != [] && t[0] == ']' then Some((JArr([]), t[1..]))
        else
          var items := ParseItems(s[1..]);
          if items.None? then None else Some((JArr(items.value.0), items.value.1))
      case '{' =>
        var t := SkipSpace(s[1..]);
        if t != [] && t[0] == '}' then Some((JObj([]), t[1..]))
        else
          var members := ParseMembers(s[1..]);
          if members.None? then None else Some((JObj(members.value.0), members.value.1))
      case 'n' => ParseWord(s, "null", JNull)
      case 't' => ParseWord(s, "true", JBool(true))
      case 'f' => ParseWord(s, "false", JBool(false))
      case _ => None
  }

  /** One or more values separated by commas, up to the closing bracket (section 5). */
  function ParseItems(s: string): (r: Option<(seq<Json>, string)>)
    ensures r.Some? ==> |r.value.1| < |s|
    decreases |s|, 1
  {
    var v := ParseValue(s);
    if v.None? then None
    else
      var t := SkipSpace(v.value.1);
      if t == [] then None
      else if t[0] == ']' then Some(([v.value.0], t[1..]))
      else if t[0] != ',' then None
      else
        var more := ParseItems(t[1..]);
        if more.None? then None else Some(([v.value.0] + more.value.0, more.value.1))
  }

  /** One or more name-value members separated by commas, up to the closing brace (section 4). */
  function ParseMembers(text: string): (r: Option<(seq<Member>, string)>)
    ensures r.Some? ==> |r.value.1| < |text|
    decreases |text|, 1
  {
    var s := SkipSpace(text);
    if s == [] || s[0] != '"' then None
    else
      var name := ParseString(s[1..]);
      if name.None? then None
      else
        var c := SkipSpace(name.value.1);
        if c == [] || c[0] != ':' then None
        else
          var v := ParseValue(c[1..]);
          if v.None? then None
          else
            var m := Member(name.value.0, v.value.0);
            var t := SkipSpace(v.value.1);
            if t == [] then None
            else if t[0] == '}' then Some(([m], t[1..]))
            else if t[0] != ',' then None
            else
              var more := ParseMembers(t[1..]);
              if more.None? then None else Some(([m] + more.value.0, more.value.1))
  }

  /** A JSON text: one value with nothing but white space around it. */
  function ParseText(s: string): Option<Json> {
    var v := ParseValue(s);
    if v.Some? && SkipSpace(v.value.1) == [] then Some(v.value.0) else None
  }
}

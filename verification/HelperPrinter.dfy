/** The printer and the response reader as the loops they are, proved against the functions of `HelperJson`. */
module HelperPrinter {
  import opened Common
  import opened HelperJson

  method EscapeJsonString(value: string) returns (escaped: string)
    ensures escaped == Escape(value)
  {
    escaped := [];
    ghost var whole := Escape(value);
    assert value[0..] == value && escaped + whole == whole;
    for i := 0 to |value|
      invariant escaped + Escape(value[i..]) == whole
    {
      NextChar(escaped, value, i);
      escaped := escaped + EscapeChar(value[i]);
    }
    assert value[|value|..] == [] && escaped + [] == escaped;
  }

  lemma NextChar(escaped: string, value: string, i: nat)
    requires i < |value|
    ensures escaped + Escape(value[i..]) == escaped + EscapeChar(value[i]) + Escape(value[i + 1..])
  {
    assert value[i..][1..] == value[i + 1..];
    Together(escaped, EscapeChar(value[i]), Escape(value[i + 1..]));
  }

  lemma Together(a: string, b: string, c: string)
    ensures a + (b + c) == a + b + c
  {
  }

  method JsonFromEncodableValue(v: Value) returns (json: string)
    ensures json == Print(v)
    decreases v, 1
  {
    match v {
      case Null => json := "null";
      case Str(s) =>
        var escaped := EscapeJsonString(s);
        json := "\"" + escaped + "\"";
      case Bool(b) => json := if b then "true" else "false";
      case Int(n) => json := Itoa(n);
      case List(items) => json := JsonFromEncodableList(items);
      case Map(entries) => json := JsonFromEncodableMap(entries);
      case Other => json := "null";
    }
  }

  method JsonFromEncodableList(items: seq<Value>) returns (json: string)
    ensures json == "[" + PrintItems(items, true) + "]"
    decreases items, 0
  {
    json := "[";
    ghost var whole := "[" + PrintItems(items, true);
    for i := 0 to |items|
      invariant json + PrintItems(items[i..], i == 0) == whole
    {
      NextItem(json, items, i);
      if i > 0 {
        json := json + ",";
      }
      var item := JsonFromEncodableValue(items[i]);
      json := json + item;
    }
    NoItems(json, items);
    json := json + "]";
  }

  lemma NextItem(json: string, items: seq<Value>, i: nat)
    requires i < |items|
    ensures json + PrintItems(items[i..], i == 0)
            == (if i > 0 then json + "," else json) + Print(items[i]) + PrintItems(items[i + 1..], false)
  {
    assert items[i..][1..] == items[i + 1..];
    Regroup(json, if i > 0 then "," else "", Print(items[i]), PrintItems(items[i + 1..], false));
  }

  lemma Regroup(a: string, b: string, c: string, d: string)
    ensures a + (b + c + d) == a + b + c + d
  {
  }

  lemma NoItems(json: string, items: seq<Value>)
    ensures json + PrintItems(items[|items|..], |items| == 0) == json
  {
    assert items[|items|..] == [];
  }

  /** Entries whose key is not a string are skipped; the comma goes before every printed entry but the first. */
  method JsonFromEncodableMap(entries: seq<Entry>) returns (json: string)
    ensures json == "{" + PrintEntries(entries, true) + "}"
    decreases entries, 0
  {
    json := "{";
    var first := true;
    ghost var whole := "{" + PrintEntries(entries, true);
    for i := 0 to |entries|
      invariant json + PrintEntries(entries[i..], first) == whole
    {
      NextEntry(json, entries, i, first);
      if entries[i].key.Str? {
        if !first {
          json := json + ",";
        }
        first := false;
        var entry := PrintOneEntry(entries[i]);
        json := json + entry;
      }
    }
    NoEntries(json, entries, first);
    json := json + "}";
  }

  lemma NextEntry(json: string, entries: seq<Entry>, i: nat, first: bool)
    requires i < |entries|
    ensures json + PrintEntries(entries[i..], first)
            == if !entries[i].key.Str? then json + PrintEntries(entries[i + 1..], first)
               else (if first then json else json + ",") + PrintEntry(entries[i]) + PrintEntries(entries[i + 1..], false)
  {
    assert entries[i..][1..] == entries[i + 1..];
    if entries[i].key.Str? {
      Regroup(json, if first then "" else ",", PrintEntry(entries[i]), PrintEntries(entries[i + 1..], false));
    }
  }

  lemma NoEntries(json: string, entries: seq<Entry>, first: bool)
    ensures json + PrintEntries(entries[|entries|..], first) == json
  {
    assert entries[|entries|..] == [];
  }

  method PrintOneEntry(e: Entry) returns (json: string)
    requires e.key.Str?
    ensures json == PrintEntry(e)
    decreases e, 0
  {
    var name := EscapeJsonString(e.key.s);
    var value := JsonFromEncodableValue(e.value);
    json := "\"" + name + "\"" + ":" + value;
  }

  method BuildHelperRequestJson(name: string, args: Option<Value>) returns (request: string)
    ensures request == BuildRequest(name, args)
  {
    var escaped := EscapeJsonString(name);
    var json := "{}";
    if args.Some? {
      json := JsonFromEncodableValue(args.value);
    }
    RequestPieces(escaped, json);
    request := "{\"method\":\"" + escaped + "\",\"args\":" + json + "}\n";
  }

  lemma RequestPieces(escaped: string, json: string)
    ensures "{\"method\":\"" + escaped + "\",\"args\":" + json + "}\n"
            == "{\"method\":" + ("\"" + escaped + "\"") + ",\"args\":" + json + "}" + "\n"
  {
    assert "{\"method\":\"" + escaped + "\",\"args\":" == "{\"method\":" + ("\"" + escaped + "\"") + ",\"args\":";
  }

  /** `ReadResponseLine`: bytes up to the first newline, or failure when the stream ends before one. */
  method ReadResponseLine(stream: string) returns (ok: bool, response: string, rest: string)
    ensures ok <==> '\n' in stream
    ensures ok ==> stream == response + "\n" + rest && '\n' !in response
  {
    response, rest := [], stream;
    while rest != []
      invariant stream == response + rest && '\n' !in response
      decreases |rest|
    {
      var byte := rest[0];
      rest := rest[1..];
      if byte == '\n' {
        return true, response, rest;
      }
      response := response + [byte];
    }
    ok := false;
  }
}

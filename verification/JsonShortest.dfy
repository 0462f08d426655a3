/** The printer writes the shortest JSON text there is for a tree: no white space, no leading zeros, and no escape that
    section 7 of RFC 8259 does not ask for or that has a shorter form. */
module JsonShortest {
  import opened Common
  import opened HelperJson

  // ---------------------------------------------------------------- strings and numbers

  lemma EscapeShortest(s: string)
    ensures ParseEscape(s).Some? ==> 1 + |s| - |ParseEscape(s).value.1| >= |EscapeChar(ParseEscape(s).value.0)|
  {
  }

  /** Whatever is read as a string took at least its escaped form and the closing quote. */
  lemma {:induction false} StringShortest(text: string)
    ensures ParseString(text).Some? ==> |text| - |ParseString(text).value.1| >= |Escape(ParseString(text).value.0)| + 1
    decreases |text|
  {
    if ParseString(text).Some? && text[0] != '"' {
      var s := ParseString(text).value.0;
      if text[0] == '\\' {
        EscapeShortest(text[1..]);
        StringShortest(ParseEscape(text[1..]).value.1);
        EscapeCons(ParseEscape(text[1..]).value.0, ParseString(ParseEscape(text[1..]).value.1).value.0);
      } else {
        StringShortest(text[1..]);
        EscapeCons(text[0], ParseString(text[1..]).value.0);
      }
    }
  }

  lemma EscapeCons(c: char, s: string)
    ensures Escape([c] + s) == EscapeChar(c) + Escape(s)
  {
    assert ([c] + s)[1..] == s;
  }

  /** Digits without a leading zero are the numeral of their value. */
  lemma {:induction false} DecimalOfValue(t: string)
    requires AllDigits(t) && t != [] && (t[0] != '0' || |t| == 1)
    ensures Decimal(DecimalValue(t)) == t && (t[0] != '0' ==> DecimalValue(t) > 0)
  {
    var front, d := t[..|t| - 1], DigitValue(t[|t| - 1]);
    assert DigitChar(d) == t[|t| - 1];
    if |t| == 1 {
      assert front == [] && DecimalValue(front) == 0 && t == [t[0]];
    } else {
      DecimalOfValue(front);
      LastDigit(DecimalValue(front), d);
      assert t == front + [t[|t| - 1]];
    }
  }

  lemma LastDigit(v: nat, d: nat)
    requires d < 10 && v > 0
    ensures Decimal(10 * v + d) == Decimal(v) + [DigitChar(d)]
  {
    assert (10 * v + d) / 10 == v && (10 * v + d) % 10 == d;
  }

  lemma NumberShortest(s: string)
    ensures ParseNumber(s).Some? && ParseNumber(s).value.0.JInt? ==>
              |s| - |ParseNumber(s).value.1| >= |Itoa(ParseNumber(s).value.0.n)|
  {
    if ParseNumber(s).Some? && ParseNumber(s).value.0.JInt? {
      var sign := if s[0] == '-' then 1 else 0;
      var t := s[sign..];
      var n := Digits(t);
      assert ParseNumber(s).value == (JInt((if sign == 1 then -1 else 1) * DecimalValue(t[..n])), t[n..]);
      NumeralLength(t[..n], sign == 1);
    }
  }

  /** A numeral is as long as the digits it is the value of, or shorter by the sign of a negative zero. */
  lemma NumeralLength(digits: string, negative: bool)
    requires AllDigits(digits) && digits != [] && (digits[0] != '0' || |digits| == 1)
    ensures |Itoa((if negative then -1 else 1) * DecimalValue(digits))| <= |digits| + if negative then 1 else 0
  {
    DecimalOfValue(digits);
    var v: int := DecimalValue(digits);
    if negative && v > 0 {
      assert Itoa(-v) == ['-'] + Decimal(v);
    }
  }

  // ---------------------------------------------------------------- sizes

  function Size(j: Json): nat {
    match j
    case JNull => 4
    case JBool(b) => if b then 4 else 5
    case JInt(n) => |Itoa(n)|
    case JReal(_) => 0
    case JStr(s) => |Escape(s)| + 2
    case JArr(items) => SizeItems(items) + 2
    case JObj(members) => SizeMembers(members) + 2
  }

  function SizeItems(items: seq<Json>): nat {
    if items == [] then 0 else Size(items[0]) + (if |items| > 1 then 1 else 0) + SizeItems(items[1..])
  }

  function SizeMembers(members: seq<Member>): nat {
    if members == [] then 0 else SizeMember(members[0]) + (if |members| > 1 then 1 else 0) + SizeMembers(members[1..])
  }

  function SizeMember(m: Member): nat { |Escape(m.name)| + 3 + Size(m.value) }

  // ---------------------------------------------------------------- no text is shorter

  lemma {:induction false} ValueShortest(text: string)
    ensures ParseValue(text).Some? ==> |text| - |ParseValue(text).value.1| >= Size(ParseValue(text).value.0)
    decreases |text|, 0
  {
    var s := SkipSpace(text);
    if ParseValue(text).Some? {
      if s[0] == '-' || IsDigit(s[0]) {
        NumberShortest(s);
      } else if s[0] == '"' {
        StringShortest(s[1..]);
      } else if s[0] == '[' {
        ItemsShortest(s[1..]);
      } else if s[0] == '{' {
        MembersShortest(s[1..]);
      }
    }
  }

  lemma {:induction false} ItemsShortest(s: string)
    ensures ParseItems(s).Some? ==>
              ParseItems(s).value.0 != [] && |s| - |ParseItems(s).value.1| >= SizeItems(ParseItems(s).value.0) + 1
    decreases |s|, 1
  {
    if ParseItems(s).Some? {
      ValueShortest(s);
      var v := ParseValue(s).value;
      var t := SkipSpace(v.1);
      if t[0] == ',' {
        ItemsShortest(t[1..]);
        ItemsCons(v.0, ParseItems(t[1..]).value.0);
      } else {
        assert [v.0][1..] == [];
      }
    }
  }

  lemma ItemsCons(j: Json, more: seq<Json>)
    requires more != []
    ensures SizeItems([j] + more) == Size(j) + 1 + SizeItems(more)
  {
    assert ([j] + more)[1..] == more;
  }

  lemma MembersCons(m: Member, more: seq<Member>)
    requires more != []
    ensures SizeMembers([m] + more) == SizeMember(m) + 1 + SizeMembers(more)
  {
    assert ([m] + more)[1..] == more;
  }

  lemma {:induction false} MembersShortest(text: string)
    ensures ParseMembers(text).Some? ==>
              && ParseMembers(text).value.0 != []
              && |text| - |ParseMembers(text).value.1| >= SizeMembers(ParseMembers(text).value.0) + 1
    decreases |text|, 1
  {
    if ParseMembers(text).Some? {
      var s := SkipSpace(text);
      StringShortest(s[1..]);
      var name := ParseString(s[1..]).value;
      var c := SkipSpace(name.1);
      ValueShortest(c[1..]);
      var v := ParseValue(c[1..]).value;
      var m := Member(name.0, v.0);
      var t := SkipSpace(v.1);
      if t[0] == ',' {
        MembersShortest(t[1..]);
        MembersCons(m, ParseMembers(t[1..]).value.0);
      } else {
        assert [m][1..] == [];
      }
    }
  }

  // ---------------------------------------------------------------- the printer is that short

  lemma {:induction false} PrintSize(v: Value)
    ensures |Print(v)| == Size(ToJson(v))
    decreases v, 1
  {
    match v
    case List(items) => ItemsPrintSize(items, true);
    case Map(entries) => EntriesPrintSize(entries, true);
    case _ =>
  }

  lemma {:induction false} ItemsPrintSize(items: seq<Value>, first: bool)
    ensures |PrintItems(items, first)| == SizeItems(ToItems(items)) + if items != [] && !first then 1 else 0
    decreases items, 0
  {
    if items != [] {
      PrintSize(items[0]);
      ItemsPrintSize(items[1..], false);
      assert ToItems(items)[1..] == ToItems(items[1..]);
      ItemsLength(items);
    }
  }

  lemma {:induction false} ItemsLength(items: seq<Value>)
    ensures |ToItems(items)| == |items|
  {
    if items != [] {
      ItemsLength(items[1..]);
    }
  }

  lemma {:induction false} EntriesPrintSize(entries: seq<Entry>, first: bool)
    ensures |PrintEntries(entries, first)|
            == SizeMembers(ToMembers(entries)) + if ToMembers(entries) != [] && !first then 1 else 0
    decreases entries, 0
  {
    if entries != [] {
      if entries[0].key.Str? {
        EntryPrintSize(entries[0]);
        EntriesPrintSize(entries[1..], false);
        assert ToMembers(entries)[1..] == ToMembers(entries[1..]);
      } else {
        EntriesPrintSize(entries[1..], first);
      }
    }
  }

  lemma {:induction false} EntryPrintSize(e: Entry)
    requires e.key.Str?
    ensures |PrintEntry(e)| == SizeMember(ToMember(e))
    decreases e, 0
  {
    PrintSize(e.value);
  }

  /** No JSON text for the tree is shorter than the printed one. */
  lemma PrintIsShortest(v: Value, text: string)
    requires ParseText(text) == Some(ToJson(v))
    ensures |Print(v)| <= |text|
  {
    PrintSize(v);
    ValueShortest(text);
  }
}

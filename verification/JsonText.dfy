// The compact text that JSON.stringify writes and JSON.parse reads back (RFC 8259), for the values
// that job bodies are made of: strings, whole numbers, booleans, lists and objects.
module JsonText {
  import opened Wrappers
  import opened JsText

  const HEX := "0123456789abcdef"

  function EscapeChar(c: char): string {
    match c
    case '"' => "\\\""
    case '\\' => "\\\\"
    case '\n' => "\\n"
    case '\r' => "\\r"
    case '\t' => "\\t"
    case '\U{08}' => "\\b"
    case '\U{0C}' => "\\f"
    case _ => if c as int < 0x20 then "\\u00" + [HEX[c as int / 0x10], HEX[c as int % 0x10]] else [c]
  }

  function Escape(s: string): string {
    if s == "" then "" else EscapeChar(s[0]) + Escape(s[1..])
  }

  function Quote(s: string): string { "\"" + (Escape(s) + "\"") }

  // The members of an object stand in the order of its text.
  datatype Json = Str(text: string) | Num(n: nat) | Bool(b: bool) | Arr(items: seq<Json>) | Obj(members: seq<Member>)
  datatype Member = Member(key: string, value: Json)

  function Text(j: Json): string
    decreases j, 0
  {
    match j
    case Str(s) => Quote(s)
    case Num(n) => Digits(n)
    case Bool(b) => if b then "true" else "false"
    case Arr(items) => "[" + (ItemsText(items) + "]")
    case Obj(members) => "{" + (MembersText(members) + "}")
  }

  function ItemsText(js: seq<Json>): string
    decreases js, 1
  {
    if js == [] then "" else if |js| == 1 then Text(js[0]) else Text(js[0]) + ("," + ItemsText(js[1..]))
  }

  function MemberText(m: Member): string
    decreases m, 1
  {
    Quote(m.key) + (":" + Text(m.value))
  }

  function MembersText(ms: seq<Member>): string
    decreases ms, 2
  {
    if ms == [] then "" else if |ms| == 1 then MemberText(ms[0]) else MemberText(ms[0]) + ("," + MembersText(ms[1..]))
  }

  // ---- The reader ----

  // What is read, and the text after it.
  type Read<T> = Option<(T, string)>

  function HexValue(c: char): Option<nat> {
    if '0' <= c <= '9' then Some(c as int - '0' as int)
    else if 'a' <= c <= 'f' then Some(c as int - 'a' as int + 10)
    else if 'A' <= c <= 'F' then Some(c as int - 'A' as int + 10)
    else None
  }

  function ReadHex(s: string): Option<nat>
    requires |s| == 4
  {
    var a, b, c, d := HexValue(s[0]), HexValue(s[1]), HexValue(s[2]), HexValue(s[3]);
    if a.None? || b.None? || c.None? || d.None? then None
    else Some(a.value * 0x1000 + b.value * 0x100 + c.value * 0x10 + d.value)
  }

  // One character within a string. A surrogate is not read: it is written for no character.
  function ReadChar(s: string): (r: Read<char>)
    ensures r.Some? ==> |r.value.1| < |s|
  {
    if s == "" || s[0] == '"' || s[0] as int < 0x20 then None
    else if s[0] != '\\' then Some((s[0], s[1..]))
    else if |s| < 2 then None
    else
      match s[1]
      case '"' => Some(('"', s[2..]))
      case '\\' => Some(('\\', s[2..]))
      case '/' => Some(('/', s[2..]))
      case 'b' => Some(('\U{08}', s[2..]))
      case 'f' => Some(('\U{0C}', s[2..]))
      case 'n' => Some(('\n', s[2..]))
      case 'r' => Some(('\r', s[2..]))
      case 't' => Some(('\t', s[2..]))
      case 'u' =>
        if |s| < 6 || ReadHex(s[2..6]).None? || 0xD800 <= ReadHex(s[2..6]).value < 0xE000 then None
        else Some((ReadHex(s[2..6]).value as char, s[6..]))
      case _ => None
  }

  // The rest of a string whose quotation mark has been read.
  function ReadString(s: string): (r: Read<string>)
    ensures r.Some? ==> |r.value.1| < |s|
    decreases |s|
  {
    if s != "" && s[0] == '"' then Some(("", s[1..]))
    else
      match ReadChar(s)
      case None => None
      case Some((c, rest)) =>
        match ReadString(rest)
        case None => None
        case Some((t, after)) => Some(([c] + t, after))
  }

  predicate IsDigit(c: char) { '0' <= c <= '9' }

  function DigitsAhead(s: string): (n: nat)
    ensures n <= |s|
  {
    if s == "" || !IsDigit(s[0]) then 0 else 1 + DigitsAhead(s[1..])
  }

  function Numeral(s: string): nat
    requires forall c | c in s :: IsDigit(c)
  {
    if s == "" then 0
    else
      var last := s[|s| - 1];
      assert IsDigit(last);
      Numeral(s[..|s| - 1]) * 10 + (last as int - '0' as int)
  }

  lemma AheadAreDigits(s: string)
    ensures forall c | c in s[..DigitsAhead(s)] :: IsDigit(c)
  {
    if s != "" && IsDigit(s[0]) {
      AheadAreDigits(s[1..]);
      assert s[..DigitsAhead(s)] == [s[0]] + s[1..][..DigitsAhead(s[1..])];
    }
  }

  // A whole number; no other begins with 0.
  function ReadNum(s: string): (r: Read<nat>)
    ensures r.Some? ==> |r.value.1| < |s|
  {
    var k := DigitsAhead(s);
    AheadAreDigits(s);
    if k == 0 || (k > 1 && s[0] == '0') then None else Some((Numeral(s[..k]), s[k..]))
  }

  function ReadValue(s: string): (r: Read<Json>)
    ensures r.Some? ==> |r.value.1| < |s|
    decreases |s|, 0
  {
    if s == "" then None
    else if s[0] == '"' then
      match ReadString(s[1..])
      case None => None
      case Some((t, rest)) => Some((Str(t), rest))
    else if "true" <= s then Some((Bool(true), s[4..]))
    else if "false" <= s then Some((Bool(false), s[5..]))
    else if "[]" <= s then Some((Arr([]), s[2..]))
    else if "{}" <= s then Some((Obj([]), s[2..]))
    else if s[0] == '[' then
      match ReadItems(s[1..])
      case None => None
      case Some((items, rest)) => Some((Arr(items), rest))
    else if s[0] == '{' then
      match ReadMembers(s[1..])
      case None => None
      case Some((members, rest)) => Some((Obj(members), rest))
    else
      match ReadNum(s)
      case None => None
      case Some((n, rest)) => Some((Num(n), rest))
  }

  // One or more values, up to and with the closing bracket.
  function ReadItems(s: string): (r: Read<seq<Json>>)
    ensures r.Some? ==> |r.value.1| < |s|
    decreases |s|, 1
  {
    match ReadValue(s)
    case None => None
    case Some((j, rest)) =>
      if rest != "" && rest[0] == ']' then Some(([j], rest[1..]))
      else if rest != "" && rest[0] == ',' then
        match ReadItems(rest[1..])
        case None => None
        case Some((js, after)) => Some(([j] + js, after))
      else None
  }

  function ReadMember(s: string): (r: Read<Member>)
    ensures r.Some? ==> |r.value.1| < |s|
    decreases |s|, 1
  {
    if s == "" || s[0] != '"' then None
    else
      match ReadString(s[1..])
      case None => None
      case Some((key, rest)) =>
        if rest == "" || rest[0] != ':' then None
        else
          match ReadValue(rest[1..])
          case None => None
          case Some((j, after)) => Some((Member(key, j), after))
  }

  // One or more members, up to and with the closing brace.
  function ReadMembers(s: string): (r: Read<seq<Member>>)
    ensures r.Some? ==> |r.value.1| < |s|
    decreases |s|, 2
  {
    match ReadMember(s)
    case None => None
    case Some((m, rest)) =>
      if rest != "" && rest[0] == '}' then Some(([m], rest[1..]))
      else if rest != "" && rest[0] == ',' then
        match ReadMembers(rest[1..])
        case None => None
        case Some((ms, after)) => Some(([m] + ms, after))
      else None
  }

  // A whole text.
  function Parse(s: string): Option<Json> {
    match ReadValue(s)
    case Some((j, rest)) => if rest == "" then Some(j) else None
    case None => None
  }

  // ---- What was written is read back ----

  lemma ReadOfEscapedChar(c: char, rest: string)
    ensures ReadChar(EscapeChar(c) + rest) == Some((c, rest))
    ensures EscapeChar(c) != "" && EscapeChar(c)[0] != '"'
  {
    var s := EscapeChar(c) + rest;
    assert s[|EscapeChar(c)|..] == rest;
    if |EscapeChar(c)| == 6 {
      var v := c as int;
      assert s[0] == '\\' && s[1] == 'u' && s[2] == s[3] == '0' && s[4] == HEX[v / 0x10] && s[5] == HEX[v % 0x10];
      ReadOfUnicode(s, v);
    }
    hide ReadHex;
  }

  lemma ReadOfUnicode(s: string, v: nat)
    requires v < 0x20 && |s| >= 6
    requires s[0] == '\\' && s[1] == 'u' && s[2] == s[3] == '0' && s[4] == HEX[v / 0x10] && s[5] == HEX[v % 0x10]
    ensures ReadChar(s) == Some((v as char, s[6..]))
  {
    HexOfValue(v / 0x10);
    HexOfValue(v % 0x10);
    assert ReadHex(s[2..6]) == Some(v);
    hide ReadHex;
  }

  lemma HexOfValue(v: nat)
    requires v < 0x10
    ensures HexValue(HEX[v]) == Some(v)
  {
  }

  // Unescaping the escaped text, up to the closing quotation mark, gives the text back.
  lemma {:induction false} ReadOfEscape(t: string, rest: string)
    ensures ReadString(Escape(t) + ("\"" + rest)) == Some((t, rest))
  {
    hide EscapeChar, ReadChar;
    if t == "" {
      assert Escape(t) + ("\"" + rest) == "\"" + rest;
      assert ("\"" + rest)[1..] == rest;
    } else {
      var tail := Escape(t[1..]) + ("\"" + rest);
      assert Escape(t) + ("\"" + rest) == EscapeChar(t[0]) + tail;
      ReadOfEscapedChar(t[0], tail);
      ReadOfEscape(t[1..], rest);
      assert [t[0]] + t[1..] == t;
    }
  }

  predicate NoDigitAhead(rest: string) { rest == "" || !IsDigit(rest[0]) }

  lemma {:induction false} AheadOf(s: string, rest: string)
    requires (forall c | c in s :: IsDigit(c)) && NoDigitAhead(rest)
    ensures DigitsAhead(s + rest) == |s|
  {
    if s == "" {
      assert s + rest == rest;
    } else {
      assert (s + rest)[1..] == s[1..] + rest && s[0] in s;
      AheadOf(s[1..], rest);
    }
  }

  lemma {:induction false} DigitsMean(n: nat)
    ensures forall c | c in Digits(n) :: IsDigit(c)
    ensures Numeral(Digits(n)) == n
    ensures Digits(n)[0] == '0' ==> n == 0
  {
    if n >= 10 {
      DigitsMean(n / 10);
      assert Digits(n)[..|Digits(n)| - 1] == Digits(n / 10);
    }
  }

  lemma ReadOfNum(n: nat, rest: string)
    requires NoDigitAhead(rest)
    ensures ReadNum(Digits(n) + rest) == Some((n, rest))
  {
    var s := Digits(n) + rest;
    DigitsMean(n);
    AheadOf(Digits(n), rest);
    assert s[..|Digits(n)|] == Digits(n) && s[|Digits(n)|..] == rest && s[0] == Digits(n)[0];
  }

  lemma StringFirst(t: string, rest: string)
    ensures var s := Quote(t) + rest; s != "" && s[0] == '"' && ReadString(s[1..]) == Some((t, rest))
  {
    hide Escape, ReadString;
    var s := Quote(t) + rest;
    assert s[1..] == Escape(t) + ("\"" + rest);
    ReadOfEscape(t, rest);
  }

  lemma ClosingIsNoValue(s: string)
    requires s != "" && s[0] in {']', '}'}
    ensures ReadItems(s) == None && ReadMembers(s) == None
  {
  }

  lemma StrRead(s: string, t: string, rest: string)
    requires s != "" && s[0] == '"' && ReadString(s[1..]) == Some((t, rest))
    ensures ReadValue(s) == Some((Str(t), rest))
  {
  }

  lemma NumRead(s: string, n: nat, rest: string)
    requires s != "" && IsDigit(s[0]) && ReadNum(s) == Some((n, rest))
    ensures ReadValue(s) == Some((Num(n), rest))
  {
    hide ReadNum;
  }

  lemma ListsRead(s: string)
    requires s != ""
    ensures s[0] == '[' && ReadItems(s[1..]).Some? ==>
              ReadValue(s) == Some((Arr(ReadItems(s[1..]).value.0), ReadItems(s[1..]).value.1))
    ensures s[0] == '{' && ReadMembers(s[1..]).Some? ==>
              ReadValue(s) == Some((Obj(ReadMembers(s[1..]).value.0), ReadMembers(s[1..]).value.1))
  {
    if |s| > 1 && s[1] in {']', '}'} { ClosingIsNoValue(s[1..]); }
    hide ReadItems, ReadMembers;
  }

  lemma WordsRead(rest: string)
    ensures ReadValue("true" + rest) == Some((Bool(true), rest))
    ensures ReadValue("false" + rest) == Some((Bool(false), rest))
    ensures ReadValue("[]" + rest) == Some((Arr([]), rest))
    ensures ReadValue("{}" + rest) == Some((Obj([]), rest))
  {
    assert ("true" + rest)[4..] == ("false" + rest)[5..] == ("[]" + rest)[2..] == ("{}" + rest)[2..] == rest;
  }

  // Reading the text of a value gives the value back, whatever follows it.
  lemma {:induction false} ReadOfText(j: Json, rest: string)
    requires NoDigitAhead(rest)
    ensures ReadValue(Text(j) + rest) == Some((j, rest))
    decreases j, 0
  {
    hide ReadValue, ReadItems, ReadMembers, ReadString, ReadNum, Quote, Digits, ItemsText, MembersText;
    var s := Text(j) + rest;
    match j
    case Str(t) => StringFirst(t, rest); StrRead(s, t, rest);
    case Num(n) => DigitFirst(n, rest); ReadOfNum(n, rest); NumRead(s, n, rest);
    case Bool(b) => WordsRead(rest);
    case Arr(items) =>
      if items == [] {
        EmptyTexts();
        WordsRead(rest);
      } else {
        assert s[1..] == ItemsText(items) + ("]" + rest);
        ReadOfItems(items, rest);
        ListsRead(s);
      }
    case Obj(members) =>
      if members == [] {
        EmptyTexts();
        WordsRead(rest);
      } else {
        assert s[1..] == MembersText(members) + ("}" + rest);
        ReadOfMembers(members, rest);
        ListsRead(s);
      }
  }

  lemma EmptyTexts()
    ensures Text(Arr([])) == "[]" && Text(Obj([])) == "{}"
  {
  }

  lemma DigitFirst(n: nat, rest: string)
    ensures IsDigit((Digits(n) + rest)[0])
  {
    DigitsMean(n);
    assert Digits(n)[0] in Digits(n);
  }

  lemma {:induction false} ReadOfItems(js: seq<Json>, rest: string)
    requires js != []
    ensures ReadItems(ItemsText(js) + ("]" + rest)) == Some((js, rest))
    decreases js, 1
  {
    hide Text, ReadValue;
    if |js| == 1 {
      ReadOfText(js[0], "]" + rest);
      assert js == [js[0]] && ("]" + rest)[1..] == rest;
    } else {
      var tail := ItemsText(js[1..]) + ("]" + rest);
      assert ItemsText(js) + ("]" + rest) == Text(js[0]) + ("," + tail);
      ReadOfText(js[0], "," + tail);
      assert ("," + tail)[1..] == tail;
      ReadOfItems(js[1..], rest);
      assert js == [js[0]] + js[1..];
    }
  }

  lemma {:induction false} ReadOfMember(m: Member, rest: string)
    requires NoDigitAhead(rest)
    ensures ReadMember(MemberText(m) + rest) == Some((m, rest))
    decreases m, 1
  {
    hide Text, ReadValue, Quote, ReadString;
    var tail := Text(m.value) + rest;
    assert MemberText(m) + rest == Quote(m.key) + (":" + tail);
    StringFirst(m.key, ":" + tail);
    assert (":" + tail)[1..] == tail;
    ReadOfText(m.value, rest);
  }

  lemma {:induction false} ReadOfMembers(ms: seq<Member>, rest: string)
    requires ms != []
    ensures ReadMembers(MembersText(ms) + ("}" + rest)) == Some((ms, rest))
    decreases ms, 2
  {
    hide MemberText, ReadMember;
    if |ms| == 1 {
      ReadOfMember(ms[0], "}" + rest);
      assert ms == [ms[0]] && ("}" + rest)[1..] == rest;
    } else {
      var tail := MembersText(ms[1..]) + ("}" + rest);
      assert MembersText(ms) + ("}" + rest) == MemberText(ms[0]) + ("," + tail);
      ReadOfMember(ms[0], "," + tail);
      assert ("," + tail)[1..] == tail;
      ReadOfMembers(ms[1..], rest);
      assert ms == [ms[0]] + ms[1..];
    }
  }

  // JSON.parse undoes JSON.stringify.
  lemma ParseOfText(j: Json)
    ensures Parse(Text(j)) == Some(j)
  {
    hide Text, ReadValue;
    ReadOfText(j, "");
    assert Text(j) + "" == Text(j);
  }

  // ---- Members by name ----

  // Of two members with one key the later is kept.
  function Get(ms: seq<Member>, key: string): Option<Json> {
    if ms == [] then None
    else if ms[|ms| - 1].key == key then Some(ms[|ms| - 1].value)
    else Get(ms[..|ms| - 1], key)
  }

  lemma {:induction false} GetIs(ms: seq<Member>, i: nat, key: string)
    requires i < |ms| && ms[i].key == key && forall j | i < j < |ms| :: ms[j].key != key
    ensures Get(ms, key) == Some(ms[i].value)
  {
    if i < |ms| - 1 { GetIs(ms[..|ms| - 1], i, key); }
  }

  lemma {:induction false} GetNone(ms: seq<Member>, key: string)
    requires forall m | m in ms :: m.key != key
    ensures Get(ms, key) == None
  {
    if ms != [] { GetNone(ms[..|ms| - 1], key); }
  }

  lemma {:induction false} GetAppend(ms: seq<Member>, ns: seq<Member>, key: string)
    ensures Get(ms + ns, key) == if Get(ns, key).Some? then Get(ns, key) else Get(ms, key)
  {
    if ns == [] {
      assert ms + ns == ms;
    } else {
      assert (ms + ns)[..|ms + ns| - 1] == ms + ns[..|ns| - 1];
      GetAppend(ms, ns[..|ns| - 1], key);
    }
  }

  lemma {:induction false} MembersTextAppend(ms: seq<Member>, ns: seq<Member>)
    requires ms != [] && ns != []
    ensures MembersText(ms + ns) == MembersText(ms) + ("," + MembersText(ns))
  {
    hide MemberText;
    assert (ms + ns)[0] == ms[0];
    if |ms| == 1 {
      assert (ms + ns)[1..] == ns;
    } else {
      assert (ms + ns)[1..] == ms[1..] + ns;
      MembersTextAppend(ms[1..], ns);
    }
  }

  // ---- The text that is written ----

  predicate LowerHex(t: string) { forall i | 0 <= i < |t| :: !('A' <= t[i] <= 'F') }

  // What stands for a character within a string: of all legal spellings the shortest, in lower case.
  lemma EscapeIsShortest(c: char, t: string)
    requires ReadChar(t) == Some((c, ""))
    ensures |t| >= |EscapeChar(c)|
    ensures |t| == |EscapeChar(c)| && (|t| == 6 ==> LowerHex(t)) ==> t == EscapeChar(c)
  {
    if t[0] == '\\' && t[1] == 'u' {
      EscapesAreShort(c);
      UnicodeSpelling(t, c);
      if |EscapeChar(c)| == 6 && LowerHex(t) { SameHex(t, c); }
      hide ReadHex, ReadChar, EscapeChar;
    } else {
      ShortSpelling(t, c);
    }
  }

  lemma EscapesAreShort(c: char)
    ensures |EscapeChar(c)| in {1, 2, 6} && (|EscapeChar(c)| == 6 ==> c as int < 0x20)
  {
  }

  lemma ReadHexFits(s: string)
    requires |s| == 4 && ReadHex(s).Some?
    ensures ReadHex(s).value < 0x1_0000
  {
  }

  lemma UnicodeSpelling(t: string, c: char)
    requires ReadChar(t) == Some((c, "")) && t[0] == '\\' && t[1] == 'u'
    ensures |t| == 6 && ReadHex(t[2..6]) == Some(c as int)
  {
    hide ReadHex;
    assert |t| >= 6 && ReadHex(t[2..6]).Some? && t[6..] == "";
    ReadHexFits(t[2..6]);
    assert (ReadHex(t[2..6]).value as char) as int == ReadHex(t[2..6]).value;
  }

  lemma ShortSpelling(t: string, c: char)
    requires ReadChar(t) == Some((c, "")) && !(t[0] == '\\' && t[1] == 'u')
    ensures |t| <= 2 && |EscapeChar(c)| <= |t| && (|EscapeChar(c)| == |t| ==> t == EscapeChar(c))
  {
    hide ReadHex;
  }

  lemma SameHex(t: string, c: char)
    requires |t| == 6 && LowerHex(t) && t[0] == '\\' && t[1] == 'u' && ReadHex(t[2..6]) == Some(c as int) && |EscapeChar(c)| == 6
    ensures t == EscapeChar(c)
  {
    EscapesAreShort(c);
    HexIs(t[2]);
    HexIs(t[3]);
    HexIs(t[4]);
    HexIs(t[5]);
    FourDigits(HexValue(t[2]).value, HexValue(t[3]).value, HexValue(t[4]).value, HexValue(t[5]).value, c as int);
    assert EscapeChar(c) == ['\\', 'u', '0', '0', HEX[c as int / 0x10], HEX[c as int % 0x10]];
    hide HexValue, EscapeChar, ReadHex;
    assert t == [t[0], t[1], t[2], t[3], t[4], t[5]];
  }

  lemma FourDigits(a: nat, b: nat, c: nat, d: nat, v: int)
    requires a < 16 && b < 16 && c < 16 && d < 16 && a * 0x1000 + b * 0x100 + c * 0x10 + d == v < 0x20
    ensures a == 0 && b == 0 && c == v / 0x10 && d == v % 0x10
  {
  }

  lemma HexIs(c: char)
    requires HexValue(c).Some? && !('A' <= c <= 'F')
    ensures HexValue(c).value < 16 && HEX[HexValue(c).value] == c
  {
  }

  // A sample of the layout: no white space, members in order.
  lemma TextOfSample()
    ensures Text(Obj([Member("a", Arr([Num(10), Bool(true)])), Member("b", Str("x\n"))])) ==
            "{" + "\"a\":[10,true]" + "," + "\"b\":\"x\\n\"" + "}"
  {
    var a, b := Member("a", Arr([Num(10), Bool(true)])), Member("b", Str("x\n"));
    FirstOfSample();
    SecondOfSample();
    assert Text(Obj([a, b])) == "{" + (MembersText([a, b]) + "}");
    assert MembersText([a, b]) == MemberText(a) + ("," + MemberText(b)) by { assert [a, b][1..] == [b]; }
    hide Text, MembersText, MemberText;
  }

  lemma FirstOfSample()
    ensures MemberText(Member("a", Arr([Num(10), Bool(true)]))) == "\"a\":[10,true]"
  {
    assert Digits(10) == "10" && Escape("a") == "a";
    assert ItemsText([Num(10), Bool(true)]) == "10" + ("," + "true") by { assert [Num(10), Bool(true)][1..] == [Bool(true)]; }
    assert Text(Arr([Num(10), Bool(true)])) == "[10,true]";
    hide Text, ItemsText, Escape, Digits;
  }

  lemma SecondOfSample()
    ensures MemberText(Member("b", Str("x\n"))) == "\"b\":\"x\\n\""
  {
    assert Escape("b") == "b" && Escape("x\n") == "x" + Escape("\n") && Escape("\n") == "\\n" by { assert "x\n"[1..] == "\n"; }
    assert Text(Str("x\n")) == Quote("x\n");
    hide Text, Escape;
  }
}

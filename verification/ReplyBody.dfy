// The assembled message body of output_transport.ts: what JSON.stringify writes, what it costs in
// UTF-8 bytes, how that cost grows with the text, and what its receiver parses.
module ReplyBody {
  import opened Wrappers
  import opened JsText
  import opened JsonText
  import opened Utf8

  // The metadata members that a sender spreads after the text.
  datatype Extra =
    | NoExtra
    | ClaimExtra(result_ref: string, sha256: string, len: nat, encoding: string, expires_at: string)
    | TruncateExtra(original_bytes: nat, emitted_bytes: nat)
    | InputExtra(result_ref: string, sha256: string, len: nat)

  function ExtraMembers(e: Extra): seq<Member> {
    match e
    case NoExtra => []
    case ClaimExtra(result_ref, sha256, len, encoding, expires_at) =>
      [Member("output_preview", Bool(true)), Member("result_ref", Str(result_ref)), Member("sha256", Str(sha256)),
       Member("len", Num(len)), Member("encoding", Str(encoding)), Member("expires_at", Str(expires_at)),
       Member("truncated", Bool(false))]
    case TruncateExtra(original, emitted) =>
      [Member("truncated", Bool(true)), Member("original_bytes", Num(original)), Member("emitted_bytes", Num(emitted))]
    case InputExtra(result_ref, sha256, len) =>
      [Member("input_preview", Bool(true)), Member("input_ref", Obj(RefMembers(result_ref, sha256, len)))]
  }

  function RefMembers(result_ref: string, sha256: string, len: nat): seq<Member> {
    [Member("result_ref", Str(result_ref)), Member("sha256", Str(sha256)), Member("len", Num(len))]
  }

  // Members that follow others.
  function After(ms: seq<Member>): string { if ms == [] then "" else "," + MembersText(ms) }

  function Members(e: Extra): string { After(ExtraMembers(e)) }

  // A plain-text body is the text itself. A job body is an object: the serialized members before
  // the text, the text, the serialized members after it, and the extra members.
  datatype Wrap = Plain | Job(before: string, after: string)

  function Body(w: Wrap, text: string, e: Extra): string {
    match w
    case Plain => text
    case Job(before, after) => before + (Quote(text) + (after + (Members(e) + "}")))
  }

  function BodyBytes(w: Wrap, text: string, e: Extra): nat { ByteLength(Body(w, text, e)) }

  predicate Fits(w: Wrap, text: string, e: Extra, bodyCap: int) { BodyBytes(w, text, e) <= bodyCap }

  // The bytes of the body, encoded, are within the cap.
  lemma FitsIs(w: Wrap, text: string, e: Extra, bodyCap: int)
    ensures Fits(w, text, e, bodyCap) <==> |Encode(Body(w, text, e))| <= bodyCap
  {
    hide Body;
    LengthOfEncode(Body(w, text, e));
  }

  function TextCost(w: Wrap, text: string): nat {
    match w
    case Plain => ByteLength(text)
    case Job(_, _) => ByteLength(Escape(text))
  }

  function Overhead(w: Wrap, e: Extra): nat { BodyBytes(w, "", e) }

  lemma {:induction false} EscapeAppend(s: string, t: string)
    ensures Escape(s + t) == Escape(s) + Escape(t)
  {
    hide EscapeChar;
    if s == "" {
      assert s + t == t;
    } else {
      assert (s + t)[1..] == s[1..] + t;
      EscapeAppend(s[1..], t);
    }
  }

  lemma QuoteBytes(s: string)
    ensures ByteLength(Quote(s)) == 2 + ByteLength(Escape(s))
  {
    hide EscapeChar;
    EncodeAppend("\"", Escape(s) + "\"");
    EncodeAppend(Escape(s), "\"");
    assert ByteLength("\"") == 1;
  }

  // The cost of a body is the cost of everything around the text plus the cost of the text, and
  // the cost of the text is additive.
  lemma BodyBytesSplit(w: Wrap, text: string, e: Extra)
    ensures BodyBytes(w, text, e) == Overhead(w, e) + TextCost(w, text)
  {
    hide EscapeChar, Members, EncodeChar;
    if w.Job? {
      var rest := w.after + (Members(e) + "}");
      forall t
        ensures ByteLength(w.before + (Quote(t) + rest)) ==
                ByteLength(w.before) + 2 + ByteLength(Escape(t)) + ByteLength(rest)
      {
        EncodeAppend(w.before, Quote(t) + rest);
        EncodeAppend(Quote(t), rest);
        QuoteBytes(t);
      }
    }
  }

  lemma TextCostAppend(w: Wrap, s: string, t: string)
    ensures TextCost(w, s + t) == TextCost(w, s) + TextCost(w, t)
  {
    EncodeAppend(s, t);
    EscapeAppend(s, t);
    EncodeAppend(Escape(s), Escape(t));
  }

  lemma TextCostMonotone(w: Wrap, s: string, j: nat, k: nat)
    requires j <= k <= |s|
    ensures TextCost(w, s[..j]) <= TextCost(w, s[..k])
  {
    TextCostAppend(w, s[..j], s[j..k]);
    assert s[..j] + s[j..k] == s[..k];
  }

  lemma {:induction false} DigitsMonotone(m: nat, n: nat)
    requires m <= n
    ensures |Digits(m)| <= |Digits(n)|
  {
    if m >= 10 { DigitsMonotone(m / 10, n / 10); }
  }

  predicate Ascii(s: string) {
    forall i :: 0 <= i < |s| ==> s[i] as int < 0x80
  }

  lemma {:induction false} AsciiBytes(s: string)
    requires Ascii(s)
    ensures ByteLength(s) == |s|
  {
    if s != "" { AsciiBytes(s[1..]); }
  }

  lemma {:induction false} DigitsAscii(n: nat)
    ensures Ascii(Digits(n))
  {
    if n >= 10 { DigitsAscii(n / 10); }
  }

  lemma DigitsBytes(n: nat)
    ensures ByteLength(Digits(n)) == |Digits(n)|
  {
    DigitsAscii(n);
    AsciiBytes(Digits(n));
  }

  // Around the same text, members that are each no wider make a body that is no wider.

  predicate NoWider(e: Extra, than: Extra) {
    match (e, than)
    case (ClaimExtra(r, s, l, c, x), ClaimExtra(r', s', l', c', x')) =>
      && ByteLength(Escape(r)) <= ByteLength(Escape(r')) && ByteLength(Escape(s)) <= ByteLength(Escape(s'))
      && |Digits(l)| <= |Digits(l')| && ByteLength(Escape(c)) <= ByteLength(Escape(c'))
      && ByteLength(Escape(x)) <= ByteLength(Escape(x'))
    case (TruncateExtra(o, m), TruncateExtra(o', m')) => |Digits(o)| <= |Digits(o')| && |Digits(m)| <= |Digits(m')|
    case _ => e == than
  }

  lemma Wider(a: string, b: string, c: string, d: string)
    requires ByteLength(a) <= ByteLength(b) && ByteLength(c) <= ByteLength(d)
    ensures ByteLength(a + c) <= ByteLength(b + d)
  {
    EncodeAppend(a, c);
    EncodeAppend(b, d);
  }

  predicate MemberNoWider(m: Member, than: Member) { ByteLength(MemberText(m)) <= ByteLength(MemberText(than)) }

  lemma StrNoWider(key: string, a: string, b: string)
    requires ByteLength(Escape(a)) <= ByteLength(Escape(b))
    ensures MemberNoWider(Member(key, Str(a)), Member(key, Str(b)))
  {
    hide ByteLength, EscapeChar, Escape;
    QuoteBytes(a);
    QuoteBytes(b);
    Wider(":", ":", Quote(a), Quote(b));
    assert Text(Str(a)) == Quote(a) && Text(Str(b)) == Quote(b);
    Wider(Quote(key), Quote(key), ":" + Quote(a), ":" + Quote(b));
  }

  lemma NumNoWider(key: string, m: nat, n: nat)
    requires |Digits(m)| <= |Digits(n)|
    ensures MemberNoWider(Member(key, Num(m)), Member(key, Num(n)))
  {
    hide ByteLength, Digits, Quote;
    DigitsBytes(m);
    DigitsBytes(n);
    Wider(":", ":", Digits(m), Digits(n));
    assert Text(Num(m)) == Digits(m) && Text(Num(n)) == Digits(n);
    Wider(Quote(key), Quote(key), ":" + Digits(m), ":" + Digits(n));
  }

  lemma {:induction false} MembersTextNoWider(ms: seq<Member>, than: seq<Member>)
    requires |ms| == |than| && forall i | 0 <= i < |ms| :: MemberNoWider(ms[i], than[i])
    ensures ByteLength(MembersText(ms)) <= ByteLength(MembersText(than))
  {
    hide ByteLength, MemberText;
    if |ms| > 0 { assert MemberNoWider(ms[0], than[0]); }
    if |ms| > 1 {
      MembersTextNoWider(ms[1..], than[1..]);
      Wider(",", ",", MembersText(ms[1..]), MembersText(than[1..]));
      Wider(MemberText(ms[0]), MemberText(than[0]), "," + MembersText(ms[1..]), "," + MembersText(than[1..]));
    }
  }

  lemma AllAsWide(ms: seq<Member>)
    ensures forall i | 0 <= i < |ms| :: MemberNoWider(ms[i], ms[i])
  {
  }

  lemma ExtraNoWider(e: Extra, than: Extra)
    requires NoWider(e, than)
    ensures |ExtraMembers(e)| == |ExtraMembers(than)|
    ensures forall i | 0 <= i < |ExtraMembers(e)| :: MemberNoWider(ExtraMembers(e)[i], ExtraMembers(than)[i])
  {
    hide ByteLength, Digits, Escape, MemberNoWider;
    AllAsWide(ExtraMembers(e));
    match (e, than)
    case (ClaimExtra(r, s, l, c, x), ClaimExtra(r', s', l', c', x')) =>
      StrNoWider("result_ref", r, r');
      StrNoWider("sha256", s, s');
      NumNoWider("len", l, l');
      StrNoWider("encoding", c, c');
      StrNoWider("expires_at", x, x');
      AllAsWide(ExtraMembers(than));
    case (TruncateExtra(o, m), TruncateExtra(o', m')) =>
      NumNoWider("original_bytes", o, o');
      NumNoWider("emitted_bytes", m, m');
      AllAsWide(ExtraMembers(than));
    case _ =>
  }

  lemma MembersNoWider(e: Extra, than: Extra)
    requires NoWider(e, than)
    ensures ByteLength(Members(e)) <= ByteLength(Members(than))
  {
    ExtraNoWider(e, than);
    hide ByteLength, NoWider, ExtraMembers, MemberNoWider;
    MembersTextNoWider(ExtraMembers(e), ExtraMembers(than));
    Wider(",", ",", MembersText(ExtraMembers(e)), MembersText(ExtraMembers(than)));
  }

  lemma OverheadNoWider(w: Wrap, e: Extra, than: Extra)
    requires NoWider(e, than)
    ensures Overhead(w, e) <= Overhead(w, than)
  {
    hide EncodeChar, Members, Escape, NoWider;
    MembersNoWider(e, than);
    if w.Job? {
      Wider(Members(e), Members(than), "}", "}");
      Wider(w.after, w.after, Members(e) + "}", Members(than) + "}");
      Wider(Quote(""), Quote(""), w.after + (Members(e) + "}"), w.after + (Members(than) + "}"));
      Wider(w.before, w.before, Quote("") + (w.after + (Members(e) + "}")), Quote("") + (w.after + (Members(than) + "}")));
    }
  }

  // ---- What the receiver parses ----

  // Members that others follow.
  function Before(ms: seq<Member>): string { if ms == [] then "" else MembersText(ms) + "," }

  // The reply of a gateway: its other members, the output, the extra members.
  function ReplyWrap(others: seq<Member>): Wrap { Job("{" + (Before(others) + (Quote("output") + ":")), "") }

  function ReplyMembers(others: seq<Member>, text: string, e: Extra): seq<Member> {
    others + [Member("output", Str(text))] + ExtraMembers(e)
  }

  // A job request: the prompt is the text of its one input, with other members on both sides.
  function InputWrap(before: seq<Member>, after: seq<Member>): Wrap {
    Job("{" + (Before(before) + (Quote("input") + (":[{" + (MemberText(Member("type", Str("text"))) + ("," + (Quote("text") + ":")))))),
        "}]" + After(after))
  }

  function InputMembers(before: seq<Member>, text: string, after: seq<Member>, e: Extra): seq<Member> {
    before + [Member("input", Arr([Obj([Member("type", Str("text")), Member("text", Str(text))])]))] + after + ExtraMembers(e)
  }

  lemma BeforeAfter(before: seq<Member>, m: Member, after: seq<Member>)
    ensures MembersText(before + [m] + after) == Before(before) + (MemberText(m) + After(after))
  {
    hide MemberText;
    if before != [] { MembersTextAppend(before, [m] + after); }
    if after != [] { MembersTextAppend([m], after); }
    assert before + [m] + after == before + ([m] + after);
    assert [] + ([m] + after) == [m] + after && [m] + [] == [m];
    assert MembersText([m]) == MemberText(m);
  }

  lemma InputText(text: string)
    ensures MemberText(Member("input", Arr([Obj([Member("type", Str("text")), Member("text", Str(text))])]))) ==
            Quote("input") + (":[{" + (MemberText(Member("type", Str("text"))) + ("," + (Quote("text") + (":" + (Quote(text) + "}]"))))))
  {
    hide Quote;
    var t, x := Member("type", Str("text")), Member("text", Str(text));
    assert MembersText([t, x]) == MemberText(t) + ("," + MemberText(x)) by {
      assert [t, x][1..] == [x];
    }
    var o := Obj([t, x]);
    assert Text(o) == "{" + (MembersText([t, x]) + "}");
    assert ItemsText([o]) == Text(o);
    assert Text(Arr([o])) == "[" + (ItemsText([o]) + "]");
    assert MemberText(x) == Quote("text") + (":" + Quote(text));
    Nested(MemberText(t), Quote("text"), Quote(text));
  }

  lemma Nested(a: string, b: string, q: string)
    ensures ":" + ("[" + (("{" + ((a + ("," + (b + (":" + q)))) + "}")) + "]")) == ":[{" + (a + ("," + (b + (":" + (q + "}]")))))
  {
  }

  // The assembled reply is the text of an object, and parsing it gives its members.
  lemma ReplyBodyParses(others: seq<Member>, text: string, e: Extra)
    ensures Body(ReplyWrap(others), text, e) == Text(Obj(ReplyMembers(others, text, e)))
    ensures Parse(Body(ReplyWrap(others), text, e)) == Some(Obj(ReplyMembers(others, text, e)))
  {
    hide Quote, ExtraMembers, MembersText, Parse, Before, After;
    BeforeAfter(others, Member("output", Str(text)), ExtraMembers(e));
    ParseOfText(Obj(ReplyMembers(others, text, e)));
  }

  // What resolveRef reads of a parsed message; a member of another type is not one it was sent.
  datatype Fields = Fields(result_ref: Option<string>, sha256: Option<string>, len: Option<nat>, output: Option<string>)

  function TextOf(j: Option<Json>): Option<string> {
    if j.Some? && j.value.Str? then Some(j.value.text) else None
  }

  function NumOf(j: Option<Json>): Option<nat> {
    if j.Some? && j.value.Num? then Some(j.value.n) else None
  }

  function MembersOf(j: Option<Json>): seq<Member> {
    if j.Some? && j.value.Obj? then j.value.members else []
  }

  function FieldsOf(j: Option<Json>): Fields {
    var ms := MembersOf(j);
    Fields(TextOf(Get(ms, "result_ref")), TextOf(Get(ms, "sha256")), NumOf(Get(ms, "len")), TextOf(Get(ms, "output")))
  }

  // What resolveJobInput reads of a parsed job: the texts of its inputs and its reference.
  datatype JobFields = JobFields(input: seq<Option<string>>, ref: Fields)

  function InputTexts(items: seq<Json>): seq<Option<string>> {
    if items == [] then [] else [TextOf(Get(MembersOf(Some(items[0])), "text"))] + InputTexts(items[1..])
  }

  function JobOf(j: Option<Json>): JobFields {
    var input := Get(MembersOf(j), "input");
    JobFields(if input.Some? && input.value.Arr? then InputTexts(input.value.items) else [],
              FieldsOf(Get(MembersOf(j), "input_ref")))
  }

  predicate NoneNamed(ms: seq<Member>, key: string) { forall m | m in ms :: m.key != key }

  lemma KeysDiffer()
    ensures "result_ref" != "expires_at"
  {
    assert "result_ref"[0] != "expires_at"[0];
  }

  // The extra members by name.
  lemma ExtrasByName(e: Extra)
    ensures Get(ExtraMembers(e), "output") == None && Get(ExtraMembers(e), "input") == None
    ensures e.ClaimExtra? ==>
              && Get(ExtraMembers(e), "result_ref") == Some(Str(e.result_ref)) && Get(ExtraMembers(e), "sha256") == Some(Str(e.sha256))
              && Get(ExtraMembers(e), "len") == Some(Num(e.len))
    ensures !e.ClaimExtra? ==> Get(ExtraMembers(e), "result_ref") == None
    ensures Get(ExtraMembers(e), "input_ref") == if e.InputExtra? then Some(Obj(RefMembers(e.result_ref, e.sha256, e.len))) else None
  {
    if e.ClaimExtra? { ClaimByName(e); } else { OthersByName(e); }
    hide Get, RefMembers, ExtraMembers;
  }

  lemma ClaimByName(e: Extra)
    requires e.ClaimExtra?
    ensures var ms := ExtraMembers(e);
            && Get(ms, "result_ref") == Some(Str(e.result_ref)) && Get(ms, "sha256") == Some(Str(e.sha256))
            && Get(ms, "len") == Some(Num(e.len))
            && Get(ms, "output") == None && Get(ms, "input") == None && Get(ms, "input_ref") == None
  {
    var ms := ExtraMembers(e);
    hide Get, RefMembers;
    KeysDiffer();
    GetIs(ms, 1, "result_ref");
    GetIs(ms, 2, "sha256");
    GetIs(ms, 3, "len");
    GetNone(ms, "output");
    GetNone(ms, "input");
    GetNone(ms, "input_ref");
  }

  lemma OthersByName(e: Extra)
    requires !e.ClaimExtra?
    ensures var ms := ExtraMembers(e);
            && Get(ms, "result_ref") == None && Get(ms, "output") == None && Get(ms, "input") == None
            && Get(ms, "input_ref") == if e.InputExtra? then Some(Obj(RefMembers(e.result_ref, e.sha256, e.len))) else None
  {
    var ms := ExtraMembers(e);
    hide Get, RefMembers;
    GetNone(ms, "result_ref");
    GetNone(ms, "output");
    GetNone(ms, "input");
    if e.InputExtra? { GetIs(ms, 1, "input_ref"); } else { GetNone(ms, "input_ref"); }
  }

  // What an assembled body says of itself: a claim-check that it is a preview and not truncated, with the
  // blob's encoding and end; a cut that it is truncated, with both sizes; a claim-checked input that it
  // is a preview. Nothing else says so.
  lemma ExtrasAreMarked(e: Extra)
    ensures var ms := ExtraMembers(e);
            && Get(ms, "output_preview") == (if e.ClaimExtra? then Some(Bool(true)) else None)
            && Get(ms, "input_preview") == (if e.InputExtra? then Some(Bool(true)) else None)
            && Get(ms, "truncated") == (if e.ClaimExtra? then Some(Bool(false)) else if e.TruncateExtra? then Some(Bool(true)) else None)
  {
    var ms := ExtraMembers(e);
    hide Get, RefMembers;
    if e.ClaimExtra? {
      GetIs(ms, 0, "output_preview");
      GetIs(ms, 6, "truncated");
      GetNone(ms, "input_preview");
    } else if e.InputExtra? {
      GetIs(ms, 0, "input_preview");
      GetNone(ms, "output_preview");
      GetNone(ms, "truncated");
    } else {
      GetNone(ms, "output_preview");
      GetNone(ms, "input_preview");
      if e.TruncateExtra? { GetIs(ms, 0, "truncated"); } else { GetNone(ms, "truncated"); }
    }
  }

  lemma SizesAreNamed(e: Extra)
    ensures e.TruncateExtra? ==>
              && Get(ExtraMembers(e), "original_bytes") == Some(Num(e.original_bytes))
              && Get(ExtraMembers(e), "emitted_bytes") == Some(Num(e.emitted_bytes))
    ensures e.ClaimExtra? ==>
              && Get(ExtraMembers(e), "encoding") == Some(Str(e.encoding))
              && Get(ExtraMembers(e), "expires_at") == Some(Str(e.expires_at))
  {
    hide Get;
    KeysDiffer();
    if e.TruncateExtra? {
      GetIs(ExtraMembers(e), 1, "original_bytes");
      GetIs(ExtraMembers(e), 2, "emitted_bytes");
    }
    if e.ClaimExtra? {
      GetIs(ExtraMembers(e), 4, "encoding");
      GetIs(ExtraMembers(e), 5, "expires_at");
    }
  }

  lemma GetOne(m: Member, key: string)
    ensures Get([m], key) == if m.key == key then Some(m.value) else None
  {
    assert [m][..0] == [];
  }

  // The receiver of a reply finds the output that was assembled, and a reference only where one was spread.
  lemma FieldsOfReply(others: seq<Member>, text: string, e: Extra)
    requires NoneNamed(others, "result_ref")
    ensures var m := FieldsOf(Some(Obj(ReplyMembers(others, text, e))));
            && m.output == Some(text)
            && match e
               case ClaimExtra(result_ref, sha256, len, _, _) => m == Fields(Some(result_ref), Some(sha256), Some(len), Some(text))
               case _ => m.result_ref == None
  {
    hide Get, ExtraMembers;
    var out := Member("output", Str(text));
    ExtrasByName(e);
    GetNone(others, "result_ref");
    forall key ensures Get(ReplyMembers(others, text, e), key) ==
                       if Get(ExtraMembers(e), key).Some? then Get(ExtraMembers(e), key)
                       else if key == "output" then Some(Str(text)) else Get(others, key)
    {
      GetAppend(others + [out], ExtraMembers(e), key);
      GetAppend(others, [out], key);
      GetOne(out, key);
    }
  }

  lemma FieldsOfRef(result_ref: string, sha256: string, len: nat)
    ensures var m := FieldsOf(Some(Obj(RefMembers(result_ref, sha256, len))));
            m.result_ref == Some(result_ref) && m.sha256 == Some(sha256) && m.len == Some(len)
  {
    var ms := RefMembers(result_ref, sha256, len);
    GetIs(ms, 0, "result_ref");
    GetIs(ms, 1, "sha256");
    GetIs(ms, 2, "len");
  }

  lemma OneInput(text: string)
    ensures InputTexts([Obj([Member("type", Str("text")), Member("text", Str(text))])]) == [Some(text)]
  {
    GetIs([Member("type", Str("text")), Member("text", Str(text))], 1, "text");
  }

  lemma AfterAppend(ms: seq<Member>, ns: seq<Member>)
    ensures After(ms + ns) == After(ms) + After(ns)
  {
    hide MembersText;
    if ms != [] && ns != [] { MembersTextAppend(ms, ns); }
    if ms == [] { assert ms + ns == ns; }
    if ns == [] { assert ms + ns == ms; }
  }

  lemma Around(b: string, i: string, a: string, x: string, q: string, after: string, m: string)
    ensures ("{" + (b + (i + (":[{" + (a + ("," + (x + ":"))))))) + (q + (("}]" + after) + (m + "}"))) ==
            "{" + ((b + ((i + (":[{" + (a + ("," + (x + (":" + (q + "}]"))))))) + (after + m))) + "}")
  {
  }

  // The assembled job request is the text of an object too, ...
  lemma InputBodyParses(before: seq<Member>, text: string, after: seq<Member>, e: Extra)
    ensures Parse(Body(InputWrap(before, after), text, e)) == Some(Obj(InputMembers(before, text, after, e)))
  {
    InputText(text);
    var input := Member("input", Arr([Obj([Member("type", Str("text")), Member("text", Str(text))])]));
    var all := InputMembers(before, text, after, e);
    assert Text(Obj(all)) == "{" + (MembersText(all) + "}");
    hide Quote, ExtraMembers, MembersText, Parse, Text, Before, After, MemberText;
    BeforeAfter(before, input, after + ExtraMembers(e));
    AfterAppend(after, ExtraMembers(e));
    assert before + [input] + (after + ExtraMembers(e)) == all;
    Around(Before(before), Quote("input"), MemberText(Member("type", Str("text"))), Quote("text"), Quote(text), After(after), Members(e));
    ParseOfText(Obj(all));
  }

  // ... in which the receiver finds the prompt as the one input, and a reference only where one was spread.
  lemma FieldsOfInput(before: seq<Member>, text: string, after: seq<Member>, e: Extra)
    requires NoneNamed(before, "input_ref") && NoneNamed(after, "input_ref") && NoneNamed(after, "input")
    ensures var job := JobOf(Some(Obj(InputMembers(before, text, after, e))));
            && job.input == [Some(text)]
            && match e
               case InputExtra(result_ref, sha256, len) =>
                 job.ref.result_ref == Some(result_ref) && job.ref.sha256 == Some(sha256) && job.ref.len == Some(len)
               case _ => job.ref.result_ref == None
  {
    hide Get, ExtraMembers, InputTexts;
    var input := Member("input", Arr([Obj([Member("type", Str("text")), Member("text", Str(text))])]));
    ExtrasByName(e);
    GetNone(before, "input_ref");
    GetNone(after, "input_ref");
    GetNone(after, "input");
    OneInput(text);
    forall key ensures Get(InputMembers(before, text, after, e), key) ==
                       if Get(ExtraMembers(e), key).Some? then Get(ExtraMembers(e), key)
                       else if Get(after, key).Some? then Get(after, key)
                       else if key == "input" then Some(input.value) else Get(before, key)
    {
      GetAppend(before + [input] + after, ExtraMembers(e), key);
      GetAppend(before + [input], after, key);
      GetAppend(before, [input], key);
      GetOne(input, key);
    }
    GetNone([], "result_ref");
    if e.InputExtra? { FieldsOfRef(e.result_ref, e.sha256, e.len); }
  }
}

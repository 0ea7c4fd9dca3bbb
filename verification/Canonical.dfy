// The string an envelope's signature is computed over, canonical() in a2a-channel.ts.
module Canonical {
  import opened JsText
  import opened Wrappers

  // s.replace of every c by the given text.
  function ReplaceAll(s: string, c: char, text: string): string {
    if s == "" then "" else (if s[0] == c then text else [s[0]]) + ReplaceAll(s[1..], c, text)
  }

  function EscField(s: string): string {
    ReplaceAll(ReplaceAll(s, '\\', "\\\\"), '|', "\\|")
  }

  function Join(fields: seq<string>): string {
    if fields == [] then "" else if |fields| == 1 then fields[0] else fields[0] + "|" + Join(fields[1..])
  }

  function EscFields(fields: seq<string>): seq<string> {
    if fields == [] then [] else [EscField(fields[0])] + EscFields(fields[1..])
  }

  // thread, attrs, alg and sig take no part in the string.
  datatype Envelope = Envelope(
    v: int, id: string, from_agent: string, to: string, msg_type: string, thread: Option<string>,
    corr: Option<string>, ts: string, ttl_ms: Option<int>, body: string, attrs: map<string, string>,
    alg: Option<string>, sig: Option<string>)

  function Fields(e: Envelope): seq<string> {
    [IntText(e.v), e.id, e.from_agent, e.to, e.msg_type, if e.corr.Some? then e.corr.value else "", e.ts,
     if e.ttl_ms.None? then "" else IntText(e.ttl_ms.value), e.body]
  }

  function Canonical(e: Envelope): string { Join(EscFields(Fields(e))) }

  // ---- Reading the string back ----

  // One pass over the characters, as a reference for the two replaces.
  function Escaped(s: string): string {
    if s == "" then ""
    else (if s[0] == '\\' || s[0] == '|' then ['\\', s[0]] else [s[0]]) + Escaped(s[1..])
  }

  // Splits at every '|' that no backslash escapes; cur is what has been read of the current field.
  function SplitFrom(s: string, cur: string): Option<seq<string>>
    decreases |s|
  {
    if s == "" then Some([cur])
    else if s[0] == '\\' then if |s| < 2 then None else SplitFrom(s[2..], cur + [s[1]])
    else if s[0] == '|' then
      match SplitFrom(s[1..], "") case None => None case Some(fields) => Some([cur] + fields)
    else SplitFrom(s[1..], cur + [s[0]])
  }

  function Split(s: string): Option<seq<string>> { SplitFrom(s, "") }

  lemma {:induction false} ReplaceAppend(a: string, b: string, c: char, text: string)
    ensures ReplaceAll(a + b, c, text) == ReplaceAll(a, c, text) + ReplaceAll(b, c, text)
  {
    if a == "" {
      assert a + b == b;
    } else {
      assert (a + b)[1..] == a[1..] + b;
      ReplaceAppend(a[1..], b, c, text);
    }
  }

  lemma {:induction false} TwoPassesAreOne(s: string)
    ensures EscField(s) == Escaped(s)
  {
    if s != "" {
      TwoPassesAreOne(s[1..]);
      var head := if s[0] == '\\' then "\\\\" else [s[0]];
      var rest := ReplaceAll(s[1..], '\\', "\\\\");
      ReplaceAppend(head, rest, '|', "\\|");
      ReplaceShort(head);
    }
  }

  lemma ReplaceShort(head: string)
    requires |head| == 1 || head == "\\\\"
    ensures ReplaceAll(head, '|', "\\|") == if head == "|" then "\\|" else head
  {
    assert ReplaceAll(head[1..], '|', "\\|") == head[1..];
  }

  // What follows an escaped field is read as it would be after the field itself.
  lemma {:induction false} SplitPastField(s: string, rest: string, cur: string)
    requires rest == "" || rest[0] == '|'
    ensures SplitFrom(Escaped(s) + rest, cur) == SplitFrom(rest, cur + s)
  {
    if s == "" {
      assert Escaped(s) + rest == rest && cur + s == cur;
    } else {
      var head, tail := if s[0] == '\\' || s[0] == '|' then ['\\', s[0]] else [s[0]], Escaped(s[1..]) + rest;
      assert Escaped(s) + rest == head + tail;
      assert (head + tail)[|head|..] == tail;
      assert (cur + [s[0]]) + s[1..] == cur + s;
      SplitPastField(s[1..], rest, cur + [s[0]]);
    }
  }

  // The splitter recovers exactly the fields that were joined.
  lemma {:induction false} SplitOfJoin(fields: seq<string>)
    requires fields != []
    ensures Split(Join(EscFields(fields))) == Some(fields)
  {
    var esc, f := EscFields(fields), fields[0];
    TwoPassesAreOne(f);
    if |fields| == 1 {
      assert fields[1..] == [] && EscFields(fields[1..]) == [] && esc == [Escaped(f)];
      assert Join(esc) == Escaped(f) + "" && "" + f == f;
      SplitPastField(f, "", "");
      assert [f] == fields;
    } else {
      var more := Join(EscFields(fields[1..]));
      assert esc[1..] == EscFields(fields[1..]) && |esc| > 1;
      assert Join(esc) == Escaped(f) + ("|" + more);
      assert ("|" + more)[1..] == more && "" + f == f;
      SplitPastField(f, "|" + more, "");
      SplitOfJoin(fields[1..]);
      assert [f] + fields[1..] == fields;
    }
  }

  // ---- What a signature binds ----

  // The signed content of two envelopes agrees; an absent corr and an empty one are not told apart.
  predicate SameSigned(a: Envelope, b: Envelope) {
    && a.v == b.v && a.id == b.id && a.from_agent == b.from_agent && a.to == b.to && a.msg_type == b.msg_type
    && a.ts == b.ts && a.body == b.body && a.ttl_ms == b.ttl_ms
    && (a.corr == b.corr || (a.corr in {None, Some("")} && b.corr in {None, Some("")}))
  }

  lemma CanonicalIsUniquelyReadable(a: Envelope, b: Envelope)
    ensures Canonical(a) == Canonical(b) <==> SameSigned(a, b)
  {
    SplitOfJoin(Fields(a));
    SplitOfJoin(Fields(b));
    if Canonical(a) == Canonical(b) {
      var x, y := Fields(a), Fields(b);
      assert x == y;
      assert x[0] == y[0] && x[1] == y[1] && x[2] == y[2] && x[3] == y[3] && x[4] == y[4];
      assert x[5] == y[5] && x[6] == y[6] && x[7] == y[7] && x[8] == y[8];
      IntTextInjective(a.v, b.v);
      if a.ttl_ms.Some? && b.ttl_ms.Some? { IntTextInjective(a.ttl_ms.value, b.ttl_ms.value); }
    }
  }

  // ---- The string itself ----

  // Read back, it is the nine fields in their fixed order, v and ttl_ms in base 10, an absent corr or
  // ttl_ms empty.
  lemma CanonicalReadsAs(e: Envelope)
    ensures Split(Canonical(e)) ==
            Some([IntText(e.v), e.id, e.from_agent, e.to, e.msg_type, if e.corr == None then "" else e.corr.value, e.ts,
                  if e.ttl_ms == None then "" else IntText(e.ttl_ms.value), e.body])
  {
    SplitOfJoin(Fields(e));
  }

  lemma JoinStep(f: string, rest: seq<string>)
    requires rest != []
    ensures Join([f] + rest) == f + "|" + Join(rest)
  {
    assert ([f] + rest)[1..] == rest;
  }

  lemma {:induction false} EscFieldsAt(fields: seq<string>)
    ensures |EscFields(fields)| == |fields| && forall i | 0 <= i < |fields| :: EscFields(fields)[i] == Escaped(fields[i])
  {
    if fields != [] {
      TwoPassesAreOne(fields[0]);
      EscFieldsAt(fields[1..]);
    }
  }

  lemma JoinOfFour(a: string, b: string, c: string, d: string, rest: seq<string>)
    requires rest != []
    ensures Join([a, b, c, d] + rest) == a + "|" + b + "|" + c + "|" + d + "|" + Join(rest)
  {
    var s3 := [d] + rest;
    var s2 := [c] + s3;
    var s1 := [b] + s2;
    JoinStep(d, rest);
    JoinStep(c, s3);
    JoinStep(b, s2);
    JoinStep(a, s1);
    assert [a] + s1 == [a, b, c, d] + rest;
    hide Join;
  }

  // The string itself: the nine fields, each escaped character by character, with bars between them.
  lemma CanonicalIs(e: Envelope)
    ensures var corr, ttl := if e.corr == None then "" else e.corr.value, if e.ttl_ms == None then "" else IntText(e.ttl_ms.value);
            Canonical(e) ==
            Escaped(IntText(e.v)) + "|" + Escaped(e.id) + "|" + Escaped(e.from_agent) + "|" + Escaped(e.to) + "|" +
            (Escaped(e.msg_type) + "|" + Escaped(corr) + "|" + Escaped(e.ts) + "|" + Escaped(ttl) + "|" + Escaped(e.body))
  {
    var f := Fields(e);
    EscFieldsAt(f);
    var s := EscFields(f);
    hide Escaped, IntText, EscFields;
    assert s == [s[0], s[1], s[2], s[3]] + ([s[4], s[5], s[6], s[7]] + [s[8]]);
    JoinOfFour(s[0], s[1], s[2], s[3], [s[4], s[5], s[6], s[7]] + [s[8]]);
    JoinOfFour(s[4], s[5], s[6], s[7], [s[8]]);
    assert Join([s[8]]) == s[8];
    hide Join;
  }

  // A backslash goes before each backslash and each bar, and nothing else is changed.
  lemma EscapedSample()
    ensures EscField("a|b\\c") == "a\\|b\\\\c"
  {
    TwoPassesAreOne("a|b\\c");
    var s := "a|b\\c";
    assert Escaped(s[4..]) == "c";
    assert Escaped(s[3..]) == "\\\\" + Escaped(s[4..]) by { assert s[3..][1..] == s[4..]; }
    assert Escaped(s[2..]) == "b" + Escaped(s[3..]) by { assert s[2..][1..] == s[3..]; }
    assert Escaped(s[1..]) == "\\|" + Escaped(s[2..]) by { assert s[1..][1..] == s[2..]; }
  }
}

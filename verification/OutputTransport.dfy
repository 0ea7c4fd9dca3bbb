// output_transport.ts: a reply or a job input of any size is carried in a body of bounded size,
// whole, by a claim-check blob, or cut and marked as cut. Includes the reply assembly of
// codex_gateway.ts that calls it.
module OutputTransport {
  import opened JsText
  import opened Wrappers
  import opened Utf8
  import opened JsonText
  import opened ReplyBody

  const BLOB_KEY_PREFIX := "alloyium:a2a:blob:"

  // The metadata widths that fitPreview sizes a preview against.
  const SENTINEL := ClaimExtra(
    BLOB_KEY_PREFIX + "00000000-0000-0000-0000-000000000000",
    seq(64, _ => 'f'), 9_999_999_999, "utf8", "2026-06-15T00:00:00.000Z")

  function Marker(len: nat): string {
    "\n\U{2026}[truncated for transport \U{2014} full " + Digits(len) + "B via result_ref]"
  }

  function Preview(full: string, k: nat): string
    requires k <= |full|
  {
    full[..k] + Marker(ByteLength(full))
  }

  predicate PreviewFits(w: Wrap, full: string, k: nat, e: Extra, bodyCap: int)
    requires k <= |full|
  {
    Fits(w, Preview(full, k), e, bodyCap)
  }

  function CutExtra(full: string, k: nat): Extra
    requires k <= |full|
  {
    TruncateExtra(ByteLength(full), ByteLength(full[..k]))
  }

  predicate CutFits(w: Wrap, full: string, k: nat, bodyCap: int)
    requires k <= |full|
  {
    Fits(w, full[..k], CutExtra(full, k), bodyCap)
  }

  // A preview is a head of the text and says how much there is and where.
  lemma PreviewIsMarked(full: string, k: nat)
    requires k <= |full|
    ensures Preview(full, k) ==
            full[..k] + ("\n\U{2026}[truncated for transport \U{2014} full " + Digits(ByteLength(full)) + "B via result_ref]")
  {
    hide ByteLength, Digits;
  }

  lemma PreviewFitsIs(w: Wrap, full: string, e: Extra, bodyCap: int)
    ensures forall k | 0 <= k <= |full| :: PreviewFits(w, full, k, e, bodyCap) <==> Fits(w, Preview(full, k), e, bodyCap)
  {
    hide Preview, Fits;
  }

  lemma CutFitsIs(w: Wrap, full: string, bodyCap: int)
    ensures forall k | 0 <= k <= |full| ::
              CutFits(w, full, k, bodyCap) <==> Fits(w, full[..k], TruncateExtra(ByteLength(full), ByteLength(full[..k])), bodyCap)
    ensures CutFits(w, full, 0, bodyCap) <==> Fits(w, "", TruncateExtra(ByteLength(full), 0), bodyCap)
  {
    assert full[..0] == "";
    hide Fits;
  }

  // Both searched predicates are monotone: what fits with a longer head fits with a shorter one.

  lemma PreviewAntitone(w: Wrap, full: string, j: nat, k: nat, e: Extra, bodyCap: int)
    requires j <= k <= |full| && PreviewFits(w, full, k, e, bodyCap)
    ensures PreviewFits(w, full, j, e, bodyCap)
  {
    hide BodyBytes, TextCost, Overhead, Marker;
    BodyBytesSplit(w, Preview(full, j), e);
    BodyBytesSplit(w, Preview(full, k), e);
    TextCostAppend(w, full[..j], Marker(ByteLength(full)));
    TextCostAppend(w, full[..k], Marker(ByteLength(full)));
    TextCostMonotone(w, full, j, k);
  }

  lemma CutAntitone(w: Wrap, full: string, j: nat, k: nat, bodyCap: int)
    requires j <= k <= |full| && CutFits(w, full, k, bodyCap)
    ensures CutFits(w, full, j, bodyCap)
  {
    hide BodyBytes, TextCost, Overhead;
    BodyBytesSplit(w, full[..j], CutExtra(full, j));
    BodyBytesSplit(w, full[..k], CutExtra(full, k));
    TextCostMonotone(w, full, j, k);
    LengthMonotone(full, j, k);
    DigitsMonotone(ByteLength(full[..j]), ByteLength(full[..k]));
    OverheadNoWider(w, CutExtra(full, j), CutExtra(full, k));
  }

  lemma HeadAtOwnLength(s: string, k: nat)
    requires k <= |s|
    ensures FitCount(s, ByteLength(s[..k])) == k
  {
    HeadIsExact(s, ByteLength(s[..k]), k);
    HeadIsExact(s, ByteLength(s[..k]), FitCount(s, ByteLength(s[..k])));
    if FitCount(s, ByteLength(s[..k])) > k { LengthMonotone(s, k, FitCount(s, ByteLength(s[..k]))); }
  }

  lemma FitCountMonotone(s: string, small: int, large: int)
    requires small <= large
    ensures FitCount(s, small) <= FitCount(s, large)
  {
    HeadGrows(s, small, large);
  }

  function Min(a: int, b: int): int { if a < b then a else b }

  // p is the largest preview that fits: its head is a whole-character head of at most previewBytes
  // bytes, and no longer such head fits. None means that not even an empty head fits.
  ghost predicate LargestPreview(w: Wrap, full: string, best: Option<string>, e: Extra, bodyCap: int, previewBytes: int) {
    match best
    case None => NoneFitsAfter(w, full, -1, e, bodyCap, previewBytes)
    case Some(p) =>
      exists k | 0 <= k <= |full| ::
        && ByteLength(full[..k]) <= previewBytes && p == Preview(full, k) && Fits(w, Preview(full, k), e, bodyCap)
        && NoneFitsAfter(w, full, k, e, bodyCap, previewBytes)
  }

  ghost predicate NoneFitsAfter(w: Wrap, full: string, k: int, e: Extra, bodyCap: int, previewBytes: int) {
    forall j | 0 <= j <= |full| && k < j && ByteLength(full[..j]) <= previewBytes :: !Fits(w, Preview(full, j), e, bodyCap)
  }

  // One probe of the search: the marked preview for a byte budget, and whether its body fits.
  method TryPreview(w: Wrap, full: string, budget: int, e: Extra, bodyCap: int) returns (marked: string, fits: bool)
    ensures marked == Preview(full, FitCount(full, budget))
    ensures fits == PreviewFits(w, full, FitCount(full, budget), e, bodyCap)
  {
    hide Marker, BodyBytes, FitCount;
    var cut := TruncateToBytes(full, budget);
    marked := cut.text + Marker(ByteLength(full));
    fits := BodyBytes(w, marked, e) <= bodyCap;
  }

  // The search is by byte budget; the result is the largest preview that fits.
  method FitPreview(w: Wrap, full: string, e: Extra, bodyCap: int, previewBytes: int) returns (best: Option<string>)
    ensures LargestPreview(w, full, best, e, bodyCap, previewBytes)
  {
    PreviewFitsIs(w, full, e, bodyCap);
    hide PreviewFits, FitCount, Preview, ByteLength, NoneFitsAfter, Fits;
    var lo, hi := 0, Min(previewBytes, ByteLength(full));
    ghost var top := hi;
    best := None;
    while lo <= hi
      invariant 0 <= lo && (lo <= hi + 1 || (lo == 0 && hi == top)) && hi <= top
      invariant if lo == 0 then best == None
                else
                  && best == Some(Preview(full, FitCount(full, lo - 1)))
                  && PreviewFits(w, full, FitCount(full, lo - 1), e, bodyCap)
      invariant hi < top ==> !PreviewFits(w, full, FitCount(full, hi + 1), e, bodyCap)
    {
      var mid := (lo + hi) / 2;
      var marked, fits := TryPreview(w, full, mid, e, bodyCap);
      if fits {
        best := Some(marked);
        lo := mid + 1;
      } else {
        hi := mid - 1;
      }
    }
    NothingLongerFits(w, full, hi, top, e, bodyCap, previewBytes);
    if lo > 0 { HeadIsExact(full, lo - 1, FitCount(full, lo - 1)); }
  }

  // What the search has found when its bounds have met.
  lemma NothingLongerFits(w: Wrap, full: string, hi: int, top: int, e: Extra, bodyCap: int, previewBytes: int)
    requires top == Min(previewBytes, ByteLength(full)) && hi <= top && (hi >= -1 || hi == top)
    requires hi < top ==> !PreviewFits(w, full, FitCount(full, hi + 1), e, bodyCap)
    ensures NoneFitsAfter(w, full, if hi < 0 then -1 else FitCount(full, hi), e, bodyCap, previewBytes)
  {
    PreviewFitsIs(w, full, e, bodyCap);
    hide PreviewFits, FitCount, Preview, Fits;
    assert full[..|full|] == full;
    forall j | 0 <= j <= |full| && (hi >= 0 ==> FitCount(full, hi) < j) && ByteLength(full[..j]) <= previewBytes
      ensures !PreviewFits(w, full, j, e, bodyCap)
    {
      HeadAtOwnLength(full, j);
      LengthMonotone(full, j, |full|);
      if ByteLength(full[..j]) <= hi { FitCountMonotone(full, ByteLength(full[..j]), hi); }
      FitCountMonotone(full, hi + 1, ByteLength(full[..j]));
      if PreviewFits(w, full, j, e, bodyCap) {
        PreviewAntitone(w, full, FitCount(full, hi + 1), j, e, bodyCap);
      }
    }
  }

  datatype Cut = Cut(output: string, original_bytes: nat, emitted_bytes: nat)

  // The longest head whose explicitly truncated body fits; the empty head when none does.
  ghost predicate LongestCut(w: Wrap, full: string, r: Cut, bodyCap: int) {
    exists k | 0 <= k <= |full| ::
      && r == Cut(full[..k], ByteLength(full), ByteLength(full[..k]))
      && if Fits(w, "", TruncateExtra(ByteLength(full), 0), bodyCap)
         then
           && Fits(w, full[..k], TruncateExtra(ByteLength(full), ByteLength(full[..k])), bodyCap)
           && forall j | k < j <= |full| :: !Fits(w, full[..j], TruncateExtra(ByteLength(full), ByteLength(full[..j])), bodyCap)
         else k == 0
  }

  method TryCut(w: Wrap, full: string, budget: int, bodyCap: int) returns (head: string, fits: bool)
    ensures head == full[..FitCount(full, budget)]
    ensures fits == CutFits(w, full, FitCount(full, budget), bodyCap)
  {
    hide BodyBytes, FitCount;
    var originalBytes := ByteLength(full);
    var cut := TruncateToBytes(full, budget);
    head := cut.text;
    fits := BodyBytes(w, head, TruncateExtra(originalBytes, ByteLength(head))) <= bodyCap;
  }

  method FitTruncate(w: Wrap, full: string, bodyCap: int) returns (r: Cut)
    ensures LongestCut(w, full, r, bodyCap)
  {
    CutFitsIs(w, full, bodyCap);
    hide CutFits, FitCount, ByteLength, Fits;
    var originalBytes := ByteLength(full);
    var lo: int, hi: int, best := 0, originalBytes, "";
    ghost var k: nat := 0;
    while lo <= hi
      invariant 0 <= lo <= hi + 1 <= originalBytes + 1
      invariant k <= |full| && best == full[..k]
      invariant if lo == 0 then k == 0 else k == FitCount(full, lo - 1) && CutFits(w, full, k, bodyCap)
      invariant hi < originalBytes ==> !CutFits(w, full, FitCount(full, hi + 1), bodyCap)
    {
      var mid := (lo + hi) / 2;
      var head, fits := TryCut(w, full, mid, bodyCap);
      if fits {
        best, k := head, FitCount(full, mid);
        lo := mid + 1;
      } else {
        hi := mid - 1;
      }
    }
    r := Cut(best, originalBytes, ByteLength(best));
    EmptyHead(full);
    NoLongerCutFits(w, full, hi, bodyCap);
    if lo > 0 { CutAntitone(w, full, 0, k, bodyCap); }
  }

  lemma EmptyHead(full: string)
    ensures FitCount(full, 0) == 0
  {
    HeadAtOwnLength(full, 0);
  }

  lemma NoLongerCutFits(w: Wrap, full: string, hi: int, bodyCap: int)
    requires -1 <= hi <= ByteLength(full)
    requires hi < ByteLength(full) ==> !CutFits(w, full, FitCount(full, hi + 1), bodyCap)
    ensures forall j :: 0 <= j <= |full| && (hi >= 0 ==> FitCount(full, hi) < j) ==> !CutFits(w, full, j, bodyCap)
  {
    hide CutFits, FitCount;
    assert full[..|full|] == full;
    forall j | 0 <= j <= |full| && (hi >= 0 ==> FitCount(full, hi) < j) ensures !CutFits(w, full, j, bodyCap) {
      HeadAtOwnLength(full, j);
      LengthMonotone(full, j, |full|);
      if ByteLength(full[..j]) <= hi { FitCountMonotone(full, ByteLength(full[..j]), hi); }
      FitCountMonotone(full, hi + 1, ByteLength(full[..j]));
      if CutFits(w, full, j, bodyCap) { CutAntitone(w, full, FitCount(full, hi + 1), j, bodyCap); }
    }
  }

  datatype ReplyPlan =
    | Inline(output: string)
    | ClaimCheck(preview: string, original_bytes: nat)
    | Truncate(cut: Cut)

  // Inline exactly when the whole text fits; else a claim-check with the largest preview, which
  // leaves room for any real reference no wider than the sentinels; else a truncation.
  method PlanReply(w: Wrap, full: string, bodyCap: int, previewBytes: int, allowClaimcheck: bool) returns (plan: ReplyPlan)
    ensures plan.Inline? <==> Fits(w, full, NoExtra, bodyCap)
    ensures plan.Inline? ==> plan.output == full
    ensures plan.ClaimCheck? ==>
      && allowClaimcheck && plan.original_bytes == ByteLength(full)
      && LargestPreview(w, full, Some(plan.preview), SENTINEL, bodyCap, previewBytes)
      && forall e :: NoWider(e, SENTINEL) ==> Fits(w, plan.preview, e, bodyCap)
    ensures plan.Truncate? ==> LongestCut(w, full, plan.cut, bodyCap)
    ensures plan.Truncate? && allowClaimcheck ==> LargestPreview(w, full, None, SENTINEL, bodyCap, previewBytes)
  {
    hide BodyBytes, Marker, NoWider, LongestCut;
    var originalBytes := ByteLength(full);
    if BodyBytes(w, full, NoExtra) <= bodyCap {
      return Inline(full);
    }
    if allowClaimcheck {
      var preview := FitPreview(w, full, SENTINEL, bodyCap, previewBytes);
      if preview.Some? {
        forall e | NoWider(e, SENTINEL) ensures Fits(w, preview.value, e, bodyCap) {
          StillFits(w, preview.value, e, SENTINEL, bodyCap);
        }
        return ClaimCheck(preview.value, originalBytes);
      }
    }
    var cut := FitTruncate(w, full, bodyCap);
    plan := Truncate(cut);
  }

  // A truncated reply fits if and only if the reply with an empty output does.
  lemma CutFitsIffEmptyFits(w: Wrap, full: string, r: Cut, bodyCap: int)
    requires LongestCut(w, full, r, bodyCap)
    ensures Fits(w, r.output, TruncateExtra(r.original_bytes, r.emitted_bytes), bodyCap) <==>
            Fits(w, "", TruncateExtra(ByteLength(full), 0), bodyCap)
    ensures r.output <= full && r.original_bytes == ByteLength(full) && r.emitted_bytes == ByteLength(r.output)
  {
    hide BodyBytes;
    assert full[..0] == "";
  }

  // So a reply is not within every cap: no truncation fits a cap below the fixed members.
  lemma NoTruncationFitsTinyCap(w: Wrap, full: string, r: Cut, bodyCap: int)
    requires w.Job? && bodyCap < ByteLength(w.before) && LongestCut(w, full, r, bodyCap)
    ensures !Fits(w, r.output, TruncateExtra(r.original_bytes, r.emitted_bytes), bodyCap)
  {
    hide Members, LongestCut, Quote;
    EncodeAppend(w.before, Quote(r.output) + (w.after + (Members(TruncateExtra(r.original_bytes, r.emitted_bytes)) + "}")));
  }

  lemma StillFits(w: Wrap, text: string, e: Extra, than: Extra, bodyCap: int)
    requires NoWider(e, than) && Fits(w, text, than, bodyCap)
    ensures Fits(w, text, e, bodyCap)
  {
    hide NoWider, BodyBytes, Overhead, TextCost;
    BodyBytesSplit(w, text, e);
    BodyBytesSplit(w, text, than);
    OverheadNoWider(w, e, than);
  }

  // ---- The blob store ----

  // SHA-256 and the rendering of an instant, as functions of their argument.
  datatype Env = Env(sha256: string -> string, iso: int -> string) {
    ghost predicate Valid() {
      forall s :: |sha256(s)| == 64
    }
  }

  datatype Blob = Blob(text: string, expiresAt: int)

  type Blobs = map<string, Blob>

  predicate Live(blobs: Blobs, key: string, now: int) {
    key in blobs && now < blobs[key].expiresAt
  }

  datatype SetReply = Stored | KeyExists | SetFailed

  // What becomes of a SET: it is executed and answered, or it fails or times out at its sender without
  // or after having been executed.
  datatype Outcome = Answered | LostRequest | LostReply

  class BlobStore {
    var blobs: Blobs

    constructor () ensures blobs == map[] { blobs := map[]; }

    // SET key text NX EX ttl.
    method SetNx(key: string, text: string, ttlS: nat, now: int, outcome: Outcome) returns (r: SetReply)
      modifies this
      ensures r == if outcome != Answered then SetFailed else if Live(old(blobs), key, now) then KeyExists else Stored
      ensures blobs == if outcome == LostRequest || Live(old(blobs), key, now) then old(blobs)
                       else old(blobs)[key := Blob(text, now + ttlS * 1000)]
    {
      if outcome == LostRequest { return SetFailed; }
      if Live(blobs, key, now) {
        r := KeyExists;
      } else {
        blobs := blobs[key := Blob(text, now + ttlS * 1000)];
        r := Stored;
      }
      if outcome == LostReply { r := SetFailed; }
    }
  }

  datatype BlobRef = BlobRef(result_ref: string, sha256: string, len: nat, encoding: string, expires_at: string)

  predicate Holds(env: Env, blobs: Blobs, key: string, sha256: string, len: nat, text: string, now: int) {
    Live(blobs, key, now) && blobs[key].text == text && sha256 == env.sha256(text) && len == ByteLength(text)
  }

  // The outcomes of the two SETs that putBlob may send, under keys made of two fresh ids.
  datatype Tries = Tries(ids: (string, string), outcomes: (Outcome, Outcome))

  // A put fails when a SET that it sends fails, or both keys are taken.
  predicate PutFails(blobs: Blobs, t: Tries, now: int) {
    if Live(blobs, BLOB_KEY_PREFIX + t.ids.0, now)
    then t.outcomes.0 != Answered || t.outcomes.1 != Answered || Live(blobs, BLOB_KEY_PREFIX + t.ids.1, now)
    else t.outcomes.0 != Answered
  }

  // A store that answers fails only over two taken keys, and a free first key only over its own SET.
  lemma PutFailsOnlyThen(blobs: Blobs, t: Tries, now: int)
    ensures var first, second := Live(blobs, BLOB_KEY_PREFIX + t.ids.0, now), Live(blobs, BLOB_KEY_PREFIX + t.ids.1, now);
            && (t.outcomes == (Answered, Answered) ==> (PutFails(blobs, t, now) <==> first && second))
            && (t.outcomes.0 != Answered ==> PutFails(blobs, t, now))
            && (!first ==> (PutFails(blobs, t, now) <==> t.outcomes.0 != Answered))
            && (t.outcomes.1 != Answered && first ==> PutFails(blobs, t, now))
  {
  }

  // The id it comes to use: the second only when the key of the first is taken.
  function IdUsed(blobs: Blobs, t: Tries, now: int): string {
    if Live(blobs, BLOB_KEY_PREFIX + t.ids.0, now) then t.ids.1 else t.ids.0
  }

  // None where the source throws.
  method PutBlob(env: Env, store: BlobStore, text: string, tries: Tries, ttlS: nat, now: int) returns (r: Option<BlobRef>)
    requires ttlS > 0
    modifies store
    ensures forall k :: Live(old(store.blobs), k, now) ==> k in store.blobs && store.blobs[k] == old(store.blobs)[k]
    ensures r.None? <==> PutFails(old(store.blobs), tries, now)
    ensures r.Some? ==>
      && Holds(env, store.blobs, r.value.result_ref, r.value.sha256, r.value.len, text, now)
      && store.blobs[r.value.result_ref].expiresAt == now + ttlS * 1000
      && !Live(old(store.blobs), r.value.result_ref, now)
      && r.value == BlobRef(BLOB_KEY_PREFIX + IdUsed(old(store.blobs), tries, now),
                            env.sha256(text), ByteLength(text), "utf8", env.iso(now + ttlS * 1000))
  {
    var sha256, len := env.sha256(text), ByteLength(text);
    for attempt := 0 to 2
      invariant store.blobs == old(store.blobs)
      invariant attempt > 0 ==> tries.outcomes.0 == Answered && Live(store.blobs, BLOB_KEY_PREFIX + tries.ids.0, now)
      invariant attempt > 1 ==> tries.outcomes.1 == Answered && Live(store.blobs, BLOB_KEY_PREFIX + tries.ids.1, now)
    {
      var key := BLOB_KEY_PREFIX + if attempt == 0 then tries.ids.0 else tries.ids.1;
      var res := store.SetNx(key, text, ttlS, now, if attempt == 0 then tries.outcomes.0 else tries.outcomes.1);
      match res
      case Stored => return Some(BlobRef(key, sha256, len, "utf8", env.iso(now + ttlS * 1000)));
      case SetFailed => return None;
      case KeyExists =>
    }
    r := None;
  }

  datatype Lookup = Found(text: string) | Absent | LookupFailed

  function LookUp(blobs: Blobs, key: string, now: int): Lookup {
    if Live(blobs, key, now) then Found(blobs[key].text) else Absent
  }

  datatype Miss = Missing | Checksum | Len | Error | NoSha

  // getBlob after its read came back with this lookup.
  function GetBlob(env: Env, got: Lookup, sha256: string, len: Option<nat>): Result<string, Miss> {
    if sha256 == "" then Err(NoSha)
    else
      match got
      case LookupFailed => Err(Error)
      case Absent => Err(Missing)
      case Found(text) =>
        if len.Some? && ByteLength(text) != len.value then Err(Len)
        else if env.sha256(text) != sha256 then Err(Checksum)
        else Ok(text)
  }

  // Whatever the store returns, a text that passes the check is the text that was put.
  lemma VerifiedIsOriginal(env: Env, got: Lookup, text: string, len: Option<nat>)
    requires forall a, b :: env.sha256(a) == env.sha256(b) ==> a == b
    ensures var r := GetBlob(env, got, env.sha256(text), len); r.Ok? ==> r.value == text
  {}

  function MissText(m: Miss): string {
    match m
    case Missing => "(blob missing)" case Checksum => "(blob checksum)" case Len => "(blob len)"
    case Error => "(blob error)" case NoSha => "(blob no_sha)"
  }

  function OrEmpty(s: Option<string>): string { if s.Some? then s.value else "" }

  function ResolveRef(env: Env, m: Fields, got: Lookup): string {
    if OrEmpty(m.result_ref) == "" then OrEmpty(m.output)
    else
      match GetBlob(env, got, OrEmpty(m.sha256), m.len)
      case Ok(text) => text
      case Err(miss) => if m.output.Some? then m.output.value else MissText(miss)
  }

  // A reply as it is assembled: the output and the extra members.
  datatype Reply = Reply(output: string, extra: Extra)

  // A reply for this text: the text itself, a reference to a blob that holds it, or a marked cut.
  predicate Carries(env: Env, reply: Reply, text: string, blobs: Blobs, now: int) {
    match reply.extra
    case NoExtra => reply.output == text
    case ClaimExtra(result_ref, sha256, len, _, _) =>
      result_ref != "" && Holds(env, blobs, result_ref, sha256, len, text, now)
    case TruncateExtra(original, emitted) =>
      reply.output <= text && original == ByteLength(text) && emitted == ByteLength(reply.output)
    case InputExtra(_, _, _) => false
  }

  // While the blob lives, the receiver that parses the body recovers the full output of every reply
  // not marked truncated, and the cut of one that is.
  lemma ReplyRoundTrip(env: Env, others: seq<Member>, reply: Reply, text: string, blobs: Blobs, now: int)
    requires env.Valid() && Carries(env, reply, text, blobs, now) && NoneNamed(others, "result_ref")
    ensures var parsed := Parse(Body(ReplyWrap(others), reply.output, reply.extra));
            && parsed.Some?
            && ResolveRef(env, FieldsOf(parsed), LookUp(blobs, OrEmpty(FieldsOf(parsed).result_ref), now)) ==
               if reply.extra.TruncateExtra? then reply.output else text
  {
    ReplyBodyParses(others, reply.output, reply.extra);
    FieldsOfReply(others, reply.output, reply.extra);
    hide Body, Parse, FieldsOf, ByteLength;
    assert |env.sha256(text)| == 64;
  }

  predicate Bare(s: string) {
    forall i :: 0 <= i < |s| ==> 0x20 <= s[i] as int < 0x80 && s[i] != '"' && s[i] != '\\'
  }

  lemma {:induction false} BareBytes(s: string)
    requires Bare(s)
    ensures ByteLength(Escape(s)) == |s|
  {
    if s != "" {
      assert s[1..] == s[1..] && Bare(s[1..]);
      BareBytes(s[1..]);
      EncodeAppend(EscapeChar(s[0]), Escape(s[1..]));
      assert EscapeChar(s[0]) == [s[0]] && ByteLength([s[0]]) == 1;
    }
  }

  // The ids, digests and instants that real references are made of.
  ghost predicate RealShapes(env: Env, id: string) {
    && Bare(id) && |id| == 36
    && (forall s :: Bare(env.sha256(s)) && |env.sha256(s)| == 64)
    && (forall t :: Bare(env.iso(t)) && |env.iso(t)| == 24)
  }

  lemma BlobKeyBytes(id: string)
    requires Bare(id) && |id| == 36
    ensures ByteLength(Escape(BLOB_KEY_PREFIX + id)) == 54
  {
    hide Escape, ByteLength;
    assert |BLOB_KEY_PREFIX| == 18;
    BareBytes(BLOB_KEY_PREFIX + id);
  }

  lemma SentinelKeyBytes()
    ensures ByteLength(Escape(SENTINEL.result_ref)) == 54
  {
    hide Escape, ByteLength;
    BlobKeyBytes("00000000-0000-0000-0000-000000000000");
  }

  lemma SentinelDigestBytes()
    ensures ByteLength(Escape(SENTINEL.sha256)) == 64
  {
    hide Escape, ByteLength;
    BareBytes(SENTINEL.sha256);
  }

  lemma SentinelInstantBytes()
    ensures ByteLength(Escape(SENTINEL.expires_at)) == 24
  {
    hide Escape, ByteLength;
    BareBytes(SENTINEL.expires_at);
  }

  lemma RealReferenceIsNoWider(env: Env, id: string, text: string, expiresAt: int)
    requires RealShapes(env, id) && ByteLength(text) <= 9_999_999_999
    ensures NoWider(ClaimExtra(BLOB_KEY_PREFIX + id, env.sha256(text), ByteLength(text), "utf8", env.iso(expiresAt)), SENTINEL)
  {
    hide Escape, ByteLength, Digits;
    SentinelKeyBytes();
    SentinelDigestBytes();
    SentinelInstantBytes();
    BlobKeyBytes(id);
    BareBytes(env.sha256(text));
    BareBytes(env.iso(expiresAt));
    DigitsMonotone(ByteLength(text), SENTINEL.len);
  }

  lemma SomeOrNone(w: Wrap, full: string, p: string, e: Extra, bodyCap: int, previewBytes: int)
    requires LargestPreview(w, full, Some(p), e, bodyCap, previewBytes)
    ensures !LargestPreview(w, full, None, e, bodyCap, previewBytes)
  {
    hide PreviewFits, Preview;
  }

  // The completed-reply assembly of the codex gateway: plan, put the blob, fall back to a cut. The reply
  // is whole if it fits; it is cut only when not even an empty preview fits or the put has failed.
  method CompletedReply(env: Env, store: BlobStore, w: Wrap, text: string, bodyCap: int, previewBytes: int,
                        tries: Tries, ttlS: nat, now: int) returns (reply: Reply)
    requires env.Valid() && ttlS > 0
    requires RealShapes(env, tries.ids.0) && RealShapes(env, tries.ids.1) && ByteLength(text) <= 9_999_999_999
    modifies store
    ensures Carries(env, reply, text, store.blobs, now)
    ensures reply.extra.NoExtra? <==> Fits(w, text, NoExtra, bodyCap)
    ensures reply.extra.TruncateExtra? <==>
      && !Fits(w, text, NoExtra, bodyCap)
      && (LargestPreview(w, text, None, SENTINEL, bodyCap, previewBytes) || PutFails(old(store.blobs), tries, now))
    ensures reply.extra.ClaimExtra? ==> LargestPreview(w, text, Some(reply.output), SENTINEL, bodyCap, previewBytes)
    ensures !reply.extra.TruncateExtra? ==> Fits(w, reply.output, reply.extra, bodyCap)
    ensures reply.extra.TruncateExtra? ==>
      && LongestCut(w, text, Cut(reply.output, reply.extra.original_bytes, reply.extra.emitted_bytes), bodyCap)
      && (Fits(w, reply.output, reply.extra, bodyCap) <==> Fits(w, "", TruncateExtra(ByteLength(text), 0), bodyCap))
    ensures forall k :: Live(old(store.blobs), k, now) ==> k in store.blobs && store.blobs[k] == old(store.blobs)[k]
  {
    hide BodyBytes, NoWider, Marker, LongestCut, LargestPreview;
    var plan := PlanReply(w, text, bodyCap, previewBytes, true);
    match plan
    case Inline(output) => reply := Reply(output, NoExtra);
    case Truncate(cut) =>
      CutFitsIffEmptyFits(w, text, cut, bodyCap);
      reply := Reply(cut.output, TruncateExtra(cut.original_bytes, cut.emitted_bytes));
    case ClaimCheck(preview, _) =>
      SomeOrNone(w, text, preview, SENTINEL, bodyCap, previewBytes);
      ghost var id := IdUsed(store.blobs, tries, now);
      var put := PutBlob(env, store, text, tries, ttlS, now);
      match put
      case Some(ref) =>
        RealReferenceIsNoWider(env, id, text, now + ttlS * 1000);
        reply := Reply(preview, ClaimExtra(ref.result_ref, ref.sha256, ref.len, ref.encoding, ref.expires_at));
      case None =>
        var cut := FitTruncate(w, text, bodyCap);
        CutFitsIffEmptyFits(w, text, cut, bodyCap);
        reply := Reply(cut.output, TruncateExtra(cut.original_bytes, cut.emitted_bytes));
  }

  // ---- Job inputs ----

  function Join(parts: seq<Option<string>>): string {
    if parts == [] then "" else if |parts| == 1 then OrEmpty(parts[0]) else OrEmpty(parts[0]) + "\n" + Join(parts[1..])
  }

  function ResolveJobInput(env: Env, job: JobFields, got: Lookup): string {
    var inline := Trim(Join(job.input));
    if OrEmpty(job.ref.result_ref) == "" then inline
    else
      match GetBlob(env, got, OrEmpty(job.ref.sha256), job.ref.len)
      case Ok(text) => text
      case Err(_) => inline
  }

  // Several inputs are put together line by line, one without a text as an empty line.
  lemma {:induction false} JoinSnoc(parts: seq<Option<string>>, last: Option<string>)
    ensures Join(parts + [last]) == (if parts == [] then "" else Join(parts) + "\n") + (if last == None then "" else last.value)
  {
    if |parts| > 1 {
      assert (parts + [last])[1..] == parts[1..] + [last];
      JoinSnoc(parts[1..], last);
    } else if |parts| == 1 {
      assert (parts + [last])[1..] == [last];
    }
  }

  // A job request as it is assembled: the text of its one input and the extra members.
  datatype JobInput = JobInput(input: string, extra: Extra)

  datatype InputError = TooLarge | PutFailed | RefOnlyTooLarge

  // What a job body carries: the prompt inline, or a reference to a blob that holds it.
  predicate CarriesInput(env: Env, job: JobInput, prompt: string, blobs: Blobs, now: int) {
    match job.extra
    case NoExtra => job.input == prompt
    case InputExtra(result_ref, sha256, len) => result_ref != "" && Holds(env, blobs, result_ref, sha256, len, prompt, now)
    case _ => false
  }

  ghost predicate BestOrEmpty(w: Wrap, full: string, text: string, e: Extra, bodyCap: int, previewBytes: int) {
    || LargestPreview(w, full, Some(text), e, bodyCap, previewBytes)
    || (text == "" && LargestPreview(w, full, None, e, bodyCap, previewBytes))
  }

  lemma EmptyFitsFirst(w: Wrap, text: string, e: Extra, bodyCap: int)
    requires Fits(w, text, e, bodyCap)
    ensures Fits(w, "", e, bodyCap)
  {
    hide BodyBytes, TextCost, Overhead;
    BodyBytesSplit(w, text, e);
    BodyBytesSplit(w, "", e);
    TextCostMonotone(w, text, 0, |text|);
    assert text[..0] == "" && text[..|text|] == text;
  }

  // A body is returned only when it fits; everything else is a named error, with the exact condition of each.
  method BuildClaimCheckedInput(env: Env, store: BlobStore, w: Wrap, prompt: string, bodyCap: int, previewBytes: int,
                                maxInputBytes: int, tries: Tries, ttlS: nat, now: int)
    returns (r: Result<JobInput, InputError>)
    requires ttlS > 0
    modifies store
    ensures r.Ok? ==>
      && CarriesInput(env, r.value, prompt, store.blobs, now)
      && (r.value.extra.InputExtra? ==> BestOrEmpty(w, prompt, r.value.input, r.value.extra, bodyCap, previewBytes))
      && Fits(w, r.value.input, r.value.extra, bodyCap)
    ensures (r.Ok? && r.value.extra.NoExtra?) <==> Fits(w, prompt, NoExtra, bodyCap)
    ensures r == Err(TooLarge) <==> !Fits(w, prompt, NoExtra, bodyCap) && ByteLength(prompt) > maxInputBytes
    ensures r == Err(PutFailed) <==>
      && !Fits(w, prompt, NoExtra, bodyCap) && ByteLength(prompt) <= maxInputBytes
      && PutFails(old(store.blobs), tries, now)
    ensures var key := BLOB_KEY_PREFIX + IdUsed(old(store.blobs), tries, now);
      r == Err(RefOnlyTooLarge) <==>
      && !Fits(w, prompt, NoExtra, bodyCap) && ByteLength(prompt) <= maxInputBytes
      && !PutFails(old(store.blobs), tries, now)
      && !Fits(w, "", InputExtra(key, env.sha256(prompt), ByteLength(prompt)), bodyCap)
    ensures forall k :: Live(old(store.blobs), k, now) ==> k in store.blobs && store.blobs[k] == old(store.blobs)[k]
  {
    hide BodyBytes, Marker, ByteLength;
    if BodyBytes(w, prompt, NoExtra) <= bodyCap {
      return Ok(JobInput(prompt, NoExtra));
    }
    var len := ByteLength(prompt);
    if len > maxInputBytes {
      return Err(TooLarge);
    }
    var put := PutBlob(env, store, prompt, tries, ttlS, now);
    if put.None? {
      return Err(PutFailed);
    }
    var inputRef := InputExtra(put.value.result_ref, put.value.sha256, put.value.len);
    var preview := FitPreview(w, prompt, inputRef, bodyCap, previewBytes);
    var best := if preview.Some? then preview.value else "";
    if Fits(w, best, inputRef, bodyCap) { EmptyFitsFirst(w, best, inputRef, bodyCap); }
    if BodyBytes(w, best, inputRef) > bodyCap {
      return Err(RefOnlyTooLarge);
    }
    r := Ok(JobInput(best, inputRef));
  }

  // While the blob lives, the gateway that parses the body recovers the exact prompt of a
  // claim-checked input and the trimmed prompt of an inline one.
  lemma InputRoundTrip(env: Env, before: seq<Member>, after: seq<Member>, job: JobInput, prompt: string, blobs: Blobs, now: int)
    requires env.Valid() && CarriesInput(env, job, prompt, blobs, now)
    requires NoneNamed(before, "input_ref") && NoneNamed(after, "input_ref") && NoneNamed(after, "input")
    ensures var parsed := Parse(Body(InputWrap(before, after), job.input, job.extra));
            && parsed.Some?
            && ResolveJobInput(env, JobOf(parsed), LookUp(blobs, OrEmpty(JobOf(parsed).ref.result_ref), now)) ==
               if job.extra.InputExtra? then prompt else Trim(prompt)
  {
    InputBodyParses(before, job.input, after, job.extra);
    FieldsOfInput(before, job.input, after, job.extra);
    hide Body, Parse, JobOf, ByteLength, Trim;
    assert |env.sha256(prompt)| == 64;
  }

  // ---- When the blob is gone ----

  // The lookup does not come back with a text that has this digest and length: the blob has expired,
  // the read failed, or the text is another.
  predicate Misses(env: Env, got: Lookup, sha256: string, len: nat) {
    got.Found? ==> ByteLength(got.text) != len || env.sha256(got.text) != sha256
  }

  // A blob is found until the instant it was stored for, and not from then on.
  lemma FoundUntilItsTime(blobs: Blobs, key: string, now: int)
    ensures LookUp(blobs, key, now) ==
            if key in blobs && now < blobs[key].expiresAt then Found(blobs[key].text) else Absent
  {
  }

  lemma ExpiredMisses(env: Env, blobs: Blobs, key: string, sha256: string, len: nat, now: int)
    requires key in blobs ==> blobs[key].expiresAt <= now
    ensures Misses(env, LookUp(blobs, key, now), sha256, len)
  {
  }

  lemma MissedTextIsNotFound(env: Env, got: Lookup, sha256: string, len: nat)
    requires Misses(env, got, sha256, len)
    ensures GetBlob(env, got, sha256, Some(len)).Err?
  {
  }

  // Then the receiver of a claim-checked reply gets the marked preview, never an empty text or another's, ...
  lemma MissedReplyIsItsPreview(env: Env, others: seq<Member>, reply: Reply, got: Lookup)
    requires reply.extra.ClaimExtra? && reply.extra.result_ref != "" && NoneNamed(others, "result_ref")
    requires Misses(env, got, reply.extra.sha256, reply.extra.len)
    ensures var parsed := Parse(Body(ReplyWrap(others), reply.output, reply.extra));
            parsed.Some? && ResolveRef(env, FieldsOf(parsed), got) == reply.output
  {
    ReplyBodyParses(others, reply.output, reply.extra);
    FieldsOfReply(others, reply.output, reply.extra);
    MissedTextIsNotFound(env, got, reply.extra.sha256, reply.extra.len);
    hide Body, Parse, FieldsOf, GetBlob, Misses, ReplyMembers, NoneNamed, MissText;
  }

  // ... and the gateway the trimmed preview of a claim-checked prompt.
  lemma MissedInputIsItsPreview(env: Env, before: seq<Member>, after: seq<Member>, job: JobInput, got: Lookup)
    requires job.extra.InputExtra? && job.extra.result_ref != ""
    requires NoneNamed(before, "input_ref") && NoneNamed(after, "input_ref") && NoneNamed(after, "input")
    requires Misses(env, got, job.extra.sha256, job.extra.len)
    ensures var parsed := Parse(Body(InputWrap(before, after), job.input, job.extra));
            parsed.Some? && ResolveJobInput(env, JobOf(parsed), got) == Trim(job.input)
  {
    InputBodyParses(before, job.input, after, job.extra);
    FieldsOfInput(before, job.input, after, job.extra);
    MissedTextIsNotFound(env, got, job.extra.sha256, job.extra.len);
    hide Body, Parse, JobOf, GetBlob, Misses, InputMembers, NoneNamed, Trim;
  }

  // A message that has lost its inline text too says why.
  lemma MissIsNamed(env: Env, m: Fields, got: Lookup)
    requires m.output.None? && m.result_ref.Some? && m.result_ref.value != "" && m.sha256.Some? && m.len.Some?
    requires m.sha256.value == "" || Misses(env, got, m.sha256.value, m.len.value)
    ensures ResolveRef(env, m, got) ==
            if m.sha256.value == "" then "(blob no_sha)"
            else match got
                 case Absent => "(blob missing)"
                 case LookupFailed => "(blob error)"
                 case Found(text) => if ByteLength(text) != m.len.value then "(blob len)" else "(blob checksum)"
  {
  }
}

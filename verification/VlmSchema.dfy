/**
 * The row format of an image dataset and what an upload of one stores and reports (src/lib/vlm-schema.ts).
 */
module VlmSchema {
  import opened Wrappers
  import opened Lines
  import opened JsonValues

  const VLM_MAX_IMAGES_PER_ROW := 4
  const MAX_PROBLEMS := 20
  const VLM_MAX_INVALID_FRACTION := 0.02

  /**
   * `JSON.parse` (none when it throws), whether `imageRefProblem` finds nothing wrong with a reference, and the
   * caller's options: which paths exist (not asked when absent), and how many images a row may have.
   */
  datatype Options = Options(
    parse: string -> Option<Json>,
    usable: string -> bool,
    imageExists: Option<string -> bool>,
    maxImages: Option<nat>)

  function MaxImages(opts: Options): nat {
    if opts.maxImages.None? then VLM_MAX_IMAGES_PER_ROW else opts.maxImages.value
  }

  predicate StartsWith(s: string, prefix: string) { |prefix| <= |s| && s[..|prefix|] == prefix }

  /** `isLocalRef`. */
  predicate IsLocal(ref: string) { !StartsWith(Lower(ref), "https://") && !StartsWith(Lower(ref), "s3://") }

  /** `normalizeImagePath`. */
  method NormalizeImagePath(ref: string) returns (p: string)
    ensures p == PathOf(ref)
  {
    p := ref;
    while StartsWith(p, "./")
      invariant PathOf(p) == PathOf(ref)
      decreases |p|
    {
      p := p[2..];
    }
  }

  function PathOf(ref: string): string { if StartsWith(ref, "./") then PathOf(ref[2..]) else ref }

  /** The path has no leading "./" left, and only such prefixes were removed. */
  lemma {:induction false} PathOfShape(ref: string)
    ensures !StartsWith(PathOf(ref), "./")
    ensures PathOf(PathOf(ref)) == PathOf(ref)
    ensures |PathOf(ref)| <= |ref| && ref[|ref| - |PathOf(ref)|..] == PathOf(ref)
  {
    if StartsWith(ref, "./") {
      PathOfShape(ref[2..]);
      assert ref[2..][|ref| - 2 - |PathOf(ref)|..] == ref[|ref| - |PathOf(ref)|..];
    }
  }

  // ------------------------------------------------------------------------------------------
  // The rule
  // ------------------------------------------------------------------------------------------

  predicate Is(v: Option<Json>, s: string) { v == Some(Str(s)) }

  predicate KnownRole(role: Option<Json>) { Is(role, "system") || Is(role, "user") || Is(role, "assistant") }

  predicate IsImagePart(part: Json) { Is(Field(part, "type"), "image") || Is(Field(part, "type"), "image_url") }

  /** The reference an image part carries. */
  function RefOf(part: Json): Option<string> {
    var ref :=
      if Is(Field(part, "type"), "image") then Field(part, "image")
      else if IsObj(Field(part, "image_url")) then Field(Field(part, "image_url").value, "url")
      else None;
    if ref.Some? && ref.value.Str? then Some(ref.value.s) else None
  }

  predicate Found(opts: Options, path: string) { opts.imageExists.None? || opts.imageExists.value(path) }

  predicate PartOk(opts: Options, role: Option<Json>, part: Json) {
    && part.Obj?
    && if Is(Field(part, "type"), "text") then Field(part, "text").Some? && Field(part, "text").value.Str?
       else
         && IsImagePart(part) && RefOf(part).Some? && !Is(role, "assistant")
         && opts.usable(RefOf(part).value)
         && (IsLocal(RefOf(part).value) ==> Found(opts, PathOf(RefOf(part).value)))
  }

  predicate MessageOk(opts: Options, m: Json) {
    && m.Obj? && KnownRole(Field(m, "role"))
    && var content := Field(m, "content");
       && content.Some?
       && (content.value.Str?
           || (content.value.Arr? && content.value.items != []
               && forall k :: 0 <= k < |content.value.items| ==> PartOk(opts, Field(m, "role"), content.value.items[k])))
  }

  predicate MessagesOk(opts: Options, ms: seq<Json>) { forall i :: 0 <= i < |ms| ==> MessageOk(opts, ms[i]) }

  predicate PartsOk(opts: Options, role: Option<Json>, parts: seq<Json>) {
    forall k :: 0 <= k < |parts| ==> PartOk(opts, role, parts[k])
  }

  function PartImages(part: Json): nat {
    if part.Obj? && !Is(Field(part, "type"), "text") && IsImagePart(part) && RefOf(part).Some? then 1 else 0
  }

  function PartsImages(parts: seq<Json>): nat {
    if parts == [] then 0 else PartsImages(parts[..|parts| - 1]) + PartImages(parts[|parts| - 1])
  }

  /** The parts of a message that are looked at: none when the role or the content is wrong. */
  function PartsOf(m: Json): seq<Json> {
    var content := Field(m, "content");
    if m.Obj? && KnownRole(Field(m, "role")) && content.Some? && content.value.Arr? then content.value.items else []
  }

  function Images(ms: seq<Json>): nat {
    if ms == [] then 0 else Images(ms[..|ms| - 1]) + PartsImages(PartsOf(ms[|ms| - 1]))
  }

  predicate HasRole(ms: seq<Json>, role: string) { exists i :: 0 <= i < |ms| && Is(Field(ms[i], "role"), role) }

  function TextOf(content: Option<Json>): string {
    if content.None? then ""
    else if content.value.Str? then content.value.s
    else if content.value.Arr? then PartsText(content.value.items)
    else ""
  }

  function PartsText(parts: seq<Json>): string {
    if parts == [] then ""
    else
      var text := Field(parts[0], "text");
      (if Is(Field(parts[0], "type"), "text") && text.Some? && text.value.Str? then text.value.s else "")
      + PartsText(parts[1..])
  }

  /** The rule for a row, without the order in which it is checked. */
  predicate RowOk(opts: Options, row: Json) {
    var messages := Field(row, "messages");
    && messages.Some? && messages.value.Arr? && messages.value.items != []
    && var ms := messages.value.items;
       && MessagesOk(opts, ms)
       && Images(ms) <= MaxImages(opts)
       && HasRole(ms, "user")
       && Is(Field(ms[|ms| - 1], "role"), "assistant")
       && Trim(TextOf(Field(ms[|ms| - 1], "content"))) != ""
  }

  // ------------------------------------------------------------------------------------------
  // The images a row points at
  // ------------------------------------------------------------------------------------------

  /** What the check collects of an image: the path it is looked up under in the dataset, or its URL. */
  datatype Ref = Inside(path: string) | Outside(url: string)

  /** The reference of a part, when the check gets that far. */
  function PartRefs(opts: Options, role: Option<Json>, part: Json): set<Ref> {
    if PartImages(part) == 1 && !Is(role, "assistant") && opts.usable(RefOf(part).value)
    then {if IsLocal(RefOf(part).value) then Inside(PathOf(RefOf(part).value)) else Outside(RefOf(part).value)}
    else {}
  }

  function PartsRefs(opts: Options, role: Option<Json>, parts: seq<Json>): set<Ref> {
    if parts == [] then {}
    else PartsRefs(opts, role, parts[..|parts| - 1]) + PartRefs(opts, role, parts[|parts| - 1])
  }

  function MessagesRefs(opts: Options, ms: seq<Json>): set<Ref> {
    if ms == [] then {}
    else MessagesRefs(opts, ms[..|ms| - 1]) + PartsRefs(opts, Field(ms[|ms| - 1], "role"), PartsOf(ms[|ms| - 1]))
  }

  function RowRefs(opts: Options, row: Json): set<Ref> {
    var messages := Field(row, "messages");
    if messages.Some? && messages.value.Arr? then MessagesRefs(opts, messages.value.items) else {}
  }

  /** The paths inside the dataset, the URLs, and the paths that are missing. */
  function Paths(refs: set<Ref>): set<string> { set r | r in refs && r.Inside? :: r.path }

  function Urls(refs: set<Ref>): set<string> { set r | r in refs && r.Outside? :: r.url }

  function NotFound(opts: Options, refs: set<Ref>): set<string> {
    set r | r in refs && r.Inside? && !Found(opts, r.path) :: r.path
  }

  lemma {:induction false} OkPartsAreFound(opts: Options, role: Option<Json>, parts: seq<Json>)
    requires PartsOk(opts, role, parts)
    ensures NotFound(opts, PartsRefs(opts, role, parts)) == {}
    decreases |parts|
  {
    if parts != [] {
      assert PartOk(opts, role, parts[|parts| - 1]);
      OkPartsAreFound(opts, role, parts[..|parts| - 1]);
    }
  }

  lemma {:induction false} OkMessagesAreFound(opts: Options, ms: seq<Json>)
    requires MessagesOk(opts, ms)
    ensures NotFound(opts, MessagesRefs(opts, ms)) == {}
    decreases |ms|
  {
    if ms != [] {
      var last := ms[|ms| - 1];
      assert MessageOk(opts, last);
      OkPartsAreFound(opts, Field(last, "role"), PartsOf(last));
      OkMessagesAreFound(opts, ms[..|ms| - 1]);
    }
  }

  /** A row that passes points at no missing image. */
  lemma OkRowHasItsImages(opts: Options, row: Json)
    requires RowOk(opts, row)
    ensures NotFound(opts, RowRefs(opts, row)) == {}
  {
    OkMessagesAreFound(opts, Field(row, "messages").value.items);
  }

  // ------------------------------------------------------------------------------------------
  // The check
  // ------------------------------------------------------------------------------------------

  datatype Reason =
    | RowNotAnObject
    | NoMessages
    | MessageProblem(message: nat, what: string)
    | PartProblem(message: nat, part: nat, what: string)
    | TooManyImages
    | NoUser
    | NoAssistant
    | LastNotAssistant
    | NoText

  /** One part: what is wrong with it, whether it counts as an image, and its reference. */
  method CheckPart(opts: Options, role: Option<Json>, part: Json) returns (what: Option<string>, image: nat, refs: set<Ref>)
    ensures what.None? <==> PartOk(opts, role, part)
    ensures image == PartImages(part) && refs == PartRefs(opts, role, part)
  {
    image, refs := 0, {};
    if !part.Obj? { return Some("is not an object"), 0, {}; }
    var kind := Field(part, "type");
    if Is(kind, "text") {
      var text := Field(part, "text");
      if text.None? || !text.value.Str? { return Some("needs text"), 0, {}; }
      return None, 0, {};
    }
    if !IsImagePart(part) { return Some("unsupported"), 0, {}; }
    var ref := RefOf(part);
    if ref.None? { return Some("needs a reference"), 0, {}; }
    image := 1;
    if Is(role, "assistant") { return Some("not allowed here"), 1, {}; }
    if !opts.usable(ref.value) { return Some("bad reference"), 1, {}; }
    if !IsLocal(ref.value) {
      refs := {Outside(ref.value)};
    } else {
      var path := NormalizeImagePath(ref.value);
      refs := {Inside(path)};
      if opts.imageExists.Some? && !opts.imageExists.value(path) { return Some("not in the dataset"), 1, refs; }
    }
    what := None;
  }

  /** The reason names the message, and the first of its parts that is wrong. */
  predicate FirstInMessage(opts: Options, m: Json, n: nat, why: Reason) {
    && (why.MessageProblem? || why.PartProblem?) && why.message == n
    && (why.PartProblem? ==>
          && 1 <= why.part <= |PartsOf(m)|
          && !PartOk(opts, Field(m, "role"), PartsOf(m)[why.part - 1])
          && PartsOk(opts, Field(m, "role"), PartsOf(m)[..why.part - 1]))
  }

  /** The first message that is wrong is the one the reason names. */
  predicate FirstInRow(opts: Options, ms: seq<Json>, why: Reason) {
    (why.MessageProblem? || why.PartProblem?) ==>
      && 1 <= why.message <= |ms|
      && !MessageOk(opts, ms[why.message - 1])
      && MessagesOk(opts, ms[..why.message - 1])
      && FirstInMessage(opts, ms[why.message - 1], why.message, why)
  }

  lemma PartsStep(opts: Options, role: Option<Json>, parts: seq<Json>, k: nat)
    requires k < |parts|
    ensures PartsOk(opts, role, parts[..k + 1]) <==> PartsOk(opts, role, parts[..k]) && PartOk(opts, role, parts[k])
    ensures PartsImages(parts[..k + 1]) == PartsImages(parts[..k]) + PartImages(parts[k])
    ensures PartsRefs(opts, role, parts[..k + 1]) == PartsRefs(opts, role, parts[..k]) + PartRefs(opts, role, parts[k])
  {
    assert parts[..k + 1][..k] == parts[..k];
    assert parts[..k + 1] == parts[..k] + [parts[k]];
  }

  /** One message: its first problem, its images, and its references. */
  method CheckMessage(opts: Options, m: Json, n: nat) returns (why: Option<Reason>, images: nat, refs: set<Ref>)
    ensures why.None? <==> MessageOk(opts, m)
    ensures why.Some? ==> FirstInMessage(opts, m, n, why.value)
    ensures images == PartsImages(PartsOf(m)) && refs == PartsRefs(opts, Field(m, "role"), PartsOf(m))
  {
    if !m.Obj? { return Some(MessageProblem(n, "is not an object")), 0, {}; }
    var role, content := Field(m, "role"), Field(m, "content");
    if !KnownRole(role) { return Some(MessageProblem(n, "bad role")), 0, {}; }
    if content.Some? && content.value.Str? { return None, 0, {}; }
    if content.None? || !content.value.Arr? { return Some(MessageProblem(n, "bad content")), 0, {}; }
    var parts := content.value.items;
    if parts == [] { return Some(MessageProblem(n, "no parts")), 0, {}; }
    why, images, refs := None, 0, {};
    for k := 0 to |parts|
      invariant why.None? <==> PartsOk(opts, role, parts[..k])
      invariant why.Some? ==> FirstInMessage(opts, m, n, why.value)
      invariant images == PartsImages(parts[..k]) && refs == PartsRefs(opts, role, parts[..k])
    {
      PartsStep(opts, role, parts, k);
      var what, image, more := CheckPart(opts, role, parts[k]);
      images, refs := images + image, refs + more;
      if what.Some? && why.None? { why := Some(PartProblem(n, k + 1, what.value)); }
    }
    assert parts[..|parts|] == parts;
  }

  lemma MessagesSnoc(opts: Options, ms: seq<Json>, i: nat)
    requires i < |ms|
    ensures ms[..i + 1][..i] == ms[..i]
    ensures MessagesOk(opts, ms[..i + 1]) <==> MessagesOk(opts, ms[..i]) && MessageOk(opts, ms[i])
  {
    assert ms[..i + 1] == ms[..i] + [ms[i]];
  }

  function CountRole(ms: seq<Json>, role: string): nat {
    if ms == [] then 0
    else CountRole(ms[..|ms| - 1], role) + if Is(Field(ms[|ms| - 1], "role"), role) then 1 else 0
  }

  lemma {:induction false} CountedRole(ms: seq<Json>, role: string)
    ensures CountRole(ms, role) == 0 <==> !HasRole(ms, role)
    decreases |ms|
  {
    if ms != [] {
      var before, last := ms[..|ms| - 1], ms[|ms| - 1];
      CountedRole(before, role);
      assert ms == before + [last];
      if Is(Field(last, "role"), role) { assert Is(Field(ms[|ms| - 1], "role"), role); }
      if k :| 0 <= k < |before| && Is(Field(before[k], "role"), role) { assert Is(Field(ms[k], "role"), role); }
    }
  }

  lemma FirstFound(opts: Options, ms: seq<Json>, i: nat, why: Reason)
    requires i < |ms| && MessagesOk(opts, ms[..i]) && !MessageOk(opts, ms[i])
    requires FirstInMessage(opts, ms[i], i + 1, why)
    ensures FirstInRow(opts, ms, why)
  {
  }

  /** What the loop of `checkRow` keeps: the counts, the last role and the references. */
  datatype Tally = Tally(images: nat, users: nat, assistants: nat, lastRole: Option<Json>, refs: set<Ref>)

  predicate Tallied(opts: Options, ms: seq<Json>, t: Tally) {
    && t.images == Images(ms) && t.refs == MessagesRefs(opts, ms)
    && t.users == CountRole(ms, "user") && t.assistants == CountRole(ms, "assistant")
    && (MessagesOk(opts, ms) && ms != [] ==> t.lastRole == Field(ms[|ms| - 1], "role"))
  }

  /** One more message. */
  method AddMessage(opts: Options, ghost before: seq<Json>, ghost after: seq<Json>, m: Json, n: nat, t: Tally)
    returns (next: Tally, problem: Option<Reason>)
    requires Tallied(opts, before, t) && after == before + [m]
    ensures Tallied(opts, after, next)
    ensures problem.None? <==> MessageOk(opts, m)
    ensures problem.Some? ==> FirstInMessage(opts, m, n, problem.value)
  {
    assert after[..|after| - 1] == before && after[|after| - 1] == m;
    var role := Field(m, "role");
    var images, refs;
    problem, images, refs := CheckMessage(opts, m, n);
    next := Tally(t.images + images,
                  t.users + (if Is(role, "user") then 1 else 0),
                  t.assistants + (if Is(role, "assistant") then 1 else 0),
                  if m.Obj? then role else t.lastRole,
                  t.refs + refs);
    assert MessagesOk(opts, after) ==> MessageOk(opts, after[|after| - 1]);
  }

  /** `why` is the first problem of the first `i` messages. */
  predicate Judged(opts: Options, ms: seq<Json>, i: nat, why: Option<Reason>)
    requires i <= |ms|
  {
    && (why.None? <==> MessagesOk(opts, ms[..i]))
    && (why.Some? ==> FirstInRow(opts, ms, why.value) && (why.value.MessageProblem? || why.value.PartProblem?))
  }

  lemma NothingJudged(opts: Options, ms: seq<Json>)
    ensures Judged(opts, ms, 0, None) && Tallied(opts, ms[..0], Tally(0, 0, 0, None, {}))
  {
    assert ms[..0] == [];
  }

  lemma JudgedStep(opts: Options, ms: seq<Json>, i: nat, why: Option<Reason>, problem: Option<Reason>)
    requires i < |ms| && Judged(opts, ms, i, why)
    requires problem.None? <==> MessageOk(opts, ms[i])
    requires problem.Some? ==> FirstInMessage(opts, ms[i], i + 1, problem.value)
    ensures Judged(opts, ms, i + 1, if why.None? then problem else why)
  {
    MessagesSnoc(opts, ms, i);
    if why.None? && problem.Some? { FirstFound(opts, ms, i, problem.value); }
  }

  lemma OneMore(ms: seq<Json>, i: nat)
    requires i < |ms|
    ensures ms[..i + 1] == ms[..i] + [ms[i]]
  {
  }

  /** One turn of the loop over the messages. */
  method TakeMessage(opts: Options, ms: seq<Json>, i: nat, why: Option<Reason>, t: Tally)
    returns (next: Option<Reason>, more: Tally)
    requires i < |ms| && Judged(opts, ms, i, why) && Tallied(opts, ms[..i], t)
    ensures Judged(opts, ms, i + 1, next) && Tallied(opts, ms[..i + 1], more)
  {
    var problem;
    OneMore(ms, i);
    more, problem := AddMessage(opts, ms[..i], ms[..i + 1], ms[i], i + 1, t);
    JudgedStep(opts, ms, i, why, problem);
    next := if why.None? then problem else why;
  }

  /** The loop of `checkRow` over the messages, and the first problem it finds. */
  method CheckMessages(opts: Options, ms: seq<Json>) returns (why: Option<Reason>, t: Tally)
    ensures Judged(opts, ms, |ms|, why) && Tallied(opts, ms[..|ms|], t)
  {
    why, t := None, Tally(0, 0, 0, None, {});
    NothingJudged(opts, ms);
    for i := 0 to |ms|
      invariant Judged(opts, ms, i, why) && Tallied(opts, ms[..i], t)
    {
      why, t := TakeMessage(opts, ms, i, why, t);
    }
  }

  predicate HasMessages(row: Json) {
    var messages := Field(row, "messages");
    messages.Some? && messages.value.Arr? && messages.value.items != []
  }

  /** `checkRow`: why the row fails (none when it passes), and the images it refers to. */
  method CheckRow(opts: Options, row: Json) returns (why: Option<Reason>, refs: set<Ref>)
    ensures why.None? <==> RowOk(opts, row)
    ensures why.Some? && Field(row, "messages").Some? && Field(row, "messages").value.Arr? ==>
              FirstInRow(opts, Field(row, "messages").value.items, why.value)
    ensures refs == RowRefs(opts, row)
    ensures why == Some(RowNotAnObject) <==> !row.Obj?
    ensures why == Some(NoMessages) <==> row.Obj? && !HasMessages(row)
    ensures row.Obj? && HasMessages(row) && MessagesOk(opts, Field(row, "messages").value.items) ==>
              var ms := Field(row, "messages").value.items;
              && (why == Some(TooManyImages) <==> Images(ms) > MaxImages(opts))
              && (why == Some(NoUser) <==> Images(ms) <= MaxImages(opts) && !HasRole(ms, "user"))
              && (why == Some(NoAssistant) <==>
                    Images(ms) <= MaxImages(opts) && HasRole(ms, "user") && !HasRole(ms, "assistant"))
              && (why == Some(LastNotAssistant) <==>
                    Images(ms) <= MaxImages(opts) && HasRole(ms, "user") && HasRole(ms, "assistant")
                    && !Is(Field(ms[|ms| - 1], "role"), "assistant"))
  {
    if !row.Obj? { return Some(RowNotAnObject), {}; }
    var messages := Field(row, "messages");
    if messages.None? || !messages.value.Arr? || messages.value.items == [] { return Some(NoMessages), {}; }
    var ms := messages.value.items;
    var t;
    why, t := CheckMessages(opts, ms);
    assert ms[..|ms|] == ms;
    refs := t.refs;
    if why.Some? { return; }
    CountedRole(ms, "user");
    CountedRole(ms, "assistant");
    if t.images > MaxImages(opts) { return Some(TooManyImages), refs; }
    if t.users == 0 { return Some(NoUser), refs; }
    assert Is(t.lastRole, "assistant") ==> HasRole(ms, "assistant");
    if t.assistants == 0 { return Some(NoAssistant), refs; }
    if !Is(t.lastRole, "assistant") { return Some(LastNotAssistant), refs; }
    if Trim(TextOf(Field(ms[|ms| - 1], "content"))) == "" { return Some(NoText), refs; }
  }
}

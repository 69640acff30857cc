/**
 * What the row check of an image dataset (src/lib/vlm-schema.ts) makes of whole conversations: plain chats, text given
 * as a part, and one more image.
 */
module VlmFormat {
  import opened Wrappers
  import opened Lines
  import opened JsonValues
  import opened VlmSchema
  import TwinText

  // ------------------------------------------------------------------------------------------
  // Conversations
  // ------------------------------------------------------------------------------------------

  function RowWith(ms: seq<Json>): Json { Obj([Member("messages", Arr(ms))]) }

  function Message(role: string, content: Json): Json { Obj([Member("role", Str(role)), Member("content", content)]) }

  function TextPart(text: string): Json { Obj([Member("type", Str("text")), Member("text", Str(text))]) }

  /** The two forms of an image part. */
  function ImagePart(ref: string): Json { Obj([Member("type", Str("image")), Member("image", Str(ref))]) }

  function ImageUrlPart(ref: string): Json {
    Obj([Member("type", Str("image_url")), Member("image_url", Obj([Member("url", Str(ref))]))])
  }

  lemma TwoFields(a: Member, b: Member)
    requires a.name != b.name
    ensures Get([a, b], a.name) == Some(a.value) && Get([a, b], b.name) == Some(b.value)
  {
    assert [a, b] == [a] + [b];
    GetFirst(a, [b]);
    GetPast(a, [b], b.name);
  }

  lemma MessageFields(role: string, content: Json)
    ensures Field(Message(role, content), "role") == Some(Str(role))
    ensures Field(Message(role, content), "content") == Some(content)
  {
    assert |"role"| == 4 && |"content"| == 7;
    TwoFields(Member("role", Str(role)), Member("content", content));
  }

  lemma TextFields(text: string)
    ensures Field(TextPart(text), "type") == Some(Str("text")) && Field(TextPart(text), "text") == Some(Str(text))
  {
    assert "type" != "text" by { assert "type"[1] != "text"[1]; }
    TwoFields(Member("type", Str("text")), Member("text", Str(text)));
  }

  lemma ImageFields(ref: string)
    ensures IsImagePart(ImagePart(ref)) && RefOf(ImagePart(ref)) == Some(ref)
    ensures Field(ImagePart(ref), "type") == Some(Str("image")) && Field(ImagePart(ref), "type") != Some(Str("text"))
    ensures IsImagePart(ImageUrlPart(ref)) && RefOf(ImageUrlPart(ref)) == Some(ref)
    ensures Field(ImageUrlPart(ref), "type") == Some(Str("image_url")) && Field(ImageUrlPart(ref), "type") != Some(Str("text"))
  {
    assert |"type"| == 4 && |"text"| == 4 && |"image"| == 5 && |"image_url"| == 9;
    var url := Obj([Member("url", Str(ref))]);
    TwoFields(Member("type", Str("image")), Member("image", Str(ref)));
    TwoFields(Member("type", Str("image_url")), Member("image_url", url));
    assert Field(url, "url") == Some(Str(ref));
  }

  /** The conversation passes with room for so many images. */
  predicate Passes(opts: Options, ms: seq<Json>, room: nat) {
    ms != [] && MessagesOk(opts, ms) && Images(ms) <= room && HasRole(ms, "user") && EndsWell(ms)
  }

  predicate EndsWell(ms: seq<Json>)
    requires ms != []
  {
    Is(Field(ms[|ms| - 1], "role"), "assistant") && Trim(TextOf(Field(ms[|ms| - 1], "content"))) != ""
  }

  lemma RowPassesIff(opts: Options, ms: seq<Json>)
    ensures RowOk(opts, RowWith(ms)) <==> Passes(opts, ms, if opts.maxImages.Some? then opts.maxImages.value else 4)
  {
    assert Field(RowWith(ms), "messages") == Some(Arr(ms));
  }

  // ------------------------------------------------------------------------------------------
  // Plain chats
  // ------------------------------------------------------------------------------------------

  datatype Turn = Turn(role: string, text: string)

  function Spoken(turns: seq<Turn>): (ms: seq<Json>)
    ensures |ms| == |turns| && forall i :: 0 <= i < |ms| ==> ms[i] == Message(turns[i].role, Str(turns[i].text))
  {
    if turns == [] then [] else [Message(turns[0].role, Str(turns[0].text))] + Spoken(turns[1..])
  }

  lemma {:induction false} NoImagesSpoken(ms: seq<Json>)
    requires forall i :: 0 <= i < |ms| ==> Field(ms[i], "content").Some? && Field(ms[i], "content").value.Str?
    ensures Images(ms) == 0
  {
    if ms != [] {
      NoImagesSpoken(ms[..|ms| - 1]);
      assert PartsOf(ms[|ms| - 1]) == [];
    }
  }

  predicate IsRole(role: string) { role == "system" || role == "user" || role == "assistant" }

  /**
   * A chat of plain texts passes, whatever the options, exactly if it is not empty, every role is known, some turn is the
   * user's, and the last is the assistant's and not blank.
   */
  lemma PlainChatIff(opts: Options, turns: seq<Turn>)
    ensures RowOk(opts, RowWith(Spoken(turns))) <==>
              && turns != []
              && (forall i :: 0 <= i < |turns| ==> IsRole(turns[i].role))
              && (exists i :: 0 <= i < |turns| && turns[i].role == "user")
              && turns[|turns| - 1].role == "assistant"
              && !TwinText.OnlySpaces(turns[|turns| - 1].text)
  {
    RowPassesIff(opts, Spoken(turns));
    if turns != [] { SpokenPasses(opts, turns, if opts.maxImages.Some? then opts.maxImages.value else 4); }
  }

  lemma SpokenPasses(opts: Options, turns: seq<Turn>, room: nat)
    requires turns != []
    ensures Passes(opts, Spoken(turns), room) <==>
              && (forall i :: 0 <= i < |turns| ==> IsRole(turns[i].role))
              && (exists i :: 0 <= i < |turns| && turns[i].role == "user")
              && turns[|turns| - 1].role == "assistant"
              && !TwinText.OnlySpaces(turns[|turns| - 1].text)
  {
    SpokenFields(turns);
    SpokenOk(opts, turns);
    NoImagesSpoken(Spoken(turns));
    RoleIsThere(Spoken(turns), turns);
    SpokenEndsWell(turns);
  }

  lemma SpokenEndsWell(turns: seq<Turn>)
    requires turns != []
    ensures EndsWell(Spoken(turns)) <==> turns[|turns| - 1].role == "assistant" && !TwinText.OnlySpaces(turns[|turns| - 1].text)
  {
    var last := turns[|turns| - 1];
    assert Spoken(turns)[|turns| - 1] == Message(last.role, Str(last.text));
    SpeaksLast(last.role, last.text);
  }

  lemma SpeaksLast(role: string, text: string)
    ensures var m := Message(role, Str(text));
            && (Is(Field(m, "role"), "assistant") <==> role == "assistant")
            && (Trim(TextOf(Field(m, "content"))) != "" <==> !TwinText.OnlySpaces(text))
  {
    MessageFields(role, Str(text));
    TwinText.TrimIsEmpty(text);
  }

  lemma SpokenFields(turns: seq<Turn>)
    ensures var ms := Spoken(turns);
            forall i :: 0 <= i < |ms| ==>
              Field(ms[i], "role") == Some(Str(turns[i].role)) && Field(ms[i], "content") == Some(Str(turns[i].text))
  {
    forall i | 0 <= i < |turns|
      ensures Field(Spoken(turns)[i], "role") == Some(Str(turns[i].role))
      ensures Field(Spoken(turns)[i], "content") == Some(Str(turns[i].text))
    {
      MessageFields(turns[i].role, Str(turns[i].text));
    }
  }

  lemma SpokenOk(opts: Options, turns: seq<Turn>)
    ensures MessagesOk(opts, Spoken(turns)) <==> forall i :: 0 <= i < |turns| ==> IsRole(turns[i].role)
  {
    forall i | 0 <= i < |turns|
      ensures MessageOk(opts, Spoken(turns)[i]) <==> IsRole(turns[i].role)
    {
      SpokenOkIff(opts, turns[i]);
    }
  }

  lemma SpokenOkIff(opts: Options, turn: Turn)
    ensures var m := Message(turn.role, Str(turn.text));
            MessageOk(opts, m) <==> IsRole(turn.role)
  {
    MessageFields(turn.role, Str(turn.text));
  }

  lemma RoleIsThere(ms: seq<Json>, turns: seq<Turn>)
    requires |ms| == |turns| && forall i :: 0 <= i < |ms| ==> Field(ms[i], "role") == Some(Str(turns[i].role))
    ensures HasRole(ms, "user") <==> exists i :: 0 <= i < |turns| && turns[i].role == "user"
  {
    if i :| 0 <= i < |turns| && turns[i].role == "user" { assert Is(Field(ms[i], "role"), "user"); }
  }

  // ------------------------------------------------------------------------------------------
  // One message changed
  // ------------------------------------------------------------------------------------------

  /** The messages have the same role, and their texts are both blank or both not. */
  predicate Alike(m: Json, m': Json) {
    && Field(m', "role") == Field(m, "role")
    && (Trim(TextOf(Field(m', "content"))) == "" <==> Trim(TextOf(Field(m, "content"))) == "")
  }

  function ImagesIn(m: Json): nat { PartsImages(PartsOf(m)) }

  lemma ImagesSplit(before: seq<Json>, m: Json)
    ensures Images(before + [m]) == Images(before) + ImagesIn(m)
  {
    assert (before + [m])[..|before|] == before;
  }

  lemma {:induction false} ImagesUpdate(ms: seq<Json>, i: nat, m: Json)
    requires i < |ms|
    ensures Images(ms[i := m]) == Images(ms) - ImagesIn(ms[i]) + ImagesIn(m)
    decreases |ms|
  {
    var n := |ms| - 1;
    var before, last := ms[..n], ms[n];
    assert ms == before + [last];
    ImagesSplit(before, last);
    if i < n {
      assert ms[i := m] == before[i := m] + [last];
      ImagesSplit(before[i := m], last);
      ImagesUpdate(before, i, m);
    } else {
      assert ms[i := m] == before + [m];
      ImagesSplit(before, m);
    }
  }

  lemma HasRoleUpdate(ms: seq<Json>, i: nat, m: Json, role: string)
    requires i < |ms| && Field(m, "role") == Field(ms[i], "role")
    ensures HasRole(ms[i := m], role) <==> HasRole(ms, role)
  {
    var ms' := ms[i := m];
    if k :| 0 <= k < |ms| && Is(Field(ms[k], "role"), role) { assert Is(Field(ms'[k], "role"), role); }
    if k :| 0 <= k < |ms'| && Is(Field(ms'[k], "role"), role) { assert Is(Field(ms[k], "role"), role); }
  }

  predicate OthersOk(opts: Options, ms: seq<Json>, i: nat) { forall k :: 0 <= k < |ms| && k != i ==> MessageOk(opts, ms[k]) }

  /** What it takes for a conversation to pass once one message is replaced by a like one. */
  lemma PassesUpdate(opts: Options, ms: seq<Json>, i: nat, m: Json, room: nat)
    requires i < |ms| && Alike(ms[i], m)
    ensures Passes(opts, ms, room) <==>
              MessageOk(opts, ms[i]) && OthersOk(opts, ms, i) && Images(ms) <= room && HasRole(ms, "user") && EndsWell(ms)
    ensures Passes(opts, ms[i := m], room) <==>
              MessageOk(opts, m) && OthersOk(opts, ms, i) && Images(ms[i := m]) <= room && HasRole(ms, "user") && EndsWell(ms)
  {
    HasRoleUpdate(ms, i, m, "user");
    MessagesUpdate(opts, ms, i, ms[i]);
    MessagesUpdate(opts, ms, i, m);
    assert ms[i := ms[i]] == ms;
    EndsWellUpdate(ms, i, m);
  }

  lemma EndsWellUpdate(ms: seq<Json>, i: nat, m: Json)
    requires i < |ms| && Alike(ms[i], m)
    ensures EndsWell(ms[i := m]) <==> EndsWell(ms)
  {
    var n := |ms| - 1;
    assert ms[i := m][n] == if i == n then m else ms[n];
  }

  lemma MessagesUpdate(opts: Options, ms: seq<Json>, i: nat, m: Json)
    requires i < |ms|
    ensures MessagesOk(opts, ms[i := m]) <==> MessageOk(opts, m) && OthersOk(opts, ms, i)
  {
    var ms' := ms[i := m];
    assert ms'[i] == m && forall k :: 0 <= k < |ms| && k != i ==> ms'[k] == ms[k];
  }

  // ------------------------------------------------------------------------------------------
  // Parts
  // ------------------------------------------------------------------------------------------

  /** A text passes as the content of a message exactly if it passes as its only part. */
  lemma TextIsOnePart(opts: Options, ms: seq<Json>, i: nat, role: string, text: string)
    requires i < |ms| && ms[i] == Message(role, Str(text))
    ensures RowOk(opts, RowWith(ms[i := Message(role, Arr([TextPart(text)]))])) <==> RowOk(opts, RowWith(ms))
  {
    var m := Message(role, Arr([TextPart(text)]));
    MessageFields(role, Str(text));
    MessageFields(role, Arr([TextPart(text)]));
    TextFields(text);
    OnePart(opts, role, text);
    ImagesUpdate(ms, i, m);
    PassesUpdate(opts, ms, i, m, if opts.maxImages.Some? then opts.maxImages.value else 4);
    RowPassesIff(opts, ms);
    RowPassesIff(opts, ms[i := m]);
  }

  lemma OnePart(opts: Options, role: string, text: string)
    ensures var m, p := Message(role, Arr([TextPart(text)])), Message(role, Str(text));
            && PartsImages(PartsOf(m)) == 0 == PartsImages(PartsOf(p)) && Alike(p, m)
            && (MessageOk(opts, m) <==> MessageOk(opts, p))
  {
    var part := TextPart(text);
    MessageFields(role, Str(text));
    MessageFields(role, Arr([part]));
    TextFields(text);
    assert [part][1..] == [] && [part][..0] == [] && [part][0] == part;
    assert PartsText([part]) == text + "" == text;
    assert PartsImages([part]) == 0;
    assert PartOk(opts, Some(Str(role)), part);
  }

  lemma {:induction false} NoMoreText(parts: seq<Json>, part: Json)
    requires Field(part, "type") != Some(Str("text"))
    ensures PartsText(parts + [part]) == PartsText(parts)
  {
    if parts == [] {
      assert parts + [part] == [part] && [part][1..] == [];
    } else {
      assert (parts + [part])[1..] == parts[1..] + [part];
      NoMoreText(parts[1..], part);
    }
  }

  /** The image can be used there: not by the assistant, with a usable reference, and in the dataset unless it is a URL. */
  predicate Usable(opts: Options, role: string, ref: string) {
    && role != "assistant" && opts.usable(ref)
    && (IsLocal(ref) ==> opts.imageExists.None? || opts.imageExists.value(PathOf(ref)))
  }

  lemma ImagePartIff(opts: Options, role: string, ref: string, part: Json)
    requires part == ImagePart(ref) || part == ImageUrlPart(ref)
    ensures PartOk(opts, Some(Str(role)), part) <==> Usable(opts, role, ref)
    ensures PartImages(part) == 1 && Field(part, "type") != Some(Str("text"))
  {
    ImageFields(ref);
  }

  /**
   * One more image in a message that has parts: the row passes exactly if it passed before, the image can be used there,
   * and the row has room for it: for 4 images, unless the caller says otherwise.
   */
  lemma OneMoreImageIff(opts: Options, ms: seq<Json>, i: nat, role: string, parts: seq<Json>, ref: string, part: Json)
    requires i < |ms| && ms[i] == Message(role, Arr(parts)) && parts != []
    requires part == ImagePart(ref) || part == ImageUrlPart(ref)
    ensures RowOk(opts, RowWith(ms[i := Message(role, Arr(parts + [part]))])) <==>
              && RowOk(opts, RowWith(ms)) && Usable(opts, role, ref)
              && Images(ms) + 1 <= if opts.maxImages.Some? then opts.maxImages.value else 4
  {
    var more := parts + [part];
    var m := Message(role, Arr(more));
    MessageFields(role, Arr(parts));
    MessageFields(role, Arr(more));
    ImagePartIff(opts, role, ref, part);
    NoMoreText(parts, part);
    MorePartsOk(opts, role, parts, part);
    if KnownRole(Some(Str(role))) { MoreImages(ms, i, role, parts, part); }
    PassesUpdate(opts, ms, i, m, if opts.maxImages.Some? then opts.maxImages.value else 4);
    RowPassesIff(opts, ms);
    RowPassesIff(opts, ms[i := m]);
  }

  lemma MorePartsOk(opts: Options, role: string, parts: seq<Json>, part: Json)
    requires parts != []
    ensures MessageOk(opts, Message(role, Arr(parts + [part])))
            <==> MessageOk(opts, Message(role, Arr(parts))) && PartOk(opts, Some(Str(role)), part)
  {
    var more := parts + [part];
    MessageFields(role, Arr(parts));
    MessageFields(role, Arr(more));
    assert more[|parts|] == part && forall k :: 0 <= k < |parts| ==> more[k] == parts[k];
  }

  lemma MoreImages(ms: seq<Json>, i: nat, role: string, parts: seq<Json>, part: Json)
    requires i < |ms| && ms[i] == Message(role, Arr(parts)) && PartImages(part) == 1
    requires KnownRole(Some(Str(role)))
    ensures Images(ms[i := Message(role, Arr(parts + [part]))]) == Images(ms) + 1
  {
    var more := parts + [part];
    MessageFields(role, Arr(parts));
    MessageFields(role, Arr(more));
    ImagesUpdate(ms, i, Message(role, Arr(more)));
    assert more[..|more| - 1] == parts;
  }

  // ------------------------------------------------------------------------------------------
  // Paths and URLs
  // ------------------------------------------------------------------------------------------

  /** A reference without a colon is a path in the dataset. */
  lemma NoColonIsLocal(ref: string)
    requires ':' !in ref
    ensures IsLocal(ref)
  {
    TwinText.LowerShape(ref);
    assert "https://"[5] == ':' && "s3://"[2] == ':';
  }

  /** A URL of one of the two kinds, in any case of its letters, is not. */
  lemma UrlIsNotLocal(ref: string)
    requires (|ref| >= 8 && Lower(ref[..8]) == "https://") || (|ref| >= 5 && Lower(ref[..5]) == "s3://")
    ensures !IsLocal(ref)
  {
    if |ref| >= 8 && Lower(ref[..8]) == "https://" {
      LowerOfPrefix(ref, 8);
    } else {
      LowerOfPrefix(ref, 5);
    }
  }

  lemma LowerOfPrefix(s: string, n: nat)
    requires 0 < n <= |s|
    ensures |Lower(s)| == |s| && Lower(s)[..n] == Lower(s[..n])
  {
    TwinText.LowerShape(s);
    TwinText.LowerShape(s[..n]);
  }
}

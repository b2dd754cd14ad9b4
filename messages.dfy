/** The read-only view of one retrieved message that the transfer engine works on,
    the content kinds it dispatches on, and the bracketed diagnostic string it
    builds for a message that could not be transferred (Cloner._get_msg_info). */
module Messages {

  datatype Option<T> = None | Some(value: T)

  /** A formatting entity; the engine reads only the name of its type (BOLD, URL, ...). */
  datatype Entity = Entity(typeName: string)

  /** Inline-action markup (keyboard rows of button labels); passed through opaquely. */
  datatype Markup = Markup(rows: seq<seq<string>>)

  /** A retrieved message. `text` and `caption` use "" where the library gives None:
      every use in the engine goes through Python truthiness, for which the two are
      the same. A media payload is represented by its file id. `entities` and
      `captionEntities` use [] for None for the same reason. `media` holds the
      rendered media-type name when the message has one (polls, contacts and
      locations have a media type but none of the eight payloads below). */
  datatype Msg = Msg(
    id: int,
    chatId: int,
    text: string,
    caption: string,
    entities: seq<Entity>,
    captionEntities: seq<Entity>,
    replyMarkup: Option<Markup>,
    photo: Option<string>,
    video: Option<string>,
    document: Option<string>,
    audio: Option<string>,
    voice: Option<string>,
    sticker: Option<string>,
    videoNote: Option<string>,
    animation: Option<string>,
    media: Option<string>,
    service: bool,
    empty: bool,
    webPage: bool,
    forwarded: bool)

  /** The content kinds the re-send strategies dispatch on, in their order of precedence. */
  datatype ContentKind = Photo | Video | Document | Audio | Voice | Sticker | VideoNote | Animation | Text

  /** Position of a kind in the dispatch order photo, video, ..., animation, text. */
  function KindRank(k: ContentKind): nat
  {
    match k
    case Photo => 0
    case Video => 1
    case Document => 2
    case Audio => 3
    case Voice => 4
    case Sticker => 5
    case VideoNote => 6
    case Animation => 7
    case Text => 8
  }

  /** What the message carries for kind `k`: the file id of a media payload, or the text. */
  function Payload(m: Msg, k: ContentKind): Option<string>
  {
    match k
    case Photo => m.photo
    case Video => m.video
    case Document => m.document
    case Audio => m.audio
    case Voice => m.voice
    case Sticker => m.sticker
    case VideoNote => m.videoNote
    case Animation => m.animation
    case Text => if m.text != "" then Some(m.text) else None
  }

  predicate Has(m: Msg, k: ContentKind)
  {
    Payload(m, k).Some?
  }

  /** Kinds whose send call takes a caption: all but sticker, video note and text. */
  predicate Captioned(k: ContentKind)
  {
    k != Sticker && k != VideoNote && k != Text
  }

  // ---------------------------------------------------------------------------
  // String helpers

  function Min(a: nat, b: nat): nat
  {
    if a <= b then a else b
  }

  /** Python's s[:n]. */
  function Take<T>(s: seq<T>, n: nat): (r: seq<T>)
    ensures |r| == Min(|s|, n)
    ensures r == s[..|r|]
  {
    if |s| <= n then s else s[..n]
  }

  /** Python's sep.join(xs). */
  function Join(sep: string, xs: seq<string>): string
  {
    if |xs| == 0 then ""
    else if |xs| == 1 then xs[0]
    else xs[0] + sep + Join(sep, xs[1..])
  }

  function Digit(d: nat): char
    requires d < 10
  {
    "0123456789"[d]
  }

  /** Decimal rendering of a natural number, as Python's str. */
  function NatStr(n: nat): (r: string)
    ensures |r| >= 1
    ensures forall i :: 0 <= i < |r| ==> '0' <= r[i] <= '9'
    decreases n
  {
    if n < 10 then [Digit(n)] else NatStr(n / 10) + [Digit(n % 10)]
  }

  /** Decimal rendering of an integer, as Python's str. */
  function IntStr(n: int): string
  {
    if n < 0 then "-" + NatStr(-n) else NatStr(n)
  }

  /** The characters for which Python's str.isspace() holds. */
  predicate IsSpace(c: char)
  {
    var n := c as int;
    (9 <= n <= 13) || (0x1c <= n <= 0x20) || n == 0x85 || n == 0xa0 || n == 0x1680
    || (0x2000 <= n <= 0x200a) || n == 0x2028 || n == 0x2029 || n == 0x202f
    || n == 0x205f || n == 0x3000
  }

  /** `not s.strip()`: the string has no character other than whitespace. */
  predicate Blank(s: string)
  {
    forall i :: 0 <= i < |s| ==> IsSpace(s[i])
  }

  // ---------------------------------------------------------------------------
  // Diagnostic string (Cloner._get_msg_info)

  /** One comma-separated part of the diagnostic string. */
  datatype InfoPart =
    | IdPart(id: int)
    | TextPart(text: string)
    | CaptionPart(caption: string)
    | MediaPart(media: string)
    | ServiceFlag
    | EmptyFlag
    | WebPageFlag
    | MarkupFlag
    | EntitiesPart(types: seq<string>)
    | ForwardedFlag

  /** The position at which each kind of part appears in the diagnostic. */
  function PartRank(p: InfoPart): nat
  {
    match p
    case IdPart(_) => 0
    case TextPart(_) => 1
    case CaptionPart(_) => 2
    case MediaPart(_) => 3
    case ServiceFlag => 4
    case EmptyFlag => 5
    case WebPageFlag => 6
    case MarkupFlag => 7
    case EntitiesPart(_) => 8
    case ForwardedFlag => 9
  }

  /** How many entity type names the diagnostic lists at most. */
  const EntityNameLimit := 3
  /** How many characters of text or caption the diagnostic keeps. */
  const ExcerptLength := 40

  function TypeNames(es: seq<Entity>): (r: seq<string>)
    ensures |r| == |es|
    ensures forall i :: 0 <= i < |es| ==> r[i] == es[i].typeName
  {
    seq(|es|, i requires 0 <= i < |es| => es[i].typeName)
  }

  function When(b: bool, p: InfoPart): Option<InfoPart>
  {
    if b then Some(p) else None
  }

  /** How many kinds of part the diagnostic can hold. */
  const SlotCount := 10

  /** The slot of rank `r`: filled when the message field it reports on is set. */
  function Slot(m: Msg, r: nat): Option<InfoPart>
    requires r < SlotCount
  {
    match r
    case 0 => Some(IdPart(m.id))
    case 1 => When(m.text != "", TextPart(Take(m.text, ExcerptLength)))
    case 2 => When(m.caption != "", CaptionPart(Take(m.caption, ExcerptLength)))
    case 3 => if m.media.Some? then Some(MediaPart(m.media.value)) else None
    case 4 => When(m.service, ServiceFlag)
    case 5 => When(m.empty, EmptyFlag)
    case 6 => When(m.webPage, WebPageFlag)
    case 7 => When(m.replyMarkup.Some?, MarkupFlag)
    case 8 => When(m.entities != [], EntitiesPart(TypeNames(Take(m.entities, EntityNameLimit))))
    case _ => When(m.forwarded, ForwardedFlag)
  }

  /** One slot per kind of part, in diagnostic order. */
  function Slots(m: Msg): (slots: seq<Option<InfoPart>>)
    ensures |slots| == SlotCount
  {
    seq(SlotCount, r requires 0 <= r < SlotCount => Slot(m, r))
  }

  /** The filled slots, in order. */
  function Filled(slots: seq<Option<InfoPart>>): seq<InfoPart>
  {
    if slots == [] then []
    else (if slots[0].Some? then [slots[0].value] else []) + Filled(slots[1..])
  }

  /** The parts of the diagnostic of `m` (the `parts` list of _get_msg_info). */
  function InfoParts(m: Msg): seq<InfoPart>
  {
    Filled(Slots(m))
  }

  lemma {:induction false} FilledMembers(slots: seq<Option<InfoPart>>)
    ensures forall p :: p in Filled(slots) <==> Some(p) in slots
  {
    if slots != [] {
      FilledMembers(slots[1..]);
      assert slots == [slots[0]] + slots[1..];
    }
  }

  /** Every filled slot at position i has rank base + i. */
  ghost predicate RankedFrom(slots: seq<Option<InfoPart>>, base: nat)
  {
    forall i :: 0 <= i < |slots| && slots[i].Some? ==> PartRank(slots[i].value) == base + i
  }

  lemma RankedFromRest(slots: seq<Option<InfoPart>>, base: nat)
    requires slots != [] && RankedFrom(slots, base)
    ensures RankedFrom(slots[1..], base + 1)
  {
    var rest := slots[1..];
    forall i | 0 <= i < |rest| && rest[i].Some?
      ensures PartRank(rest[i].value) == base + 1 + i
    {
      assert rest[i] == slots[i + 1];
    }
  }

  /** Slots whose filled entries have ranks base, base + 1, ... give parts of
      strictly increasing rank, the first no lower than base. */
  lemma {:induction false} FilledOrdered(slots: seq<Option<InfoPart>>, base: nat)
    requires RankedFrom(slots, base)
    ensures Filled(slots) != [] ==> PartRank(Filled(slots)[0]) >= base
    ensures forall i :: 0 <= i < |Filled(slots)| - 1 ==> PartRank(Filled(slots)[i]) < PartRank(Filled(slots)[i + 1])
  {
    if slots != [] {
      var rest := slots[1..];
      RankedFromRest(slots, base);
      FilledOrdered(rest, base + 1);
      var tail := Filled(rest);
      if slots[0].Some? {
        var parts := [slots[0].value] + tail;
        assert Filled(slots) == parts;
        assert PartRank(slots[0].value) == base;
        forall i | 0 <= i < |parts| - 1
          ensures PartRank(parts[i]) < PartRank(parts[i + 1])
        {
          if i > 0 {
            assert parts[i] == tail[i - 1] && parts[i + 1] == tail[i];
          } else {
            assert parts[0] == slots[0].value && parts[1] == tail[0];
          }
        }
      } else {
        assert Filled(slots) == tail;
      }
    }
  }

  /** Every filled slot sits at the position of its rank. */
  ghost predicate Ranked(slots: seq<Option<InfoPart>>)
  {
    forall i :: 0 <= i < |slots| && slots[i].Some? ==> PartRank(slots[i].value) == i
  }

  lemma SlotsRanked(m: Msg)
    ensures Ranked(Slots(m))
  {
    forall r | 0 <= r < SlotCount && Slot(m, r).Some?
      ensures PartRank(Slot(m, r).value) == r
    {
    }
  }

  /** In ranked slots a part can only be found at the slot of its rank. */
  lemma RankedMember(slots: seq<Option<InfoPart>>, p: InfoPart)
    requires Ranked(slots)
    ensures Some(p) in slots <==> PartRank(p) < |slots| && slots[PartRank(p)] == Some(p)
  {
  }

  /** The diagnostic opens with the id and lists its parts in a fixed order. */
  lemma InfoPartsOrdered(m: Msg)
    ensures |InfoParts(m)| >= 1 && InfoParts(m)[0] == IdPart(m.id)
    ensures forall i :: 0 <= i < |InfoParts(m)| - 1 ==> PartRank(InfoParts(m)[i]) < PartRank(InfoParts(m)[i + 1])
  {
    var slots := Slots(m);
    SlotsRanked(m);
    FilledOrdered(slots, 0);
    assert slots[0] == Some(IdPart(m.id));
    assert Filled(slots) == [IdPart(m.id)] + Filled(slots[1..]);
  }

  /** A part whose slot is filled exactly when `b` holds is reported exactly when `b` holds. */
  lemma ReportedIff(m: Msg, p: InfoPart, b: bool)
    requires PartRank(p) < SlotCount && Slot(m, PartRank(p)) == When(b, p)
    ensures p in InfoParts(m) <==> b
  {
    FilledMembers(Slots(m));
    SlotsRanked(m);
    RankedMember(Slots(m), p);
  }

  /** The diagnostic reports text, caption, media type and entity types exactly
      when the message has them. */
  lemma InfoPartsContent(m: Msg)
    ensures TextPart(Take(m.text, ExcerptLength)) in InfoParts(m) <==> m.text != ""
    ensures CaptionPart(Take(m.caption, ExcerptLength)) in InfoParts(m) <==> m.caption != ""
    ensures m.media.Some? ==> MediaPart(m.media.value) in InfoParts(m)
    ensures forall p :: p in InfoParts(m) && p.MediaPart? ==> m.media == Some(p.media)
    ensures EntitiesPart(TypeNames(Take(m.entities, EntityNameLimit))) in InfoParts(m) <==> m.entities != []
    ensures forall p :: p in InfoParts(m) && p.TextPart? ==> m.text != "" && p == TextPart(Take(m.text, ExcerptLength))
    ensures forall p :: p in InfoParts(m) && p.CaptionPart? ==>
              m.caption != "" && p == CaptionPart(Take(m.caption, ExcerptLength))
    ensures forall p :: p in InfoParts(m) && p.EntitiesPart? ==>
              m.entities != [] && p == EntitiesPart(TypeNames(Take(m.entities, EntityNameLimit)))
  {
    ReportedIff(m, TextPart(Take(m.text, ExcerptLength)), m.text != "");
    ReportedIff(m, CaptionPart(Take(m.caption, ExcerptLength)), m.caption != "");
    ReportedIff(m, EntitiesPart(TypeNames(Take(m.entities, EntityNameLimit))), m.entities != []);
    if m.media.Some? {
      ReportedIff(m, MediaPart(m.media.value), true);
    }
    forall p | p in InfoParts(m)
      ensures p.MediaPart? ==> m.media == Some(p.media)
      ensures p.TextPart? ==> m.text != "" && p == TextPart(Take(m.text, ExcerptLength))
      ensures p.CaptionPart? ==> m.caption != "" && p == CaptionPart(Take(m.caption, ExcerptLength))
      ensures p.EntitiesPart? ==> m.entities != [] && p == EntitiesPart(TypeNames(Take(m.entities, EntityNameLimit)))
    {
      FilledMembers(Slots(m));
      SlotsRanked(m);
      RankedMember(Slots(m), p);
    }
  }

  /** The diagnostic carries each boolean flag exactly when it is set. */
  lemma InfoPartsFlags(m: Msg)
    ensures ServiceFlag in InfoParts(m) <==> m.service
    ensures EmptyFlag in InfoParts(m) <==> m.empty
    ensures WebPageFlag in InfoParts(m) <==> m.webPage
    ensures MarkupFlag in InfoParts(m) <==> m.replyMarkup.Some?
    ensures ForwardedFlag in InfoParts(m) <==> m.forwarded
  {
    ReportedIff(m, ServiceFlag, m.service);
    ReportedIff(m, EmptyFlag, m.empty);
    ReportedIff(m, WebPageFlag, m.webPage);
    ReportedIff(m, MarkupFlag, m.replyMarkup.Some?);
    ReportedIff(m, ForwardedFlag, m.forwarded);
  }

  /** Text and caption excerpts keep at most 40 characters; at most three entity
      type names are listed. */
  lemma InfoPartsBounded(m: Msg)
    ensures forall p :: p in InfoParts(m) && p.TextPart? ==> |p.text| <= ExcerptLength
    ensures forall p :: p in InfoParts(m) && p.CaptionPart? ==> |p.caption| <= ExcerptLength
    ensures forall p :: p in InfoParts(m) && p.EntitiesPart? ==> 1 <= |p.types| <= EntityNameLimit
  {
    var slots := Slots(m);
    FilledMembers(slots);
    SlotsRanked(m);
    forall p | p in InfoParts(m)
      ensures p.TextPart? ==> |p.text| <= ExcerptLength
      ensures p.CaptionPart? ==> |p.caption| <= ExcerptLength
      ensures p.EntitiesPart? ==> 1 <= |p.types| <= EntityNameLimit
    {
      RankedMember(slots, p);
    }
  }

  /** Python's repr of a list of strings without quotes in them: ['BOLD', 'URL']. */
  function PyList(names: seq<string>): string
  {
    "[" + Join(", ", seq(|names|, i requires 0 <= i < |names| => "'" + names[i] + "'")) + "]"
  }

  function Render(p: InfoPart): string
  {
    match p
    case IdPart(id) => "id=" + IntStr(id)
    case TextPart(t) => "text='" + t + "'"
    case CaptionPart(c) => "caption='" + c + "'"
    case MediaPart(x) => "media=" + x
    case ServiceFlag => "service=True"
    case EmptyFlag => "empty=True"
    case WebPageFlag => "web_page=True"
    case MarkupFlag => "reply_markup=True"
    case EntitiesPart(ns) => "entities=" + PyList(ns)
    case ForwardedFlag => "forwarded=True"
  }

  function RenderAll(parts: seq<InfoPart>): (r: seq<string>)
    ensures |r| == |parts|
    ensures forall i :: 0 <= i < |parts| ==> r[i] == Render(parts[i])
  {
    seq(|parts|, i requires 0 <= i < |parts| => Render(parts[i]))
  }

  /** The diagnostic string of `m`: its parts, comma-separated, in brackets. */
  function Diagnostic(m: Msg): string
  {
    "[" + Join(", ", RenderAll(InfoParts(m))) + "]"
  }

  lemma JoinStartsWithFirst(sep: string, xs: seq<string>)
    requires |xs| >= 1
    ensures |Join(sep, xs)| >= |xs[0]| && Join(sep, xs)[..|xs[0]|] == xs[0]
  {
  }

  /** A bracketed string opens with "[" and the body's prefix, and closes with "]". */
  lemma Bracketed(body: string, x: string)
    requires |body| >= |x| && body[..|x|] == x
    ensures var d := "[" + body + "]";
            |d| > |"[" + x| && d[..|"[" + x|] == "[" + x && d[|d| - 1] == ']'
  {
    var d := "[" + body + "]";
    assert forall k :: 0 <= k < |x| ==> d[k + 1] == body[k] == x[k];
  }

  /** The diagnostic always opens with "[id=<id>" and closes with "]". */
  lemma DiagnosticShape(m: Msg)
    ensures var d := Diagnostic(m); var head := "[id=" + IntStr(m.id);
            |d| > |head| && d[..|head|] == head && d[|d| - 1] == ']'
  {
    InfoPartsOrdered(m);
    var rendered := RenderAll(InfoParts(m));
    var id := "id=" + IntStr(m.id);
    assert rendered[0] == Render(IdPart(m.id)) == id;
    JoinStartsWithFirst(", ", rendered);
    Bracketed(Join(", ", rendered), id);
    assert "[" + id == "[id=" + IntStr(m.id);
  }
}

/** The copy-strategy chain of the transfer engine (Cloner._copy_message and
    Cloner._resend_content): up to five ways of transferring one message, tried
    in a fixed order until one works.

    The messaging endpoint is not modelled: it is an oracle that answers each
    request a strategy issues with Ok or with the text of the exception raised. */
module Strategies {
  import opened Messages

  datatype Strategy = CopyStrategy | Resend | ResendClean | PlainText | RawForward

  /** The order in which _copy_message tries the strategies. */
  const Chain: seq<Strategy> := [CopyStrategy, Resend, ResendClean, PlainText, RawForward]

  /** The prefix of each strategy's entry in the error list. */
  function Label(s: Strategy): string
  {
    match s
    case CopyStrategy => "copy"
    case Resend => "resend"
    case ResendClean => "resend_limpo"
    case PlainText => "texto_puro"
    case RawForward => "raw_forward"
  }

  /** One send_* call: the kind picks the client method; `content` is the file id
      (or the text, for send_message); an absent keyword argument is None or []. */
  datatype SendCall = SendCall(
    kind: ContentKind,
    chatId: int,
    content: string,
    caption: Option<string>,
    entities: seq<Entity>,
    replyMarkup: Option<Markup>)

  /** A request to the messaging endpoint: msg.copy, a send_* call, or the raw
      ForwardMessages call (with drop_author and silent set; peer resolution and
      the random correlation id are folded into it). */
  datatype Request =
    | CopyRequest(msg: Msg, chatId: int)
    | SendRequest(call: SendCall)
    | ForwardRequest(fromChat: int, msgId: int, toChat: int)

  datatype Reply = Ok | Err(detail: string)

  /** The endpoint's answer to a request issued by a strategy. */
  type Endpoint = (Strategy, Request) -> Reply

  /** A request as it was issued, with the strategy that issued it. */
  datatype Call = Call(strategy: Strategy, request: Request)

  /** What one strategy came to: the message was sent, the strategy returned
      without sending anything, or the request raised. */
  datatype Attempt = Sent | Declined | Raised(detail: string)

  /** One entry of the error list: the strategy that raised and its error text. */
  datatype Rejection = Rejection(strategy: Strategy, detail: string)

  /** The result of _copy_message: (True, None) or (False, reason). */
  datatype Outcome = Copied | NotCopied(reason: string)

  // ---------------------------------------------------------------------------
  // Strategies 2 and 3: re-sending the content by kind (Cloner._resend_content)

  /** The kind _resend_content sends: the first present in the order photo, video,
      document, audio, voice, sticker, video note, animation, text. */
  function FirstKind(m: Msg): Option<ContentKind>
  {
    if m.photo.Some? then Some(Photo)
    else if m.video.Some? then Some(Video)
    else if m.document.Some? then Some(Document)
    else if m.audio.Some? then Some(Audio)
    else if m.voice.Some? then Some(Voice)
    else if m.sticker.Some? then Some(Sticker)
    else if m.videoNote.Some? then Some(VideoNote)
    else if m.animation.Some? then Some(Animation)
    else if m.text != "" then Some(Text)
    else None
  }

  /** The single send call _resend_content makes for `m`, or None when the message
      has none of the kinds it handles. Captioned kinds get the caption ("" when
      absent) and, unless `skipMarkup`, the caption entities; text gets its
      entities unless `skipMarkup`; sticker and video note get neither; the reply
      markup is passed unless `skipMarkup`. */
  function ResendCall(m: Msg, dest: int, skipMarkup: bool): (r: Option<SendCall>)
    ensures r.Some? ==> r.value.chatId == dest && Payload(m, r.value.kind) == Some(r.value.content)
    ensures r.Some? ==> (r.value.caption.Some? <==> Captioned(r.value.kind))
    ensures r.Some? && r.value.caption.Some? ==> r.value.caption.value == m.caption
    ensures r.Some? && skipMarkup ==> r.value.entities == [] && r.value.replyMarkup.None?
    ensures r.Some? && !skipMarkup ==> r.value.replyMarkup == m.replyMarkup
    ensures r.Some? && !skipMarkup && Captioned(r.value.kind) ==> r.value.entities == m.captionEntities
    ensures r.Some? && !skipMarkup && r.value.kind == Text ==> r.value.entities == m.entities
    ensures r.Some? && !Captioned(r.value.kind) && r.value.kind != Text ==> r.value.entities == []
  {
    match FirstKind(m)
    case None => None
    case Some(k) =>
      var markup := if skipMarkup then None else m.replyMarkup;
      var entities := if skipMarkup then []
                      else if Captioned(k) then m.captionEntities
                      else if k == Text then m.entities
                      else [];
      var caption := if Captioned(k) then Some(m.caption) else None;
      assert Has(m, k);
      Some(SendCall(k, dest, Payload(m, k).value, caption, entities, markup))
  }

  /** _resend_content sends the first kind present in the order photo, video,
      document, audio, voice, sticker, video note, animation, text, and sends
      nothing exactly when none is present. */
  lemma ResendPicksFirstPresentKind(m: Msg, dest: int, skipMarkup: bool)
    ensures ResendCall(m, dest, skipMarkup).None? <==> forall k :: !Has(m, k)
    ensures var r := ResendCall(m, dest, skipMarkup);
            r.Some? ==> Has(m, r.value.kind) && forall k :: KindRank(k) < KindRank(r.value.kind) ==> !Has(m, k)
  {
    var r := ResendCall(m, dest, skipMarkup);
    assert r.Some? ==> FirstKind(m) == Some(r.value.kind);
    if r.None? {
      forall k ensures !Has(m, k) {
        match k
        case Photo =>
        case Video =>
        case Document =>
        case Audio =>
        case Voice =>
        case Sticker =>
        case VideoNote =>
        case Animation =>
        case Text =>
      }
    } else {
      assert Has(m, r.value.kind);
      forall k | KindRank(k) < KindRank(r.value.kind) ensures !Has(m, k) {
        match k
        case Photo =>
        case Video =>
        case Document =>
        case Audio =>
        case Voice =>
        case Sticker =>
        case VideoNote =>
        case Animation =>
        case Text =>
      }
    }
  }

  // ---------------------------------------------------------------------------
  // The five strategies

  /** `msg.text or msg.caption or ""`. */
  function PlainTextOf(m: Msg): string
  {
    if m.text != "" then m.text else m.caption
  }

  /** Which request each strategy would issue for one message, None for a strategy
      that returns without sending. The chain below is stated for any plan;
      `Requests` is the plan _copy_message follows. */
  datatype Plan = Plan(copy: Option<Request>, resend: Option<Request>, resendClean: Option<Request>,
                       plainText: Option<Request>, rawForward: Option<Request>)
  {
    function At(s: Strategy): Option<Request>
    {
      match s
      case CopyStrategy => copy
      case Resend => resend
      case ResendClean => resendClean
      case PlainText => plainText
      case RawForward => rawForward
    }
  }

  /** The send call of _resend_content, None when it returns False. */
  function ResendRequest(m: Msg, dest: int, skipMarkup: bool): Option<Request>
  {
    var c := ResendCall(m, dest, skipMarkup);
    if c.Some? then Some(SendRequest(c.value)) else None
  }

  /** Strategy 4 sends the text or caption unformatted, unless it is blank. */
  function PlainTextRequest(m: Msg, dest: int): Option<Request>
  {
    var t := PlainTextOf(m);
    if Blank(t) then None else Some(SendRequest(SendCall(Text, dest, t, None, [], None)))
  }

  function Requests(m: Msg, dest: int): Plan
  {
    Plan(Some(CopyRequest(m, dest)), ResendRequest(m, dest, false), ResendRequest(m, dest, true),
         PlainTextRequest(m, dest), Some(ForwardRequest(m.chatId, m.id, dest)))
  }

  function Try(s: Strategy, plan: Plan, ep: Endpoint): Attempt
  {
    match plan.At(s)
    case None => Declined
    case Some(q) => if ep(s, q).Ok? then Sent else Raised(ep(s, q).detail)
  }

  /** Index of the first strategy of `ss` that sends, |ss| when none does. */
  function FirstSent(ss: seq<Strategy>, plan: Plan, ep: Endpoint): (k: nat)
    ensures k <= |ss|
  {
    if ss == [] then 0
    else if Try(ss[0], plan, ep) == Sent then 0
    else 1 + FirstSent(ss[1..], plan, ep)
  }

  /** FirstSent is the first strategy that sends: every one before it fails. */
  lemma {:induction false} FirstSentIsFirst(ss: seq<Strategy>, plan: Plan, ep: Endpoint)
    ensures var k := FirstSent(ss, plan, ep);
      && (forall j :: 0 <= j < k ==> Try(ss[j], plan, ep) != Sent)
      && (k < |ss| ==> Try(ss[k], plan, ep) == Sent)
  {
    if ss != [] && Try(ss[0], plan, ep) != Sent {
      var rest := ss[1..];
      FirstSentIsFirst(rest, plan, ep);
      forall j | 1 <= j < FirstSent(ss, plan, ep)
        ensures Try(ss[j], plan, ep) != Sent
      {
        assert ss[j] == rest[j - 1];
      }
    }
  }

  /** The requests issued while trying `ss` in order, up to the first that sends. */
  function Issued(ss: seq<Strategy>, plan: Plan, ep: Endpoint): seq<Call>
  {
    if ss == [] then []
    else
      var here := if plan.At(ss[0]).Some? then [Call(ss[0], plan.At(ss[0]).value)] else [];
      if Try(ss[0], plan, ep) == Sent then here else here + Issued(ss[1..], plan, ep)
  }

  /** The error list built while trying `ss` in order: one entry per strategy that
      raised, none for a strategy that returned without sending. */
  function Errors(ss: seq<Strategy>, plan: Plan, ep: Endpoint): seq<Rejection>
  {
    if ss == [] then []
    else match Try(ss[0], plan, ep)
      case Sent => []
      case Declined => Errors(ss[1..], plan, ep)
      case Raised(e) => [Rejection(ss[0], e)] + Errors(ss[1..], plan, ep)
  }

  /** The text the error list holds for a rejection: "<label>: <error>". */
  function Entry(r: Rejection): string
  {
    Label(r.strategy) + ": " + r.detail
  }

  /** The texts of an error list, in order. */
  function Entries(rs: seq<Rejection>): (texts: seq<string>)
    ensures |texts| == |rs|
    ensures forall i :: 0 <= i < |rs| ==> texts[i] == Entry(rs[i])
  {
    seq(|rs|, i requires 0 <= i < |rs| => Entry(rs[i]))
  }

  /** What _copy_message returns for `m`. */
  function Transfer(m: Msg, dest: int, ep: Endpoint): Outcome
  {
    var plan := Requests(m, dest);
    if FirstSent(Chain, plan, ep) < |Chain| then Copied
    else NotCopied(Diagnostic(m) + " -> " + Join(" | ", Entries(Errors(Chain, plan, ep))))
  }

  /** The requests _copy_message issues for `m`, in order. */
  function TransferCalls(m: Msg, dest: int, ep: Endpoint): seq<Call>
  {
    Issued(Chain, Requests(m, dest), ep)
  }

  // ---------------------------------------------------------------------------
  // What the chain promises

  /** The error text of a rejected request. */
  function DetailOf(r: Reply): string
  {
    if r.Err? then r.detail else ""
  }

  /** One step of the chain: the first strategy, then the rest. */
  lemma Unroll(ss: seq<Strategy>, plan: Plan, ep: Endpoint)
    requires ss != []
    ensures Try(ss[0], plan, ep) != Sent ==> FirstSent(ss, plan, ep) == 1 + FirstSent(ss[1..], plan, ep)
    ensures Try(ss[0], plan, ep) == Sent ==> FirstSent(ss, plan, ep) == 0
    ensures plan.At(ss[0]).None? ==>
              Issued(ss, plan, ep) == Issued(ss[1..], plan, ep)
              && Errors(ss, plan, ep) == Errors(ss[1..], plan, ep)
    ensures plan.At(ss[0]).Some? && Try(ss[0], plan, ep) == Sent ==>
              Issued(ss, plan, ep) == [Call(ss[0], plan.At(ss[0]).value)]
    ensures var q := plan.At(ss[0]);
            q.Some? && Try(ss[0], plan, ep) != Sent ==>
              Issued(ss, plan, ep) == [Call(ss[0], q.value)] + Issued(ss[1..], plan, ep)
              && Errors(ss, plan, ep) == [Rejection(ss[0], DetailOf(ep(ss[0], q.value)))] + Errors(ss[1..], plan, ep)
  {
  }

  /** Every request issued before the last one was rejected. */
  lemma {:induction false} IssuedRejectedBeforeLast(ss: seq<Strategy>, plan: Plan, ep: Endpoint)
    ensures var calls := Issued(ss, plan, ep);
            forall i :: 0 <= i < |calls| - 1 ==> ep(calls[i].strategy, calls[i].request).Err?
  {
    if ss != [] {
      var rest := ss[1..];
      IssuedRejectedBeforeLast(rest, plan, ep);
      Unroll(ss, plan, ep);
      var calls := Issued(ss, plan, ep);
      var tail := Issued(rest, plan, ep);
      if plan.At(ss[0]).Some? && Try(ss[0], plan, ep) != Sent {
        forall i | 0 <= i < |calls| - 1
          ensures ep(calls[i].strategy, calls[i].request).Err?
        {
          if i > 0 { assert calls[i] == tail[i - 1]; }
        }
      }
    }
  }

  /** Some strategy sends exactly when the last request issued was accepted. */
  lemma {:induction false} IssuedEndsWithSuccess(ss: seq<Strategy>, plan: Plan, ep: Endpoint)
    ensures var calls := Issued(ss, plan, ep);
            FirstSent(ss, plan, ep) < |ss| <==> |calls| > 0 && ep(calls[|calls| - 1].strategy, calls[|calls| - 1].request).Ok?
  {
    if ss != [] {
      var rest := ss[1..];
      var calls := Issued(ss, plan, ep);
      if Try(ss[0], plan, ep) == Sent {
        assert calls == [Call(ss[0], plan.At(ss[0]).value)];
      } else {
        IssuedEndsWithSuccess(rest, plan, ep);
        var tail := Issued(rest, plan, ep);
        if plan.At(ss[0]).Some? {
          assert calls == [Call(ss[0], plan.At(ss[0]).value)] + tail;
          if |tail| > 0 {
            assert calls[|calls| - 1] == tail[|tail| - 1];
          }
        } else {
          assert calls == tail;
        }
      }
    }
  }

  /** The requests the strategies of `ss` plan, in order. */
  function Planned(ss: seq<Strategy>, plan: Plan): seq<Call>
  {
    if ss == [] then []
    else
      (if plan.At(ss[0]).Some? then [Call(ss[0], plan.At(ss[0]).value)] else []) + Planned(ss[1..], plan)
  }

  /** The requests issued are the planned ones, in chain order, up to the first
      that is accepted: all of them when none is. */
  lemma {:induction false} IssuedArePlanned(ss: seq<Strategy>, plan: Plan, ep: Endpoint)
    ensures Issued(ss, plan, ep) <= Planned(ss, plan)
    ensures FirstSent(ss, plan, ep) == |ss| ==> Issued(ss, plan, ep) == Planned(ss, plan)
  {
    if ss != [] {
      Unroll(ss, plan, ep);
      IssuedArePlanned(ss[1..], plan, ep);
    }
  }

  /** The entries for the requests of `calls` that were rejected, in order. */
  function Rejections(calls: seq<Call>, ep: Endpoint): seq<Rejection>
  {
    if calls == [] then []
    else
      var r := ep(calls[0].strategy, calls[0].request);
      (if r.Err? then [Rejection(calls[0].strategy, r.detail)] else []) + Rejections(calls[1..], ep)
  }

  /** The error list holds exactly one entry per issued request that was
      rejected, in the order they were issued, and nothing else. */
  lemma {:induction false} ErrorsAreRejections(ss: seq<Strategy>, plan: Plan, ep: Endpoint)
    ensures Errors(ss, plan, ep) == Rejections(Issued(ss, plan, ep), ep)
  {
    if ss != [] {
      var rest := ss[1..];
      Unroll(ss, plan, ep);
      ErrorsAreRejections(rest, plan, ep);
      if plan.At(ss[0]).Some? {
        var here := Call(ss[0], plan.At(ss[0]).value);
        if Try(ss[0], plan, ep) == Sent {
          assert Rejections([here], ep) == [] + Rejections([], ep);
        } else {
          assert ([here] + Issued(rest, plan, ep))[1..] == Issued(rest, plan, ep);
        }
      }
    }
  }

  /** When no strategy of `ss` sends and the last one issued a request, the last
      error recorded is that request's. */
  lemma {:induction false} FailedChainEndsWithLast(ss: seq<Strategy>, plan: Plan, ep: Endpoint)
    requires ss != [] && plan.At(ss[|ss| - 1]).Some? && FirstSent(ss, plan, ep) == |ss|
    ensures var errors := Errors(ss, plan, ep);
            var s := ss[|ss| - 1];
            |errors| > 0 && errors[|errors| - 1] == Rejection(s, DetailOf(ep(s, plan.At(s).value)))
  {
    var rest := ss[1..];
    var s := ss[|ss| - 1];
    assert Try(ss[0], plan, ep) != Sent && FirstSent(rest, plan, ep) == |rest|;
    if rest == [] {
      assert ss[0] == s && Try(s, plan, ep).Raised?;
      assert Errors(ss, plan, ep) == [Rejection(s, DetailOf(ep(s, plan.At(s).value)))] + Errors(rest, plan, ep);
    } else {
      assert rest[|rest| - 1] == s;
      FailedChainEndsWithLast(rest, plan, ep);
      ErrorsAfterFailure(ss, plan, ep);
    }
  }

  /** A first strategy that does not send adds its own entries ahead of the rest's. */
  lemma ErrorsAfterFailure(ss: seq<Strategy>, plan: Plan, ep: Endpoint)
    requires ss != [] && Try(ss[0], plan, ep) != Sent
    ensures Errors(ss, plan, ep) == Errors(ss[..1], plan, ep) + Errors(ss[1..], plan, ep)
  {
    assert ss[..1][1..] == [];
  }

  /** Errors records at most one entry per strategy. */
  lemma {:induction false} ErrorsBounded(ss: seq<Strategy>, plan: Plan, ep: Endpoint)
    ensures |Errors(ss, plan, ep)| <= |ss|
  {
    if ss != [] {
      ErrorsBounded(ss[1..], plan, ep);
    }
  }

  /** A message _copy_message fails to copy carries between two and five errors:
      copy's first, raw_forward's last, since both strategies always send. */
  lemma TotalFailureErrors(m: Msg, dest: int, ep: Endpoint)
    requires Transfer(m, dest, ep).NotCopied?
    ensures var errors := Errors(Chain, Requests(m, dest), ep);
      && 2 <= |errors| <= |Chain|
      && errors[0] == Rejection(CopyStrategy, DetailOf(ep(CopyStrategy, CopyRequest(m, dest))))
      && errors[|errors| - 1] == Rejection(RawForward, DetailOf(ep(RawForward, ForwardRequest(m.chatId, m.id, dest))))
      && Transfer(m, dest, ep).reason == Diagnostic(m) + " -> " + Join(" | ", Entries(errors))
  {
    var plan := Requests(m, dest);
    Unroll(Chain, plan, ep);
    FailedChainEndsWithLast(Chain[1..], plan, ep);
    ErrorsBounded(Chain, plan, ep);
  }

  /** A plan where only copy and raw forward issue requests: when both are
      rejected, those are the two requests made and the two errors recorded. */
  lemma OnlyCopyAndForward(plan: Plan, ep: Endpoint)
    requires plan.copy.Some? && plan.resend.None? && plan.resendClean.None? && plan.plainText.None? && plan.rawForward.Some?
    requires FirstSent(Chain, plan, ep) == |Chain|
    ensures Issued(Chain, plan, ep) == [Call(CopyStrategy, plan.copy.value), Call(RawForward, plan.rawForward.value)]
    ensures Errors(Chain, plan, ep)
         == [Rejection(CopyStrategy, DetailOf(ep(CopyStrategy, plan.copy.value))),
             Rejection(RawForward, DetailOf(ep(RawForward, plan.rawForward.value)))]
  {
    var ss := Chain;
    Unroll(ss[4..], plan, ep);
    assert ss[4..][1..] == [];
    Unroll(ss[3..], plan, ep);
    assert ss[3..][1..] == ss[4..];
    Unroll(ss[2..], plan, ep);
    assert ss[2..][1..] == ss[3..];
    Unroll(ss[1..], plan, ep);
    assert ss[1..][1..] == ss[2..];
    Unroll(ss, plan, ep);
  }

  /** A message with no content kind and a blank text and caption is only ever
      tried by copy and raw forward: a failure records exactly those two errors. */
  lemma ContentlessFailure(m: Msg, dest: int, ep: Endpoint)
    requires forall k :: !Has(m, k)
    requires Blank(PlainTextOf(m))
    requires Transfer(m, dest, ep).NotCopied?
    ensures TransferCalls(m, dest, ep) == [Call(CopyStrategy, CopyRequest(m, dest)),
                                           Call(RawForward, ForwardRequest(m.chatId, m.id, dest))]
    ensures Errors(Chain, Requests(m, dest), ep)
         == [Rejection(CopyStrategy, DetailOf(ep(CopyStrategy, CopyRequest(m, dest)))),
             Rejection(RawForward, DetailOf(ep(RawForward, ForwardRequest(m.chatId, m.id, dest))))]
  {
    ResendPicksFirstPresentKind(m, dest, false);
    ResendPicksFirstPresentKind(m, dest, true);
    OnlyCopyAndForward(Requests(m, dest), ep);
  }

  // ---------------------------------------------------------------------------
  // The chain as _copy_message runs it

  /** Tries copy, re-send with markup, re-send without markup, plain text and raw
      forward in that order, stopping at the first that sends; `issued` is the
      sequence of requests it made to the endpoint. */
  method CopyMessage(m: Msg, dest: int, ep: Endpoint) returns (outcome: Outcome, issued: seq<Call>)
    ensures outcome == Transfer(m, dest, ep)
    ensures issued == TransferCalls(m, dest, ep)
  {
    ghost var plan := Requests(m, dest);
    var errors: seq<Rejection> := [];
    issued := [];
    assert ChainSoFar(Chain, plan, ep, 0, issued, errors);
    var sent: bool;

    // Strategy 1: msg.copy
    sent, issued, errors := AttemptStrategy(CopyStrategy, Some(CopyRequest(m, dest)), ep, issued, errors, plan, 0);
    if sent { return Copied, issued; }
    // Strategy 2: re-send the content with its entities and markup
    sent, issued, errors := AttemptStrategy(Resend, ResendRequest(m, dest, false), ep, issued, errors, plan, 1);
    if sent { return Copied, issued; }
    // Strategy 3: re-send the content without them
    sent, issued, errors := AttemptStrategy(ResendClean, ResendRequest(m, dest, true), ep, issued, errors, plan, 2);
    if sent { return Copied, issued; }
    outcome, issued := CopyFallbacks(m, dest, ep, issued, errors);
  }

  /** The last two try blocks of _copy_message, reached once copy and both
      re-sends have failed: plain text, then raw forward, then the diagnostic. */
  method CopyFallbacks(m: Msg, dest: int, ep: Endpoint, issued0: seq<Call>, errors0: seq<Rejection>)
    returns (outcome: Outcome, issued: seq<Call>)
    requires ChainSoFar(Chain, Requests(m, dest), ep, 3, issued0, errors0)
    ensures outcome == Transfer(m, dest, ep)
    ensures issued == TransferCalls(m, dest, ep)
  {
    ghost var plan := Requests(m, dest);
    var errors := errors0;
    issued := issued0;
    var sent: bool;
    // Strategy 4: the text or caption unformatted, unless blank
    sent, issued, errors := AttemptStrategy(PlainText, PlainTextRequest(m, dest), ep, issued, errors, plan, 3);
    if sent { return Copied, issued; }
    // Strategy 5: raw forward with the author dropped
    sent, issued, errors := AttemptStrategy(RawForward, Some(ForwardRequest(m.chatId, m.id, dest)), ep, issued, errors, plan, 4);
    if sent { return Copied, issued; }

    AllFailed(Chain, plan, ep, issued, errors);
    outcome := NotCopied(Diagnostic(m) + " -> " + Join(" | ", Entries(errors)));
  }

  /** One try block of _copy_message: issues strategy `s`'s request, if it has one,
      and on rejection appends the labelled error. `plan` and `done` say where in
      the chain the strategy sits: the result keeps ChainSoFar, or ends the chain. */
  method AttemptStrategy(s: Strategy, q: Option<Request>, ep: Endpoint, issued: seq<Call>, errors: seq<Rejection>,
                         ghost plan: Plan, ghost done: nat)
    returns (sent: bool, issuedAfter: seq<Call>, errorsAfter: seq<Rejection>)
    requires done < |Chain| && Chain[done] == s && plan.At(s) == q
    requires ChainSoFar(Chain, plan, ep, done, issued, errors)
    ensures sent == (Try(s, plan, ep) == Sent)
    ensures sent ==> FirstSent(Chain, plan, ep) < |Chain| && Issued(Chain, plan, ep) == issuedAfter
    ensures !sent ==> ChainSoFar(Chain, plan, ep, done + 1, issuedAfter, errorsAfter)
  {
    if q.None? {
      DeclinedNow(Chain, plan, ep, done, issued, errors);
      return false, issued, errors;
    }
    var reply := ep(s, q.value);
    issuedAfter := issued + [Call(s, q.value)];
    if reply.Ok? {
      SentNow(Chain, plan, ep, q.value, done, issued, errors);
      return true, issuedAfter, errors;
    }
    RaisedNow(Chain, plan, ep, q.value, done, issued, errors);
    return false, issuedAfter, errors + [Rejection(s, reply.detail)];
  }

  /** After the first `done` strategies of `ss`, none of which sent, `issued` and
      `errors` are what trying all of `ss` issues and records before the rest. */
  ghost predicate ChainSoFar(ss: seq<Strategy>, plan: Plan, ep: Endpoint, done: nat, issued: seq<Call>, errors: seq<Rejection>)
  {
    && done <= |ss|
    && FirstSent(ss, plan, ep) == done + FirstSent(ss[done..], plan, ep)
    && Issued(ss, plan, ep) == issued + Issued(ss[done..], plan, ep)
    && Errors(ss, plan, ep) == errors + Errors(ss[done..], plan, ep)
  }

  lemma SentNow(ss: seq<Strategy>, plan: Plan, ep: Endpoint, q: Request, done: nat,
                issued: seq<Call>, errors: seq<Rejection>)
    requires done < |ss| && ChainSoFar(ss, plan, ep, done, issued, errors)
    requires plan.At(ss[done]) == Some(q) && ep(ss[done], q).Ok?
    ensures FirstSent(ss, plan, ep) < |ss|
    ensures Issued(ss, plan, ep) == issued + [Call(ss[done], q)]
  {
    Unroll(ss[done..], plan, ep);
  }

  lemma RaisedNow(ss: seq<Strategy>, plan: Plan, ep: Endpoint, q: Request, done: nat,
                  issued: seq<Call>, errors: seq<Rejection>)
    requires done < |ss| && ChainSoFar(ss, plan, ep, done, issued, errors)
    requires plan.At(ss[done]) == Some(q) && ep(ss[done], q).Err?
    ensures ChainSoFar(ss, plan, ep, done + 1, issued + [Call(ss[done], q)],
                       errors + [Rejection(ss[done], ep(ss[done], q).detail)])
  {
    var rest := ss[done..];
    Unroll(rest, plan, ep);
    assert ss[done + 1..] == rest[1..];
  }

  lemma DeclinedNow(ss: seq<Strategy>, plan: Plan, ep: Endpoint, done: nat, issued: seq<Call>, errors: seq<Rejection>)
    requires done < |ss| && ChainSoFar(ss, plan, ep, done, issued, errors)
    requires plan.At(ss[done]).None?
    ensures ChainSoFar(ss, plan, ep, done + 1, issued, errors)
  {
    Unroll(ss[done..], plan, ep);
    assert ss[done + 1..] == ss[done..][1..];
  }

  lemma AllFailed(ss: seq<Strategy>, plan: Plan, ep: Endpoint, issued: seq<Call>, errors: seq<Rejection>)
    requires ChainSoFar(ss, plan, ep, |ss|, issued, errors)
    ensures FirstSent(ss, plan, ep) == |ss|
    ensures Errors(ss, plan, ep) == errors
    ensures Issued(ss, plan, ep) == issued
  {
    assert ss[|ss|..] == [];
  }
}

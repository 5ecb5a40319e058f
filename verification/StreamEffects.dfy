/**
 What the frames of a stream bring about, said of the text of the frames alone: which messages are
 delivered, which error is kept, and when the end is reported and with what.
 */
module StreamEffects {
  import opened Outcome
  import opened StreamFraming

  /** The text after `data: `, if that is how the frame starts. */
  function Payload(frame: string): Option<string> {
    if |frame| >= 6 && frame[..6] == "data: " then Some(frame[6..]) else None
  }

  /** The frame carries this message: not the end, not an error, parsed, and without a detail. */
  predicate Carries<Json(==)>(p: Platform<Json>, frame: string, json: Json) {
    && Payload(frame).Some? && Payload(frame).value != "[DONE]" && Payload(frame).value != "[ERROR]"
    && p.parse(Payload(frame).value) == Some(json) && p.detail(json).None?
  }

  /** The frame says that something went wrong, and what. */
  predicate Reports<Json(!new)>(p: Platform<Json>, frame: string, message: string) {
    && Payload(frame).Some? && Payload(frame).value != "[DONE]"
    && if Payload(frame).value == "[ERROR]" then message == "[ERROR]"
       else p.parse(Payload(frame).value).Some? && p.detail(p.parse(Payload(frame).value).value) == Some(message)
  }

  predicate IsDone(frame: string) {
    Payload(frame) == Some("[DONE]")
  }

  /** The loop goes on after a frame exactly when it is no data at all or carries a message. */
  lemma TerminalIs<Json(!new)>(p: Platform<Json>, frame: string)
    ensures Terminal(p, frame) <==> Payload(frame).Some? && forall json :: !Carries(p, frame, json)
  {
    assert "data: " <= frame <==> Payload(frame).Some?;
    if Payload(frame).Some? {
      var body := Payload(frame).value;
      assert body == frame[6..];
      if Classify(p, frame).Data? { assert Carries(p, frame, p.parse(body).value); }
    }
  }

  /** `messages` are those of the frames, in their order, each once. */
  ghost predicate AreMessages<Json(!new)>(p: Platform<Json>, frames: seq<string>, messages: seq<Json>)
    decreases |frames|
  {
    if frames == [] then messages == []
    else if exists json :: Carries(p, Last(frames), json) then
      messages != [] && Carries(p, Last(frames), Last(messages)) && AreMessages(p, Front(frames), Front(messages))
    else AreMessages(p, Front(frames), messages)
  }

  /** `error` is what the last frame said that said anything of the kind, and empty if none did. */
  ghost predicate IsLastError<Json(!new)>(p: Platform<Json>, frames: seq<string>, error: string) {
    || (error == "" && forall i, m :: 0 <= i < |frames| ==> !Reports(p, frames[i], m))
    || exists i :: 0 <= i < |frames| && Reports(p, frames[i], error)
                   && forall j, m :: i < j < |frames| ==> !Reports(p, frames[j], m)
  }

  lemma FrameDelivers<Json(!new)>(p: Platform<Json>, e: Effects<Json>, frame: string)
    ensures var after := Act(p, e, frame);
            if exists json :: Carries(p, frame, json)
            then after.delivered != [] && Carries(p, frame, Last(after.delivered))
              && Front(after.delivered) == e.delivered
            else after.delivered == e.delivered
  {
    assert "data: " <= frame <==> Payload(frame).Some?;
    if Payload(frame).Some? {
      var body := Payload(frame).value;
      assert body == frame[6..];
      if body != "[DONE]" && body != "[ERROR]" && p.parse(body).Some? && p.detail(p.parse(body).value).None? {
        assert Carries(p, frame, p.parse(body).value);
      }
    }
  }

  lemma FrameReports<Json(!new)>(p: Platform<Json>, e: Effects<Json>, frame: string)
    ensures var after := Act(p, e, frame);
            if exists m :: Reports(p, frame, m) then Reports(p, frame, after.error) else after.error == e.error
    ensures var after := Act(p, e, frame);
            if IsDone(frame) && e.endPending then !after.endPending && after.endCalls == e.endCalls + [e.error]
            else after.endPending == e.endPending && after.endCalls == e.endCalls
  {
    assert "data: " <= frame <==> Payload(frame).Some?;
    if Payload(frame).Some? { assert Payload(frame).value == frame[6..]; }
    assert Reports(p, frame, Act(p, e, frame).error) || forall m :: !Reports(p, frame, m);
  }

  lemma {:induction false} MessagesAreDelivered<Json(!new)>(p: Platform<Json>, e: Effects<Json>, frames: seq<string>)
    requires e.delivered == []
    ensures AreMessages(p, frames, ActAll(p, e, frames).delivered)
  {
    if frames != [] {
      MessagesAreDelivered(p, e, Front(frames));
      FrameDelivers(p, ActAll(p, e, Front(frames)), Last(frames));
    }
  }

  lemma {:induction false} LastErrorIsKept<Json(!new)>(p: Platform<Json>, e: Effects<Json>, frames: seq<string>)
    requires e.error == ""
    ensures IsLastError(p, frames, ActAll(p, e, frames).error)
  {
    if frames != [] {
      var n, before := |frames| - 1, ActAll(p, e, Front(frames));
      LastErrorIsKept(p, e, Front(frames));
      FrameReports(p, before, frames[n]);
      var error := ActAll(p, e, frames).error;
      if !Reports(p, frames[n], error) {
        forall j, m | 0 <= j < |frames| && Reports(p, frames[j], m) ensures j < n && Front(frames)[j] == frames[j] {
        }
        if i :| 0 <= i < n && Reports(p, Front(frames)[i], error)
                && forall j, m :: i < j < n ==> !Reports(p, Front(frames)[j], m) {
          assert Reports(p, frames[i], error);
        }
      }
    }
  }

  /** The first frame that says the stream is done, if there is one. */
  ghost predicate FirstDone(frames: seq<string>, i: nat) {
    i < |frames| && IsDone(frames[i]) && forall j :: 0 <= j < i ==> !IsDone(frames[j])
  }

  lemma {:induction false} NothingEnds<Json(!new)>(p: Platform<Json>, e: Effects<Json>, frames: seq<string>)
    requires forall j :: 0 <= j < |frames| ==> !IsDone(frames[j])
    ensures var after := ActAll(p, e, frames); after.endPending == e.endPending && after.endCalls == e.endCalls
  {
    if frames != [] {
      NothingEnds(p, e, Front(frames));
      FrameReports(p, ActAll(p, e, Front(frames)), Last(frames));
    }
  }

  lemma {:induction false} EndedStays<Json(!new)>(p: Platform<Json>, e: Effects<Json>, frames: seq<string>)
    requires !e.endPending
    ensures var after := ActAll(p, e, frames); !after.endPending && after.endCalls == e.endCalls
  {
    if frames != [] {
      EndedStays(p, e, Front(frames));
      FrameReports(p, ActAll(p, e, Front(frames)), Last(frames));
    }
  }

  /** The end is reported at the first frame that says so, with the error kept until then. */
  lemma EndIsReportedAt<Json(!new)>(p: Platform<Json>, e: Effects<Json>, frames: seq<string>, i: nat)
    requires e.endPending && e.endCalls == [] && FirstDone(frames, i)
    ensures var after := ActAll(p, e, frames);
            !after.endPending && after.endCalls == [ActAll(p, e, frames[..i]).error]
  {
    var head, rest := frames[..i], frames[i + 1..];
    var before := ActAll(p, e, head);
    NothingEnds(p, e, head);
    FrameReports(p, before, frames[i]);
    assert frames == head + ([frames[i]] + rest);
    ActAllConcat(p, e, head, [frames[i]] + rest);
    ActAllConcat(p, before, [frames[i]], rest);
    assert ActAll(p, before, [frames[i]]) == Act(p, ActAll(p, before, []), frames[i]);
    EndedStays(p, Act(p, before, frames[i]), rest);
  }

  /** What a stream has brought about, given the frames taken so far and whether its end was awaited. */
  ghost predicate BringAbout<Json(!new)>(p: Platform<Json>, frames: seq<string>, end: bool, e: Effects<Json>) {
    && AreMessages(p, frames, e.delivered) && IsLastError(p, frames, e.error)
    && ((!end || forall j :: 0 <= j < |frames| ==> !IsDone(frames[j])) ==> e.endPending == end && e.endCalls == [])
    && forall i: nat :: end && FirstDone(frames, i) ==>
         !e.endPending && |e.endCalls| == 1 && IsLastError(p, frames[..i], e.endCalls[0])
  }

  lemma EndsBringAbout<Json(!new)>(p: Platform<Json>, frames: seq<string>, start: Effects<Json>, e: Effects<Json>,
                            i: nat)
    requires start.endPending && start.endCalls == [] && start.error == "" && e == ActAll(p, start, frames)
    requires FirstDone(frames, i)
    ensures !e.endPending && |e.endCalls| == 1 && IsLastError(p, frames[..i], e.endCalls[0])
  {
    EndIsReportedAt(p, start, frames, i);
    LastErrorIsKept(p, start, frames[..i]);
  }

  lemma FramesBringAbout<Json(!new)>(p: Platform<Json>, end: bool, frames: seq<string>, start: Effects<Json>,
                                     e: Effects<Json>)
    requires start == Effects([], "", end, []) && e == ActAll(p, start, frames)
    ensures BringAbout(p, frames, end, e)
  {
    MessagesAreDelivered(p, start, frames);
    LastErrorIsKept(p, start, frames);
    if !end { EndedStays(p, start, frames); }
    if forall j :: 0 <= j < |frames| ==> !IsDone(frames[j]) { NothingEnds(p, start, frames); }
    forall i: nat | end && FirstDone(frames, i)
      ensures !e.endPending && |e.endCalls| == 1 && IsLastError(p, frames[..i], e.endCalls[0])
    {
      EndsBringAbout(p, frames, start, e, i);
    }
  }

  /**
   However the text was cut into chunks: the messages, the error and the report of the end are those
   of the frames.
   */
  lemma StreamBringsAbout<Json(!new)>(p: Platform<Json>, end: bool, chunks: seq<string>)
    ensures var r := FeedAll(p, Opened<Json>(end), chunks); BringAbout(p, r.frames, end, r.effects)
  {
    var start, r := Opened<Json>(end).effects, FeedAll(p, Opened<Json>(end), chunks);
    FramesAreConserved(p, end, chunks);
    FramesBringAbout(p, end, r.frames, start, r.effects);
  }

  /** A stream that closes on something like a bare JSON answer reports its detail, or else all of it. */
  lemma CloseReports<Json(!new)>(p: Platform<Json>, r: Reader<Json>)
    ensures var after := Close(p, r).effects;
            var error := if r.buf == "" || r.buf[0] != '{' then r.effects.error
                         else if exists json, m :: p.parse(r.buf) == Some(json) && p.detail(json) == Some(m)
                         then p.detail(p.parse(r.buf).value).value
                         else r.buf;
            && after.error == error && after.delivered == r.effects.delivered && !after.endPending
            && after.endCalls == r.effects.endCalls + if r.effects.endPending then [error] else []
  {
    assert "{" <= r.buf <==> r.buf != "" && r.buf[0] == '{';
  }
}

/**
 Incremental framing of an event stream: chunks are appended to a buffer, and after each the
 complete frames, which end in an empty line, are taken off its front and acted on. Parsing is a
 parameter.
 */
module StreamFraming {
  import opened Outcome

  const SEPARATOR: string := "\n\n"

  // ----- splitting and joining -----

  predicate SeparatorAt(s: string, i: nat) {
    i + 2 <= |s| && s[i] == '\n' && s[i + 1] == '\n'
  }

  /** The leftmost empty line at or after `i`. */
  function Find(s: string, i: nat): (r: Option<nat>)
    requires i <= |s|
    ensures r.Some? ==> i <= r.value && SeparatorAt(s, r.value) && forall j :: i <= j < r.value ==> !SeparatorAt(s, j)
    ensures r.None? ==> forall j :: i <= j ==> !SeparatorAt(s, j)
    decreases |s| - i
  {
    if i + 2 > |s| then None else if SeparatorAt(s, i) then Some(i) else Find(s, i + 1)
  }

  /** `s.split("\n\n")`: leftmost separators, not overlapping. */
  function Split(s: string): (r: seq<string>)
    ensures |r| > 0
    decreases |s|
  {
    match Find(s, 0)
    case None => [s]
    case Some(i) => [s[..i]] + Split(s[i + 2..])
  }

  function Join(pieces: seq<string>): string {
    if pieces == [] then "" else if |pieces| == 1 then pieces[0] else pieces[0] + SEPARATOR + Join(pieces[1..])
  }

  function Last<T>(s: seq<T>): T
    requires s != []
  {
    s[|s| - 1]
  }

  function Front<T>(s: seq<T>): seq<T>
    requires s != []
  {
    s[..|s| - 1]
  }

  lemma FindUnique(s: string, i: nat)
    requires SeparatorAt(s, i) && forall j :: 0 <= j < i ==> !SeparatorAt(s, j)
    ensures Find(s, 0) == Some(i)
  {
    assert Find(s, 0).Some?;
  }

  /** Joining undoes splitting. */
  lemma {:induction false} JoinSplit(s: string)
    ensures Join(Split(s)) == s
    decreases |s|
  {
    var r := Find(s, 0);
    if r.Some? {
      var i := r.value;
      JoinSplit(s[i + 2..]);
      assert Split(s)[1..] == Split(s[i + 2..]);
      assert s == s[..i] + SEPARATOR + s[i + 2..];
    }
  }

  /** Joining all but the first piece gives what follows the first separator. */
  lemma DropFirst(s: string)
    requires |Split(s)| > 1
    ensures Split(Join(Split(s)[1..])) == Split(s)[1..] && |Join(Split(s)[1..])| < |s|
  {
    var i := Find(s, 0).value;
    assert Split(s)[1..] == Split(s[i + 2..]);
    JoinSplit(s[i + 2..]);
  }

  /** What arrives later extends the last piece only. */
  lemma {:induction false} SplitAppend(s: string, t: string)
    ensures Split(s + t) == Front(Split(s)) + Split(Last(Split(s)) + t)
    decreases |s|
  {
    var r := Find(s, 0);
    if r.Some? {
      var i := r.value;
      var rest := s[i + 2..];
      SplitAppend(rest, t);
      FindAppend(s, t, i);
      assert (s + t)[..i] == s[..i] && (s + t)[i + 2..] == rest + t;
      FrontCons(s[..i], Split(rest), Split(Last(Split(rest)) + t));
    }
  }

  lemma FrontCons<T>(x: T, a: seq<T>, b: seq<T>)
    requires a != []
    ensures Front([x] + a) + b == [x] + (Front(a) + b) && Last([x] + a) == Last(a)
  {
  }

  lemma FindAppend(s: string, t: string, i: nat)
    requires Find(s, 0) == Some(i)
    ensures Find(s + t, 0) == Some(i)
  {
    forall j | 0 <= j < i ensures !SeparatorAt(s + t, j) { assert !SeparatorAt(s, j); }
    FindUnique(s + t, i);
  }

  // ----- what a frame means -----

  datatype Platform<!Json> = Platform(parse: string -> Option<Json>, detail: Json -> Option<string>)

  datatype Meaning<Json> = Junk | DoneFrame | ErrorFrame | Unparsable | Detail(message: string) | Data(json: Json)

  function Classify<Json>(p: Platform<Json>, frame: string): Meaning<Json> {
    if !("data: " <= frame) then Junk
    else
      var body := frame[6..];
      if body == "[DONE]" then DoneFrame
      else if body == "[ERROR]" then ErrorFrame
      else match p.parse(body)
        case None => Unparsable
        case Some(json) => match p.detail(json) case Some(message) => Detail(message) case None => Data(json)
  }

  /** A frame after which the loop stops: the end, an error, or an exception from the parser. */
  predicate Terminal<Json>(p: Platform<Json>, frame: string) {
    var m := Classify(p, frame);
    !m.Junk? && !m.Data?
  }

  /** What the callbacks have seen. */
  datatype Effects<Json> = Effects(delivered: seq<Json>, error: string, endPending: bool, endCalls: seq<string>)

  function Act<Json>(p: Platform<Json>, e: Effects<Json>, frame: string): Effects<Json> {
    match Classify(p, frame)
    case Junk => e
    case Unparsable => e
    case DoneFrame => End(e)
    case ErrorFrame => e.(error := "[ERROR]")
    case Detail(message) => e.(error := message)
    case Data(json) => e.(delivered := e.delivered + [json])
  }

  /** The end callback is called with the error so far, and forgotten. */
  function End<Json>(e: Effects<Json>): Effects<Json> {
    if e.endPending then e.(endPending := false, endCalls := e.endCalls + [e.error]) else e
  }

  function ActAll<Json>(p: Platform<Json>, e: Effects<Json>, frames: seq<string>): Effects<Json> {
    if frames == [] then e else Act(p, ActAll(p, e, Front(frames)), Last(frames))
  }

  lemma {:induction false} ActAllConcat<Json>(p: Platform<Json>, e: Effects<Json>, a: seq<string>, b: seq<string>)
    ensures ActAll(p, e, a + b) == ActAll(p, ActAll(p, e, a), b)
  {
    if b == [] {
      assert a + b == a;
    } else {
      assert Front(a + b) == a + Front(b) && Last(a + b) == Last(b);
      ActAllConcat(p, e, a, Front(b));
    }
  }

  /** How many of the pieces one call takes: all complete ones, up to the first terminal one. */
  function Taken<Json>(p: Platform<Json>, pieces: seq<string>): (k: nat)
    requires pieces != []
    ensures k < |pieces|
  {
    if |pieces| == 1 then 0 else if Terminal(p, pieces[0]) then 1 else 1 + Taken(p, pieces[1..])
  }

  lemma {:induction false} TakenStops<Json>(p: Platform<Json>, pieces: seq<string>)
    requires pieces != []
    ensures var k := Taken(p, pieces);
            && (forall i :: 0 <= i < k - 1 ==> !Terminal(p, pieces[i]))
            && (k == |pieces| - 1 || (k > 0 && Terminal(p, pieces[k - 1])))
  {
    if |pieces| > 1 && !Terminal(p, pieces[0]) {
      TakenStops(p, pieces[1..]);
      var k := Taken(p, pieces);
      forall i | 0 <= i < k - 1 ensures !Terminal(p, pieces[i]) {
        if i > 0 { assert pieces[i] == pieces[1..][i - 1]; }
      }
    }
  }

  // ----- any cut into chunks -----

  datatype Reader<Json> = Reader(buf: string, frames: seq<string>, effects: Effects<Json>)

  function Feed<Json>(p: Platform<Json>, r: Reader<Json>, chunk: string): Reader<Json> {
    TakeFrom(p, r, Split(r.buf + chunk))
  }

  function TakeFrom<Json>(p: Platform<Json>, r: Reader<Json>, pieces: seq<string>): Reader<Json>
    requires pieces != []
  {
    var k := Taken(p, pieces);
    Reader(Join(pieces[k..]), r.frames + pieces[..k], ActAll(p, r.effects, pieces[..k]))
  }

  function FeedAll<Json>(p: Platform<Json>, r: Reader<Json>, chunks: seq<string>): Reader<Json> {
    if chunks == [] then r else Feed(p, FeedAll(p, r, Front(chunks)), Last(chunks))
  }

  function Whole(chunks: seq<string>): string {
    if chunks == [] then "" else Whole(Front(chunks)) + Last(chunks)
  }

  lemma {:induction false} DropMany(s: string, k: nat)
    requires k < |Split(s)|
    ensures Split(Join(Split(s)[k..])) == Split(s)[k..]
    decreases k
  {
    if k == 0 {
      JoinSplit(s);
      assert Split(s)[0..] == Split(s);
    } else {
      DropFirst(s);
      var rest := Join(Split(s)[1..]);
      DropMany(rest, k - 1);
      assert Split(rest)[k - 1..] == Split(s)[k..];
    }
  }

  /** Frames taken so far, then the pieces of the buffer: always the pieces of all that has arrived. */
  ghost predicate Conserves<Json>(r: Reader<Json>, text: string) {
    r.frames + Split(r.buf) == Split(text)
  }

  lemma FeedConserves<Json>(p: Platform<Json>, r: Reader<Json>, text: string, chunk: string)
    requires Conserves(r, text)
    ensures Conserves(Feed(p, r, chunk), text + chunk)
    ensures var pieces := Split(r.buf + chunk); Split(Feed(p, r, chunk).buf) == pieces[Taken(p, pieces)..]
  {
    var pieces := Split(r.buf + chunk);
    DropMany(r.buf + chunk, Taken(p, pieces));
    SplitAppend(text, chunk);
    SplitAppend(r.buf, chunk);
    MoveCut(r.frames, Split(r.buf), Split(text), Split(Last(Split(text)) + chunk), Taken(p, pieces));
  }

  /** Taking pieces from the front of the second list to the end of the first leaves the whole alone. */
  lemma MoveCut<T>(taken: seq<T>, left: seq<T>, all: seq<T>, more: seq<T>, k: nat)
    requires left != [] && taken + left == all && k <= |Front(left) + more|
    ensures Last(all) == Last(left)
    ensures var pieces := Front(left) + more; (taken + pieces[..k]) + pieces[k..] == Front(all) + more
  {
    var pieces := Front(left) + more;
    assert Front(all) == taken + Front(left);
    assert pieces == pieces[..k] + pieces[k..];
  }

  function Opened<Json>(end: bool): Reader<Json> {
    Reader("", [], Effects([], "", end, []))
  }

  /** No frame is lost, invented, reordered or cut differently, however the text was cut into chunks. */
  lemma {:induction false} FramesAreConserved<Json>(p: Platform<Json>, end: bool, chunks: seq<string>)
    ensures var r := FeedAll(p, Opened(end), chunks);
            && Conserves(r, Whole(chunks))
            && r.effects == ActAll(p, Opened<Json>(end).effects, r.frames)
  {
    if chunks == [] {
      assert Split("") == [""];
    } else {
      FramesAreConserved(p, end, Front(chunks));
      var r := FeedAll(p, Opened(end), Front(chunks));
      FeedConserves(p, r, Whole(Front(chunks)), Last(chunks));
      var pieces := Split(r.buf + Last(chunks));
      ActAllConcat(p, Opened<Json>(end).effects, r.frames, pieces[..Taken(p, pieces)]);
    }
  }

  ghost predicate NoTerminal<Json>(p: Platform<Json>, frames: seq<string>) {
    forall i :: 0 <= i < |frames| ==> !Terminal(p, frames[i])
  }

  /** Until a terminal frame was taken, the buffer is just the last piece: nothing complete is left in it. */
  lemma NothingWaits<Json>(p: Platform<Json>, end: bool, chunks: seq<string>)
    requires NoTerminal(p, FeedAll(p, Opened(end), chunks).frames)
    ensures var r := FeedAll(p, Opened(end), chunks);
            r.frames == Front(Split(Whole(chunks))) && r.buf == Last(Split(Whole(chunks)))
  {
    FramesAreConserved(p, end, chunks);
    var r := FeedAll(p, Opened(end), chunks);
    if chunks == [] {
      assert Split("") == [""];
    } else {
      FramesAreConserved(p, end, Front(chunks));
      var before := FeedAll(p, Opened(end), Front(chunks));
      var pieces := Split(before.buf + Last(chunks));
      var k := Taken(p, pieces);
      FeedConserves(p, before, Whole(Front(chunks)), Last(chunks));
      TakenStops(p, pieces);
      if k > 0 { assert r.frames[|before.frames| + k - 1] == pieces[k - 1]; }
      assert k == |pieces| - 1;
      assert Split(r.buf) == [Last(pieces)];
      JoinSplit(r.buf);
      assert r.frames + [r.buf] == Split(Whole(chunks));
    }
  }

  lemma FramesGrow<Json>(p: Platform<Json>, end: bool, chunks: seq<string>)
    ensures var complete := Front(Split(Whole(chunks)));
            var taken := FeedAll(p, Opened<Json>(end), chunks).frames;
            taken <= complete && (NoTerminal(p, taken) ==> taken == complete)
  {
    FramesAreConserved(p, end, chunks);
    var r := FeedAll(p, Opened<Json>(end), chunks);
    assert r.frames + Front(Split(r.buf)) == Front(Split(Whole(chunks)));
    if NoTerminal(p, r.frames) { NothingWaits(p, end, chunks); }
  }

  /** The frames before the first terminal one, and that one. */
  function UpToTerminal<Json>(p: Platform<Json>, frames: seq<string>): seq<string> {
    if frames == [] then []
    else if Terminal(p, frames[0]) then [frames[0]] else [frames[0]] + UpToTerminal(p, frames[1..])
  }

  lemma {:induction false} UpToOfPrefix<Json>(p: Platform<Json>, a: seq<string>, b: seq<string>)
    requires a <= b && (NoTerminal(p, a) ==> a == b)
    ensures UpToTerminal(p, a) == UpToTerminal(p, b)
  {
    if a != [] && !Terminal(p, a[0]) {
      assert forall i :: 0 <= i < |a[1..]| ==> a[1..][i] == a[i + 1];
      UpToOfPrefix(p, a[1..], b[1..]);
    }
  }

  /** Everything taken up to and including the first terminal frame depends on the text alone, not on its chunks. */
  lemma ChunkingDoesNotMatter<Json>(p: Platform<Json>, end: bool, c1: seq<string>, c2: seq<string>)
    requires Whole(c1) == Whole(c2)
    ensures var r1, r2 := FeedAll(p, Opened<Json>(end), c1), FeedAll(p, Opened<Json>(end), c2);
            && UpToTerminal(p, r1.frames) == UpToTerminal(p, r2.frames) == UpToTerminal(p, Front(Split(Whole(c1))))
            && (NoTerminal(p, Front(Split(Whole(c1)))) ==> r1 == r2)
  {
    FramesGrow(p, end, c1);
    FramesGrow(p, end, c2);
    var r1, r2 := FeedAll(p, Opened<Json>(end), c1), FeedAll(p, Opened<Json>(end), c2);
    var complete := Front(Split(Whole(c1)));
    UpToOfPrefix(p, r1.frames, complete);
    UpToOfPrefix(p, r2.frames, complete);
    if NoTerminal(p, complete) {
      assert NoTerminal(p, r1.frames) && NoTerminal(p, r2.frames);
      NothingWaits(p, end, c1);
      NothingWaits(p, end, c2);
      FramesAreConserved(p, end, c1);
      FramesAreConserved(p, end, c2);
    }
  }

  // ----- the end of the stream -----

  /** The stream closes: a buffer that looks like a bare JSON answer becomes the error, and the end is reported. */
  function Close<Json>(p: Platform<Json>, r: Reader<Json>): Reader<Json> {
    var e := if "{" <= r.buf then r.effects.(error := ErrorIn(p, r.buf)) else r.effects;
    r.(effects := End(e))
  }

  function ErrorIn<Json>(p: Platform<Json>, text: string): string {
    match p.parse(text)
    case None => text
    case Some(json) => match p.detail(json) case Some(message) => message case None => text
  }

  datatype Event = Chunk(text: string) | Closed

  function Run<Json>(p: Platform<Json>, r: Reader<Json>, events: seq<Event>): Reader<Json> {
    if events == [] then r
    else
      var before := Run(p, r, Front(events));
      match Last(events) case Chunk(text) => Feed(p, before, text) case Closed => Close(p, before)
  }

  /** The end callback is either still pending or was called once. */
  ghost predicate EndsOnce<Json>(e: Effects<Json>, end: bool) {
    |e.endCalls| + (if e.endPending then 1 else 0) == if end then 1 else 0
  }

  lemma {:induction false} ActsEndOnce<Json>(p: Platform<Json>, e: Effects<Json>, frames: seq<string>, end: bool)
    requires EndsOnce(e, end)
    ensures EndsOnce(ActAll(p, e, frames), end)
  {
    if frames != [] { ActsEndOnce(p, e, Front(frames), end); }
  }

  /** Over every run the end callback is called at most once, and a close leaves it called. */
  lemma {:induction false} EndIsReportedOnce<Json>(p: Platform<Json>, end: bool, events: seq<Event>)
    ensures var e := Run(p, Opened<Json>(end), events).effects;
            |e.endCalls| <= 1 && EndsOnce(e, end) && (Closed in events ==> !e.endPending)
  {
    if events != [] {
      var before := Run(p, Opened<Json>(end), Front(events));
      EndIsReportedOnce(p, end, Front(events));
      assert events == Front(events) + [Last(events)];
      match Last(events)
      case Chunk(text) =>
        var pieces := Split(before.buf + text);
        ActsEndOnce(p, before.effects, pieces[..Taken(p, pieces)], end);
        if !before.effects.endPending { ActsKeepEnded(p, before.effects, pieces[..Taken(p, pieces)]); }
      case Closed =>
    }
  }

  lemma {:induction false} ActsKeepEnded<Json>(p: Platform<Json>, e: Effects<Json>, frames: seq<string>)
    requires !e.endPending
    ensures !ActAll(p, e, frames).endPending
  {
    if frames != [] { ActsKeepEnded(p, e, Front(frames)); }
  }

  // ----- one frame at a time -----

  function TakeOne<Json>(p: Platform<Json>, r: Reader<Json>): Reader<Json> {
    var pieces := Split(r.buf);
    Reader(Join(pieces[1..]), r.frames + [pieces[0]], Act(p, r.effects, pieces[0]))
  }

  function Eat<Json>(p: Platform<Json>, r: Reader<Json>): Reader<Json>
    decreases |r.buf|
  {
    var pieces := Split(r.buf);
    if |pieces| <= 1 then r
    else
      DropFirst(r.buf);
      if Terminal(p, pieces[0]) then TakeOne(p, r) else Eat(p, TakeOne(p, r))
  }

  lemma TakingMore<Json>(p: Platform<Json>, e: Effects<Json>, pieces: seq<string>, k: nat)
    requires 0 < k < |pieces|
    ensures ActAll(p, Act(p, e, pieces[0]), pieces[1..][..k - 1]) == ActAll(p, e, pieces[..k])
    ensures pieces[1..][k - 1..] == pieces[k..]
    ensures [pieces[0]] + pieces[1..][..k - 1] == pieces[..k]
  {
    ActAllConcat(p, e, [pieces[0]], pieces[1..][..k - 1]);
    assert [pieces[0]] + pieces[1..][..k - 1] == pieces[..k];
    assert ActAll(p, e, [pieces[0]]) == Act(p, ActAll(p, e, []), pieces[0]);
  }

  lemma TakeFromLast<Json>(p: Platform<Json>, r: Reader<Json>, pieces: seq<string>)
    requires |pieces| == 1 && r.buf == pieces[0]
    ensures TakeFrom(p, r, pieces) == r
  {
    assert pieces[..0] == [] && pieces[0..] == pieces;
  }

  lemma TakeFromMore<Json>(p: Platform<Json>, r: Reader<Json>, pieces: seq<string>)
    requires |pieces| > 1
    ensures var next := Reader(Join(pieces[1..]), r.frames + [pieces[0]], Act(p, r.effects, pieces[0]));
            TakeFrom(p, r, pieces) == if Terminal(p, pieces[0]) then next else TakeFrom(p, next, pieces[1..])
  {
    var k := Taken(p, pieces);
    TakingMore(p, r.effects, pieces, k);
    if Terminal(p, pieces[0]) {
      assert pieces[1..][..0] == [];
    } else {
      assert r.frames + pieces[..k] == (r.frames + [pieces[0]]) + pieces[1..][..k - 1];
    }
  }

  /** Taking frames one at a time, splitting and joining again for each, takes what one split shows. */
  lemma {:induction false} EatIsFeed<Json>(p: Platform<Json>, r: Reader<Json>)
    ensures Eat(p, r) == TakeFrom(p, r, Split(r.buf))
    decreases |r.buf|
  {
    var pieces := Split(r.buf);
    if |pieces| <= 1 {
      JoinSplit(r.buf);
      TakeFromLast(p, r, pieces);
    } else {
      DropFirst(r.buf);
      TakeFromMore(p, r, pieces);
      if !Terminal(p, pieces[0]) { EatIsFeed(p, TakeOne(p, r)); }
    }
  }

  // ----- the object -----

  class PendingRequest<Json> {
    const platform: Platform<Json>
    var buf: string
    var error: string
    var endCallback: bool
    var delivered: seq<Json>
    var endCalls: seq<string>
    ghost var frames: seq<string>

    ghost function State(): Reader<Json>
      reads this
    {
      Reader(buf, frames, Effects(delivered, error, endCallback, endCalls))
    }

    constructor (p: Platform<Json>, end: bool)
      ensures platform == p && State() == Opened(end)
    {
      platform := p;
      buf, error, endCallback, delivered, endCalls := "", "", end, [], [];
      frames := [];
    }

    /** Acts on one frame; `stop` ends the loop that took it. */
    method ActOn(first: string) returns (stop: bool)
      modifies this`endCallback, this`endCalls, this`error, this`delivered
      ensures State() == old(State()).(effects := Act(platform, old(State()).effects, first))
      ensures stop == Terminal(platform, first)
    {
      if !("data: " <= first) { return false; }
      var eat := first[6..];
      if eat == "[DONE]" {
        if endCallback {
          endCallback := false;
          endCalls := endCalls + [error];
        }
        return true;
      }
      if eat == "[ERROR]" {
        error := "[ERROR]";
        return true;
      }
      var json := platform.parse(eat);
      if json.None? { return true; }
      var detail := platform.detail(json.value);
      if detail.Some? {
        error := detail.value;
        return true;
      }
      delivered := delivered + [json.value];
      return false;
    }

    /** Splits off one frame at a time until none is complete or one is terminal. */
    method LookForCompletedData()
      modifies this
      ensures State() == Feed(platform, old(State()), "")
    {
      EatIsFeed(platform, State());
      assert buf + "" == buf;
      while true
        invariant Eat(platform, State()) == Eat(platform, old(State()))
        decreases |buf|
      {
        var split := Split(buf);
        if |split| <= 1 { return; }
        DropFirst(buf);
        var first := split[0];
        buf := Join(split[1..]);
        frames := frames + [first];
        var stop := ActOn(first);
        if stop { return; }
      }
    }

    method OnChunk(chunk: string)
      modifies this
      ensures State() == Feed(platform, old(State()), chunk)
    {
      buf := buf + chunk;
      assert buf + "" == buf;
      LookForCompletedData();
    }

    method OnClose()
      modifies this
      ensures State() == Close(platform, old(State()))
    {
      if "{" <= buf {
        var j := platform.parse(buf);
        var message := if j.Some? then platform.detail(j.value) else None;
        error := if message.Some? then message.value else buf;
      }
      if endCallback {
        endCallback := false;
        endCalls := endCalls + [error];
      }
    }
  }
}
